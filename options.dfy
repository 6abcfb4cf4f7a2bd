/** Optional values, and Python attribute lookups that may be absent or hold None. */
module Options {

  datatype Option<+T> = None | Some(value: T)

  /** What reading `obj.attr` on a feedparser record yields: the attribute is
      absent (the read raises AttributeError), present but None, or a value. */
  datatype Attr<+T> = Missing | Null | Val(v: T)
}
