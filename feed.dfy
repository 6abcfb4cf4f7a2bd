/** Feed items, the persisted partition document, and what one ingest pass
    does with a single item in each of the three variants of the pass. */
module Feed {
  import opened Options
  import opened Text
  import opened Timestamp

  /** One entry of a parsed feed as feedparser exposes it. `None` marks an
      attribute the feed did not carry, so that reading it raises
      AttributeError. `content` holds the values of the content blocks and
      `publishedDate` the `published_date` field of a re-read document. */
  datatype Item = Item(
    id: Option<string>,
    link: Option<string>,
    title: Option<string>,
    summary: Attr<string>,
    content: Option<seq<string>>,
    published: Option<string>,
    publishedParsed: Attr<Moment>,
    publishedDate: Option<string>)

  /** The feed-level fields the pass falls back on. */
  datatype FeedMeta = FeedMeta(updated: Option<string>, updatedParsed: Attr<Moment>)

  /** A child element of an `entry`: its tag and its text (None: no text). */
  datatype Element = Element(tag: string, text: Option<string>)

  /** An `entry` element of the partition document, children in order. */
  datatype Entry = Entry(children: seq<Element>)

  /** The `entry` children of the document root `data`, in order. */
  type Document = seq<Entry>

  /** One row of the `rss_feeds` table as an INSERT of the pass writes it;
      `gmt` is the text handed to STR_TO_DATE. */
  datatype Row = Row(uid: string, title: string, link: string, summary: Option<string>,
                     published: string, gmt: string, source: string, category: string)

  /** The three copies of the pass: the crawler class, the feed scraper
      script, and the cleaner script that re-deduplicates temporary files. */
  datatype Variant = Crawler | Scraper | Cleaner

  /** Everything the pass takes besides the items: the variant, the partition,
      whether rows go to the database (an option of the crawler only), and the
      two foreign text functions (BeautifulSoup's `get_text` and the cleaner's
      dateutil conversion to a GMT string; None when it raises). */
  datatype Config = Config(
    variant: Variant,
    source: string,
    category: string,
    toDb: bool,
    htmlText: string -> string,
    toGmt: string -> Option<string>)

  function WritesDb(cfg: Config): bool {
    cfg.variant != Crawler || cfg.toDb
  }

  /** The tags of an entry appended by an incremental pass, in order. */
  const RecordTags: seq<string> := ["uid", "title", "link", "summary", "published_date"]

  /** `{e.text for e in data.iter(tag)}`: the texts of every `tag` child of
      every entry, None included when such a child has no text. */
  function TextsOf(doc: Document, tag: string): set<Option<string>>
  {
    set e, c | e in doc && c in e.children && c.tag == tag :: c.text
  }

  /** The id and title sets, taken once from the document before the loop. */
  datatype Snapshot = Snapshot(ids: set<Option<string>>, titles: set<Option<string>>)

  function SnapshotOf(doc: Document): Snapshot
  {
    Snapshot(TextsOf(doc, "uid"), TextsOf(doc, "title"))
  }

  /** `fd_id not in id_set and fd_title not in title_set`. */
  predicate IsNew(snap: Snapshot, id: string, title: string) {
    Some(id) !in snap.ids && Some(title) !in snap.titles
  }

  /** The identifier an incremental pass files an item under: the feed's id,
      else its link; the cleaner reads the id but always overwrites it with
      the link. None: the item is skipped. */
  function ResolveId(v: Variant, item: Item): Option<string>
  {
    if v != Cleaner && item.id.Some? then item.id else item.link
  }

  /** The title as stored: ASCII-filtered except in the cleaner. */
  function NormTitle(v: Variant, title: string): string
  {
    if v == Cleaner then title else AsciiOnly(title)
  }

  /** The summary text before markup removal: `feed.summary`, or the first
      content block when the summary is None. None when the pass aborts there:
      the summary attribute is absent, the content list is empty, or there is
      no content at all (BeautifulSoup is then handed None and raises). */
  function ResolveSummary(item: Item): Option<string>
  {
    match item.summary
    case Missing => None
    case Val(s) => Some(s)
    case Null =>
      match item.content
      case None => None
      case Some(blocks) => if |blocks| == 0 then None else Some(blocks[0])
  }

  /** Published text and time tuple: the entry's own when it has both
      `published` and `published_parsed`, else the feed's `updated` pair.
      None when the pass aborts because the feed lacks the fallback. */
  function ResolvePublished(item: Item, meta: FeedMeta): Option<(string, Option<Moment>)>
  {
    if item.published.Some? && !item.publishedParsed.Missing? then
      Some((item.published.value, if item.publishedParsed.Val? then Some(item.publishedParsed.v) else None))
    else if meta.updated.Some? && !meta.updatedParsed.Missing? then
      Some((meta.updated.value, if meta.updatedParsed.Val? then Some(meta.updatedParsed.v) else None))
    else None
  }

  /** The summary, published text and GMT text of an accepted item. */
  datatype Fields = Fields(summary: Option<string>, published: string, gmt: string)

  function FillFields(cfg: Config, item: Item, meta: FeedMeta): Option<Fields>
  {
    if cfg.variant == Cleaner then
      if item.summary.Missing? || item.publishedDate.None? then None
      else
        var summary := if item.summary.Val? then Some(item.summary.v) else None;
        match cfg.toGmt(item.publishedDate.value)
        case None => None
        case Some(g) => Some(Fields(summary, item.publishedDate.value, g))
    else
      match ResolveSummary(item)
      case None => None
      case Some(s) =>
        match ResolvePublished(item, meta)
        case None => None
        case Some(p) => Some(Fields(Some(AsciiOnly(cfg.htmlText(s))), p.0, RenderGmt(p.1)))
  }

  /** The entry an incremental pass appends: uid, title, link, summary,
      published_date, in that order. */
  function Record(id: string, title: string, link: string, f: Fields): Entry
  {
    Entry([Element("uid", Some(id)), Element("title", Some(title)), Element("link", Some(link)),
           Element("summary", f.summary), Element("published_date", Some(f.published))])
  }

  /** What the incremental loop does with one item. */
  datatype Step = Skip | Accept(entry: Entry, row: Row) | Crash

  /** One iteration of the incremental loop against the snapshot: skip an
      item without identifier; read the title (aborting when there is none);
      skip what is not new; otherwise build the entry and its row, aborting
      where a required attribute is missing. */
  function IncrementalStep(cfg: Config, snap: Snapshot, item: Item, meta: FeedMeta): Step
  {
    match ResolveId(cfg.variant, item)
    case None => Skip
    case Some(id) =>
      match item.title
      case None => Crash
      case Some(raw) =>
        var title := NormTitle(cfg.variant, raw);
        if !IsNew(snap, id, title) then Skip
        else
          match item.link
          case None => Crash
          case Some(link) =>
            match FillFields(cfg, item, meta)
            case None => Crash
            case Some(f) =>
              Accept(Record(id, title, link, f),
                     Row(id, title, link, f.summary, f.published, f.gmt, cfg.source, cfg.category))
  }

  /** An item the incremental pass files as new: it has an identifier and a
      title, and neither is in the snapshot. */
  predicate IsNewItem(cfg: Config, snap: Snapshot, item: Item) {
    && ResolveId(cfg.variant, item).Some?
    && item.title.Some?
    && IsNew(snap, ResolveId(cfg.variant, item).value, NormTitle(cfg.variant, item.title.value))
  }

  function UidOf(e: Entry): Option<string> {
    if |e.children| > 0 then e.children[0].text else None
  }

  function TitleOf(e: Entry): Option<string> {
    if |e.children| > 1 then e.children[1].text else None
  }

  function Tags(e: Entry): seq<string> {
    seq(|e.children|, i requires 0 <= i < |e.children| => e.children[i].tag)
  }

  /** What an accepted item becomes: its entry carries the resolved id and the
      normalised title, its children are in record order, and its row repeats
      the entry's texts under the partition's source and category. */
  predicate AcceptedAs(cfg: Config, item: Item, e: Entry, r: Row) {
    && ResolveId(cfg.variant, item).Some?
    && item.title.Some?
    && UidOf(e) == ResolveId(cfg.variant, item)
    && TitleOf(e) == Some(NormTitle(cfg.variant, item.title.value))
    && Tags(e) == RecordTags
    && |e.children| == 5
    && e.children[0].text == Some(r.uid) && e.children[1].text == Some(r.title)
    && e.children[2].text == Some(r.link) && e.children[3].text == r.summary
    && e.children[4].text == Some(r.published)
    && r.source == cfg.source && r.category == cfg.category
  }

  /** The item is appended exactly when it is new and its fields can be read;
      an item that is not new, or has no identifier, is skipped, whatever its
      other fields; the pass aborts on an identified item without title, and
      on a new item whose link or other fields cannot be read. */
  lemma StepAcceptsNew(cfg: Config, snap: Snapshot, item: Item, meta: FeedMeta)
    ensures IncrementalStep(cfg, snap, item, meta).Accept? ==>
              IsNewItem(cfg, snap, item)
              && AcceptedAs(cfg, item, IncrementalStep(cfg, snap, item, meta).entry,
                            IncrementalStep(cfg, snap, item, meta).row)
    ensures IncrementalStep(cfg, snap, item, meta).Skip? ==> !IsNewItem(cfg, snap, item)
    ensures ResolveId(cfg.variant, item).None? ==> IncrementalStep(cfg, snap, item, meta).Skip?
    ensures IsNewItem(cfg, snap, item) && item.link.Some? && FillFields(cfg, item, meta).Some? ==>
              IncrementalStep(cfg, snap, item, meta).Accept?
    ensures ResolveId(cfg.variant, item).Some? && item.title.Some? && !IsNewItem(cfg, snap, item) ==>
              IncrementalStep(cfg, snap, item, meta).Skip?
    ensures IncrementalStep(cfg, snap, item, meta).Crash? <==>
              ResolveId(cfg.variant, item).Some? &&
              (item.title.None? ||
               (IsNewItem(cfg, snap, item) && (item.link.None? || FillFields(cfg, item, meta).None?)))
  {
    var s := IncrementalStep(cfg, snap, item, meta);
    if s.Accept? {
      assert Tags(s.entry) == RecordTags;
    }
  }

  /** Identifier fallback: the entry's uid is the feed's id when there is
      one, else its link (crawler and scraper); always the link (cleaner). */
  lemma AcceptedUid(cfg: Config, snap: Snapshot, item: Item, meta: FeedMeta)
    requires IncrementalStep(cfg, snap, item, meta).Accept?
    ensures cfg.variant != Cleaner && item.id.Some? ==>
              UidOf(IncrementalStep(cfg, snap, item, meta).entry) == item.id
    ensures cfg.variant != Cleaner && item.id.None? ==>
              UidOf(IncrementalStep(cfg, snap, item, meta).entry) == item.link
    ensures cfg.variant == Cleaner ==>
              item.link.Some? && UidOf(IncrementalStep(cfg, snap, item, meta).entry) == item.link
  {
  }

  /** In the crawler and the scraper the stored title and summary are ASCII;
      the link is the item's; the summary is `summary`, or the first content
      block when that is None, with markup stripped and then filtered; and the
      published text and GMT text come from the entry when it has
      both `published` and `published_parsed`, else from the feed's `updated`. */
  lemma AcceptedFields(cfg: Config, snap: Snapshot, item: Item, meta: FeedMeta)
    requires cfg.variant != Cleaner
    requires IncrementalStep(cfg, snap, item, meta).Accept?
    ensures var r := IncrementalStep(cfg, snap, item, meta).row;
      && IsAscii(r.title) && r.summary.Some? && IsAscii(r.summary.value)
      && item.link == Some(r.link)
      && !item.summary.Missing?
      && (item.summary.Val? ==> r.summary == Some(AsciiOnly(cfg.htmlText(item.summary.v))))
      && (item.summary.Null? ==>
            item.content.Some? && |item.content.value| > 0
            && r.summary == Some(AsciiOnly(cfg.htmlText(item.content.value[0]))))
      && (item.published.Some? && !item.publishedParsed.Missing? ==>
            r.published == item.published.value
            && r.gmt == (if item.publishedParsed.Val? then Render(item.publishedParsed.v) else ""))
      && (item.published.None? || item.publishedParsed.Missing? ==>
            meta.updated.Some? && r.published == meta.updated.value
            && r.gmt == (if meta.updatedParsed.Val? then Render(meta.updatedParsed.v) else ""))
  {
  }

  /** The cleaner stores link, title and summary as they are, without
      filtering. */
  lemma CleanerKeepsRawText(cfg: Config, snap: Snapshot, item: Item, meta: FeedMeta)
    requires cfg.variant == Cleaner
    requires IncrementalStep(cfg, snap, item, meta).Accept?
    ensures var r := IncrementalStep(cfg, snap, item, meta).row;
      && Some(r.title) == item.title
      && Some(r.link) == item.link
      && r.summary == (if item.summary.Val? then Some(item.summary.v) else None)
      && Some(r.published) == item.publishedDate
      && Some(r.gmt) == cfg.toGmt(item.publishedDate.value)
  {
  }

  // ---------------------------------------------------------------------
  // The first-run branch: the partition has no document yet.

  /** What the first-run loop does with one item. */
  datatype FirstStep = Built(entry: Entry) | Abort

  /** `feed.published`, else the feed's `updated`; the time tuple is unused. */
  function FirstPublished(item: Item, meta: FeedMeta): Option<string>
  {
    if item.published.Some? then item.published else meta.updated
  }

  /** The crawler appends uid, title, link, published_date before looking at
      the item. The uid gets the id, and is then overwritten by the link; with
      no link the item is left as it stands. Otherwise the texts are filled in
      and a summary is appended last. */
  function CrawlerFirstStep(cfg: Config, item: Item, meta: FeedMeta): FirstStep
  {
    match item.link
    case None =>
      Built(Entry([Element("uid", item.id), Element("title", None),
                   Element("link", None), Element("published_date", None)]))
    case Some(link) =>
      match item.title
      case None => Abort
      case Some(raw) =>
        match ResolveSummary(item)
        case None => Abort
        case Some(s) =>
          match FirstPublished(item, meta)
          case None => Abort
          case Some(p) =>
            Built(Entry([Element("uid", Some(link)), Element("title", Some(AsciiOnly(raw))),
                         Element("link", Some(link)), Element("published_date", Some(p)),
                         Element("summary", Some(AsciiOnly(cfg.htmlText(s))))]))
  }

  /** The scraper appends the uid before looking at the item and fills it
      with the id, else the link; with neither the entry keeps only that
      empty uid. Otherwise title, link, summary and published_date follow,
      and a missing link aborts. */
  function ScraperFirstStep(cfg: Config, item: Item, meta: FeedMeta): FirstStep
  {
    var uid := if item.id.Some? then item.id else item.link;
    match uid
    case None => Built(Entry([Element("uid", None)]))
    case Some(id) =>
      match item.title
      case None => Abort
      case Some(raw) =>
        match item.link
        case None => Abort
        case Some(link) =>
          match ResolveSummary(item)
          case None => Abort
          case Some(s) =>
            match FirstPublished(item, meta)
            case None => Abort
            case Some(p) =>
              Built(Record(id, AsciiOnly(raw), link, Fields(Some(AsciiOnly(cfg.htmlText(s))), p, "")))
  }

  function FirstRunStep(cfg: Config, item: Item, meta: FeedMeta): FirstStep
    requires cfg.variant != Cleaner
  {
    if cfg.variant == Crawler then CrawlerFirstStep(cfg, item, meta) else ScraperFirstStep(cfg, item, meta)
  }

  /** Crawler first run: whenever the item has a link the uid is that link,
      even when the feed also gives an id, and the children are uid, title,
      link, published_date, summary; an item without link leaves an entry of
      four children whose uid holds the id, if any, and the rest no text. */
  lemma CrawlerFirstRunShape(cfg: Config, item: Item, meta: FeedMeta)
    requires CrawlerFirstStep(cfg, item, meta).Built?
    ensures var e := CrawlerFirstStep(cfg, item, meta).entry;
      && (item.link.Some? ==>
            && Tags(e) == ["uid", "title", "link", "published_date", "summary"]
            && UidOf(e) == item.link && e.children[2].text == item.link)
      && (item.link.None? ==>
            && Tags(e) == ["uid", "title", "link", "published_date"]
            && UidOf(e) == item.id
            && e.children[1].text.None? && e.children[2].text.None? && e.children[3].text.None?)
  {
    var e := CrawlerFirstStep(cfg, item, meta).entry;
    if item.link.Some? {
      assert Tags(e) == ["uid", "title", "link", "published_date", "summary"];
    } else {
      assert Tags(e) == ["uid", "title", "link", "published_date"];
    }
  }

  /** Scraper first run: the uid is the id, else the link; an item with
      neither leaves an entry holding only a uid without text; an item with an
      id but no link aborts the pass. */
  lemma ScraperFirstRunShape(cfg: Config, item: Item, meta: FeedMeta)
    ensures item.id.None? && item.link.None? ==>
              ScraperFirstStep(cfg, item, meta) == Built(Entry([Element("uid", None)]))
    ensures item.id.Some? && item.link.None? ==> ScraperFirstStep(cfg, item, meta) == Abort
    ensures ScraperFirstStep(cfg, item, meta).Built? && item.link.Some? ==>
              var e := ScraperFirstStep(cfg, item, meta).entry;
              && Tags(e) == RecordTags
              && UidOf(e) == (if item.id.Some? then item.id else item.link)
  {
    var s := ScraperFirstStep(cfg, item, meta);
    if s.Built? && item.link.Some? {
      assert Tags(s.entry) == RecordTags;
    }
  }
}
