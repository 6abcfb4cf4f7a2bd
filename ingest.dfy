/** The per-partition ingest pass: the incremental branch that appends the
    new items of a fetch to an existing document, the first-run branch that
    creates the document, and the two sinks they write to. */
module Ingest {
  import opened Options
  import opened Feed
  import opened Paths

  // ---------------------------------------------------------------------
  // Specification of the incremental loop.

  /** State of the incremental loop after a prefix of the items: the entries
      appended so far and the rows the database committed, or the rows
      committed before an item made the pass abort. */
  datatype Progress = Running(appended: seq<Entry>, committed: seq<Row>) | Halted(committed: seq<Row>)

  /** The incremental loop over `items[..n]` against the snapshot. An insert
      is attempted for every accepted item when the variant writes to the
      database; `dbFails` holds the positions whose insert the database
      rejects. A rejected insert changes nothing else. */
  function PassUpto(cfg: Config, snap: Snapshot, items: seq<Item>, meta: FeedMeta,
                    dbFails: set<nat>, n: nat): Progress
    requires n <= |items|
  {
    if n == 0 then Running([], [])
    else
      match PassUpto(cfg, snap, items, meta, dbFails, n - 1)
      case Halted(rows) => Halted(rows)
      case Running(app, rows) =>
        match IncrementalStep(cfg, snap, items[n - 1], meta)
        case Skip => Running(app, rows)
        case Crash => Halted(rows)
        case Accept(e, r) =>
          Running(app + [e], if WritesDb(cfg) && n - 1 !in dbFails then rows + [r] else rows)
  }

  /** Once aborted, the pass stays aborted with the same committed rows. */
  lemma {:induction false} HaltedStays(cfg: Config, snap: Snapshot, items: seq<Item>, meta: FeedMeta,
                                       dbFails: set<nat>, n: nat, m: nat)
    requires n <= m <= |items|
    requires PassUpto(cfg, snap, items, meta, dbFails, n).Halted?
    ensures PassUpto(cfg, snap, items, meta, dbFails, m) == PassUpto(cfg, snap, items, meta, dbFails, n)
  {
    if m > n {
      HaltedStays(cfg, snap, items, meta, dbFails, n, m - 1);
    }
  }

  /** The items of a fetch that are new against the snapshot, in feed order. */
  function NewItems(cfg: Config, snap: Snapshot, items: seq<Item>): (r: seq<Item>)
    ensures forall j :: 0 <= j < |r| ==> IsNewItem(cfg, snap, r[j])
  {
    if items == [] then []
    else
      var last := items[|items| - 1];
      NewItems(cfg, snap, items[..|items| - 1]) + (if IsNewItem(cfg, snap, last) then [last] else [])
  }

  /** Acceptance and order: a pass that does not abort appends exactly one
      entry per new item, in feed order, each carrying that item's resolved id
      and normalised title in the record layout. Two items with the same id in
      one fetch are judged against the same snapshot. */
  lemma {:induction false} PassAppendsNewItems(cfg: Config, snap: Snapshot, items: seq<Item>,
                                               meta: FeedMeta, dbFails: set<nat>, n: nat)
    requires n <= |items|
    requires PassUpto(cfg, snap, items, meta, dbFails, n).Running?
    ensures var app := PassUpto(cfg, snap, items, meta, dbFails, n).appended;
            var news := NewItems(cfg, snap, items[..n]);
            && |app| == |news|
            && forall j :: 0 <= j < |app| ==>
                 && UidOf(app[j]) == ResolveId(cfg.variant, news[j])
                 && TitleOf(app[j]) == Some(NormTitle(cfg.variant, news[j].title.value))
                 && Tags(app[j]) == RecordTags
  {
    if n > 0 {
      var prev := PassUpto(cfg, snap, items, meta, dbFails, n - 1);
      if prev.Halted? {
        HaltedStays(cfg, snap, items, meta, dbFails, n - 1, n);
      }
      PassAppendsNewItems(cfg, snap, items, meta, dbFails, n - 1);
      assert items[..n][..n - 1] == items[..n - 1];
      StepAcceptsNew(cfg, snap, items[n - 1], meta);
    }
  }

  /** What the incremental loop does with each item of a fetch. */
  function StepsOf(cfg: Config, snap: Snapshot, items: seq<Item>, meta: FeedMeta): (r: seq<Step>)
    ensures |r| == |items|
    ensures forall j :: 0 <= j < |items| ==> r[j] == IncrementalStep(cfg, snap, items[j], meta)
  {
    seq(|items|, j requires 0 <= j < |items| => IncrementalStep(cfg, snap, items[j], meta))
  }

  /** The rows of the accepted steps among `steps[..n]` whose insert is not
      in `fails`, in order. */
  function KeptRows(steps: seq<Step>, fails: set<nat>, n: nat): seq<Row>
    requires n <= |steps|
  {
    if n == 0 then []
    else KeptRows(steps, fails, n - 1) + (if steps[n - 1].Accept? && n - 1 !in fails then [steps[n - 1].row] else [])
  }

  /** What reaches the database: nothing when the variant does not write
      rows; otherwise, whichever inserts fail, exactly the rows of the other
      accepted items, in feed order; never more rows than entries; and, when
      no insert fails, one row per appended entry carrying the same texts. */
  lemma {:induction false} PassRows(cfg: Config, snap: Snapshot, items: seq<Item>,
                                    meta: FeedMeta, dbFails: set<nat>, n: nat)
    requires n <= |items|
    requires PassUpto(cfg, snap, items, meta, dbFails, n).Running?
    ensures var p := PassUpto(cfg, snap, items, meta, dbFails, n);
            && |p.committed| <= |p.appended|
            && p.committed == (if WritesDb(cfg) then KeptRows(StepsOf(cfg, snap, items, meta), dbFails, n) else [])
            && (WritesDb(cfg) && dbFails == {} ==>
                  |p.committed| == |p.appended|
                  && forall j :: 0 <= j < |p.appended| ==>
                       UidOf(p.appended[j]) == Some(p.committed[j].uid)
                       && TitleOf(p.appended[j]) == Some(p.committed[j].title)
                       && p.committed[j].source == cfg.source
                       && p.committed[j].category == cfg.category)
  {
    if n > 0 {
      var prev := PassUpto(cfg, snap, items, meta, dbFails, n - 1);
      if prev.Halted? {
        HaltedStays(cfg, snap, items, meta, dbFails, n - 1, n);
      }
      PassRows(cfg, snap, items, meta, dbFails, n - 1);
      StepAcceptsNew(cfg, snap, items[n - 1], meta);
    }
  }

  /** The kept rows depend only on which of the first `n` positions fail. */
  lemma {:induction false} KeptRowsAgree(steps: seq<Step>, fails1: set<nat>, fails2: set<nat>, n: nat)
    requires n <= |steps|
    requires forall j :: 0 <= j < n ==> (j in fails1 <==> j in fails2)
    ensures KeptRows(steps, fails1, n) == KeptRows(steps, fails2, n)
  {
    if n > 0 {
      KeptRowsAgree(steps, fails1, fails2, n - 1);
    }
  }

  /** Partial-failure isolation: making the insert of accepted item `k`
      fail removes exactly that item's row and leaves every other row, before
      and after it, committed in the same order. */
  lemma {:induction false} FailedInsertIsolated(steps: seq<Step>, fails: set<nat>, k: nat, n: nat)
    requires k < n <= |steps|
    requires k !in fails && steps[k].Accept?
    ensures var before := KeptRows(steps, fails, n);
            var after := KeptRows(steps, fails + {k}, n);
            var i := |KeptRows(steps, fails, k)|;
            && i < |before|
            && before[i] == steps[k].row
            && after == before[..i] + before[i + 1..]
  {
    var fails2 := fails + {k};
    var i := |KeptRows(steps, fails, k)|;
    KeptRowsAgree(steps, fails, fails2, k);
    var a := KeptRows(steps, fails, n - 1);
    if n == k + 1 {
      assert (a + [steps[k].row])[..i] == a;
    } else {
      FailedInsertIsolated(steps, fails, k, n - 1);
      var t := if steps[n - 1].Accept? && n - 1 !in fails then [steps[n - 1].row] else [];
      assert (a + t)[..i] == a[..i];
      assert (a + t)[i + 1..] == a[i + 1..] + t;
    }
  }

  /** A failed insert does not stop the loop and does not keep its entry out
      of the document: whether the pass aborts, and what it appends, do not
      depend on which inserts fail. */
  lemma {:induction false} DbFailuresIsolated(cfg: Config, snap: Snapshot, items: seq<Item>, meta: FeedMeta,
                                              fails1: set<nat>, fails2: set<nat>, n: nat)
    requires n <= |items|
    ensures PassUpto(cfg, snap, items, meta, fails1, n).Running? <==>
              PassUpto(cfg, snap, items, meta, fails2, n).Running?
    ensures PassUpto(cfg, snap, items, meta, fails1, n).Running? ==>
              PassUpto(cfg, snap, items, meta, fails1, n).appended
              == PassUpto(cfg, snap, items, meta, fails2, n).appended
  {
    if n > 0 {
      DbFailuresIsolated(cfg, snap, items, meta, fails1, fails2, n - 1);
    }
  }

  /** In a pass that does not abort no item aborted, and every accepted item's
      entry is among those appended. */
  lemma {:induction false} RunningSteps(cfg: Config, snap: Snapshot, items: seq<Item>,
                                        meta: FeedMeta, dbFails: set<nat>, n: nat)
    requires n <= |items|
    requires PassUpto(cfg, snap, items, meta, dbFails, n).Running?
    ensures forall k :: 0 <= k < n ==> !IncrementalStep(cfg, snap, items[k], meta).Crash?
    ensures forall k :: 0 <= k < n && IncrementalStep(cfg, snap, items[k], meta).Accept? ==>
              IncrementalStep(cfg, snap, items[k], meta).entry
                in PassUpto(cfg, snap, items, meta, dbFails, n).appended
  {
    if n > 0 {
      if PassUpto(cfg, snap, items, meta, dbFails, n - 1).Halted? {
        HaltedStays(cfg, snap, items, meta, dbFails, n - 1, n);
      }
      RunningSteps(cfg, snap, items, meta, dbFails, n - 1);
    }
  }

  lemma {:induction false} AllSkipped(cfg: Config, snap: Snapshot, items: seq<Item>,
                                      meta: FeedMeta, dbFails: set<nat>, n: nat)
    requires n <= |items|
    requires forall k :: 0 <= k < n ==> IncrementalStep(cfg, snap, items[k], meta).Skip?
    ensures PassUpto(cfg, snap, items, meta, dbFails, n) == Running([], [])
  {
    if n > 0 {
      AllSkipped(cfg, snap, items, meta, dbFails, n - 1);
    }
  }

  lemma TextsOfGrow(doc: Document, app: seq<Entry>, tag: string)
    ensures TextsOf(doc, tag) <= TextsOf(doc + app, tag)
    ensures forall e, c :: e in app && c in e.children && c.tag == tag ==> c.text in TextsOf(doc + app, tag)
  {
    forall e, c | e in app && c in e.children && c.tag == tag
      ensures c.text in TextsOf(doc + app, tag)
    {
      assert e in doc + app;
    }
  }

  /** Idempotence: once the entries of a pass are in the document, the same
      fetch appends nothing, commits nothing, and does not abort. */
  lemma PassIdempotent(cfg: Config, doc: Document, items: seq<Item>, meta: FeedMeta,
                       dbFails: set<nat>, dbFails2: set<nat>)
    requires PassUpto(cfg, SnapshotOf(doc), items, meta, dbFails, |items|).Running?
    ensures var app := PassUpto(cfg, SnapshotOf(doc), items, meta, dbFails, |items|).appended;
            PassUpto(cfg, SnapshotOf(doc + app), items, meta, dbFails2, |items|) == Running([], [])
  {
    var snap := SnapshotOf(doc);
    var app := PassUpto(cfg, snap, items, meta, dbFails, |items|).appended;
    var snap2 := SnapshotOf(doc + app);
    RunningSteps(cfg, snap, items, meta, dbFails, |items|);
    TextsOfGrow(doc, app, "uid");
    TextsOfGrow(doc, app, "title");
    forall k | 0 <= k < |items|
      ensures IncrementalStep(cfg, snap2, items[k], meta).Skip?
    {
      var item := items[k];
      StepAcceptsNew(cfg, snap, item, meta);
      var s := IncrementalStep(cfg, snap, item, meta);
      if s.Accept? {
        var e := s.entry;
        assert e.children[0] in e.children;
        assert !IsNew(snap2, ResolveId(cfg.variant, item).value, NormTitle(cfg.variant, item.title.value));
      }
    }
    AllSkipped(cfg, snap2, items, meta, dbFails2, |items|);
  }

  /** The snapshot is not updated inside the loop: an item that is new
      appears twice in the document when the fetch lists it twice. */
  lemma SameItemTwice(cfg: Config, snap: Snapshot, x: Item, meta: FeedMeta, dbFails: set<nat>)
    requires IncrementalStep(cfg, snap, x, meta).Accept?
    ensures var p := PassUpto(cfg, snap, [x, x], meta, dbFails, 2);
            p.Running? && |p.appended| == 2 && p.appended[0] == p.appended[1]
  {
    var items := [x, x];
    var e := IncrementalStep(cfg, snap, x, meta).entry;
    assert items[0] == x && items[1] == x;
    assert PassUpto(cfg, snap, items, meta, dbFails, 0) == Running([], []);
    assert IncrementalStep(cfg, snap, items[0], meta).Accept?;
    assert PassUpto(cfg, snap, items, meta, dbFails, 1).appended == [e];
    assert PassUpto(cfg, snap, items, meta, dbFails, 2).appended == [e, e];
  }

  // ---------------------------------------------------------------------
  // Specification of the first-run loop.

  datatype FirstProgress = Building(built: seq<Entry>) | Stopped

  function FirstUpto(cfg: Config, items: seq<Item>, meta: FeedMeta, n: nat): FirstProgress
    requires cfg.variant != Cleaner
    requires n <= |items|
  {
    if n == 0 then Building([])
    else
      match FirstUpto(cfg, items, meta, n - 1)
      case Stopped => Stopped
      case Building(b) =>
        match FirstRunStep(cfg, items[n - 1], meta)
        case Abort => Stopped
        case Built(e) => Building(b + [e])
  }

  /** A first run that does not abort leaves one entry per fetched item, the
      skipped ones included, in feed order. */
  lemma {:induction false} FirstRunOneEntryPerItem(cfg: Config, items: seq<Item>, meta: FeedMeta, n: nat)
    requires cfg.variant != Cleaner
    requires n <= |items|
    requires FirstUpto(cfg, items, meta, n).Building?
    ensures var b := FirstUpto(cfg, items, meta, n).built;
            |b| == n && forall k :: 0 <= k < n ==> FirstRunStep(cfg, items[k], meta) == Built(b[k])
  {
    if n > 0 {
      FirstRunOneEntryPerItem(cfg, items, meta, n - 1);
    }
  }

  lemma {:induction false} FirstStoppedStays(cfg: Config, items: seq<Item>, meta: FeedMeta, n: nat, m: nat)
    requires cfg.variant != Cleaner
    requires n <= m <= |items|
    requires FirstUpto(cfg, items, meta, n).Stopped?
    ensures FirstUpto(cfg, items, meta, m).Stopped?
  {
    if m > n {
      FirstStoppedStays(cfg, items, meta, n, m - 1);
    }
  }

  // ---------------------------------------------------------------------
  // The sinks.

  datatype DbOp = Insert(row: Row) | BulkLoad(path: string, source: string, category: string)

  function Inserts(rows: seq<Row>): seq<DbOp>
  {
    seq(|rows|, k requires 0 <= k < |rows| => Insert(rows[k]))
  }

  /** The `rss_feeds` table, seen as the statements it committed. Whether a
      statement fails is the database's business and is passed in. */
  class Database {
    var log: seq<DbOp>

    constructor ()
      ensures log == []
    {
      log := [];
    }

    /** `cursor.execute(INSERT ...)` followed by `cnx.commit()`. */
    method InsertRow(row: Row, fails: bool) returns (ok: bool)
      modifies this
      ensures ok == !fails
      ensures log == old(log) + (if ok then [Insert(row)] else [])
    {
      ok := !fails;
      if ok {
        log := log + [Insert(row)];
      }
    }

    /** `LOAD XML LOCAL INFILE path ... SET source, category` and commit. */
    method LoadXml(path: string, source: string, category: string, fails: bool) returns (ok: bool)
      modifies this
      ensures ok == !fails
      ensures log == old(log) + (if ok then [BulkLoad(path, source, category)] else [])
    {
      ok := !fails;
      if ok {
        log := log + [BulkLoad(path, source, category)];
      }
    }
  }

  /** The partition's XML file: whether it exists, and its entries. */
  class PartitionFile {
    const path: string
    var present: bool
    var doc: Document

    constructor (path: string, present: bool, doc: Document)
      ensures this.path == path && this.present == present && this.doc == doc
    {
      this.path := path;
      this.present := present;
      this.doc := doc;
    }
  }

  /** How a pass ends: the update count it reports and whether it rewrote
      the file, or an uncaught exception. */
  datatype Outcome = Completed(count: nat, wrote: bool) | Crashed

  // ---------------------------------------------------------------------
  // The passes.

  /** The incremental branch. The id and title sets are read from the file
      once; each item is skipped, appended to the in-memory document with its
      row inserted, or aborts the pass. The document is written back only when
      something was appended; an abort writes nothing but keeps the rows
      already committed. */
  method IncrementalPass(file: PartitionFile, db: Database, cfg: Config, items: seq<Item>,
                         meta: FeedMeta, dbFails: set<nat>) returns (outcome: Outcome)
    requires file.present
    modifies file, db
    ensures file.present
    ensures var p := PassUpto(cfg, SnapshotOf(old(file.doc)), items, meta, dbFails, |items|);
            match p
            case Running(app, rows) =>
              && outcome == Completed(|app|, |app| > 0)
              && file.doc == old(file.doc) + app
              && db.log == old(db.log) + Inserts(rows)
            case Halted(rows) =>
              && outcome == Crashed
              && file.doc == old(file.doc)
              && db.log == old(db.log) + Inserts(rows)
  {
    var data := file.doc;
    var snap := SnapshotOf(data);
    var count := 0;
    var i := 0;
    while i < |items|
      invariant 0 <= i <= |items|
      invariant file.present && file.doc == old(file.doc)
      invariant PassUpto(cfg, snap, items, meta, dbFails, i).Running?
      invariant data == old(file.doc) + PassUpto(cfg, snap, items, meta, dbFails, i).appended
      invariant count == |PassUpto(cfg, snap, items, meta, dbFails, i).appended|
      invariant db.log == old(db.log) + Inserts(PassUpto(cfg, snap, items, meta, dbFails, i).committed)
    {
      var step := IncrementalStep(cfg, snap, items[i], meta);
      match step {
        case Skip =>
        case Crash =>
          HaltedStays(cfg, snap, items, meta, dbFails, i + 1, |items|);
          return Crashed;
        case Accept(e, r) =>
          data := data + [e];
          if WritesDb(cfg) {
            ghost var rows := PassUpto(cfg, snap, items, meta, dbFails, i).committed;
            var _ := db.InsertRow(r, i in dbFails);
            assert i !in dbFails ==> Inserts(rows) + [Insert(r)] == Inserts(rows + [r]);
          }
          count := count + 1;
      }
      i := i + 1;
    }
    if count > 0 {
      file.doc := data;
    }
    outcome := Completed(count, count > 0);
  }

  /** The first-run branch: every item gets an entry, the whole document is
      written, the reported count is the number of fetched items, and the
      file is bulk-loaded into the database in one statement. An abort writes
      no file and touches no database. */
  method FirstRunPass(file: PartitionFile, db: Database, cfg: Config, items: seq<Item>,
                      meta: FeedMeta, bulkFails: bool) returns (outcome: Outcome)
    requires !file.present
    requires cfg.variant != Cleaner
    modifies file, db
    ensures match FirstUpto(cfg, items, meta, |items|)
            case Building(built) =>
              && outcome == Completed(|items|, true)
              && file.present && file.doc == built
              && db.log == old(db.log) +
                   (if WritesDb(cfg) && !bulkFails then [BulkLoad(file.path, cfg.source, cfg.category)] else [])
            case Stopped =>
              outcome == Crashed && !file.present && file.doc == old(file.doc) && db.log == old(db.log)
  {
    var data := [];
    var i := 0;
    while i < |items|
      invariant 0 <= i <= |items|
      invariant FirstUpto(cfg, items, meta, i) == Building(data)
    {
      match FirstRunStep(cfg, items[i], meta) {
        case Abort =>
          FirstStoppedStays(cfg, items, meta, i + 1, |items|);
          return Crashed;
        case Built(e) =>
          data := data + [e];
      }
      i := i + 1;
    }
    var count := |items|;
    file.doc := data;
    file.present := true;
    if WritesDb(cfg) {
      var _ := db.LoadXml(file.path, cfg.source, cfg.category, bulkFails);
    }
    outcome := Completed(count, true);
  }

  /** The file of a partition: under `root` for the crawler, under
      `./data` for the scraper. */
  function PartitionPath(root: string, cfg: Config): string {
    if cfg.variant == Crawler then CrawlerPath(root, cfg.source, cfg.category)
    else ScraperPath(cfg.source, cfg.category)
  }

  /** One partition of a cycle, on the partition's own file: the incremental
      branch when the file exists, else the first-run branch. An existing
      document grows by exactly the entries of the new items and the table
      by their committed rows; a first run writes one entry per fetched item
      and bulk-loads that file. A completed run leaves a file behind and
      reports the entries added, or the items fetched on a first run. */
  method ScrapePartition(file: PartitionFile, db: Database, root: string, cfg: Config, items: seq<Item>,
                         meta: FeedMeta, dbFails: set<nat>, bulkFails: bool) returns (outcome: Outcome)
    requires cfg.variant != Cleaner
    requires file.path == PartitionPath(root, cfg)
    modifies file, db
    ensures outcome.Completed? ==> file.present
    ensures old(file.present) ==> file.present && old(file.doc) <= file.doc
    ensures old(file.present) && outcome.Completed? ==>
              outcome.count == |file.doc| - |old(file.doc)| && outcome.wrote == (outcome.count > 0)
    ensures !old(file.present) && outcome.Completed? ==>
              outcome.count == |items| == |file.doc| && outcome.wrote
    ensures old(file.present) ==>
              match PassUpto(cfg, SnapshotOf(old(file.doc)), items, meta, dbFails, |items|)
              case Running(app, rows) =>
                && outcome == Completed(|app|, |app| > 0)
                && file.doc == old(file.doc) + app
                && db.log == old(db.log) + Inserts(rows)
              case Halted(rows) =>
                && outcome == Crashed
                && file.doc == old(file.doc)
                && db.log == old(db.log) + Inserts(rows)
    ensures !old(file.present) ==>
              match FirstUpto(cfg, items, meta, |items|)
              case Building(built) =>
                && outcome == Completed(|items|, true)
                && file.present && file.doc == built
                && db.log == old(db.log) +
                     (if WritesDb(cfg) && !bulkFails then [BulkLoad(PartitionPath(root, cfg), cfg.source, cfg.category)]
                      else [])
              case Stopped =>
                outcome == Crashed && !file.present && file.doc == old(file.doc) && db.log == old(db.log)
  {
    if file.present {
      outcome := IncrementalPass(file, db, cfg, items, meta, dbFails);
    } else {
      outcome := FirstRunPass(file, db, cfg, items, meta, bulkFails);
      if outcome.Completed? {
        FirstRunOneEntryPerItem(cfg, items, meta, |items|);
      }
    }
  }

  /** The cleaner on one file of a source directory: names not ending in
      `.xml` are passed over; otherwise the partition is read off the path and
      the temporary copy's items are deduplicated into the file with the
      link as identifier and raw titles. */
  method CleanFile(file: PartitionFile, db: Database, dir: string, name: string, items: seq<Item>,
                   meta: FeedMeta, htmlText: string -> string, toGmt: string -> Option<string>,
                   dbFails: set<nat>) returns (outcome: Option<Outcome>)
    requires file.present && file.path == CleanerPath(dir, name)
    modifies file, db
    ensures outcome.None? <==> !EndsWithXml(name)
    ensures outcome.None? ==> file.doc == old(file.doc) && db.log == old(db.log)
    ensures outcome.Some? ==>
              var cfg := Config(Cleaner, dir, RemoveXml(name), true, htmlText, toGmt);
              match PassUpto(cfg, SnapshotOf(old(file.doc)), items, meta, dbFails, |items|)
              case Running(app, rows) =>
                outcome.value == Completed(|app|, |app| > 0)
                && file.doc == old(file.doc) + app && db.log == old(db.log) + Inserts(rows)
              case Halted(rows) =>
                outcome.value == Crashed && file.doc == old(file.doc) && db.log == old(db.log) + Inserts(rows)
  {
    match CleanerPartition(dir, name) {
      case None =>
        outcome := None;
      case Some(part) =>
        var cfg := Config(Cleaner, part.source, part.category, true, htmlText, toGmt);
        var o := IncrementalPass(file, db, cfg, items, meta, dbFails);
        outcome := Some(o);
    }
  }
}
