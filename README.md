# RSS ingest pass — a Dafny model

This project models the core of a small RSS/Atom crawler. The crawler keeps one XML document per (source,
category) partition. Each fetch of a feed is merged into that document by an **ingest pass**:

- the pass reads the document's `uid` and `title` texts once;
- it appends, in feed order, every fetched item whose identifier and title are both unseen;
- it inserts a database row for each appended entry;
- it rewrites the document only when something was appended.

When the partition has no document yet, a **first-run** branch builds the document from every fetched item and
bulk-loads it into the database.

The same pass exists three times in the repository, with small differences:

- the `RSSCrawler.scrape` method (`rss_crawler.py`);
- the `feed_scraper.py` script;
- the `xml_cleaner.py` script, which re-deduplicates temporary copies.

Small pure normalisers sit around the pass:

- the identifier fallback;
- the ASCII filter `encode('ascii', 'ignore')`;
- the category-label cleaning;
- the published/updated fallback and the `strftime` rendering of the GMT time;
- the partition path naming.

There is also the URL registry (a dictionary from feed URL to partition), which both scrapers fill.

Files and modules:

- `options.dfy` (`Options`): `Option`, and `Attr` for a Python attribute that is absent, `None`, or a value.
- `text.dfy` (`Text`): the ASCII filter and category cleaning, with their properties.
- `timestamp.dfy` (`Timestamp`): `%Y-%m-%d %H:%M:%S` rendering, and `ParseGmt`, its inverse. `ParseGmt` is a
  strict reading of the `%Y-%m-%d %T` shape handed to `STR_TO_DATE`: month 1..12, day 1..31, hour below 24,
  minute and second below 60. It is not a model of MySQL's own, more lenient, parser.
- `paths.dfy` (`Paths`): `os.path.join`, the partition paths of the three copies, and the cleaner's
  file-name-to-partition rule.
- `feed.dfy` (`Feed`): feed items, the document (`seq<Entry>`, each entry a sequence of tagged elements), the
  snapshot sets, and what one loop iteration does with one item (`IncrementalStep`, `CrawlerFirstStep`,
  `ScraperFirstStep`). The three copies are one definition parameterised by `Variant`.
- `ingest.dfy` (`Ingest`):
  - the specification of the loops (`PassUpto`, `FirstUpto`) and the lemmas about them;
  - the sinks as classes (`PartitionFile`, `Database`);
  - the passes as methods with loops, proved against the specification functions.
- `registry.dfy` (`Registry`): the URL dictionary as a class whose methods update it in loops, proved against
  `Merge`.

An uncaught Python exception inside the loop is modelled as an abort (`Crash`, `Abort`, outcome `Crashed`). In
the code, such an exception also leaves `scrape` (or the script) and ends the whole run; the model stops at the
partition. The in-memory document is then discarded, so no file is written. Database rows committed before the abort stay. The
code aborts in these cases:

- an identified item has no title;
- an item that is new has an id but no link;
- the `summary` attribute is absent;
- the summary is `None` and there is no content block (BeautifulSoup is then handed `None`);
- the published date is missing and the feed has no `updated` (or no `updated_parsed`, where the code reads it).

The model follows the code as written; in particular:

- The id and title sets are a snapshot taken before the loop and never updated during it. Two items with the same
  new id in one fetch are both appended (`Ingest.SameItemTwice`).
- An item without a title aborts the pass instead of being dropped. No content gives an abort, not an empty
  summary. There is no fallback to the current time: with no published date and no feed `updated`, the pass
  aborts.
- The first-run branch does no deduplication. It appends an entry for every item, skipped ones included, and
  reports `len(entries)` as the update count. In the crawler the uid becomes the link whenever one exists.
- The column order differs between copies (`…, source, category` versus `…, category, source`). Every statement
  names its columns, so all copies write the same logical row (`Feed.Row`, with named fields).

## Model

| member | source | states |
|---|---|---|
| `Text.AsciiOnly` | rss_crawler.py:200 | the stored title holds only code points below 128 and is no longer than the input |
| `Text.AsciiOnlyIsSubsequence` | rss_crawler.py:222 | the filtered summary is the input with characters deleted, order kept |
| `Text.AsciiOnlyCounts` | feed_scraper.py:178 | every ASCII character is kept as often as it occurs; every other character is dropped |
| `Text.AsciiOnlyFixesAscii` | rss_crawler.py:281 | the filter returns its input unchanged if and only if the input is all ASCII |
| `Text.AsciiOnlyIdempotent` | feed_scraper.py:201 | filtering twice gives the same text as filtering once |
| `Text.RemoveChar` | rss_crawler.py:87 | `replace(c, '')` leaves no `c` and never lengthens the text |
| `Text.CleanCategoryDropsUnsafe` | rss_crawler.py:87-88 | the four chained replacements remove exactly newline, slash, single and double quote, keeping all else in order |
| `Text.CleanCategoryIsClean` | feed_scraper.py:82 | a cleaned label contains none of the four characters, and cleaning it again changes nothing |
| `Text.CategoryLabel` | rss_crawler.py:82-88 | Finextra labels are kept raw; every other site's label is the text with exactly the newlines, slashes and quotes removed, and so contains none of them |
| `Timestamp.RenderGmt` | rss_crawler.py:235 | the GMT text is empty exactly when there is no time tuple |
| `Timestamp.RenderShape` | feed_scraper.py:214 | for years 1000..9999 the rendering is the 19-character `YYYY-MM-DD HH:MM:SS` with digits in all non-separator places |
| `Timestamp.ParseRender` | rss_crawler.py:240-247 | the strict date reading recovers exactly the rendered tuple (years 1000..9999, seconds below 60) |
| `Timestamp.ParseRejectsLeapSecond` | rss_crawler.py:235-244 | a tuple with second 60 or 61, which `strftime` prints, is not read back as a time |
| `Timestamp.RenderParse` | feed_scraper.py:218-222 | any text in that shape that parses, with no leading zero in the year, is the rendering of the tuple it parses to |
| `Timestamp.RenderExample` | feed_scraper.py:214 | 2024-03-01 10:00:00 renders as `"2024-03-01 10:00:00"`; no tuple renders as `""` |
| `Paths.CrawlerPathLayout` | rss_crawler.py:178 | with a plain root and source, and a category not starting with a separator, the file is `<root>/<source>/<category>.xml` |
| `Paths.CrawlerMatchesScraper` | feed_scraper.py:158 | with root `./data`, the crawler and the scraper use the same path for a partition |
| `Paths.CrawlerPathAbsoluteCategory` | rss_crawler.py:178 | a category starting with `/` (possible for raw Finextra labels) makes the path drop root and source |
| `Paths.CleanerPartitionRoundTrip` | xml_cleaner.py:23-36 | `<category>.xml` passes the `.xml` filter and maps back to (directory, category) when the category has no `.xml`; the cleaner's path is the scraper's |
| `Paths.CleanerPartitionLosesInnerXml` | xml_cleaner.py:36 | every `.xml` is removed, so `a.xml.xml` is filed under category `a` |
| `Feed.StepAcceptsNew` | rss_crawler.py:187-211 | an item is appended only if its id and title are both absent from the snapshot sets, and then in record layout; an item with no id and no link, or with id and title of which one is already seen, is skipped whatever its other fields; a new item whose fields can be read is appended; the pass aborts exactly on an identified item without title, or on a new item without link or with unreadable fields |
| `Feed.AcceptedUid` | rss_crawler.py:189-209 | the stored uid is the feed id, else the link (crawler, scraper); in the cleaner it is always the link |
| `Feed.AcceptedFields` | rss_crawler.py:200-235 | title and summary are ASCII; the link is the item's link; the summary is `summary`, or the first content block when that is None, markup-stripped then ASCII-filtered; published text and GMT text come from the entry's published pair, else from the feed's updated pair |
| `Feed.CleanerKeepsRawText` | xml_cleaner.py:49-68 | the cleaner stores the raw title, the item's link, the raw summary, `published_date`, and the converted GMT text |
| `Feed.CrawlerFirstRunShape` | rss_crawler.py:261-294 | the uid is the link whenever there is one, even if an id exists; children are uid, title, link, published_date, summary; an item without link leaves four children, with only the uid possibly holding text |
| `Feed.ScraperFirstRunShape` | feed_scraper.py:236-266 | the uid is the id, else the link; with neither, the entry holds only an empty uid; an id without a link aborts |
| `Ingest.PassAppendsNewItems` | feed_scraper.py:164-203 | a pass that does not abort appends one entry per new item, in feed order, with that item's id and normalised title, in record layout |
| `Ingest.PassRows` | rss_crawler.py:238-252 | no rows when the crawler runs without the database; otherwise, whichever inserts fail, the committed rows are, in feed order, the rows of the accepted items whose insert did not fail; never more rows than entries; with no failed insert, one row per entry with the same uid and title and the partition's source and category |
| `Ingest.FailedInsertIsolated` | feed_scraper.py:217-227 | a failing insert removes exactly its own item's row; every other row, before and after it, stays committed in the same order |
| `Ingest.DbFailuresIsolated` | feed_scraper.py:217-227 | which inserts fail changes neither whether the pass aborts nor what it appends |
| `Ingest.PassIdempotent` | rss_crawler.py:184-201 | once a pass's entries are in the document, the same fetch appends nothing and commits nothing |
| `Ingest.SameItemTwice` | rss_crawler.py:185-201 | the sets are not updated in the loop: a new item listed twice is appended twice |
| `Ingest.FirstRunOneEntryPerItem` | rss_crawler.py:261-303 | a first run that does not abort builds exactly one entry per fetched item, in feed order |
| `Ingest.Database.InsertRow` | rss_crawler.py:238-250 | a committed insert adds its row to the table; a failed one changes nothing and is reported |
| `Ingest.Database.LoadXml` | rss_crawler.py:307-314 | a committed bulk load records one load of the file for (source, category) |
| `Ingest.IncrementalPass` | rss_crawler.py:178-257 | the document grows by exactly the appended entries; the count equals the number appended; the file is rewritten only when the count is positive; the rows are the committed inserts; an abort leaves the file unchanged and keeps the earlier rows |
| `Ingest.FirstRunPass` | feed_scraper.py:233-288 | the document holds one built entry per item and is always written; the count is the number of items; there is at most one bulk load and no per-row inserts; an abort writes no file and touches no database |
| `Ingest.ScrapePartition` | rss_crawler.py:178-316 | on the partition's own file: an existing document grows by exactly the new items' entries and the table by their committed rows, or an abort keeps the file and the rows before it; a first run writes one entry per fetched item and at most one bulk load of that file; the count is the entries added, or the items on a first run |
| `Ingest.CleanFile` | xml_cleaner.py:22-86 | files not ending in `.xml` are passed over untouched; otherwise the pass runs with the link as id and raw titles, for the partition taken from the path |
| `Registry.MergeKeys` | rss_crawler.py:110-115 | after loading, the URLs are the old ones plus every URL read |
| `Registry.MergeLastWins` | rss_crawler.py:91 | a URL written several times keeps its last value |
| `Registry.MergeUntouched` | feed_scraper.py:102 | a URL not written keeps its old value, or stays absent |
| `Registry.MergeUnion` | feed_scraper.py:84-97 | building a fresh dictionary and `update`-ing with it equals writing each pair in order |
| `Registry.ScrapedLabelsClean` | feed_scraper.py:76-84 | a URL scraped from a site other than Finextra is filed under that site, with the anchor text minus exactly newlines, slashes and quotes as category, in the variant's tuple order |
| `Registry.CollectScraped` | feed_scraper.py:68-84 | the scraper's fresh dictionary holds each scraped (href, (category, site)) pair, the last write to a URL winning |
| `Registry.SourceRegistry.AddScraped` | rss_crawler.py:72-91 | the registry afterwards is the old one with each scraped (href, partition) pair written in page order |
| `Registry.SourceRegistry.LoadCsv` | rss_crawler.py:104-117 | a missing list changes nothing; otherwise each row's pair is written in file order |

## Left out

- HTTP fetching, the status check and its back-off (`rss_crawler.py:161-169`, `feed_scraper.py:142-149`): network I/O. The crawler skips a partition only on a non-200 status; an exception from `requests` ends its run. The scraper skips the partition on any `requests` exception but never checks the status.
- The Betakit newline fix-up of the raw bytes: its only consumer is feedparser, a foreign library.
- feedparser itself: its output is the `Feed.Item` / `Feed.FeedMeta` records, with optional fields.
- Python objects of unexpected types (an `id` attribute holding `None`, a non-string title) are not modelled. Attributes are either absent or strings; only `summary` and the `*_parsed` tuples may also be `None`.
- Time tuples outside the ranges `time.strftime` accepts are not modelled; feedparser normalises its tuples.
- Years below 1000: the model renders the year without padding, as the C library's `%Y` does. The 19-character shape is proved for years 1000..9999 only.
- BeautifulSoup's markup stripping: a parameter of the pass (`Config.htmlText`).
- The cleaner's dateutil conversion to GMT: a parameter (`Config.toGmt`, `None` when it raises).
- MySQL:
  - connections, commits, and the semantics of `LOAD XML` and of `STR_TO_DATE` beyond the strict reading
    `ParseGmt` (MySQL also accepts, for instance, a zero month or day, depending on its SQL mode);
  - the table is a log of committed statements, and whether a statement fails is an input;
  - how `LOAD XML` maps entry children to columns is not modelled.
- The `except` handlers format `e.args[1]`. An exception with fewer than two arguments would make the handler itself raise. The model treats every database failure as caught.
- ElementTree parsing and writing: the document is held in memory. On a real reload, an element whose text is the empty string (for example, a title with no ASCII characters) comes back with no text. The idempotence lemma is about the in-memory document.
- CSV reading and writing: the URL lists are given as rows. `load_xml` (`os.walk`) is not part of this model, and neither is the cleaner's outer loop over directories (`os.listdir`, `NotADirectoryError`). `CleanFile` models one file.
- The cleaner's read of `feed.uid` is overwritten unconditionally by the link, so the model does not read it.
- Dictionary iteration order: Dafny maps have no order. The registry is modelled up to its contents (last write wins), and the cycle over all URLs is not modelled.
- The scheduler: the run window, wall-clock checks, `time.sleep` pauses, the 30-second reconnect loop and the inter-cycle delay. With `to_db=False` the crawler reaches `cursor.close()` with no cursor. This belongs to the scheduler, which is not modelled.
- Console output and logging; `scrape_runner.py` (wiring that calls a missing `run` method); `datetime_update.py` and `load_xml2db.py` (database plumbing).
