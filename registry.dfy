/** The URL registry: the dictionary from feed URL to partition that both
    scrapers fill from scraped index pages and from saved URL lists. */
module Registry {
  import opened Options
  import opened Text
  import opened Feed

  /** One scraped link: its anchor text (for Finextra, the first table cell)
      and its href. */
  datatype Tag = Tag(text: string, href: string)

  /** One row of a saved URL list. The scraper's lists have no source column;
      the source is then the directory the list was read from. */
  datatype CsvRow = CsvRow(url: string, source: string, category: string)

  type Pair = (string, string)

  /** The tuple stored per URL: `(source, category)` in the crawler class,
      `(category, src)` in the scraper script. */
  function Layout(v: Variant, source: string, category: string): Pair
  {
    if v == Scraper then (category, source) else (source, category)
  }

  function SourceOf(v: Variant, p: Pair): string {
    if v == Scraper then p.1 else p.0
  }

  function CategoryOf(v: Variant, p: Pair): string {
    if v == Scraper then p.0 else p.1
  }

  /** The dictionary after `m[k] = value` for each pair, in order. */
  function Merge(m: map<string, Pair>, kvs: seq<(string, Pair)>): map<string, Pair>
  {
    if kvs == [] then m
    else Merge(m, kvs[..|kvs| - 1])[kvs[|kvs| - 1].0 := kvs[|kvs| - 1].1]
  }

  /** The keys afterwards are the old keys and every key written. */
  lemma {:induction false} MergeKeys(m: map<string, Pair>, kvs: seq<(string, Pair)>)
    ensures forall k :: k in Merge(m, kvs) <==> k in m || exists j :: 0 <= j < |kvs| && kvs[j].0 == k
  {
    if kvs != [] {
      var init := kvs[..|kvs| - 1];
      MergeKeys(m, init);
      forall k | k in Merge(m, kvs)
        ensures k in m || exists j :: 0 <= j < |kvs| && kvs[j].0 == k
      {
        if k != kvs[|kvs| - 1].0 && k !in m {
          var j :| 0 <= j < |init| && init[j].0 == k;
          assert kvs[j].0 == k;
        }
      }
      forall k | k in m || exists j :: 0 <= j < |kvs| && kvs[j].0 == k
        ensures k in Merge(m, kvs)
      {
        if k !in m && k != kvs[|kvs| - 1].0 {
          var j :| 0 <= j < |kvs| && kvs[j].0 == k;
          assert init[j].0 == k;
        }
      }
    }
  }

  /** The last write to a URL wins. */
  lemma {:induction false} MergeLastWins(m: map<string, Pair>, kvs: seq<(string, Pair)>, j: nat)
    requires j < |kvs|
    requires forall i :: j < i < |kvs| ==> kvs[i].0 != kvs[j].0
    ensures kvs[j].0 in Merge(m, kvs) && Merge(m, kvs)[kvs[j].0] == kvs[j].1
  {
    if j < |kvs| - 1 {
      var init := kvs[..|kvs| - 1];
      assert init[j] == kvs[j];
      MergeLastWins(m, init, j);
    }
  }

  /** A URL that is not written keeps its old value, or stays absent. */
  lemma {:induction false} MergeUntouched(m: map<string, Pair>, kvs: seq<(string, Pair)>, k: string)
    requires forall i :: 0 <= i < |kvs| ==> kvs[i].0 != k
    ensures k in Merge(m, kvs) <==> k in m
    ensures k in m ==> Merge(m, kvs)[k] == m[k]
  {
    if kvs != [] {
      MergeUntouched(m, kvs[..|kvs| - 1], k);
    }
  }

  /** Building a fresh dictionary and then `update`-ing the registry with it,
      as the scraper does, is the same as writing each pair into the
      registry directly, as the crawler does. */
  lemma {:induction false} MergeUnion(m: map<string, Pair>, kvs: seq<(string, Pair)>)
    ensures m + Merge(map[], kvs) == Merge(m, kvs)
  {
    if kvs != [] {
      MergeUnion(m, kvs[..|kvs| - 1]);
    }
  }

  /** The pairs a scraped index page yields, in page order. */
  function ScrapedPairs(v: Variant, site: string, tags: seq<Tag>): seq<(string, Pair)>
  {
    seq(|tags|, i requires 0 <= i < |tags| =>
      (tags[i].href, Layout(v, site, CategoryLabel(site, tags[i].text))))
  }

  /** The pairs a saved URL list yields: the crawler's rows carry source and
      category, the scraper's only a category under the site's directory. */
  function CsvPairs(v: Variant, site: string, rows: seq<CsvRow>): seq<(string, Pair)>
  {
    seq(|rows|, i requires 0 <= i < |rows| =>
      (rows[i].url, if v == Scraper then Layout(v, site, rows[i].category)
                    else Layout(v, rows[i].source, rows[i].category)))
  }

  /** Every URL scraped from a site other than Finextra is filed under that
      site, with its anchor text minus exactly the newlines, slashes and
      quotes as category. */
  lemma ScrapedLabelsClean(v: Variant, site: string, tags: seq<Tag>, j: nat)
    requires site != "finextra" && j < |tags|
    ensures var p := ScrapedPairs(v, site, tags)[j].1;
            && SourceOf(v, p) == site
            && CategoryOf(v, p) == DropUnsafe(tags[j].text)
            && forall i :: 0 <= i < |CategoryOf(v, p)| ==> !IsUnsafe(CategoryOf(v, p)[i])
  {
  }

  /** The scraper's `csv_urls`: a fresh dictionary filled from one site's
      index page, links in page order. */
  method CollectScraped(site: string, tags: seq<Tag>) returns (found: map<string, Pair>)
    ensures found == Merge(map[], ScrapedPairs(Scraper, site, tags))
  {
    ghost var pairs := ScrapedPairs(Scraper, site, tags);
    found := map[];
    var i := 0;
    while i < |tags|
      invariant 0 <= i <= |tags|
      invariant found == Merge(map[], pairs[..i])
    {
      var category := CategoryLabel(site, tags[i].text);
      found := found[tags[i].href := (category, site)];
      assert pairs[..i + 1][..i] == pairs[..i];
      i := i + 1;
    }
    assert pairs[..|tags|] == pairs;
  }

  /** The dictionary of feed URLs (`self.sources` / `rss_urls`). */
  class SourceRegistry {
    var sources: map<string, Pair>

    constructor (initial: map<string, Pair>)
      ensures sources == initial
    {
      sources := initial;
    }

    /** Files the links scraped from one site's index page. The crawler
        writes each into the registry; the scraper collects them in a fresh
        dictionary and merges that in. */
    method AddScraped(v: Variant, site: string, tags: seq<Tag>)
      requires v != Cleaner
      modifies this
      ensures sources == Merge(old(sources), ScrapedPairs(v, site, tags))
    {
      ghost var pairs := ScrapedPairs(v, site, tags);
      if v == Crawler {
        var i := 0;
        while i < |tags|
          invariant 0 <= i <= |tags|
          invariant sources == Merge(old(sources), pairs[..i])
        {
          var category := CategoryLabel(site, tags[i].text);
          sources := sources[tags[i].href := Layout(v, site, category)];
          assert pairs[..i + 1][..i] == pairs[..i];
          i := i + 1;
        }
        assert pairs[..|tags|] == pairs;
      } else {
        var found := CollectScraped(site, tags);
        MergeUnion(sources, pairs);
        sources := sources + found;
      }
    }

    /** Reads a saved URL list into the registry, row by row; when the list
        does not exist nothing changes. */
    method LoadCsv(v: Variant, site: string, rows: Option<seq<CsvRow>>) returns (loaded: bool)
      requires v != Cleaner
      modifies this
      ensures loaded == rows.Some?
      ensures sources == if rows.Some? then Merge(old(sources), CsvPairs(v, site, rows.value)) else old(sources)
    {
      loaded := rows.Some?;
      if rows.Some? {
        var rs := rows.value;
        ghost var pairs := CsvPairs(v, site, rs);
        var i := 0;
        while i < |rs|
          invariant 0 <= i <= |rs|
          invariant sources == Merge(old(sources), pairs[..i])
        {
          var value := if v == Scraper then Layout(v, site, rs[i].category)
                       else Layout(v, rs[i].source, rs[i].category);
          sources := sources[rs[i].url := value];
          assert pairs[..i + 1][..i] == pairs[..i];
          i := i + 1;
        }
        assert pairs[..|rs|] == pairs;
      }
    }
  }
}
