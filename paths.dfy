/** Where the document of a (source, category) partition lives, and how the
    cleaner recovers the partition from a file name. */
module Paths {
  import opened Options

  datatype Partition = Partition(source: string, category: string)

  /** `posixpath.join(a, b)`: an absolute second part replaces the first; a
      separator is inserted only when the first part is non-empty and does
      not already end in one. */
  function Join(a: string, b: string): string
  {
    if |b| > 0 && b[0] == '/' then b
    else if a == [] || a[|a| - 1] == '/' then a + b
    else a + "/" + b
  }

  /** `os.path.join(root, source, category + '.xml')` of the crawler class. */
  function CrawlerPath(root: string, source: string, category: string): string
  {
    Join(Join(root, source), category + ".xml")
  }

  /** `'./data/{0}/{1}.xml'.format(src, category)` of the feed scraper script. */
  function ScraperPath(source: string, category: string): string
  {
    "./data/" + source + "/" + category + ".xml"
  }

  /** `'./data/{0}/{1}'.format(data_dir, file)` of the cleaner script. */
  function CleanerPath(dir: string, file: string): string
  {
    "./data/" + dir + "/" + file
  }

  /** A path component with no separator at either end. */
  predicate PlainSegment(s: string) {
    |s| > 0 && s[0] != '/' && s[|s| - 1] != '/'
  }

  /** With a plain root and source and a category that does not start with a
      separator, the crawler's file is `<root>/<source>/<category>.xml`. */
  lemma CrawlerPathLayout(root: string, source: string, category: string)
    requires |root| > 0 && root[|root| - 1] != '/'
    requires PlainSegment(source)
    requires category == [] || category[0] != '/'
    ensures CrawlerPath(root, source, category) == root + "/" + source + "/" + category + ".xml"
  {
    var c := category + ".xml";
    assert c[0] != '/';
    var a := root + "/" + source;
    assert Join(root, source) == a;
    assert a[|a| - 1] == source[|source| - 1];
  }

  /** Both scrapers, run from the same directory with root `./data`, file a
      partition under the same path. */
  lemma CrawlerMatchesScraper(source: string, category: string)
    requires PlainSegment(source)
    requires category == [] || category[0] != '/'
    ensures CrawlerPath("./data", source, category) == ScraperPath(source, category)
  {
    CrawlerPathLayout("./data", source, category);
  }

  /** A raw label that starts with a separator (Finextra labels are not
      cleaned) makes `os.path.join` drop the root and the source. */
  lemma CrawlerPathAbsoluteCategory(root: string, source: string, category: string)
    requires |category| > 0 && category[0] == '/'
    ensures CrawlerPath(root, source, category) == category + ".xml"
  {
    assert (category + ".xml")[0] == '/';
  }

  predicate EndsWithXml(f: string) {
    |f| >= 4 && f[|f| - 4..] == ".xml"
  }

  predicate XmlAt(s: string, i: int) {
    0 <= i && i + 4 <= |s| && s[i..i + 4] == ".xml"
  }

  predicate ContainsXml(s: string) {
    exists i :: 0 <= i <= |s| - 4 && XmlAt(s, i)
  }

  /** `s.replace('.xml', '')`: occurrences are removed left to right, without
      overlap, in one pass. */
  function RemoveXml(s: string): string
  {
    if |s| < 4 then s
    else if s[..4] == ".xml" then RemoveXml(s[4..])
    else [s[0]] + RemoveXml(s[1..])
  }

  /** The cleaner's partition for `./data/<dir>/<file>`: only names ending in
      `.xml` are processed; the source is the directory, the category the
      file name with every `.xml` removed. */
  function CleanerPartition(dir: string, file: string): Option<Partition>
  {
    if EndsWithXml(file) then Some(Partition(dir, RemoveXml(file))) else None
  }

  lemma {:induction false} RemoveXmlSuffix(c: string)
    requires !ContainsXml(c)
    ensures RemoveXml(c + ".xml") == c
  {
    var s := c + ".xml";
    if c == [] {
      assert s == ".xml";
      assert s[4..] == [];
    } else {
      assert s[..4] != ".xml" by {
        if |c| >= 4 {
          assert s[..4] == c[0..4];
          assert !XmlAt(c, 0);
        } else {
          assert s[|c|] == '.';
          assert ".xml"[|c|] != '.';
        }
      }
      forall i ensures !XmlAt(c[1..], i) {
        if XmlAt(c[1..], i) {
          assert c[i + 1..i + 5] == c[1..][i..i + 4];
          assert XmlAt(c, i + 1);
        }
      }
      assert s[1..] == c[1..] + ".xml";
      RemoveXmlSuffix(c[1..]);
      assert c == [c[0]] + c[1..];
    }
  }

  /** A category without `.xml` in it survives the trip through its file
      name, and the cleaner rewrites the same file the scraper wrote. */
  lemma CleanerPartitionRoundTrip(source: string, category: string)
    requires !ContainsXml(category)
    ensures CleanerPartition(source, category + ".xml") == Some(Partition(source, category))
    ensures CleanerPath(source, category + ".xml") == ScraperPath(source, category)
  {
    var f := category + ".xml";
    assert f[|f| - 4..] == ".xml";
    RemoveXmlSuffix(category);
  }

  /** Every `.xml` is removed, not only the extension, so a category that
      contains `.xml` does not survive. */
  lemma CleanerPartitionLosesInnerXml()
    ensures CleanerPartition("d", "a.xml.xml") == Some(Partition("d", "a"))
  {
    var f := "a.xml.xml";
    assert f[|f| - 4..] == ".xml";
    assert f[..4][0] == 'a';
    var g := f[1..];
    assert g == ".xml.xml" && g[..4] == ".xml" && g[4..] == ".xml";
    assert RemoveXml(".xml") == RemoveXml(".xml"[4..]) == "";
    assert RemoveXml(g) == "";
    assert RemoveXml(f) == [f[0]] + RemoveXml(g);
    assert RemoveXml(f) == "a";
    assert EndsWithXml(f);
  }
}
