/** Character-level normalisers applied to feed text before it is stored. */
module Text {

  /** Every character is a 7-bit ASCII code point. */
  predicate IsAscii(s: string) {
    forall i :: 0 <= i < |s| ==> s[i] as int < 128
  }

  /** `s` is obtained from `t` by deleting zero or more characters. */
  ghost predicate IsSubsequence(s: string, t: string)
    decreases |t|
  {
    if s == [] then true
    else if t == [] then false
    else if s[0] == t[0] then IsSubsequence(s[1..], t[1..])
    else IsSubsequence(s, t[1..])
  }

  /** `s.encode('ascii', 'ignore').decode('utf-8')`: every code point of 128 or
      more is dropped, the rest is kept in order. */
  function AsciiOnly(s: string): (r: string)
    ensures IsAscii(r)
    ensures |r| <= |s|
  {
    if s == [] then []
    else if s[0] as int < 128 then [s[0]] + AsciiOnly(s[1..])
    else AsciiOnly(s[1..])
  }

  /** The filter only deletes characters. */
  lemma {:induction false} AsciiOnlyIsSubsequence(s: string)
    ensures IsSubsequence(AsciiOnly(s), s)
  {
    if s != [] {
      AsciiOnlyIsSubsequence(s[1..]);
      if s[0] as int < 128 {
        assert AsciiOnly(s)[1..] == AsciiOnly(s[1..]);
      } else {
        var r := AsciiOnly(s);
        if r != [] {
          assert r[0] as int < 128;
        }
      }
    }
  }

  /** It keeps exactly the ASCII characters, each as often as it occurs, and
      no other character. */
  lemma {:induction false} AsciiOnlyCounts(s: string, c: char)
    ensures multiset(AsciiOnly(s))[c] == if c as int < 128 then multiset(s)[c] else 0
  {
    if s != [] {
      AsciiOnlyCounts(s[1..], c);
      assert s == [s[0]] + s[1..];
      assert multiset(s) == multiset([s[0]]) + multiset(s[1..]);
    }
  }

  /** A string is returned unchanged exactly when it is already ASCII. */
  lemma {:induction false} AsciiOnlyFixesAscii(s: string)
    ensures AsciiOnly(s) == s <==> IsAscii(s)
  {
    if s != [] {
      AsciiOnlyFixesAscii(s[1..]);
      if s[0] as int >= 128 {
        assert |AsciiOnly(s)| <= |s[1..]| < |s|;
      } else {
        assert IsAscii(s) <==> IsAscii(s[1..]) by {
          if IsAscii(s[1..]) {
            forall i | 0 <= i < |s| ensures s[i] as int < 128 {
              if i > 0 { assert s[i] == s[1..][i - 1]; }
            }
          }
        }
      }
    }
  }

  /** Filtering twice is filtering once. */
  lemma AsciiOnlyIdempotent(s: string)
    ensures AsciiOnly(AsciiOnly(s)) == AsciiOnly(s)
  {
    AsciiOnlyFixesAscii(AsciiOnly(s));
  }

  /** `s.replace(c, '')` for a one-character pattern: every `c` is removed. */
  function RemoveChar(s: string, c: char): (r: string)
    ensures c !in r
    ensures |r| <= |s|
  {
    if s == [] then []
    else if s[0] == c then RemoveChar(s[1..], c)
    else [s[0]] + RemoveChar(s[1..], c)
  }

  lemma {:induction false} RemoveCharAppend(a: string, b: string, c: char)
    ensures RemoveChar(a + b, c) == RemoveChar(a, c) + RemoveChar(b, c)
  {
    if a != [] {
      assert (a + b)[1..] == a[1..] + b;
      RemoveCharAppend(a[1..], b, c);
    } else {
      assert a + b == b;
    }
  }

  /** The characters a scraped category label may not keep. */
  predicate IsUnsafe(ch: char) {
    ch == '\n' || ch == '/' || ch == '\'' || ch == '"'
  }

  /** A one-pass statement of what cleaning removes. */
  function DropUnsafe(s: string): (r: string)
  {
    if s == [] then []
    else if IsUnsafe(s[0]) then DropUnsafe(s[1..])
    else [s[0]] + DropUnsafe(s[1..])
  }

  /** The label cleaning of the scrapers:
      `.replace('\n', '').replace('/', '').replace("'", '').replace('"', '')`. */
  function CleanCategory(text: string): string
  {
    RemoveChar(RemoveChar(RemoveChar(RemoveChar(text, '\n'), '/'), '\''), '"')
  }

  /** The chain of four replacements removes exactly the unsafe characters,
      keeping everything else in order. */
  lemma {:induction false} CleanCategoryDropsUnsafe(text: string)
    ensures CleanCategory(text) == DropUnsafe(text)
  {
    if text != [] {
      var x := [text[0]];
      assert text == x + text[1..];
      RemoveCharAppend(x, text[1..], '\n');
      RemoveCharAppend(RemoveChar(x, '\n'), RemoveChar(text[1..], '\n'), '/');
      RemoveCharAppend(RemoveChar(RemoveChar(x, '\n'), '/'),
                       RemoveChar(RemoveChar(text[1..], '\n'), '/'), '\'');
      RemoveCharAppend(RemoveChar(RemoveChar(RemoveChar(x, '\n'), '/'), '\''),
                       RemoveChar(RemoveChar(RemoveChar(text[1..], '\n'), '/'), '\''), '"');
      CleanCategoryDropsUnsafe(text[1..]);
    }
  }

  lemma {:induction false} DropUnsafeIsSafe(s: string)
    ensures forall i :: 0 <= i < |DropUnsafe(s)| ==> !IsUnsafe(DropUnsafe(s)[i])
  {
    if s != [] {
      DropUnsafeIsSafe(s[1..]);
    }
  }

  lemma {:induction false} DropUnsafeFixesSafe(s: string)
    requires forall i :: 0 <= i < |s| ==> !IsUnsafe(s[i])
    ensures DropUnsafe(s) == s
  {
    if s != [] {
      assert !IsUnsafe(s[0]);
      DropUnsafeFixesSafe(s[1..]);
    }
  }

  /** A cleaned label holds no newline, slash or quote, and cleaning it again
      changes nothing. */
  lemma CleanCategoryIsClean(text: string)
    ensures forall i :: 0 <= i < |CleanCategory(text)| ==> !IsUnsafe(CleanCategory(text)[i])
    ensures CleanCategory(CleanCategory(text)) == CleanCategory(text)
  {
    CleanCategoryDropsUnsafe(text);
    DropUnsafeIsSafe(text);
    CleanCategoryDropsUnsafe(CleanCategory(text));
    DropUnsafeFixesSafe(CleanCategory(text));
  }

  /** The category a scraped link is filed under: Finextra's first table cell
      is taken as it is, every other site's anchor text is cleaned. */
  function CategoryLabel(site: string, text: string): (r: string)
    ensures site == "finextra" ==> r == text
    ensures site != "finextra" ==> r == DropUnsafe(text)
    ensures site != "finextra" ==> forall i :: 0 <= i < |r| ==> !IsUnsafe(r[i])
  {
    CleanCategoryDropsUnsafe(text);
    CleanCategoryIsClean(text);
    if site == "finextra" then text else CleanCategory(text)
  }
}
