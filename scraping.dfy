/**
  What the two scrapers (the price hunter and the history hunter) share: the way a
  product title is cleaned into a search query, and the way a relative link taken
  from a page is made absolute against the site it came from.
*/
module Scraping {
  import opened Wrappers
  import opened PyStr

  /** Python's truthiness of an optional string: present and not empty. */
  predicate Present(s: Option<string>) {
    s.Some? && s.value != ""
  }

  /**
    `title.split("(")[0].split("|")[0]`: the title cut at its first `(`, then at its
    first `|`; that is, the longest prefix of the title holding neither.
  */
  function Cut(title: string): (p: string)
    ensures |p| <= |title| && p == title[..|p|]
    ensures '(' !in p && '|' !in p
    ensures |p| < |title| ==> title[|p|] == '(' || title[|p|] == '|'
  {
    var a := BeforeFirst(title, '(');
    var p := BeforeFirst(a, '|');
    assert |p| < |a| ==> a[|p|] == '|';
    p
  }

  /** The search query both hunters derive from a product title: the cut title, stripped. */
  function CleanQuery(title: string): string {
    Strip(Cut(title))
  }

  /**
    The cleaned query holds no `(` and no `|`, has no whitespace at either end, and is
    what is left of the cut title once the whitespace around it is removed.
  */
  lemma CleanQueryShape(title: string)
    ensures '(' !in CleanQuery(title) && '|' !in CleanQuery(title)
    ensures Stripped(CleanQuery(title))
    ensures exists i :: Padded(Cut(title), i, CleanQuery(title))
  {
    StripShape(Cut(title));
  }

  /** A text holding no `(` and no `|` is not cut. */
  lemma CutOfClean(s: string)
    requires '(' !in s && '|' !in s
    ensures Cut(s) == s
  {
    BeforeFirstAbsent(s, '(');
    BeforeFirstAbsent(s, '|');
  }

  /** Cleaning is idempotent: a cleaned query cleans to itself. */
  lemma CleanQueryIdempotent(title: string)
    ensures CleanQuery(CleanQuery(title)) == CleanQuery(title)
  {
    var q := CleanQuery(title);
    CleanQueryShape(title);
    CutOfClean(q);
    StripOfStripped(q);
  }

  /**
    A product name followed by a space and then a tagline after `|` or a variant
    in parentheses cleans to the bare name, whatever follows the delimiter.
  */
  lemma CleanQueryDropsSuffix(name: string, delimiter: char, rest: string)
    requires delimiter == '(' || delimiter == '|'
    requires '(' !in name && '|' !in name && Stripped(name)
    ensures CleanQuery(name + " " + [delimiter] + rest) == name
  {
    var title := name + " " + [delimiter] + rest;
    var head := name + " ";
    assert '(' !in head && '|' !in head;
    if delimiter == '(' {
      BeforeFirstConcat(head, '(', rest);
      BeforeFirstAbsent(head, '|');
    } else {
      assert title == head + ([delimiter] + rest);
      BeforeFirstAppend(head, [delimiter] + rest, '(');
      assert ([delimiter] + rest)[0] == '|';
      assert BeforeFirst([delimiter] + rest, '(') == ['|'] + BeforeFirst(rest, '(');
      assert head + (['|'] + BeforeFirst(rest, '(')) == head + ['|'] + BeforeFirst(rest, '(');
      BeforeFirstConcat(head, '|', BeforeFirst(rest, '('));
    }
    assert Cut(title) == head;
    StripTrailingSpace(name);
  }

  /** The storefront title with a tagline and a parenthesised variant. */
  lemma CleanQueryExample()
    ensures CleanQuery("OnePlus 13R | Smarter with AI (Case)") == "OnePlus 13R"
  {
    var name := "OnePlus 13R";
    assert "OnePlus 13R | Smarter with AI (Case)" == name + " " + ['|'] + " Smarter with AI (Case)";
    CleanQueryDropsSuffix(name, '|', " Smarter with AI (Case)");
  }

  /**
    A link as the scrapers complete it: kept when it already starts with `http`,
    otherwise appended to the site's base address.
  */
  function CompleteLink(base: string, href: string): (r: string)
    ensures StartsWith(base, "http") ==> StartsWith(r, "http")
    ensures EndsWith(r, href)
    ensures StartsWith(href, "http") ==> r == href
    ensures !StartsWith(href, "http") ==> r == base + href
  {
    if StartsWith(href, "http") then href else base + href
  }

  /** Completing an already completed link changes nothing. */
  lemma CompleteLinkIdempotent(base: string, href: string)
    requires StartsWith(base, "http")
    ensures CompleteLink(base, CompleteLink(base, href)) == CompleteLink(base, href)
  {
  }
}
