/** The Gourmet site settings (profiles/gourmet.py): the profile that points a
    collector at Epicurious' Gourmet archive, and the listing pages to start it from. */
module Gourmet {
  import opened Wrappers
  import opened Text
  import opened Extract
  import Collector

  const BaseUrl := "http://www.epicurious.com"

  /** The literal part of the link pattern; it is followed by the lookahead `(?!0)`. */
  const RecipeStem := BaseUrl + Recipes + "/food/views/"

  /** The path both the recipe views and the listing pages start with. */
  const Recipes := "/recipes"

  const LinkPattern := RecipeStem + "(?!0)"

  /** The site profile. */
  const SiteProfile: map<string, string> :=
    map["base_url" := BaseUrl, "link_prefix" := LinkPattern, "extract_method" := "microdata"]

  /** The listing pages show ten recipes each. */
  const PageSize := 10

  /** The profile configures a collector that reads microdata and follows recipe links. */
  lemma SiteProfileConfigures()
    ensures Collector.Configure(SiteProfile)
         == Ok(Collector.Setup(BaseUrl, LinkPattern, Collector.Html(MicrodataScheme)))
  {
  }

  // ----- the link pattern, as `re.match(link_prefix, link, flags=re.I)` reads it -----

  /** One pattern character against one link character: `.` is any character but a
      newline, every other character matches itself ignoring ASCII case. */
  predicate CharMatches(p: char, c: char) {
    if p == '.' then c != '\n' else Lower(c) == Lower(p)
  }

  /** `link` matches the pattern from its start: the stem, then anything but a `0`
      (including nothing at all). */
  predicate RecipeLink(link: string) {
    |link| >= |RecipeStem|
    && (forall k :: 0 <= k < |RecipeStem| ==> CharMatches(RecipeStem[k], link[k]))
    && (|link| == |RecipeStem| || link[|RecipeStem|] != '0')
  }

  /** A recipe view whose id starts with a digit other than 0 is followed, in any case. */
  lemma ViewAccepted(c: char, rest: string)
    requires c != '0'
    ensures RecipeLink(RecipeStem + [c] + rest)
    ensures RecipeLink(RecipeStem)
  {
    var link := RecipeStem + [c] + rest;
    assert forall k :: 0 <= k < |RecipeStem| ==> link[k] == RecipeStem[k];
  }

  /** A view id starting with 0 is refused. */
  lemma ZeroRejected(rest: string)
    ensures !RecipeLink(RecipeStem + "0" + rest)
  {
    var link := RecipeStem + "0" + rest;
    assert link[|RecipeStem|] == '0';
  }

  /** The pattern does not care about case: the upper-cased link matches too. */
  lemma CaseIgnored(link: string, upper: string)
    requires |upper| == |link|
    requires forall k :: 0 <= k < |link| ==> Lower(upper[k]) == Lower(link[k]) && (upper[k] == '0' <==> link[k] == '0')
    requires forall k :: 0 <= k < |link| ==> (upper[k] == '\n' <==> link[k] == '\n')
    ensures RecipeLink(link) <==> RecipeLink(upper)
  {
  }

  // ----- listing pages -------------------------------------------------------------

  /** `pg_path` up to the page number, after the base url. */
  const ListingHead := BaseUrl + Recipes + ListingRest

  const ListingRest := "menus/gourmet/recipes?pageNumber="

  /** `pg_path` after the page number: the page size and the page's first result. */
  function OffsetField(i: int): (r: string)
    ensures r != [] && r[0] == '&'
  {
    "&pageSize=10&resultOffset=" + IntToString((i - 1) * PageSize + 1)
  }

  /** `"%s%s" % (base_url, pg_path % (i, ((i - 1) * 10) + 1))`. */
  function PageUrl(i: int): string {
    ListingHead + (IntToString(i) + OffsetField(i))
  }

  /** The listing pages from `first` to `last`, both included: `range(first, last + 1)`
      is empty when `last < first`. */
  function Listing(first: int, last: int): (links: seq<string>)
    ensures |links| == if last < first then 0 else last - first + 1
    ensures forall k :: 0 <= k < |links| ==> links[k] == PageUrl(first + k)
  {
    Range(PageUrl, first, last)
  }

  /** `f(first), ..., f(last)`. */
  function Range(f: int -> string, first: int, last: int): (links: seq<string>)
    ensures |links| == if last < first then 0 else last - first + 1
    ensures forall k :: 0 <= k < |links| ==> links[k] == f(first + k)
  {
    seq(if last < first then 0 else last - first + 1, k => f(first + k))
  }

  lemma RangeStep(f: int -> string, first: int, i: int)
    requires first <= i
    ensures Range(f, first, i) == Range(f, first, i - 1) + [f(i)]
  {
    var a, b := Range(f, first, i), Range(f, first, i - 1);
    assert a[|b|] == f(first + |b|);
    assert a == b + [f(i)];
  }

  lemma RangeDistinct(f: int -> string, first: int, last: int)
    requires forall i, j :: f(i) == f(j) ==> i == j
    ensures forall j, k :: 0 <= j < k < |Range(f, first, last)| ==> Range(f, first, last)[j] != Range(f, first, last)[k]
  {
    var links := Range(f, first, last);
    forall j, k | 0 <= j < k < |links|
      ensures links[j] != links[k]
    {
      assert links[j] == f(first + j) && links[k] == f(first + k);
    }
  }

  /** `generate_links`: `int()` of both bounds, which raises (here `None`) on anything but
      an optionally signed decimal, then one url per page. */
  method GenerateLinks(firstPage: string, lastPage: string) returns (r: Option<seq<string>>)
    ensures r.None? <==> ParseInt(firstPage).None? || ParseInt(lastPage).None?
    ensures r.Some? ==> r.value == Listing(ParseInt(firstPage).value, ParseInt(lastPage).value)
  {
    var first := ParseInt(firstPage);
    var last := ParseInt(lastPage);
    if first.None? || last.None? {
      return None;
    }
    var links: seq<string> := [];
    var i := first.value;
    while i < last.value + 1
      invariant first.value <= i && (i > last.value + 1 ==> i == first.value)
      invariant links == Listing(first.value, i - 1)
    {
      ListingStep(first.value, i);
      var url := PageUrl(i);
      links := links + [url];
      i := i + 1;
    }
    return Some(links);
  }

  lemma ListingStep(first: int, i: int)
    requires first <= i
    ensures Listing(first, i) == Listing(first, i - 1) + [PageUrl(i)]
  {
    RangeStep(PageUrl, first, i);
  }

  /** The digits of a page number hold no `&`. */
  lemma NoAmpersand(i: int)
    ensures '&' !in IntToString(i)
  {
    var s := IntToString(i);
    if i < 0 {
      assert s[1..] == NatToString(-i);
      assert forall k :: 1 <= k < |s| ==> s[k] == s[1..][k - 1];
    }
  }

  /** Different pages have different urls. */
  lemma PageUrlInjective(i: int, j: int)
    requires PageUrl(i) == PageUrl(j)
    ensures i == j
  {
    var x, y := OffsetField(i), OffsetField(j);
    assert (ListingHead + (IntToString(i) + x))[|ListingHead|..] == IntToString(i) + x;
    assert (ListingHead + (IntToString(j) + y))[|ListingHead|..] == IntToString(j) + y;
    NoAmpersand(i);
    NoAmpersand(j);
    FieldsBeforeSeparator(IntToString(i), x, IntToString(j), y, '&');
    ParseIntToString(i);
    ParseIntToString(j);
  }

  /** A listing never names the same page twice. */
  lemma ListingDistinct(first: int, last: int)
    ensures forall j, k :: 0 <= j < k < |Listing(first, last)| ==> Listing(first, last)[j] != Listing(first, last)[k]
  {
    forall i, j | PageUrl(i) == PageUrl(j)
      ensures i == j
    {
      PageUrlInjective(i, j);
    }
    RangeDistinct(PageUrl, first, last);
  }

  /** The listing pages themselves are not recipe links, so a collector started from them
      queues only the recipes they list. */
  lemma ListingNotRecipe(i: int)
    ensures !RecipeLink(PageUrl(i))
  {
    var u, n := PageUrl(i), |BaseUrl + Recipes|;
    assert u[n] == ListingHead[n] == ListingRest[0] == 'm';
    assert RecipeStem[n] == "/food/views/"[0] == '/';
    assert !CharMatches(RecipeStem[n], u[n]);
  }

  /** Page i starts at result (i - 1) * 10 + 1: the pages from 1 on split the results
      into consecutive runs of ten. */
  lemma OffsetsTile(i: int)
    ensures OffsetField(i + 1) == "&pageSize=10&resultOffset=" + IntToString(((i - 1) * PageSize + 1) + PageSize)
    ensures OffsetField(1) == "&pageSize=10&resultOffset=1"
  {
    assert IntToString(1) == "1";
  }
}
