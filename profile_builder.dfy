/** `ProfileBuilder` (collection/profile_builder.py): guessing a site profile from one
    sample recipe page. The fetch of the page, `urlparse` and `urljoin` are given: the
    page as a parsed tree, the two library functions as parameters. */
module ProfileBuilder {
  import opened Wrappers
  import opened Text
  import opened Page
  import opened Extract
  import Collector

  /** The parts of a parsed url that the builder reads. */
  datatype Url = Url(scheme: string, netloc: string, path: string)

  function Parse(urlparse: string -> Url, s: string): Url {
    urlparse(s)
  }

  function Urljoin(resolve: (string, string) -> string, base: string, link: string): string {
    resolve(base, link)
  }

  /** `"%s://%s" % (scheme, netloc)`. */
  function BaseUrl(u: Url): (r: string)
    ensures |r| == |u.scheme| + 3 + |u.netloc| && r[..|u.scheme|] == u.scheme && r[|u.scheme| + 3..] == u.netloc
  {
    u.scheme + "://" + u.netloc
  }

  /** The extraction method whose marker the page carries, tried in the order json-ld,
      microdata, RDFa. */
  function DetectScheme(page: Node): (r: Option<string>)
    ensures r == Some("json-ld") <==> Select(page, JsonLdScripts) != []
    ensures r == Some("microdata") <==> Select(page, JsonLdScripts) == [] && Select(page, MicrodataScheme.scope) != []
    ensures r == Some("RDFa") <==>
      Select(page, JsonLdScripts) == [] && Select(page, MicrodataScheme.scope) == [] && Select(page, RdfaScheme.scope) != []
    ensures r.None? <==>
      Select(page, JsonLdScripts) == [] && Select(page, MicrodataScheme.scope) == [] && Select(page, RdfaScheme.scope) == []
  {
    if Select(page, JsonLdScripts) != [] then Some("json-ld")
    else if Select(page, MicrodataScheme.scope) != [] then Some("microdata")
    else if Select(page, RdfaScheme.scope) != [] then Some("RDFa")
    else None
  }

  /** `zip(a, b)` filtered on equal pairs: the segments equal at the same position. */
  function Common(a: seq<string>, b: seq<string>): (r: seq<string>)
    ensures |r| <= |a| && |r| <= |b|
  {
    if a == [] || b == [] then []
    else (if a[0] == b[0] then [a[0]] else []) + Common(a[1..], b[1..])
  }

  /** Every common segment is a segment of both paths. */
  lemma {:induction false} CommonInBoth(a: seq<string>, b: seq<string>)
    ensures forall k :: 0 <= k < |Common(a, b)| ==> Common(a, b)[k] in a && Common(a, b)[k] in b
  {
    if a != [] && b != [] {
      var rest := Common(a[1..], b[1..]);
      CommonInBoth(a[1..], b[1..]);
      assert forall x :: x in rest ==> x in a[1..] && x in b[1..];
      assert forall x :: x in a[1..] ==> x in a;
      assert forall x :: x in b[1..] ==> x in b;
    }
  }

  /** `path[:-1]`: the path without its last character. */
  function Dir(path: string): string {
    if path == [] then [] else path[..|path| - 1]
  }

  /** The prefix a link suggests: the segments of the sample's directory that the link's
      path repeats at the same positions, joined by "/". */
  function LinkPrefix(samplePath: string, linkPath: string): string {
    Join(Common(Split(Dir(samplePath), '/'), Split(linkPath, '/')), "/")
  }

  /** A link repeats itself entirely. */
  lemma {:induction false} CommonSelf(a: seq<string>)
    ensures Common(a, a) == a
    decreases |a|
  {
    if a != [] {
      CommonSelf(a[1..]);
    }
  }

  /** A link below the sample's directory has that directory's segments in common with
      it, whatever follows. */
  lemma {:induction false} CommonOfExtension(a: seq<string>, rest: seq<string>)
    ensures Common(a, a + rest) == a
    decreases |a|
  {
    if a != [] {
      assert (a + rest)[1..] == a[1..] + rest;
      CommonOfExtension(a[1..], rest);
    }
  }

  /** The kept segments need not be adjacent: the directory "/a/x/c" and the link path
      "/a/y/c/d" have "", "a" and "c" in common, which join to "/a/c". */
  lemma GapsAreSkipped()
    ensures Common(["", "a", "x", "c"], ["", "a", "y", "c", "d"]) == ["", "a", "c"]
    ensures Join(["", "a", "c"], "/") == "/a/c"
  {
    assert "x" != "y" by { assert "x"[0] != "y"[0]; }
    CommonSkipsGap("", "a", "x", "y", "c", "d");
    JoinSlashes();
  }

  /** Segments equal at the same position are kept, a differing one in between dropped. */
  lemma CommonSkipsGap(e: string, a: string, x: string, y: string, c: string, d: string)
    requires x != y
    ensures Common([e, a, x, c], [e, a, y, c, d]) == [e, a, c]
  {
    CommonStep(c, c, [], [d]);
    assert [c] + [] == [c] && [c] + [d] == [c, d];
    CommonStep(x, y, [c], [c, d]);
    assert [x] + [c] == [x, c] && [y] + [c, d] == [y, c, d];
    CommonStep(a, a, [x, c], [y, c, d]);
    assert [a] + [x, c] == [a, x, c] && [a] + [y, c, d] == [a, y, c, d];
    CommonStep(e, e, [a, x, c], [a, y, c, d]);
    assert [e] + [a, x, c] == [e, a, x, c] && [e] + [a, y, c, d] == [e, a, y, c, d];
    assert [e] + ([a] + [c]) == [e, a, c];
  }

  lemma JoinSlashes()
    ensures Join(["", "a", "c"], "/") == "/a/c"
  {
    var t := ["", "a", "c"];
    assert t[1..] == ["a", "c"];
    assert t[1..][1..] == ["c"];
    assert Join(["a", "c"], "/") == "a" + "/" + "c";
    assert "a" + "/" + "c" == "a/c";
    assert "" + "/" + "a/c" == "/a/c";
  }

  lemma CommonStep(x: string, y: string, a: seq<string>, b: seq<string>)
    ensures Common([x] + a, [y] + b) == (if x == y then [x] else []) + Common(a, b)
  {
    assert ([x] + a)[1..] == a && ([y] + b)[1..] == b;
  }

  /** A link is considered when it is relative or on the sample's host. */
  predicate Eligible(sample: Url, link: Url) {
    link.netloc == "" || link.netloc == sample.netloc
  }

  /** The prefixes the links of `nodes` suggest. */
  function Prefixes(urlparse: string -> Url, sample: Url, nodes: seq<Node>): set<string>
    requires forall k :: 0 <= k < |nodes| ==> "href" in nodes[k].attrs
  {
    if nodes == [] then {}
    else
      var last := nodes[|nodes| - 1];
      var link := Parse(urlparse, last.attrs["href"]);
      Prefixes(urlparse, sample, nodes[..|nodes| - 1])
        + (if Eligible(sample, link) then {LinkPrefix(sample.path, link.path)} else {})
  }

  /** `node` is an eligible link whose prefix is `p`. */
  predicate Suggests(urlparse: string -> Url, sample: Url, node: Node, p: string) {
    "href" in node.attrs
    && var link := Parse(urlparse, node.attrs["href"]);
       Eligible(sample, link) && p == LinkPrefix(sample.path, link.path)
  }

  /** The prefixes are exactly those of the eligible links. */
  lemma PrefixesOfEligible(urlparse: string -> Url, sample: Url, nodes: seq<Node>, p: string)
    requires forall k :: 0 <= k < |nodes| ==> "href" in nodes[k].attrs
    ensures p in Prefixes(urlparse, sample, nodes) <==> exists k :: 0 <= k < |nodes| && Suggests(urlparse, sample, nodes[k], p)
  {
    if p in Prefixes(urlparse, sample, nodes) {
      var k := SuggestedBy(urlparse, sample, nodes, p);
    }
    if exists k :: 0 <= k < |nodes| && Suggests(urlparse, sample, nodes[k], p) {
      var k :| 0 <= k < |nodes| && Suggests(urlparse, sample, nodes[k], p);
      SuggestionKept(urlparse, sample, nodes, p, k);
    }
  }

  /** Every prefix comes from an eligible link. */
  lemma {:induction false} SuggestedBy(urlparse: string -> Url, sample: Url, nodes: seq<Node>, p: string) returns (k: nat)
    requires forall k :: 0 <= k < |nodes| ==> "href" in nodes[k].attrs
    requires p in Prefixes(urlparse, sample, nodes)
    ensures k < |nodes| && Suggests(urlparse, sample, nodes[k], p)
    decreases |nodes|
  {
    var n := |nodes| - 1;
    var init := nodes[..n];
    PrefixesLast(urlparse, sample, nodes, p);
    if p in Prefixes(urlparse, sample, init) {
      k := SuggestedBy(urlparse, sample, init, p);
      assert nodes[k] == init[k];
    } else {
      k := n;
    }
  }

  /** The prefix of every eligible link is kept. */
  lemma {:induction false} SuggestionKept(urlparse: string -> Url, sample: Url, nodes: seq<Node>, p: string, k: nat)
    requires forall k :: 0 <= k < |nodes| ==> "href" in nodes[k].attrs
    requires k < |nodes| && Suggests(urlparse, sample, nodes[k], p)
    ensures p in Prefixes(urlparse, sample, nodes)
    decreases |nodes|
  {
    var n := |nodes| - 1;
    var init := nodes[..n];
    PrefixesLast(urlparse, sample, nodes, p);
    if k < n {
      assert nodes[k] == init[k];
      SuggestionKept(urlparse, sample, init, p, k);
    }
  }

  lemma PrefixesLast(urlparse: string -> Url, sample: Url, nodes: seq<Node>, p: string)
    requires nodes != [] && forall k :: 0 <= k < |nodes| ==> "href" in nodes[k].attrs
    ensures p in Prefixes(urlparse, sample, nodes)
      <==> p in Prefixes(urlparse, sample, nodes[..|nodes| - 1]) || Suggests(urlparse, sample, nodes[|nodes| - 1], p)
  {
  }

  lemma PrefixesStep(urlparse: string -> Url, sample: Url, nodes: seq<Node>, i: nat)
    requires i < |nodes| && forall k :: 0 <= k < |nodes| ==> "href" in nodes[k].attrs
    ensures var link := Parse(urlparse, nodes[i].attrs["href"]);
      Prefixes(urlparse, sample, nodes[..i + 1])
      == Prefixes(urlparse, sample, nodes[..i]) + (if Eligible(sample, link) then {LinkPrefix(sample.path, link.path)} else {})
  {
    assert nodes[..i + 1][..i] == nodes[..i];
  }

  /** `p` is one of the longest strings of `s`. */
  predicate Longest(p: string, s: set<string>) {
    p in s && forall q :: q in s ==> |q| <= |p|
  }

  /** A non-empty set of prefixes has a longest one. */
  lemma {:induction false} LongestExists(s: set<string>)
    requires s != {}
    ensures exists p :: Longest(p, s)
    decreases |s|
  {
    var x :| x in s;
    if s != {x} {
      LongestExists(s - {x});
      var p :| Longest(p, s - {x});
      if |x| > |p| {
        assert Longest(x, s);
      } else {
        assert Longest(p, s);
      }
    } else {
      assert Longest(x, s);
    }
  }

  /** The profile keys, with `None` for an undetected method. */
  function ProfileMap(baseUrl: string, linkPrefix: string, extractMethod: Option<string>): (r: map<string, Option<string>>)
    ensures r.Keys == {"base_url", "link_prefix", "extract_method"}
  {
    map["base_url" := Some(baseUrl), "link_prefix" := Some(linkPrefix), "extract_method" := extractMethod]
  }

  /** The profile with its `None` values dropped. For `base_url` and `extract_method`,
      whose `.get` defaults are `None`, this is how `Collector.__init__` reads them. */
  function Present(profile: map<string, Option<string>>): (r: map<string, string>)
    ensures forall k :: k in r <==> k in profile && profile[k].Some?
    ensures forall k :: k in r ==> r[k] == profile[k].value
  {
    map k | k in profile && profile[k].Some? :: profile[k].value
  }

  /** Of a built profile only an undetected `extract_method` is dropped: `base_url` and
      `link_prefix` are always present. */
  lemma PresentProfileMap(baseUrl: string, linkPrefix: string, extractMethod: Option<string>)
    ensures var r := Present(ProfileMap(baseUrl, linkPrefix, extractMethod));
      "base_url" in r && r["base_url"] == baseUrl
      && "link_prefix" in r && r["link_prefix"] == linkPrefix
      && ("extract_method" in r <==> extractMethod.Some?)
      && ("extract_method" in r ==> r["extract_method"] == extractMethod.value)
  {
  }

  /** A built profile configures a collector exactly when a markup scheme was detected,
      and the collector then reads records by the scheme whose marker the sample page
      carries. */
  lemma BuiltProfileConfigures(page: Node, baseUrl: string, linkPrefix: string)
    ensures var r := Collector.Configure(Present(ProfileMap(baseUrl, linkPrefix, DetectScheme(page))));
      (r.Ok? <==> DetectScheme(page).Some?)
      && (r.Ok? ==> r.value.baseUrl == baseUrl && r.value.linkPrefix == linkPrefix)
      && (r.Ok? && r.value.extraction == Collector.JsonLd ==> Select(page, JsonLdScripts) != [])
      && (r.Ok? && r.value.extraction.Html? ==> Select(page, r.value.extraction.scheme.scope) != [])
  {
    var profile := Present(ProfileMap(baseUrl, linkPrefix, DetectScheme(page)));
    assert "base_url" in profile;
    if DetectScheme(page).Some? {
      assert profile["extract_method"] == DetectScheme(page).value;
    } else {
      assert "extract_method" !in profile;
    }
  }

  /** The loop of `__init__` over the page's links. */
  method CollectPrefixes(urlparse: string -> Url, sample: Url, nodes: seq<Node>) returns (prefixes: set<string>)
    requires forall k :: 0 <= k < |nodes| ==> "href" in nodes[k].attrs
    ensures prefixes == Prefixes(urlparse, sample, nodes)
  {
    prefixes := {};
    for i := 0 to |nodes|
      invariant prefixes == Prefixes(urlparse, sample, nodes[..i])
    {
      PrefixesStep(urlparse, sample, nodes, i);
      var r := Parse(urlparse, nodes[i].attrs["href"]);
      if r.netloc != "" && r.netloc != sample.netloc {
        continue;
      }
      var prefix := LinkPrefix(sample.path, r.path);
      prefixes := prefixes + {prefix};
    }
    assert nodes[..|nodes|] == nodes;
  }

  /** The link prefix: a longest suggested prefix resolved against the base url, or the
      base url itself. */
  method ChoosePrefix(resolve: (string, string) -> string, base: string, prefixes: set<string>) returns (r: string)
    ensures prefixes == {} ==> r == base
    ensures prefixes != {} ==> exists p :: Longest(p, prefixes) && r == Urljoin(resolve, base, p)
  {
    if |prefixes| > 0 {
      LongestExists(prefixes);
      var p :| Longest(p, prefixes);
      r := Urljoin(resolve, base, p);
    } else {
      r := base;
    }
  }

  /** The builder for one sample url whose page has been fetched and parsed. */
  class Builder {
    const url: string
    var baseUrl: string
    var extractMethod: Option<string>
    var linkPrefix: string

    /** `__init__` after the fetch: the base url, the scheme, and the link prefix made of
        the longest prefix the links suggest, or the base url when none is eligible. */
    constructor (url: string, page: Node, urlparse: string -> Url, resolve: (string, string) -> string)
      ensures this.url == url
      ensures baseUrl == BaseUrl(Parse(urlparse, url))
      ensures extractMethod == DetectScheme(page)
      ensures var ps := Prefixes(urlparse, Parse(urlparse, url), Select(page, HasAttr("href")));
        (ps == {} ==> linkPrefix == baseUrl)
        && (ps != {} ==> exists p :: Longest(p, ps) && linkPrefix == Urljoin(resolve, baseUrl, p))
    {
      this.url := url;
      var result := Parse(urlparse, url);
      var base := BaseUrl(result);
      var prefixes := CollectPrefixes(urlparse, result, Select(page, HasAttr("href")));
      var prefix := ChoosePrefix(resolve, base, prefixes);
      baseUrl := base;
      extractMethod := DetectScheme(page);
      linkPrefix := prefix;
    }

    /** `get_profile`: the three settings, keyed as a site profile. */
    method GetProfile() returns (profile: map<string, Option<string>>)
      ensures profile.Keys == {"base_url", "link_prefix", "extract_method"}
      ensures profile["base_url"] == Some(baseUrl) && profile["link_prefix"] == Some(linkPrefix)
      ensures profile["extract_method"] == extractMethod
    {
      profile := ProfileMap(baseUrl, linkPrefix, extractMethod);
    }
  }
}
