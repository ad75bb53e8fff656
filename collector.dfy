/** `Collector` (collection/collector.py): configuration from a site profile, the retrying
    fetch, link gathering, the level-by-level crawl, record extraction and validation,
    and the update pass over stored recipes. */
module Collector {
  import opened Wrappers
  import opened Text
  import opened Values
  import opened Page
  import opened Extract
  import opened Fetch
  import opened Services

  // ----- configuration ----------------------------------------------------------------

  /** How records are read from a page. */
  datatype Extraction = JsonLd | Html(scheme: Scheme)

  /** What the constructor takes from the site profile. */
  datatype Setup = Setup(baseUrl: string, linkPrefix: string, extraction: Extraction)

  /** Why the constructor raises. */
  datatype ConfigError = NoBaseUrl | InvalidMethod

  /** The extraction method a profile names: "json-ld", "microdata" or "RDFa". */
  function MethodNamed(name: string): (m: Option<Extraction>)
    ensures m.Some? <==> name in {"json-ld", "microdata", "RDFa"}
    ensures m == Some(JsonLd) <==> name == "json-ld"
    ensures m == Some(Html(MicrodataScheme)) <==> name == "microdata"
    ensures m == Some(Html(RdfaScheme)) <==> name == "RDFa"
  {
    if name == "microdata" then Some(Html(MicrodataScheme))
    else if name == "RDFa" then Some(Html(RdfaScheme))
    else if name == "json-ld" then Some(JsonLd)
    else None
  }

  /** The profile checks of `__init__`: a base url is required, the link prefix defaults
      to "", and the extraction method must be one of the three known names. */
  function Configure(profile: map<string, string>): (r: Result<Setup, ConfigError>)
    ensures "base_url" !in profile ==> r == Err(NoBaseUrl)
    ensures "base_url" in profile ==>
      (r.Ok? <==> "extract_method" in profile && profile["extract_method"] in {"json-ld", "microdata", "RDFa"})
    ensures r.Ok? ==>
      r.value.baseUrl == profile["base_url"]
      && r.value.linkPrefix == (if "link_prefix" in profile then profile["link_prefix"] else "")
      && Some(r.value.extraction) == MethodNamed(profile["extract_method"])
  {
    if "base_url" !in profile then Err(NoBaseUrl)
    else
      var prefix := if "link_prefix" in profile then profile["link_prefix"] else "";
      var m := if "extract_method" in profile then MethodNamed(profile["extract_method"]) else None;
      match m
      case Some(e) => Ok(Setup(profile["base_url"], prefix, e))
      case None => Err(InvalidMethod)
  }

  // ----- links ------------------------------------------------------------------------

  /** The prefix of a line before its first '\n'. */
  function LineRest(s: string): (r: nat)
    ensures r <= |s| && '\n' !in s[..r] && (r < |s| ==> s[r] == '\n')
  {
    if s == [] || s[0] == '\n' then 0 else LineRest(s[1..]) + 1
  }

  /** `re.sub("\?.*", "", s)`: every '?' and the rest of its line (`.` does not match a
      newline) are removed. */
  function StripQuery(s: string): (r: string)
    ensures '?' !in r
    ensures |r| <= |s|
    decreases |s|
  {
    if s == [] then []
    else if s[0] == '?' then StripQuery(s[LineRest(s)..])
    else [s[0]] + StripQuery(s[1..])
  }

  /** On a one-line link, everything from the first '?' on is removed. */
  lemma {:induction false} StripQueryOneLine(s: string, k: nat)
    requires '\n' !in s && k <= |s| && '?' !in s[..k] && (k < |s| ==> s[k] == '?')
    ensures StripQuery(s) == s[..k]
    decreases |s|
  {
    if s != [] {
      if s[0] == '?' {
        assert LineRest(s) == |s|;
      } else {
        assert s[1..][..k - 1] == s[1..k];
        StripQueryOneLine(s[1..], k - 1);
        assert s[..k] == [s[0]] + s[1..k];
      }
    }
  }

  /** No duplicates. */
  predicate Distinct(s: seq<string>) {
    forall i, j :: 0 <= i < j < |s| ==> s[i] != s[j]
  }

  /** The queue after offering it `cands` in order: a candidate is appended when it is in
      neither the queue (as it has grown so far) nor `links`. */
  function Enqueue(queue: seq<string>, links: seq<string>, cands: seq<string>): seq<string>
    decreases |cands|
  {
    if cands == [] then queue
    else
      var c := cands[0];
      Enqueue(if c !in queue + links then queue + [c] else queue, links, cands[1..])
  }

  /** The queue only grows; every link added is a candidate in neither the old queue nor
      `links`; every candidate ends up queued or in `links`; no link is queued twice. */
  lemma {:induction false} EnqueueFacts(queue: seq<string>, links: seq<string>, cands: seq<string>)
    decreases |cands|
    ensures var r := Enqueue(queue, links, cands);
      |queue| <= |r| && r[..|queue|] == queue
      && (forall k :: |queue| <= k < |r| ==> r[k] in cands && r[k] !in links && r[k] !in queue)
      && (forall c :: c in cands ==> c in r || c in links)
      && (Distinct(queue) ==> Distinct(r))
  {
    if cands != [] {
      var c := cands[0];
      var next := if c !in queue + links then queue + [c] else queue;
      EnqueueFacts(next, links, cands[1..]);
      var r := Enqueue(next, links, cands[1..]);
      assert r[..|queue|] == next[..|queue|] == queue;
      assert forall x :: x in cands[1..] ==> x in cands;
      assert c in r || c in links by { assert c in next || c in links; assert c in next ==> c in r[..|next|]; }
      if Distinct(queue) {
        assert Distinct(next);
      }
    }
  }

  // ----- update pass ------------------------------------------------------------------

  /** The `$set` document of `update_recipes`: the whole record, or only the fields the
      stored document `existing` lacks; `update_time` in both cases. */
  function Updates(record: Record, existing: Record, overwrite: bool, now: nat): (u: Record)
    ensures u.Keys == (if overwrite then record.Keys else record.Keys - existing.Keys) + {"update_time"}
    ensures u["update_time"] == Time(now)
    ensures forall k :: k in u && k != "update_time" ==> u[k] == record[k]
  {
    var fields := if overwrite then record else map k | k in record && k !in existing :: record[k];
    fields["update_time" := Time(now)]
  }

  /** In additive mode no stored field changes except `update_time`, and every extracted
      field ends up present. */
  lemma AdditiveKeepsStoredFields(record: Record, existing: Record, now: nat)
    ensures var merged := existing + Updates(record, existing, false, now);
      (forall k :: k in existing && k != "update_time" ==> merged[k] == existing[k])
      && record.Keys <= merged.Keys && merged["update_time"] == Time(now)
  {
  }

  /** In overwrite mode every extracted field takes the extracted value. */
  lemma OverwriteTakesExtracted(record: Record, existing: Record, now: nat)
    ensures var merged := existing + Updates(record, existing, true, now);
      (forall k :: k in record && k != "update_time" ==> merged[k] == record[k])
      && (forall k :: k in existing && k !in record && k != "update_time" ==> merged[k] == existing[k])
  {
  }

  /** Applications of the library functions the collector is given. Going through these
      heap-independent functions keeps the library calls apart from the collector's state. */
  function Decode(parseJson: string -> Option<Value>, text: string): Option<Value> {
    parseJson(text)
  }

  function Urljoin(resolve: (string, string) -> string, base: string, link: string): string {
    resolve(base, link)
  }

  function PrefixMatch(matchesPrefix: string -> bool, link: string): bool {
    matchesPrefix(link)
  }

  /** Offering `[c] + rest` is offering `c`, then `rest`. */
  lemma EnqueueCons(queue: seq<string>, links: seq<string>, c: string, rest: seq<string>)
    ensures Enqueue(queue, links, [c] + rest)
      == Enqueue(if c !in queue + links then queue + [c] else queue, links, rest)
  {
    assert ([c] + rest)[1..] == rest;
  }

  /** `after` is `before` with links appended that are new to `before` and to `links`,
      and it stays duplicate-free when `before` was. */
  predicate Grew(before: seq<string>, after: seq<string>, links: seq<string>) {
    |before| <= |after| && after[..|before|] == before
    && (forall k :: |before| <= k < |after| ==> after[k] !in links && after[k] !in before)
    && (Distinct(before) ==> Distinct(after))
  }

  lemma EnqueueGrew(queue: seq<string>, links: seq<string>, cands: seq<string>)
    ensures Grew(queue, Enqueue(queue, links, cands), links)
  {
    EnqueueFacts(queue, links, cands);
  }

  lemma GrewTrans(a: seq<string>, b: seq<string>, c: seq<string>, links: seq<string>)
    requires Grew(a, b, links) && Grew(b, c, links)
    ensures Grew(a, c, links)
  {
    assert c[..|b|][..|a|] == c[..|a|];
    forall k | |a| <= k < |c|
      ensures c[k] !in links && c[k] !in a
    {
      if k < |b| {
        assert c[k] == b[k];
      } else {
        assert c[k] !in b;
        assert forall x :: x in a ==> x in b[..|a|];
      }
    }
  }

  /** `after` is `before` with records appended. */
  predicate Extends(before: seq<Record>, after: seq<Record>) {
    |before| <= |after| && after[..|before|] == before
  }

  lemma ExtendsTrans(a: seq<Record>, b: seq<Record>, c: seq<Record>)
    requires Extends(a, b) && Extends(b, c)
    ensures Extends(a, c)
  {
    assert c[..|b|][..|a|] == c[..|a|];
  }

  /** `after` has the documents of `before`, and only documents with `url` changed,
      each gaining fields and losing none. */
  predicate Touched(before: seq<Record>, after: seq<Record>, url: string) {
    |after| == |before|
    && forall i :: 0 <= i < |before| && after[i] != before[i] ==>
      HasUrl(before[i], url) && before[i].Keys <= after[i].Keys
  }

  lemma SetFieldsTouched(docs: seq<Record>, url: string, updates: Record)
    ensures Touched(docs, SetFields(docs, url, updates), url)
  {
  }

  lemma TouchedTrans(a: seq<Record>, b: seq<Record>, c: seq<Record>, url: string)
    requires Touched(a, b, url) && Touched(b, c, url)
    ensures Touched(a, c, url)
  {
    forall i | 0 <= i < |a| && c[i] != a[i]
      ensures HasUrl(a[i], url) && a[i].Keys <= c[i].Keys
    {
      if b[i] == a[i] {
        assert HasUrl(b[i], url);
      }
    }
  }

  /** The `$set` documents of a page's records, in order. */
  function UpdatesFor(records: seq<Record>, existing: Record, overwrite: bool, now: nat): seq<Record> {
    seq(|records|, j requires 0 <= j < |records| => Updates(records[j], existing, overwrite, now))
  }

  /** The documents after each of `updates` is `$set`, in turn, on the first document
      with `url`. */
  function SetEach(docs: seq<Record>, url: string, updates: seq<Record>): seq<Record>
    decreases |updates|
  {
    if updates == [] then docs
    else SetFields(SetEach(docs, url, updates[..|updates| - 1]), url, updates[|updates| - 1])
  }

  lemma SetEachStep(docs: seq<Record>, url: string, updates: seq<Record>, j: int)
    requires 0 <= j < |updates|
    ensures SetEach(docs, url, updates[..j + 1]) == SetFields(SetEach(docs, url, updates[..j]), url, updates[j])
  {
    assert updates[..j + 1][..j] == updates[..j];
  }

  /** A document with each of `updates` merged into it, in turn. */
  function MergeEach(d: Record, updates: seq<Record>): Record
    decreases |updates|
  {
    if updates == [] then d else MergeEach(d, updates[..|updates| - 1]) + updates[|updates| - 1]
  }

  /** No update gives the document another url. */
  predicate KeepsUrl(updates: seq<Record>, url: string) {
    forall j :: 0 <= j < |updates| && "url" in updates[j] ==> updates[j]["url"] == Str(url)
  }

  /** Writing a document that keeps its url does not move the first match. */
  lemma FirstWithUrlKept(docs: seq<Record>, url: string, i: nat, d: Record)
    requires FirstWithUrl(docs, url) == Some(i) && HasUrl(d, url)
    ensures FirstWithUrl(docs[i := d], url) == Some(i)
  {
    var e := docs[i := d];
    assert HasUrl(e[i], url);
    assert forall j :: 0 <= j < i ==> e[j] == docs[j];
  }

  /** While no update changes the url, every update lands on the same document: the first
      one with `url`, which takes each update in turn. */
  lemma {:induction false} SetEachMerges(docs: seq<Record>, url: string, updates: seq<Record>)
    requires KeepsUrl(updates, url)
    decreases |updates|
    ensures match FirstWithUrl(docs, url)
      case None => SetEach(docs, url, updates) == docs
      case Some(i) =>
        SetEach(docs, url, updates) == docs[i := MergeEach(docs[i], updates)]
        && HasUrl(MergeEach(docs[i], updates), url)
  {
    if updates != [] {
      var front := updates[..|updates| - 1];
      var u := updates[|updates| - 1];
      assert KeepsUrl(front, url) by {
        forall j | 0 <= j < |front| && "url" in front[j] ensures front[j]["url"] == Str(url) {
          assert front[j] == updates[j];
        }
      }
      SetEachMerges(docs, url, front);
      match FirstWithUrl(docs, url)
      case None =>
      case Some(i) =>
        var m := MergeEach(docs[i], front);
        FirstWithUrlKept(docs, url, i, m);
        assert docs[i := m][i := m + u] == docs[i := m + u];
    }
  }

  /** Merging updates that hold no stored field but `update_time` keeps every stored field,
      and every updated field is present afterwards. */
  lemma {:induction false} MergeKeeps(d: Record, updates: seq<Record>)
    requires forall j, k :: 0 <= j < |updates| && k in updates[j] && k in d ==> k == "update_time"
    decreases |updates|
    ensures forall k :: k in d && k != "update_time" ==> k in MergeEach(d, updates) && MergeEach(d, updates)[k] == d[k]
    ensures forall j, k :: 0 <= j < |updates| && k in updates[j] ==> k in MergeEach(d, updates)
  {
    if updates != [] {
      var front := updates[..|updates| - 1];
      var last := updates[|updates| - 1];
      MergeKeeps(d, front);
      var m := MergeEach(d, front);
      assert MergeEach(d, updates) == m + last;
      forall j, k | 0 <= j < |updates| && k in updates[j]
        ensures k in m + last
      {
        if j < |front| {
          assert k in front[j];
          assert k in m;
        } else {
          assert k in last;
        }
      }
    }
  }

  /** Merging keeps the fields no update holds, and the last update's fields win. */
  lemma {:induction false} MergeLastWins(d: Record, updates: seq<Record>)
    decreases |updates|
    ensures var m := MergeEach(d, updates);
      (forall k :: k in d && (forall j :: 0 <= j < |updates| ==> k !in updates[j]) ==> k in m && m[k] == d[k])
      && (updates != [] ==> forall k :: k in updates[|updates| - 1] ==> k in m && m[k] == updates[|updates| - 1][k])
  {
    if updates != [] {
      var front := updates[..|updates| - 1];
      MergeLastWins(d, front);
      forall k | k in d && (forall j :: 0 <= j < |updates| ==> k !in updates[j])
        ensures forall j :: 0 <= j < |front| ==> k !in front[j]
      {
        forall j | 0 <= j < |front| ensures k !in front[j] {
          assert front[j] == updates[j];
        }
      }
    }
  }

  /** In additive mode the `$set` documents hold no field the stored document has but
      `update_time`, so they never change its url. */
  lemma AdditiveUpdates(records: seq<Record>, existing: Record, url: string, now: nat)
    requires HasUrl(existing, url)
    ensures var us := UpdatesFor(records, existing, false, now);
      KeepsUrl(us, url)
      && (forall j, k :: 0 <= j < |us| && k in us[j] && k in existing ==> k == "update_time")
      && (forall j, k :: 0 <= j < |records| && k in records[j] ==> k in us[j] || k in existing)
  {
  }

  /** In overwrite mode each `$set` document is the record plus `update_time`. */
  lemma OverwriteUpdates(records: seq<Record>, existing: Record, url: string, now: nat)
    requires KeepsUrl(records, url)
    ensures var us := UpdatesFor(records, existing, true, now);
      KeepsUrl(us, url)
      && forall j :: 0 <= j < |records| ==> us[j].Keys == records[j].Keys + {"update_time"}
  {
    var us := UpdatesFor(records, existing, true, now);
    forall j | 0 <= j < |us| && "url" in us[j] ensures us[j]["url"] == Str(url) {
      assert "url" in records[j];
    }
  }

  /** The JSON-LD candidates are stamped with the page's url. */
  lemma {:induction false} JsonLdStamped(parsed: seq<Option<Value>>, store: set<string>, url: string, now: nat)
    decreases |parsed|
    ensures KeepsUrl(JsonLdCandidates(parsed, store, url, now), url)
  {
    if parsed != [] {
      JsonLdStamped(parsed[1..], store, url, now);
      var head := AsList(JsonLdCandidate(parsed[0], store, url, now));
      var rest := JsonLdCandidates(parsed[1..], store, url, now);
      var all := head + rest;
      forall j | 0 <= j < |all| && "url" in all[j] ensures all[j]["url"] == Str(url) {
        if j >= |head| {
          assert all[j] == rest[j - |head|];
        }
      }
    }
  }

  /** So are the copies of an HTML candidate. */
  lemma CopiesStamped(c: Record, n: nat, url: string)
    requires "url" in c ==> c["url"] == Str(url)
    ensures KeepsUrl(Copies(c, n), url)
  {
  }

  /** Validation drops fields but changes none, so it keeps a url stamp. */
  lemma {:induction false} AcceptedKeepsUrl(cands: seq<Record>, required: seq<string>, url: string)
    requires KeepsUrl(cands, url)
    decreases |cands|
    ensures KeepsUrl(Accepted(cands, required), url)
  {
    if cands != [] {
      assert KeepsUrl(cands[1..], url) by {
        forall j | 0 <= j < |cands[1..]| && "url" in cands[1..][j] ensures cands[1..][j]["url"] == Str(url) {
          assert cands[1..][j] == cands[j + 1];
        }
      }
      AcceptedKeepsUrl(cands[1..], required, url);
      var c := StripEmpty(cands[0]);
      var head := if HasAll(c, required) then [c] else [];
      var rest := Accepted(cands[1..], required);
      var all := head + rest;
      forall j | 0 <= j < |all| && "url" in all[j] ensures all[j]["url"] == Str(url) {
        if j >= |head| {
          assert all[j] == rest[j - |head|];
        }
      }
    }
  }

  /** The additive `$set`s of `records` change only the first document with `url`: each
      of its fields but `update_time` keeps its value, and every record field is present. */
  lemma AdditiveSetEach(docs: seq<Record>, url: string, records: seq<Record>, now: nat)
    requires Stored(docs, url)
    ensures var i := FirstWithUrl(docs, url).value;
      var r := SetEach(docs, url, UpdatesFor(records, docs[i], false, now));
      |r| == |docs|
      && (forall j :: 0 <= j < |docs| && j != i ==> r[j] == docs[j])
      && (forall k :: k in docs[i] && k != "update_time" ==> k in r[i] && r[i][k] == docs[i][k])
      && (forall rec, k :: rec in records && k in rec ==> k in r[i])
  {
    var i := FirstWithUrl(docs, url).value;
    var us := UpdatesFor(records, docs[i], false, now);
    AdditiveUpdates(records, docs[i], url, now);
    SetEachMerges(docs, url, us);
    MergeKeeps(docs[i], us);
    forall rec, k | rec in records && k in rec
      ensures k in MergeEach(docs[i], us)
    {
      var j :| 0 <= j < |records| && records[j] == rec;
      assert k in us[j] || k in docs[i];
    }
  }

  /** What an overwriting pass leaves in the document `before` became: the last record's
      fields take its values, and a field no record holds keeps its value. */
  predicate OverwriteOutcome(before: Record, after: Record, records: seq<Record>) {
    (records != [] ==> forall k :: k in records[|records| - 1] && k != "update_time" ==>
       k in after && after[k] == records[|records| - 1][k])
    && (forall k :: k in before && k != "update_time" && (forall rec :: rec in records ==> k !in rec) ==>
         k in after && after[k] == before[k])
  }

  /** The overwriting `$set`s of `records`, which keep the url, change only the first
      document with `url`, as OverwriteOutcome says. */
  lemma OverwriteSetEach(docs: seq<Record>, url: string, records: seq<Record>, now: nat)
    requires Stored(docs, url) && KeepsUrl(records, url)
    ensures var i := FirstWithUrl(docs, url).value;
      var r := SetEach(docs, url, UpdatesFor(records, docs[i], true, now));
      |r| == |docs|
      && (forall j :: 0 <= j < |docs| && j != i ==> r[j] == docs[j])
      && OverwriteOutcome(docs[i], r[i], records)
  {
    var i := FirstWithUrl(docs, url).value;
    var us := UpdatesFor(records, docs[i], true, now);
    OverwriteUpdates(records, docs[i], url, now);
    SetEachMerges(docs, url, us);
    MergeLastWins(docs[i], us);
    forall k | k in docs[i] && k != "update_time" && (forall rec :: rec in records ==> k !in rec)
      ensures forall j :: 0 <= j < |us| ==> k !in us[j]
    {
      forall j | 0 <= j < |us| ensures k !in us[j] {
        assert records[j] in records;
      }
    }
  }

  /** No document is added or removed, and a changed document had one of `urls` and lost
      no field. */
  predicate Revised(before: seq<Record>, after: seq<Record>, urls: seq<string>) {
    |after| == |before|
    && forall i :: 0 <= i < |before| && after[i] != before[i] ==>
      (exists u :: u in urls && HasUrl(before[i], u)) && before[i].Keys <= after[i].Keys
  }

  lemma {:induction false} SetEachTouched(docs: seq<Record>, url: string, updates: seq<Record>)
    decreases |updates|
    ensures Touched(docs, SetEach(docs, url, updates), url)
  {
    if updates != [] {
      var m := SetEach(docs, url, updates[..|updates| - 1]);
      SetEachTouched(docs, url, updates[..|updates| - 1]);
      SetFieldsTouched(m, url, updates[|updates| - 1]);
      TouchedTrans(docs, m, SetEach(docs, url, updates), url);
    }
  }

  /** Touching the documents of one more url keeps the pass a revision of `urls + [url]`. */
  lemma RevisedStep(a: seq<Record>, b: seq<Record>, c: seq<Record>, urls: seq<string>, url: string)
    requires Revised(a, b, urls) && Touched(b, c, url)
    ensures Revised(a, c, urls + [url])
  {
    forall i | 0 <= i < |a| && c[i] != a[i]
      ensures (exists u :: u in urls + [url] && HasUrl(a[i], u)) && a[i].Keys <= c[i].Keys
    {
      if b[i] == a[i] {
        assert url in urls + [url] && HasUrl(a[i], url);
      } else {
        var u :| u in urls && HasUrl(a[i], u);
        assert u in urls + [url];
      }
    }
  }

  // ----- the collector ----------------------------------------------------------------

  /** What the crawl and the update pass change: the collector's `links`, `link_depth`
      and `link_queue`, the stored documents, the outcomes the network has still to give
      and the pauses requested so far. */
  datatype State = State(links: seq<string>, depth: int, queue: seq<string>,
                         docs: seq<Record>, script: seq<Outcome>, pauses: seq<int>)

  /** The hand-over between levels of `process_links`: the queue becomes the list of
      links, the queue is emptied and one level less remains. */
  function Descend(s: State): State {
    s.(links := s.queue, queue := [], depth := s.depth - 1)
  }

  class Collector {
    /** The recipe collection. */
    const collection: Store
    /** Network, sleeps and clock. */
    const env: Env
    const storeFields: set<string>
    const requiredFields: seq<string>
    var links: seq<string>
    var linkDepth: int
    var linkQueue: seq<string>
    const pause: int
    const maxRetries: int
    const retryInterval: int
    const baseUrl: string
    const extraction: Extraction
    /** `urljoin(base, link)`. */
    const resolve: (string, string) -> string
    /** `re.match(link_prefix, link, flags = re.I)` succeeds. */
    const matchesPrefix: string -> bool
    /** `json.loads`, `None` when it raises. */
    const parseJson: string -> Option<Value>

    constructor (collection: Store, env: Env, links: seq<string>, setup: Setup,
                 storeFields: set<string>, requiredFields: seq<string>,
                 linkDepth: int, pause: int, maxRetries: int,
                 resolve: (string, string) -> string, matchesPrefix: string -> bool,
                 parseJson: string -> Option<Value>)
      ensures this.collection == collection && this.env == env
      ensures this.links == links && this.linkDepth == linkDepth && this.linkQueue == []
      ensures this.storeFields == storeFields && this.requiredFields == requiredFields
      ensures this.pause == pause && this.maxRetries == maxRetries && this.retryInterval == 60
      ensures this.baseUrl == setup.baseUrl && this.extraction == setup.extraction
      ensures this.resolve == resolve && this.matchesPrefix == matchesPrefix && this.parseJson == parseJson
    {
      this.collection := collection;
      this.env := env;
      this.storeFields := storeFields;
      this.requiredFields := requiredFields;
      this.links := links;
      this.linkDepth := linkDepth;
      this.linkQueue := [];
      this.pause := pause;
      this.maxRetries := maxRetries;
      this.retryInterval := 60;
      this.baseUrl := setup.baseUrl;
      this.extraction := setup.extraction;
      this.resolve := resolve;
      this.matchesPrefix := matchesPrefix;
      this.parseJson := parseJson;
    }

    // ----- validation and extraction --------------------------------------------------

    /** `validate`: the record without its empty values, and whether every required field
        is still present. */
    method Validate(record: Record) returns (stripped: Record, ok: bool)
      ensures stripped == StripEmpty(record)
      ensures ok <==> HasAll(stripped, requiredFields)
    {
      stripped := record;
      var fields := record.Keys;
      while fields != {}
        invariant fields <= record.Keys
        invariant stripped == map k | k in record && (k in fields || !IsEmpty(record[k])) :: record[k]
        decreases fields
      {
        var f :| f in fields;
        if IsEmpty(stripped[f]) {
          stripped := stripped - {f};
        }
        fields := fields - {f};
      }
      var missing := [];
      var i := 0;
      while i < |requiredFields|
        invariant i <= |requiredFields|
        invariant forall f :: f in missing <==> f in requiredFields[..i] && f !in stripped
      {
        if requiredFields[i] !in stripped {
          missing := missing + [requiredFields[i]];
        }
        assert requiredFields[..i + 1] == requiredFields[..i] + [requiredFields[i]];
        i := i + 1;
      }
      assert requiredFields[..i] == requiredFields;
      ok := |missing| == 0;
      if !ok {
        assert missing[0] in missing;
      }
    }

    /** What `json.loads` makes of a script's text; an empty element has no text. */
    function Block(script: Node): Option<Value> {
      if script.text == "" then None else Decode(parseJson, script.text)
    }

    function Blocks(scripts: seq<Node>): (r: seq<Option<Value>>)
      ensures |r| == |scripts| && forall k :: 0 <= k < |scripts| ==> r[k] == Block(scripts[k])
    {
      seq(|scripts|, k requires 0 <= k < |scripts| => Block(scripts[k]))
    }

    /** The records `extract_from_json_ld` returns for a page. */
    function JsonLdRecords(page: Node, url: string): seq<Record> {
      Accepted(JsonLdCandidates(Blocks(Select(page, JsonLdScripts)), storeFields, url, env.now), requiredFields)
    }

    /** The records `extract_from_html` returns for a page. */
    function HtmlRecords(page: Node, url: string, s: Scheme): seq<Record> {
      Accepted(Copies(HtmlCandidate(page, s, storeFields, url, env.now), |Select(page, s.scope)|), requiredFields)
    }

    /** The records `extract` returns for a page under the configured method. */
    function Extracted(page: Node, url: string): seq<Record> {
      match extraction
      case JsonLd => JsonLdRecords(page, url)
      case Html(s) => HtmlRecords(page, url, s)
    }

    /** `extract_from_json_ld`. */
    method ExtractFromJsonLd(page: Node, url: string) returns (records: seq<Record>)
      ensures records == JsonLdRecords(page, url)
    {
      var scripts := Select(page, JsonLdScripts);
      ghost var blocks := Blocks(scripts);
      records := [];
      var i := 0;
      while i < |scripts|
        invariant i <= |scripts|
        invariant records == Accepted(JsonLdCandidates(blocks[..i], storeFields, url, env.now), requiredFields)
      {
        var block := Block(scripts[i]);
        JsonLdStep(blocks, i, storeFields, url, env.now, requiredFields);
        var added := Admit(JsonLdCandidate(block, storeFields, url, env.now));
        records := records + added;
        i := i + 1;
      }
      assert blocks[..i] == blocks;
    }

    /** The validation step of both extractors for one candidate (`None` for a skipped
        block): the stripped record when it passes, nothing otherwise. */
    method Admit(candidate: Option<Record>) returns (added: seq<Record>)
      ensures added == Admitted(candidate, requiredFields)
    {
      added := [];
      if candidate.Some? {
        var stripped, ok := Validate(candidate.value);
        if ok {
          added := [stripped];
        }
      }
    }

    /** `extract_from_html`: one candidate per recipe scope, all built from absolute lookups. */
    method ExtractFromHtml(page: Node, url: string, s: Scheme) returns (records: seq<Record>)
      ensures records == HtmlRecords(page, url, s)
    {
      var scopes := Select(page, s.scope);
      ghost var c := HtmlCandidate(page, s, storeFields, url, env.now);
      records := [];
      var i := 0;
      while i < |scopes|
        invariant i <= |scopes|
        invariant records == Accepted(Copies(c, i), requiredFields)
      {
        var record := HtmlCandidate(page, s, storeFields, url, env.now);
        HtmlStep(c, i, requiredFields);
        var added := Admit(Some(record));
        records := records + added;
        i := i + 1;
      }
    }

    /** `self.extract`, bound by the constructor. */
    method Extract(page: Node, url: string) returns (records: seq<Record>)
      ensures records == Extracted(page, url)
    {
      match extraction
      case JsonLd => records := ExtractFromJsonLd(page, url);
      case Html(s) => records := ExtractFromHtml(page, url, s);
    }

    /** `get_recipe`: the extracted records are inserted (when there are any) and counted. */
    method GetRecipe(page: Node, url: string) returns (n: nat)
      modifies collection
      ensures collection.docs == old(collection.docs) + Extracted(page, url)
      ensures n == |Extracted(page, url)|
    {
      var records := Extract(page, url);
      if |records| > 0 {
        collection.InsertMany(records);
      }
      n := |records|;
    }

    // ----- fetching -------------------------------------------------------------------

    /** `get_url`, with its counter-driven loop. */
    method GetUrl(url: string) returns (result: Result<Node, FetchError>)
      modifies env
      ensures var (r, used, pauses) := GetUrlSpec(old(env.script), maxRetries, retryInterval);
        result == r && env.script == Drop(old(env.script), used) && env.pauses == old(env.pauses) + pauses
    {
      ghost var s0 := env.script;
      ghost var p0 := env.pauses;
      ghost var e0 := RetryLoop(s0, maxRetries, retryInterval, 0, None);
      var tries: nat := 0;
      var resp: Option<Reply> := None;
      while tries <= maxRetries
        invariant env.script == Drop(s0, tries)
        invariant RetryLoop(s0, maxRetries, retryInterval, tries, resp).tries == e0.tries
        invariant RetryLoop(s0, maxRetries, retryInterval, tries, resp).resp == e0.resp
        invariant p0 + e0.pauses == env.pauses + RetryLoop(s0, maxRetries, retryInterval, tries, resp).pauses
        decreases maxRetries + 1 - tries
      {
        ghost var cur := RetryLoop(s0, maxRetries, retryInterval, tries, resp);
        RetryStep(s0, maxRetries, retryInterval, tries, resp);
        DropNext(s0, tries);
        ghost var before := env.pauses;
        tries := tries + 1;
        var o := env.Request();
        assert o == Attempt(s0, tries - 1);
        match o {
          case Response(status, body) =>
            resp := Some(Reply(status, body));
            if IsHttpError(status) {
              if status == 404 {
                break;
              }
              env.Sleep(retryInterval * tries);
              assert env.pauses + RetryLoop(s0, maxRetries, retryInterval, tries, resp).pauses
                  == before + cur.pauses;
              continue;
            }
          case TimedOut =>
            env.Sleep(retryInterval * tries);
            assert env.pauses + RetryLoop(s0, maxRetries, retryInterval, tries, resp).pauses
                == before + cur.pauses;
            continue;
          case Failed =>
        }
        break;
      }
      assert e0.tries == tries && e0.resp == resp && env.pauses == p0 + e0.pauses;
      if tries > maxRetries {
        result := Err(RetriesExceeded);
        return;
      }
      match resp
      case None => result := Err(NoResponse);
      case Some(Reply(_, None)) => result := Err(Unparsable);
      case Some(Reply(_, Some(page))) => result := Ok(page);
    }

    // ----- links ----------------------------------------------------------------------

    /** The cleaned, resolved target of every element with an `href`, in page order. */
    function Cleaned(nodes: seq<Node>): (r: seq<string>)
      requires forall k :: 0 <= k < |nodes| ==> "href" in nodes[k].attrs
      ensures |r| == |nodes|
    {
      if nodes == [] then []
      else [Urljoin(resolve, baseUrl, StripQuery(nodes[0].attrs["href"]))] + Cleaned(nodes[1..])
    }

    /** The links that pass the `link_prefix` test, in order. */
    function Matching(cands: seq<string>): (r: seq<string>)
      ensures forall k :: 0 <= k < |r| ==> r[k] in cands && PrefixMatch(matchesPrefix, r[k])
      ensures forall c :: c in cands && PrefixMatch(matchesPrefix, c) ==> c in r
    {
      if cands == [] then []
      else (if PrefixMatch(matchesPrefix, cands[0]) then [cands[0]] else []) + Matching(cands[1..])
    }

    /** The links of a page that `get_links` offers to the queue. */
    function Offered(page: Node): seq<string> {
      var nodes := Select(page, HasAttr("href"));
      Matching(Cleaned(nodes))
    }

    /** The cleaned links of `nodes[i..]` are the cleaned `nodes[i]`, then the rest. */
    lemma CleanedStep(nodes: seq<Node>, i: nat)
      requires i < |nodes| && forall k :: 0 <= k < |nodes| ==> "href" in nodes[k].attrs
      ensures Cleaned(nodes[i..])
        == [Urljoin(resolve, baseUrl, StripQuery(nodes[i].attrs["href"]))] + Cleaned(nodes[i + 1..])
    {
      assert nodes[i..][1..] == nodes[i + 1..];
    }

    lemma MatchingCons(c: string, rest: seq<string>)
      ensures Matching([c] + rest) == (if PrefixMatch(matchesPrefix, c) then [c] else []) + Matching(rest)
    {
      assert ([c] + rest)[1..] == rest;
    }

    /** Offering the links of `nodes[i..]` is offering the first one, then the rest. */
    lemma OfferStep(nodes: seq<Node>, i: nat, queue: seq<string>, links: seq<string>, next: seq<string>)
      requires i < |nodes| && forall k :: 0 <= k < |nodes| ==> "href" in nodes[k].attrs
      requires var c := Urljoin(resolve, baseUrl, StripQuery(nodes[i].attrs["href"]));
        next == if PrefixMatch(matchesPrefix, c) && c !in queue + links then queue + [c] else queue
      ensures Enqueue(next, links, Matching(Cleaned(nodes[i + 1..]))) == Enqueue(queue, links, Matching(Cleaned(nodes[i..])))
    {
      var c := Urljoin(resolve, baseUrl, StripQuery(nodes[i].attrs["href"]));
      var rest := Matching(Cleaned(nodes[i + 1..]));
      var all := Matching(Cleaned(nodes[i..]));
      CleanedStep(nodes, i);
      MatchingCons(c, Cleaned(nodes[i + 1..]));
      if PrefixMatch(matchesPrefix, c) {
        assert all == [c] + rest;
        EnqueueCons(queue, links, c, rest);
      } else {
        assert all == rest;
      }
    }

    /** `get_links`: each matching link in neither the queue nor `links` is queued; the
        count is the number queued. */
    method GetLinks(page: Node) returns (count: int)
      modifies this`linkQueue
      ensures linkQueue == Enqueue(old(linkQueue), links, Offered(page))
      ensures count == |linkQueue| - |old(linkQueue)|
    {
      var nodes := Select(page, HasAttr("href"));
      count := 0;
      var i := 0;
      while i < |nodes|
        invariant i <= |nodes|
        invariant Enqueue(linkQueue, links, Matching(Cleaned(nodes[i..]))) == Enqueue(old(linkQueue), links, Offered(page))
        invariant count == |linkQueue| - |old(linkQueue)|
      {
        var cleaned := StripQuery(nodes[i].attrs["href"]);
        cleaned := Urljoin(resolve, baseUrl, cleaned);
        ghost var before := linkQueue;
        if PrefixMatch(matchesPrefix, cleaned) && cleaned !in linkQueue + links {
          linkQueue := linkQueue + [cleaned];
          count := count + 1;
        }
        OfferStep(nodes, i, before, links, linkQueue);
        i := i + 1;
      }
    }


    // ----- the crawl ------------------------------------------------------------------

    /** The collector's fields, its storage and its environment, as one value. */
    function Snapshot(): State
      reads this, env, collection
    {
      State(links, linkDepth, linkQueue, collection.docs, env.script, env.pauses)
    }

    /** One turn of `process_links`' loop, on `url`. A url already stored is skipped at
        depth 0, without a request or a pause. Otherwise the page is fetched; when that
        succeeds its records are stored unless the url already was, and its links are
        queued while levels remain; the pause follows in every case. */
    function Visit(s: State, url: string): State {
      if Stored(s.docs, url) && s.depth == 0 then s else Fetched(s, url, Stored(s.docs, url))
    }

    /** A visit that requests the page. */
    function Fetched(s: State, url: string, duplicate: bool): State {
      var (r, used, pauses) := GetUrlSpec(s.script, maxRetries, retryInterval);
      s.(docs := s.docs + (if r.Ok? && !duplicate then Extracted(r.value, url) else []),
         queue := if r.Ok? && s.depth > 0 then Enqueue(s.queue, s.links, Offered(r.value)) else s.queue,
         script := Drop(s.script, used),
         pauses := s.pauses + pauses + [pause])
    }

    /** The `for url in self.links` loop over `urls`: each url is visited in turn, whatever
        happened at the ones before it. A level keeps its links and its depth. */
    function VisitAll(s: State, urls: seq<string>): (r: State)
      ensures r.links == s.links && r.depth == s.depth
      decreases |urls|
    {
      if urls == [] then s else Visit(VisitAll(s, urls[..|urls| - 1]), urls[|urls| - 1])
    }

    /** `process_links`: the level's links are visited, then the crawl goes on from
        the state they leave. */
    function Crawl(s: State): State
      decreases if s.depth > 0 then s.depth else 0, 1
    {
      CrawlFrom(VisitAll(s, s.links))
    }

    /** After a level's visits: while levels remain, the queue they filled is crawled
        one level shallower. */
    function CrawlFrom(t: State): State
      decreases if t.depth > 0 then t.depth else 0, 0
    {
      if t.depth > 0 then Crawl(Descend(t)) else t
    }

    /** The states the levels of `process_links` start from. */
    function Levels(s: State): seq<State>
      decreases if s.depth > 0 then s.depth else 0
    {
      var t := VisitAll(s, s.links);
      if t.depth > 0 then [s] + Levels(Descend(t)) else [s]
    }

    /** `link_depth + 1` levels are crawled (one when the depth is not positive); each
        level after the first starts from the queue the previous one filled, one level
        shallower and with an empty queue; the crawl ends with the last level's visits. */
    lemma {:induction false} CrawlLevels(s: State)
      decreases if s.depth > 0 then s.depth else 0
      ensures var ls := Levels(s); var last := ls[|ls| - 1];
        |ls| == (if s.depth > 0 then s.depth else 0) + 1 && ls[0] == s
        && (forall i :: 0 <= i < |ls| - 1 ==>
              ls[i].depth > 0 && ls[i + 1] == Descend(VisitAll(ls[i], ls[i].links)))
        && last.depth == (if s.depth > 0 then 0 else s.depth)
        && Crawl(s) == VisitAll(last, last.links)
    {
      var t := VisitAll(s, s.links);
      if t.depth > 0 {
        var d := Descend(t);
        CrawlLevels(d);
        var ls := Levels(s);
        assert ls == [s] + Levels(d);
        forall i | 0 <= i < |ls| - 1
          ensures ls[i].depth > 0 && ls[i + 1] == Descend(VisitAll(ls[i], ls[i].links))
        {
          if i > 0 {
            assert ls[i] == Levels(d)[i - 1] && ls[i + 1] == Levels(d)[i];
          }
        }
      }
    }

    /** A visit only adds documents, only queues links new to the queue and to `links`,
        queues nothing once no level remains, stores nothing for a url already stored,
        and makes no request for a stored url at depth 0. */
    lemma VisitFacts(s: State, url: string)
      ensures var r := Visit(s, url);
        Extends(s.docs, r.docs) && Grew(s.queue, r.queue, s.links)
        && r.links == s.links && r.depth == s.depth
        && (s.depth <= 0 ==> r.queue == s.queue)
        && (Stored(s.docs, url) ==> r.docs == s.docs)
        && (Stored(s.docs, url) && s.depth == 0 ==> r == s)
    {
      var r := Visit(s, url);
      assert r.docs[..|s.docs|] == s.docs;
      var (res, used, pauses) := GetUrlSpec(s.script, maxRetries, retryInterval);
      if res.Ok? && !(Stored(s.docs, url) && s.depth == 0) && s.depth > 0 {
        EnqueueGrew(s.queue, s.links, Offered(res.value));
      }
    }

    /** A fetch that fails changes neither storage nor the queue, and the level goes on
        with the next url. */
    lemma FailedVisit(s: State, url: string, rest: seq<string>)
      requires !(Stored(s.docs, url) && s.depth == 0)
      requires GetUrlSpec(s.script, maxRetries, retryInterval).0.Err?
      ensures var (_, used, pauses) := GetUrlSpec(s.script, maxRetries, retryInterval);
        var r := Visit(s, url);
        r.docs == s.docs && r.queue == s.queue
        && r.script == Drop(s.script, used) && r.pauses == s.pauses + pauses + [pause]
      ensures VisitAll(s, [url] + rest) == VisitAll(Visit(s, url), rest)
    {
      VisitAllCons(s, url, rest);
    }

    lemma {:induction false} VisitAllCons(s: State, url: string, rest: seq<string>)
      ensures VisitAll(s, [url] + rest) == VisitAll(Visit(s, url), rest)
      decreases |rest|
    {
      var urls := [url] + rest;
      if rest != [] {
        var front := rest[..|rest| - 1];
        assert urls[..|urls| - 1] == [url] + front;
        VisitAllCons(s, url, front);
      } else {
        assert urls[..0] == [];
      }
    }

    /** Over a level, storage only grows, the queue only gains links new to it and to
        `links`, and nothing is queued once no level remains. */
    lemma {:induction false} VisitAllFacts(s: State, urls: seq<string>)
      decreases |urls|
      ensures var r := VisitAll(s, urls);
        Extends(s.docs, r.docs) && Grew(s.queue, r.queue, s.links)
        && (s.depth <= 0 ==> r.queue == s.queue)
    {
      if urls != [] {
        var m := VisitAll(s, urls[..|urls| - 1]);
        VisitAllFacts(s, urls[..|urls| - 1]);
        VisitFacts(m, urls[|urls| - 1]);
        ExtendsTrans(s.docs, m.docs, VisitAll(s, urls).docs);
        GrewTrans(s.queue, m.queue, VisitAll(s, urls).queue, s.links);
      }
    }

    /** The whole crawl only adds documents, ends at depth 0 (or at the depth it started
        from when that was not positive) and leaves the queue empty once it descended. */
    lemma {:induction false} CrawlFacts(s: State)
      decreases if s.depth > 0 then s.depth else 0
      ensures var r := Crawl(s);
        Extends(s.docs, r.docs)
        && r.depth == (if s.depth > 0 then 0 else s.depth)
        && r.queue == (if s.depth > 0 then [] else s.queue)
    {
      var t := VisitAll(s, s.links);
      VisitAllFacts(s, s.links);
      if t.depth > 0 {
        var d := Descend(t);
        CrawlFacts(d);
        ExtendsTrans(s.docs, t.docs, Crawl(d).docs);
        if d.depth <= 0 {
          VisitAllFacts(d, d.links);
        }
      }
    }

    /** The body of `process_links`' loop for one url. */
    method VisitUrl(url: string)
      modifies this`linkQueue, env, collection
      ensures Snapshot() == Visit(old(Snapshot()), url)
    {
      var existing := collection.FindOne(url);
      var duplicate := existing.Some?;
      if duplicate && linkDepth == 0 {
        return;
      }
      var data := GetUrl(url);
      if data.Ok? {
        Harvest(data.value, url, duplicate);
      }
      env.Sleep(pause);
    }

    /** The fetched page of one visit: its recipes are stored unless the url already was,
        and its links are queued when there are levels left. */
    method Harvest(page: Node, url: string, duplicate: bool)
      modifies this`linkQueue, collection
      ensures collection.docs == old(collection.docs) + (if !duplicate then Extracted(page, url) else [])
      ensures linkQueue == if linkDepth > 0 then Enqueue(old(linkQueue), links, Offered(page)) else old(linkQueue)
      ensures Grew(old(linkQueue), linkQueue, links)
    {
      if !duplicate {
        var n := GetRecipe(page, url);
      }
      if linkDepth > 0 {
        var n := GetLinks(page);
        EnqueueGrew(old(linkQueue), links, Offered(page));
      }
    }

    /** The `for url in self.links` loop: every url of the level is visited in turn. */
    method ProcessLevel()
      modifies this`linkQueue, env, collection
      ensures Snapshot() == VisitAll(old(Snapshot()), links)
    {
      var i := 0;
      while i < |links|
        invariant i <= |links|
        invariant Snapshot() == VisitAll(old(Snapshot()), links[..i])
      {
        VisitUrl(links[i]);
        assert links[..i + 1][..i] == links[..i];
        i := i + 1;
      }
      assert links[..i] == links;
    }

    /** `process_links`: the level, then, while levels remain, the queue it filled. */
    method ProcessLinks()
      modifies this, env, collection
      decreases if linkDepth > 0 then linkDepth else 0
      ensures Snapshot() == Crawl(old(Snapshot()))
    {
      ghost var s0 := Snapshot();
      ProcessLevel();
      ghost var t := Snapshot();
      assert Crawl(s0) == CrawlFrom(t);
      if linkDepth > 0 {
        links := linkQueue;
        linkQueue := [];
        linkDepth := linkDepth - 1;
        assert Snapshot() == Descend(t);
        ProcessLinks();
      }
    }

    // ----- update pass ----------------------------------------------------------------

    /** One url of `update_recipes`. A url not in storage is skipped without a request.
        Otherwise the page is fetched; a failed fetch skips the url, and the pause with it.
        Otherwise each extracted record is `$set`, in turn, on the first stored document
        with the url, built against that document as found; then the pause. */
    function Update(s: State, url: string, overwrite: bool): State {
      match FirstWithUrl(s.docs, url)
      case None => s
      case Some(i) =>
        var (r, used, pauses) := GetUrlSpec(s.script, maxRetries, retryInterval);
        if r.Err? then s.(script := Drop(s.script, used), pauses := s.pauses + pauses)
        else
          var updates := UpdatesFor(Extracted(r.value, url), s.docs[i], overwrite, env.now);
          s.(docs := SetEach(s.docs, url, updates), script := Drop(s.script, used),
             pauses := s.pauses + pauses + [pause])
    }

    /** The `for url in self.links` loop of `update_recipes` over `urls`. */
    function UpdateAll(s: State, urls: seq<string>, overwrite: bool): State
      decreases |urls|
    {
      if urls == [] then s else Update(UpdateAll(s, urls[..|urls| - 1], overwrite), urls[|urls| - 1], overwrite)
    }

    lemma UpdateAllStep(s: State, urls: seq<string>, k: nat, overwrite: bool)
      requires k < |urls|
      ensures UpdateAll(s, urls[..k + 1], overwrite) == Update(UpdateAll(s, urls[..k], overwrite), urls[k], overwrite)
    {
      assert urls[..k + 1][..k] == urls[..k];
    }

    /** One url's update changes only documents with that url, and they lose no field. */
    lemma UpdateTouched(s: State, url: string, overwrite: bool)
      ensures Touched(s.docs, Update(s, url, overwrite).docs, url)
    {
      var (r, used, pauses) := GetUrlSpec(s.script, maxRetries, retryInterval);
      match FirstWithUrl(s.docs, url)
      case None =>
        assert Touched(s.docs, s.docs, url);
      case Some(i) =>
        if r.Err? {
          assert Touched(s.docs, s.docs, url);
        } else {
          SetEachTouched(s.docs, url, UpdatesFor(Extracted(r.value, url), s.docs[i], overwrite, env.now));
        }
    }

    /** The pass adds and removes no document, and changes only documents whose url it
        lists, each losing no field. */
    lemma {:induction false} UpdateAllRevised(s: State, urls: seq<string>, overwrite: bool)
      decreases |urls|
      ensures Revised(s.docs, UpdateAll(s, urls, overwrite).docs, urls)
    {
      if urls == [] {
        assert Revised(s.docs, s.docs, urls);
      } else {
        var front := urls[..|urls| - 1];
        var url := urls[|urls| - 1];
        var m := UpdateAll(s, front, overwrite);
        UpdateAllRevised(s, front, overwrite);
        UpdateTouched(m, url, overwrite);
        RevisedStep(s.docs, m.docs, Update(m, url, overwrite).docs, front, url);
        assert front + [url] == urls;
      }
    }

    /** In additive mode (`update_existing=False`) one url's update changes only the first
        document with that url; every field it had keeps its value except `update_time`,
        and every field of every extracted record is present afterwards. */
    lemma AdditiveUpdate(s: State, url: string)
      requires Stored(s.docs, url)
      ensures var i := FirstWithUrl(s.docs, url).value;
        var r := Update(s, url, false);
        var (res, _, _) := GetUrlSpec(s.script, maxRetries, retryInterval);
        |r.docs| == |s.docs|
        && (forall j :: 0 <= j < |s.docs| && j != i ==> r.docs[j] == s.docs[j])
        && (forall k :: k in s.docs[i] && k != "update_time" ==> k in r.docs[i] && r.docs[i][k] == s.docs[i][k])
        && (res.Ok? ==> forall rec, k :: rec in Extracted(res.value, url) && k in rec ==> k in r.docs[i])
    {
      var (res, used, pauses) := GetUrlSpec(s.script, maxRetries, retryInterval);
      if res.Ok? {
        AdditiveSetEach(s.docs, url, Extracted(res.value, url), env.now);
      }
    }

    /** In additive mode the whole pass keeps every stored field but `update_time`. */
    lemma {:induction false} AdditivePassKeepsStoredFields(s: State, urls: seq<string>)
      decreases |urls|
      ensures var r := UpdateAll(s, urls, false);
        |r.docs| == |s.docs|
        && forall i, k :: 0 <= i < |s.docs| && k in s.docs[i] && k != "update_time" ==>
             k in r.docs[i] && r.docs[i][k] == s.docs[i][k]
    {
      if urls != [] {
        var front := urls[..|urls| - 1];
        var url := urls[|urls| - 1];
        var m := UpdateAll(s, front, false);
        AdditivePassKeepsStoredFields(s, front);
        if Stored(m.docs, url) {
          AdditiveUpdate(m, url);
        }
      }
    }

    /** In overwrite mode (`update_existing=True`) one url's update changes only the first
        document with that url: the fields of the last extracted record take its values,
        and a stored field no extracted record holds keeps its value. */
    lemma OverwriteUpdate(s: State, url: string)
      requires Stored(s.docs, url)
      ensures var i := FirstWithUrl(s.docs, url).value;
        var r := Update(s, url, true);
        var (res, _, _) := GetUrlSpec(s.script, maxRetries, retryInterval);
        |r.docs| == |s.docs|
        && (forall j :: 0 <= j < |s.docs| && j != i ==> r.docs[j] == s.docs[j])
        && (res.Ok? ==> OverwriteOutcome(s.docs[i], r.docs[i], Extracted(res.value, url)))
    {
      var (res, used, pauses) := GetUrlSpec(s.script, maxRetries, retryInterval);
      if res.Ok? {
        ExtractedKeepsUrl(res.value, url);
        OverwriteSetEach(s.docs, url, Extracted(res.value, url), env.now);
      }
    }

    /** Every extracted record carries the page's url, when it has a url at all. */
    lemma ExtractedKeepsUrl(page: Node, url: string)
      ensures KeepsUrl(Extracted(page, url), url)
    {
      match extraction
      case JsonLd =>
        var blocks := Blocks(Select(page, JsonLdScripts));
        JsonLdStamped(blocks, storeFields, url, env.now);
        AcceptedKeepsUrl(JsonLdCandidates(blocks, storeFields, url, env.now), requiredFields, url);
      case Html(sc) =>
        var c := HtmlCandidate(page, sc, storeFields, url, env.now);
        var n := |Select(page, sc.scope)|;
        CopiesStamped(c, n, url);
        AcceptedKeepsUrl(Copies(c, n), requiredFields, url);
    }

    /** The inner loop of `update_recipes`: the `$set` of each record, in turn. */
    method SetAll(url: string, records: seq<Record>, existing: Record, overwrite: bool)
      modifies collection
      ensures collection.docs == SetEach(old(collection.docs), url, UpdatesFor(records, existing, overwrite, env.now))
    {
      ghost var d0 := collection.docs;
      ghost var us := UpdatesFor(records, existing, overwrite, env.now);
      var j := 0;
      while j < |records|
        invariant j <= |records|
        invariant collection.docs == SetEach(d0, url, us[..j])
      {
        var updates := Updates(records[j], existing, overwrite, env.now);
        SetEachStep(d0, url, us, j);
        collection.UpdateOne(url, updates);
        j := j + 1;
      }
      assert us[..j] == us;
    }

    /** One url of `update_recipes`. */
    method UpdateUrl(url: string, overwrite: bool)
      modifies env, collection
      ensures Snapshot() == Update(old(Snapshot()), url, overwrite)
    {
      var existing := collection.FindOne(url);
      if existing.None? {
        return;
      }
      var data := GetUrl(url);
      if data.Err? {
        return;
      }
      var records := Extract(data.value, url);
      SetAll(url, records, existing.value, overwrite);
      env.Sleep(pause);
    }

    /** `update_recipes`: every url of `links` is updated in turn. */
    method UpdateRecipes(overwrite: bool)
      modifies env, collection
      ensures Snapshot() == UpdateAll(old(Snapshot()), links, overwrite)
    {
      var k := 0;
      while k < |links|
        invariant k <= |links|
        invariant Snapshot() == UpdateAll(old(Snapshot()), links[..k], overwrite)
      {
        UpdateUrl(links[k], overwrite);
        UpdateAllStep(old(Snapshot()), links, k, overwrite);
        k := k + 1;
      }
      assert links[..k] == links;
    }
  }
}
