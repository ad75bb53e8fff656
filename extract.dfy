/** The pure half of collection/collector.py: text concatenation, property lookup and the
    per-block / per-scope record builders that `extract_from_json_ld` and
    `extract_from_html` feed to `validate`. */
module Extract {
  import opened Wrappers
  import opened Text
  import opened Values
  import opened Page

  // ----- concat_text ----------------------------------------------------------------

  /** The string without its spaces (U+0020). */
  function Unspaced(s: string): string {
    if s == [] then [] else (if s[0] == ' ' then [] else [s[0]]) + Unspaced(s[1..])
  }

  lemma {:induction false} UnspacedAppend(a: string, b: string)
    ensures Unspaced(a + b) == Unspaced(a) + Unspaced(b)
  {
    if a != [] {
      assert (a + b)[1..] == a[1..] + b;
      UnspacedAppend(a[1..], b);
    } else {
      assert a + b == b;
    }
  }

  /** `re.sub(" (\W )", "\\1", s)`: scanning left to right, every space followed by a
      non-word character and another space is deleted; matches do not overlap. */
  function Tighten(s: string): (r: string)
    ensures |r| <= |s|
    ensures Unspaced(r) == Unspaced(s)
    ensures s != [] && s[0] != ' ' ==> r != [] && r[0] == s[0]
    ensures s != [] && s[|s| - 1] != ' ' ==> r != [] && r[|r| - 1] == s[|s| - 1]
    ensures ' ' !in s ==> r == s
  {
    if |s| >= 3 && s[0] == ' ' && !IsWordChar(s[1]) && s[2] == ' ' then
      var rest := Tighten(s[3..]);
      TightenSkip(s, rest);
      [s[1], ' '] + rest
    else if s == [] then []
    else
      var rest := Tighten(s[1..]);
      TightenKeep(s, rest);
      [s[0]] + rest
  }

  /** The postconditions of `Tighten`, for `r` the result on `s`. */
  predicate Tightened(s: string, r: string) {
    && |r| <= |s|
    && Unspaced(r) == Unspaced(s)
    && (s != [] && s[0] != ' ' ==> r != [] && r[0] == s[0])
    && (s != [] && s[|s| - 1] != ' ' ==> r != [] && r[|r| - 1] == s[|s| - 1])
    && (' ' !in s ==> r == s)
  }

  /** Keeping the first character. */
  lemma TightenKeep(s: string, rest: string)
    requires s != [] && Tightened(s[1..], rest)
    ensures Tightened(s, [s[0]] + rest)
  {
    var r := [s[0]] + rest;
    assert s == [s[0]] + s[1..];
    UnspacedAppend([s[0]], s[1..]);
    UnspacedAppend([s[0]], rest);
    assert s[1..] != [] ==> s[|s| - 1] == s[1..][|s[1..]| - 1];
    assert ' ' !in s ==> ' ' !in s[1..];
  }

  /** Deleting the space of a leading ` x `. */
  lemma TightenSkip(s: string, rest: string)
    requires |s| >= 3 && s[0] == ' ' && s[2] == ' ' && Tightened(s[3..], rest)
    ensures Tightened(s, [s[1], ' '] + rest)
  {
    TightenDrop(s, rest);
    assert s[3..] != [] ==> s[|s| - 1] == s[3..][|s[3..]| - 1];
  }

  /** Deleting the space in front of ` x ` keeps the other characters. */
  lemma TightenDrop(s: string, rest: string)
    requires |s| >= 3 && s[0] == ' ' && s[2] == ' '
    requires Unspaced(rest) == Unspaced(s[3..])
    ensures Unspaced([s[1], ' '] + rest) == Unspaced(s)
  {
    assert s == [s[0]] + ([s[1]] + ([s[2]] + s[3..]));
    UnspacedAppend([s[0]], [s[1]] + ([s[2]] + s[3..]));
    UnspacedAppend([s[1]], [s[2]] + s[3..]);
    UnspacedAppend([s[2]], s[3..]);
    UnspacedAppend([s[1]], [' '] + rest);
    UnspacedAppend([' '], rest);
    assert [s[1], ' '] + rest == [s[1]] + ([' '] + rest);
  }

  /** No fragment holds anything but whitespace. */
  predicate Blank(frags: seq<string>) {
    forall k :: 0 <= k < |frags| ==> !HasNonSpace(frags[k], Unicode)
  }

  /** The fragments `concat_text` keeps, each stripped. `kept` is the whitespace class of
      the keep test: the source tests `\S` (ASCII) and strips Unicode whitespace, as on a fragment
      outside ASCII, which is a unicode string. */
  function Pieces(frags: seq<string>, kept: Spaces): seq<string> {
    if frags == [] then []
    else (if HasNonSpace(frags[0], kept) then [Strip(frags[0], Unicode)] else []) + Pieces(frags[1..], kept)
  }

  /** With a consistent keep test every kept piece is non-empty and has no surrounding
      whitespace, and nothing is kept exactly when every fragment is blank. */
  lemma PiecesTrimmed(frags: seq<string>)
    ensures var r := Pieces(frags, Unicode);
      (forall k :: 0 <= k < |r| ==> r[k] != [] && !IsUnicodeSpace(r[k][0]) && !IsUnicodeSpace(r[k][|r[k]| - 1]))
      && (r == [] <==> Blank(frags))
  {
    PiecesShape(frags);
    PiecesNoneIffBlank(frags);
  }

  lemma {:induction false} PiecesShape(frags: seq<string>)
    ensures forall k :: 0 <= k < |Pieces(frags, Unicode)| ==> Trimmed(Pieces(frags, Unicode)[k])
  {
    if frags != [] {
      var rest := frags[1..];
      PiecesShape(rest);
      var head := if HasNonSpace(frags[0], Unicode) then [Strip(frags[0], Unicode)] else [];
      var tail := Pieces(rest, Unicode);
      assert Pieces(frags, Unicode) == head + tail;
      forall k | 0 <= k < |head + tail|
        ensures Trimmed((head + tail)[k])
      {
        if k >= |head| {
          assert (head + tail)[k] == tail[k - |head|];
        }
      }
    }
  }

  lemma {:induction false} PiecesNoneIffBlank(frags: seq<string>)
    ensures Pieces(frags, Unicode) == [] <==> Blank(frags)
  {
    if frags != [] {
      PiecesNoneIffBlank(frags[1..]);
      BlankCons(frags);
    }
  }

  /** Non-empty, and neither starting nor ending with Unicode whitespace. */
  predicate Trimmed(p: string) {
    p != [] && !IsUnicodeSpace(p[0]) && !IsUnicodeSpace(p[|p| - 1])
  }

  /** A list of fragments is blank exactly when its first fragment and the rest are. */
  lemma BlankCons(frags: seq<string>)
    requires frags != []
    ensures Blank(frags) <==> !HasNonSpace(frags[0], Unicode) && Blank(frags[1..])
  {
    assert forall k :: 0 <= k < |frags[1..]| ==> frags[1..][k] == frags[k + 1];
  }

  /** `" ".join(parts)` never starts or ends with whitespace when no part does. */
  lemma {:induction false} JoinSpaceEnds(parts: seq<string>)
    requires forall k :: 0 <= k < |parts| ==>
      parts[k] != [] && !IsUnicodeSpace(parts[k][0]) && !IsUnicodeSpace(parts[k][|parts[k]| - 1])
    ensures var j := Join(parts, " ");
      (j == [] <==> parts == []) &&
      (j != [] ==> !IsUnicodeSpace(j[0]) && !IsUnicodeSpace(j[|j| - 1]))
  {
    if |parts| > 1 {
      JoinSpaceEnds(parts[1..]);
      var rest := Join(parts[1..], " ");
      assert Join(parts, " ") == parts[0] + " " + rest;
      assert (parts[0] + " " + rest)[0] == parts[0][0];
    }
  }

  /** `concat_text` with the keep test using the same whitespace as the strip. */
  function ConcatText(n: Node): (r: string)
    ensures r != [] ==> !IsUnicodeSpace(r[0]) && !IsUnicodeSpace(r[|r| - 1])
    ensures r == [] <==> Blank(Fragments(n))
  {
    var frags := Fragments(n);
    var parts := Pieces(frags, Unicode);
    PiecesTrimmed(frags);
    JoinSpaceEnds(parts);
    var j := Join(parts, " ");
    assert j != [] ==> j[0] != ' ' && j[|j| - 1] != ' ';
    assert (j == []) == (parts == []);
    assert j == [] ==> Tighten(j) == [];
    assert j != [] ==> Tighten(j) != [];
    Tighten(j)
  }

  /** `concat_text` as collection/collector.py writes it: fragments are kept when they hold
      a character outside `[ \t\n\r\f\v]`, but stripped of all Unicode whitespace. */
  function ConcatTextAsWritten(n: Node): string {
    Tighten(Join(Pieces(Fragments(n), Ascii), " "))
  }

  /** `<li>&nbsp;<b>salt</b></li>`. */
  const NbspItem := Node("li", map[], "\U{A0}", [Node("b", map[], "salt", [], "")], "")

  lemma NbspItemFragments()
    ensures Fragments(NbspItem) == ["\U{A0}", "salt", ""]
  {
    var b := Node("b", map[], "salt", [], "");
    assert Fragments(b) == ["salt"];
    assert FragmentsFrom(NbspItem, 1) == [];
  }

  lemma NbspIsBlank()
    ensures HasNonSpace("\U{A0}", Ascii)
    ensures !HasNonSpace("\U{A0}", Unicode)
    ensures Strip("\U{A0}", Unicode) == ""
  {
    assert !IsWs(Ascii, "\U{A0}"[0]);
  }

  lemma SaltIsWord()
    ensures HasNonSpace("salt", Ascii) && HasNonSpace("salt", Unicode)
    ensures Strip("salt", Unicode) == "salt"
  {
    assert !IsSpace("salt"[0]) && !IsUnicodeSpace("salt"[0]) && !IsUnicodeSpace("salt"[3]);
  }

  lemma NbspItemPieces(kept: Spaces)
    ensures Pieces(["\U{A0}", "salt", ""], kept) == if kept == Ascii then ["", "salt"] else ["salt"]
  {
    var f1: seq<string> := ["\U{A0}", "salt", ""];
    var f2: seq<string> := ["salt", ""];
    var f3: seq<string> := [""];
    assert Pieces(f3, kept) == [] by {
      assert f3[1..] == [];
      assert !HasNonSpace(f3[0], kept);
    }
    assert Pieces(f2, kept) == ["salt"] by {
      assert f2[1..] == f3;
      SaltIsWord();
    }
    assert f1[1..] == f2;
    NbspIsBlank();
  }

  lemma TightenSalt()
    ensures Tighten("salt") == "salt"
    ensures Tighten(" salt") == " salt"
  {
    assert ' ' !in "salt";
    var s := " salt";
    assert s[2] == 'a';
    assert s[1..] == "salt";
  }

  /** A fragment made only of a no-break space survives the keep test, strips to "" and
      leaves a leading space: `<li>&nbsp;<b>salt</b></li>` gives " salt". */
  lemma NbspLeavesLeadingSpace()
    ensures ConcatTextAsWritten(NbspItem) == " salt"
  {
    NbspItemFragments();
    NbspItemPieces(Ascii);
    JoinSalt();
    TightenSalt();
  }

  lemma JoinSalt()
    ensures Join(["", "salt"], " ") == " salt"
  {
    var parts: seq<string> := ["", "salt"];
    assert parts[1..] == ["salt"];
    assert Join(parts[1..], " ") == "salt";
  }

  /** The corrected text of the same item has no leading space. */
  lemma NbspItemText()
    ensures ConcatText(NbspItem) == "salt"
  {
    NbspItemFragments();
    NbspItemPieces(Unicode);
    TightenSalt();
  }

  /** No fragment passes the ASCII keep test while being all Unicode whitespace. */
  predicate NoBareUnicodeSpace(frags: seq<string>) {
    forall k :: 0 <= k < |frags| && HasNonSpace(frags[k], Ascii) ==> HasNonSpace(frags[k], Unicode)
  }

  /** The two keep tests keep the same fragments unless a fragment is all Unicode
      whitespace with some of it outside ASCII whitespace. */
  lemma {:induction false} PiecesAgree(frags: seq<string>)
    requires NoBareUnicodeSpace(frags)
    ensures Pieces(frags, Ascii) == Pieces(frags, Unicode)
  {
    if frags != [] {
      var rest := frags[1..];
      assert NoBareUnicodeSpace(rest) by {
        forall k | 0 <= k < |rest| && HasNonSpace(rest[k], Ascii)
          ensures HasNonSpace(rest[k], Unicode)
        {
          assert rest[k] == frags[k + 1];
        }
      }
      PiecesAgree(rest);
      if HasNonSpace(frags[0], Unicode) {
        var k :| 0 <= k < |frags[0]| && !IsWs(Unicode, frags[0][k]);
        assert !IsWs(Ascii, frags[0][k]);
      }
    }
  }

  /** The text as written is the corrected text on every element without such a
      fragment. */
  lemma AsWrittenAgrees(n: Node)
    requires NoBareUnicodeSpace(Fragments(n))
    ensures ConcatTextAsWritten(n) == ConcatText(n)
  {
    PiecesAgree(Fragments(n));
  }

  // ----- property lookup --------------------------------------------------------------

  /** How a markup scheme marks recipes: the recipe scope test and the attribute that
      names a schema property. */
  datatype Scheme = Scheme(scope: Query, propAttr: string)

  /** Recipe scopes carry `itemtype="http://schema.org/Recipe"`; properties are `itemprop`. */
  const MicrodataScheme := Scheme(AttrEq("itemtype", "http://schema.org/Recipe"), "itemprop")

  /** Recipe scopes carry `typeof="Recipe"`; properties are `property`. */
  const RdfaScheme := Scheme(AttrEq("typeof", "Recipe"), "property")

  /** The `<script type="application/ld+json">` elements. */
  const JsonLdScripts := TagAttrEq("script", "type", "application/ld+json")

  /** The test for elements carrying property `prop`. */
  function Tagged(s: Scheme, prop: string): Query {
    AttrEq(s.propAttr, prop)
  }

  /** `get_property`: the elements tagged `prop` below any recipe scope of the page (the
      scope expression is absolute, so every scope of the document is searched), or,
      when there are none, every element of the page tagged `prop`. */
  function GetProperty(page: Node, s: Scheme, prop: string): (r: seq<Node>)
    ensures forall k :: 0 <= k < |r| ==> Matches(Tagged(s, prop), r[k])
    ensures forall x :: x in r ==> x in Select(page, Tagged(s, prop))
    ensures r == [] <==> Select(page, Tagged(s, prop)) == []
    ensures var scoped := SelectUnder(page, s.scope, Tagged(s, prop), false);
      r == if scoped != [] then scoped else Select(page, Tagged(s, prop))
  {
    var scoped := SelectUnder(page, s.scope, Tagged(s, prop), false);
    SelectUnderWithin(page, s.scope, Tagged(s, prop), false);
    if scoped != [] then
      assert scoped[0] in Select(page, Tagged(s, prop));
      scoped
    else Select(page, Tagged(s, prop))
  }

  /** `extract_text`: the text of the first match, `None` when nothing matches. */
  function ExtractText(page: Node, s: Scheme, prop: string): (v: Value)
    ensures v == Null <==> GetProperty(page, s, prop) == []
    ensures v != Null ==> v == Str(ConcatText(GetProperty(page, s, prop)[0]))
  {
    var matches := GetProperty(page, s, prop);
    if matches != [] then Str(ConcatText(matches[0])) else Null
  }

  /** The value of the first attribute of `names` that `n` carries. */
  function FirstAttr(n: Node, names: seq<string>): (r: Option<string>)
    ensures r.None? <==> forall k :: 0 <= k < |names| ==> names[k] !in n.attrs
    ensures r.Some? ==>
      exists k :: 0 <= k < |names| && names[k] in n.attrs && r.value == n.attrs[names[k]]
        && forall j :: 0 <= j < k ==> names[j] !in n.attrs
  {
    if names == [] then None
    else if names[0] in n.attrs then Some(n.attrs[names[0]])
    else
      var r := FirstAttr(n, names[1..]);
      assert forall k :: 1 <= k < |names| ==> names[k] == names[1..][k - 1];
      if r.Some? then
        var k :| 0 <= k < |names[1..]| && names[1..][k] in n.attrs
          && r.value == n.attrs[names[1..][k]] && forall j :: 0 <= j < k ==> names[1..][j] !in n.attrs;
        assert names[k + 1] in n.attrs && r.value == n.attrs[names[k + 1]];
        r
      else r
  }

  /** `extract_attribute`: on the first match, the first of `attrs` it carries, else its
      text; `None` when nothing matches. */
  function ExtractAttribute(page: Node, s: Scheme, prop: string, attrs: seq<string>): (v: Value)
    ensures v == Null <==> GetProperty(page, s, prop) == []
    ensures v != Null ==> var first := GetProperty(page, s, prop)[0];
      v == Str(match FirstAttr(first, attrs) case Some(a) => a case None => ConcatText(first))
  {
    var matches := GetProperty(page, s, prop);
    if matches == [] then Null
    else match FirstAttr(matches[0], attrs)
      case Some(a) => Str(a)
      case None => Str(ConcatText(matches[0]))
  }

  /** One text entry per element. */
  function Texts(ns: seq<Node>): (r: seq<Value>)
    ensures |r| == |ns| && forall k :: 0 <= k < |ns| ==> r[k] == Str(ConcatText(ns[k]))
  {
    if ns == [] then [] else [Str(ConcatText(ns[0]))] + Texts(ns[1..])
  }

  /** `extract_list`: a single match is a container whose children are the entries;
      otherwise every match is one entry (no match, no entry). */
  function ExtractList(page: Node, s: Scheme, prop: string): (v: Value)
    ensures v.Arr?
    ensures var m := GetProperty(page, s, prop);
      |v.items| == (if |m| == 1 then |m[0].children| else |m|)
      && forall k :: 0 <= k < |v.items| ==>
           v.items[k] == Str(ConcatText(if |m| == 1 then m[0].children[k] else m[k]))
  {
    var matches := GetProperty(page, s, prop);
    if |matches| == 1 then Arr(Texts(matches[0].children)) else Arr(Texts(matches))
  }

  // ----- record builders --------------------------------------------------------------

  /** The two bookkeeping fields every extracted record receives. */
  function Stamp(r: Record, url: string, now: nat): (s: Record)
    ensures s.Keys == r.Keys + {"url", "collect_time"}
    ensures s["url"] == Str(url) && s["collect_time"] == Time(now)
    ensures forall k :: k in r && k != "url" && k != "collect_time" ==> s[k] == r[k]
  {
    r["url" := Str(url)]["collect_time" := Time(now)]
  }

  /** The record built from one JSON-LD block before validation: `None` for a block that
      did not parse or is not an object; otherwise the allow-listed keys, then the legacy
      `ingredients` value under `recipeIngredient` when the filtered record lacks it. */
  function JsonLdCandidate(parsed: Option<Value>, store: set<string>, url: string, now: nat): Option<Record> {
    match parsed
    case Some(Obj(data)) =>
      var rec := Restrict(data, store);
      var rec' := if "recipeIngredient" !in rec && "ingredients" in data
                  then rec["recipeIngredient" := data["ingredients"]] else rec;
      Some(Stamp(rec', url, now))
    case _ => None
  }

  /** The candidates of a page's JSON-LD blocks, in page order. */
  function JsonLdCandidates(parsed: seq<Option<Value>>, store: set<string>, url: string, now: nat): (r: seq<Record>)
    ensures |r| <= |parsed|
  {
    if parsed == [] then []
    else
      AsList(JsonLdCandidate(parsed[0], store, url, now)) + JsonLdCandidates(parsed[1..], store, url, now)
  }

  /** A candidate as a list of at most one record. */
  function AsList(c: Option<Record>): seq<Record> {
    match c case Some(r) => [r] case None => []
  }

  /** The fields `extract_from_html` fills, before the allow-list. */
  const HtmlFields: set<string> := {
    "name", "recipeYield", "author", "image", "totalTime", "prepTime", "cookTime",
    "datePublished", "recipeIngredient", "recipeInstructions", "cookingMethod",
    "recipeCategory", "recipeCuisine" }

  /** The value `extract_from_html` computes for field `f` of `HtmlFields`: the
      ingredient list falls back to the elements tagged `ingredients` when no element is
      tagged `recipeIngredient`. */
  function HtmlField(page: Node, s: Scheme, f: string): Value {
    if f == "image" then ExtractAttribute(page, s, f, ["content", "src"])
    else if f in {"totalTime", "prepTime", "cookTime", "datePublished"} then ExtractAttribute(page, s, f, ["content"])
    else if f in {"name", "recipeYield", "author"} then ExtractText(page, s, f)
    else if f == "recipeIngredient" then
      var ingredients := ExtractList(page, s, f);
      if ingredients == Arr([]) then ExtractList(page, s, "ingredients") else ingredients
    else ExtractList(page, s, f)
  }

  /** The record built for one recipe scope before validation. Every lookup is absolute,
      so the result does not depend on which scope is being processed. */
  function HtmlCandidate(page: Node, s: Scheme, store: set<string>, url: string, now: nat): (r: Record)
    ensures r.Keys == (HtmlFields * store) + {"url", "collect_time"}
    ensures forall f :: f in HtmlFields * store && f != "url" && f != "collect_time" ==> r[f] == HtmlField(page, s, f)
  {
    var full: Record := map f | f in HtmlFields :: HtmlField(page, s, f);
    Stamp(Restrict(full, store), url, now)
  }

  /** What `validate` lets through: each candidate stripped of empty values, kept when no
      required field is missing, in the candidates' order. */
  function Accepted(cands: seq<Record>, required: seq<string>): (r: seq<Record>)
    ensures |r| <= |cands|
  {
    if cands == [] then []
    else
      var c := StripEmpty(cands[0]);
      (if HasAll(c, required) then [c] else []) + Accepted(cands[1..], required)
  }

  /** The keys of a JSON-LD record: the allow-listed keys of the block, `recipeIngredient`
      when it was filled from the legacy key, and the two bookkeeping fields. An allow-listed
      key keeps the block's value, and the legacy value is only used when the allow-list
      did not already supply `recipeIngredient`. */
  lemma JsonLdCandidateKeys(data: map<string, Value>, store: set<string>, url: string, now: nat)
    ensures var c := JsonLdCandidate(Some(Obj(data)), store, url, now);
      var legacy := "recipeIngredient" !in data.Keys * store && "ingredients" in data;
      c.Some?
      && c.value.Keys == (data.Keys * store) + (if legacy then {"recipeIngredient"} else {}) + {"url", "collect_time"}
      && c.value.Keys <= store + {"recipeIngredient", "url", "collect_time"}
      && (legacy ==> c.value["recipeIngredient"] == data["ingredients"])
      && (forall k :: k in data.Keys * store && k != "url" && k != "collect_time" ==> c.value[k] == data[k])
  {
  }

  /** Concatenating block lists concatenates their candidates. */
  lemma {:induction false} JsonLdCandidatesAppend(a: seq<Option<Value>>, b: seq<Option<Value>>, store: set<string>, url: string, now: nat)
    ensures JsonLdCandidates(a + b, store, url, now) == JsonLdCandidates(a, store, url, now) + JsonLdCandidates(b, store, url, now)
  {
    if a != [] {
      var head := AsList(JsonLdCandidate(a[0], store, url, now));
      assert (a + b)[0] == a[0] && (a + b)[1..] == a[1..] + b;
      JsonLdCandidatesAppend(a[1..], b, store, url, now);
      assert JsonLdCandidates(a + b, store, url, now) == head + JsonLdCandidates(a[1..] + b, store, url, now);
    } else {
      assert a + b == b;
    }
  }

  /** A block that does not parse, or parses to something other than an object, is
      skipped and the blocks after it are still read. */
  lemma JsonLdSkipsMalformed(a: seq<Option<Value>>, p: Option<Value>, b: seq<Option<Value>>, store: set<string>, url: string, now: nat)
    requires !(p.Some? && p.value.Obj?)
    ensures JsonLdCandidates(a + [p] + b, store, url, now) == JsonLdCandidates(a + b, store, url, now)
  {
    assert JsonLdCandidate(p, store, url, now) == None;
    assert [p][1..] == [];
    assert JsonLdCandidates([p], store, url, now) == [];
    JsonLdCandidatesAppend(a, [p], store, url, now);
    var left := JsonLdCandidates(a + [p], store, url, now);
    assert left == JsonLdCandidates(a, store, url, now);
    JsonLdCandidatesAppend(a + [p], b, store, url, now);
    JsonLdCandidatesAppend(a, b, store, url, now);
  }

  /** Validation keeps the page order: the records of two runs of candidates are the
      records of the first run followed by those of the second. */
  lemma {:induction false} AcceptedAppend(a: seq<Record>, b: seq<Record>, required: seq<string>)
    ensures Accepted(a + b, required) == Accepted(a, required) + Accepted(b, required)
  {
    if a != [] {
      assert (a + b)[1..] == a[1..] + b;
      AcceptedAppend(a[1..], b, required);
    } else {
      assert a + b == b;
    }
  }

  /** Every returned record is a candidate stripped of its empty values that holds every
      required field; every candidate that passes is returned. */
  lemma {:induction false} AcceptedSound(cands: seq<Record>, required: seq<string>)
    ensures forall r :: r in Accepted(cands, required) ==>
      HasAll(r, required) && (forall k :: k in r ==> !IsEmpty(r[k]))
      && exists i :: 0 <= i < |cands| && r == StripEmpty(cands[i])
    ensures forall i :: 0 <= i < |cands| && HasAll(StripEmpty(cands[i]), required) ==>
      StripEmpty(cands[i]) in Accepted(cands, required)
  {
    if cands != [] {
      AcceptedSound(cands[1..], required);
      forall r | r in Accepted(cands[1..], required)
        ensures exists i :: 0 <= i < |cands| && r == StripEmpty(cands[i])
      {
        var i :| 0 <= i < |cands[1..]| && r == StripEmpty(cands[1..][i]);
        assert r == StripEmpty(cands[i + 1]);
      }
      forall i | 1 <= i < |cands| && HasAll(StripEmpty(cands[i]), required)
        ensures StripEmpty(cands[i]) in Accepted(cands, required)
      {
        assert cands[i] == cands[1..][i - 1];
      }
    }
  }

  /** `n` copies of one record. */
  function Copies(c: Record, n: nat): (r: seq<Record>)
    ensures |r| == n && forall k :: 0 <= k < n ==> r[k] == c
  {
    if n == 0 then [] else [c] + Copies(c, n - 1)
  }

  /** Because every lookup is absolute, a page with `n` recipe scopes read at one clock
      reading yields `n` identical records or none (`HtmlRecordsAlike` states it for a
      reading per scope). */
  lemma {:induction false} HtmlRecordsIdentical(c: Record, n: nat, required: seq<string>)
    ensures Accepted(Copies(c, n), required)
      == if HasAll(StripEmpty(c), required) then Copies(StripEmpty(c), n) else []
  {
    if n > 0 {
      HtmlRecordsIdentical(c, n - 1, required);
      assert Copies(c, n)[1..] == Copies(c, n - 1);
    }
  }

  /** The candidates of a page's recipe scopes when the clock reads `times[k]` while the
      k-th scope is processed. */
  function CandidatesAt(page: Node, s: Scheme, store: set<string>, url: string, times: seq<nat>): seq<Record> {
    seq(|times|, k requires 0 <= k < |times| => HtmlCandidate(page, s, store, url, times[k]))
  }

  /** One record stamped at each of `times`, in order. */
  function StampedAt(r: Record, url: string, times: seq<nat>): (out: seq<Record>)
    ensures |out| == |times| && forall k :: 0 <= k < |times| ==> out[k] == Stamp(r, url, times[k])
  {
    if times == [] then [] else [Stamp(r, url, times[0])] + StampedAt(r, url, times[1..])
  }

  /** Stripping a record stamped at `t` is stripping it stamped at any other time, with
      the stamp replaced: the time itself is never an empty value. */
  lemma StripStamped(r: Record, url: string, now: nat, t: nat)
    ensures StripEmpty(Stamp(r, url, t)) == StripEmpty(Stamp(r, url, now))["collect_time" := Time(t)]
  {
    var a := Stamp(r, url, t);
    var b := Stamp(r, url, now);
    assert forall k :: k in a && k != "collect_time" ==> a[k] == b[k];
  }

  /** The records validation keeps from one record stamped at each of `times`: one per
      reading, or none, the k-th stamped with the k-th reading. */
  lemma {:induction false} StampedAlike(r: Record, url: string, times: seq<nat>, now: nat, required: seq<string>)
    ensures var base := StripEmpty(Stamp(r, url, now));
      var out := Accepted(StampedAt(r, url, times), required);
      |out| == (if HasAll(base, required) then |times| else 0)
      && forall k :: 0 <= k < |out| ==> out[k] == base["collect_time" := Time(times[k])]
  {
    var base := StripEmpty(Stamp(r, url, now));
    if times != [] {
      var rest := StampedAt(r, url, times[1..]);
      var head := StripEmpty(Stamp(r, url, times[0]));
      StampedAlike(r, url, times[1..], now, required);
      StripStamped(r, url, now, times[0]);
      assert HasAll(head, required) == HasAll(base, required);
      var out := Accepted(StampedAt(r, url, times), required);
      if HasAll(base, required) {
        assert out == [head] + Accepted(rest, required);
        forall k | 0 <= k < |out|
          ensures out[k] == base["collect_time" := Time(times[k])]
        {
          if k > 0 {
            assert out[k] == Accepted(rest, required)[k - 1];
          }
        }
      } else {
        assert out == Accepted(rest, required);
      }
    }
  }

  /** With the clock read once per recipe scope, the records of a page differ only in
      `collect_time`: there is one per scope, or none, and the k-th is the stripped
      candidate stamped with the k-th reading. */
  lemma HtmlRecordsAlike(page: Node, s: Scheme, store: set<string>, url: string,
                         times: seq<nat>, now: nat, required: seq<string>)
    ensures var base := StripEmpty(HtmlCandidate(page, s, store, url, now));
      var r := Accepted(CandidatesAt(page, s, store, url, times), required);
      |r| == (if HasAll(base, required) then |times| else 0)
      && forall k :: 0 <= k < |r| ==> r[k] == base["collect_time" := Time(times[k])]
  {
    var full: Record := map f | f in HtmlFields :: HtmlField(page, s, f);
    var rec := Restrict(full, store);
    var stamped := StampedAt(rec, url, times);
    assert forall k :: 0 <= k < |times| ==> CandidatesAt(page, s, store, url, times)[k] == stamped[k];
    assert CandidatesAt(page, s, store, url, times) == stamped;
    StampedAlike(rec, url, times, now, required);
  }

  /** The legacy `ingredients` lookup fills `recipeIngredient` before the allow-list is
      applied: it happens when no element is tagged `recipeIngredient`, and the result is
      kept only when `recipeIngredient` is allowed. */
  lemma HtmlIngredientsFallback(page: Node, s: Scheme, store: set<string>, url: string, now: nat)
    ensures var c := HtmlCandidate(page, s, store, url, now);
      ("recipeIngredient" in c <==> "recipeIngredient" in store)
      && ("recipeIngredient" in store && GetProperty(page, s, "recipeIngredient") == [] ==>
            c["recipeIngredient"] == ExtractList(page, s, "ingredients"))
      && ("recipeIngredient" in store && |GetProperty(page, s, "recipeIngredient")| > 1 ==>
            c["recipeIngredient"] == ExtractList(page, s, "recipeIngredient"))
  {
    var c := HtmlCandidate(page, s, store, url, now);
    if "recipeIngredient" in store {
      assert "recipeIngredient" in HtmlFields * store;
      var own := ExtractList(page, s, "recipeIngredient");
      if |GetProperty(page, s, "recipeIngredient")| > 1 {
        assert |own.items| > 1;
      }
    }
  }

  /** What validation lets through of one optional candidate. */
  function Admitted(c: Option<Record>, required: seq<string>): seq<Record> {
    if c.Some? && HasAll(StripEmpty(c.value), required) then [StripEmpty(c.value)] else []
  }

  /** The records of one more recipe scope are appended after those of the scopes before it. */
  lemma HtmlStep(c: Record, i: nat, required: seq<string>)
    ensures Accepted(Copies(c, i + 1), required) == Accepted(Copies(c, i), required) + Admitted(Some(c), required)
  {
    assert Copies(c, i + 1) == Copies(c, i) + [c];
    AcceptedAppend(Copies(c, i), [c], required);
    assert [c][1..] == [];
  }

  /** The records of one more JSON-LD block are appended after those of the blocks before it. */
  lemma JsonLdStep(blocks: seq<Option<Value>>, i: nat, store: set<string>, url: string, now: nat, required: seq<string>)
    requires i < |blocks|
    ensures Accepted(JsonLdCandidates(blocks[..i + 1], store, url, now), required)
      == Accepted(JsonLdCandidates(blocks[..i], store, url, now), required)
         + Admitted(JsonLdCandidate(blocks[i], store, url, now), required)
  {
    assert blocks[..i + 1] == blocks[..i] + [blocks[i]];
    JsonLdCandidatesAppend(blocks[..i], [blocks[i]], store, url, now);
    AcceptedAppend(JsonLdCandidates(blocks[..i], store, url, now), JsonLdCandidates([blocks[i]], store, url, now), required);
  }
}
