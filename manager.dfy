/** The query builder and display helpers of `Manager` (collection/manager.py): the filter
    document `search` hands to MongoDB, the readable form of ISO 8601 durations, and the
    index specifications. The database itself is not modelled: `search` yields the
    arguments of its `find` call, and the documents that call returns are a parameter. */
module Manager {
  import opened Wrappers
  import opened Text
  import opened Values

  /** A filter document (a Python dict). */
  type Clause = map<string, Value>

  // ----- what a filter document means -------------------------------------------------

  /** Equality on a field as MongoDB reads `{field: v}`: the field holds `v`, or holds an
      array with `v` among its items. */
  predicate FieldEquals(doc: Record, field: string, v: Value) {
    field in doc && (doc[field] == v || (doc[field].Arr? && v in doc[field].items))
  }

  /** The documents a filter selects. `hits` is the set of `$text` searches the document
      answers (the text index is not modelled). Every entry of an object must hold. */
  predicate Satisfies(doc: Record, hits: set<string>, q: Value)
    decreases q
  {
    q.Obj? && forall k :: k in q.fields ==> EntryHolds(doc, hits, k, q.fields[k])
  }

  predicate EntryHolds(doc: Record, hits: set<string>, k: string, v: Value)
    decreases v
  {
    if k == "$and" then v.Arr? && forall i :: 0 <= i < |v.items| ==> Satisfies(doc, hits, v.items[i])
    else if k == "$or" then v.Arr? && exists i :: 0 <= i < |v.items| && Satisfies(doc, hits, v.items[i])
    else if k == "$text" then
      v.Obj? && "$search" in v.fields && v.fields["$search"].Str? && v.fields["$search"].s in hits
    else FieldEquals(doc, k, v)
  }

  /** The clauses as a list of JSON objects. */
  function Objs(cs: seq<Clause>): (r: seq<Value>)
    ensures |r| == |cs| && forall i :: 0 <= i < |cs| ==> r[i] == Obj(cs[i])
  {
    seq(|cs|, i requires 0 <= i < |cs| => Obj(cs[i]))
  }

  predicate AllSatisfied(doc: Record, hits: set<string>, cs: seq<Clause>) {
    forall i :: 0 <= i < |cs| ==> Satisfies(doc, hits, Obj(cs[i]))
  }

  predicate SomeSatisfied(doc: Record, hits: set<string>, cs: seq<Clause>) {
    exists i :: 0 <= i < |cs| && Satisfies(doc, hits, Obj(cs[i]))
  }

  // ----- make_clause and the query of search ------------------------------------------

  /** `make_clause`: nothing for no conditions, the sole condition itself, or the
      conditions under `op`. */
  function MakeClause(op: string, conditions: seq<Clause>): (r: Clause)
    ensures conditions == [] ==> r == map[]
    ensures |conditions| == 1 ==> r == conditions[0]
    ensures |conditions| > 1 ==> r == map[op := Arr(Objs(conditions))]
  {
    if |conditions| == 0 then map[]
    else if |conditions| == 1 then conditions[0]
    else map[op := Arr(Objs(conditions))]
  }

  /** A clause combining `cs` under `$and` selects what every clause selects; under `$or`,
      what some clause selects; with no clause, every document. */
  lemma MakeClauseMeaning(op: string, cs: seq<Clause>, doc: Record, hits: set<string>)
    requires op == "$and" || op == "$or"
    ensures Satisfies(doc, hits, Obj(MakeClause(op, cs)))
      <==> cs == [] || (op == "$and" && AllSatisfied(doc, hits, cs)) || (op == "$or" && SomeSatisfied(doc, hits, cs))
  {
    if |cs| == 1 {
      assert AllSatisfied(doc, hits, cs) <==> Satisfies(doc, hits, Obj(cs[0]));
      assert SomeSatisfied(doc, hits, cs) <==> Satisfies(doc, hits, Obj(cs[0]));
    } else if |cs| > 1 {
      var q := Obj(MakeClause(op, cs));
      assert q.fields.Keys == {op};
      assert Satisfies(doc, hits, q) <==> EntryHolds(doc, hits, op, Arr(Objs(cs)));
    }
  }

  /** The keyword arguments of `search` the shells pass: the free text (`""` for none),
      `name`, `url`, `op`, the category and cuisine lists, `projection` and `sort`. */
  datatype SearchArgs = SearchArgs(
    text: string,
    name: Option<Value>,
    url: Option<Value>,
    op: Option<string>,
    categories: seq<Value>,
    cuisines: seq<Value>,
    projection: Option<Clause>,
    sort: Option<Value>)

  function TextCondition(text: string): Clause {
    map["$text" := Obj(map["$search" := Str(text)])]
  }

  /** The conditions, in the order text, name, url. */
  function Conditions(args: SearchArgs): (r: seq<Clause>)
    ensures |r| == (if args.text != "" then 1 else 0) + (if args.name.Some? then 1 else 0) + (if args.url.Some? then 1 else 0)
    ensures args.text != "" ==> r[0] == TextCondition(args.text)
    ensures args.url.Some? ==> r[|r| - 1] == map["url" := args.url.value]
  {
    (if args.text != "" then [TextCondition(args.text)] else [])
    + (if args.name.Some? then [map["name" := args.name.value]] else [])
    + (if args.url.Some? then [map["url" := args.url.value]] else [])
  }

  /** One equality clause on `field` per value, in order. */
  function Each(field: string, values: seq<Value>): (r: seq<Clause>)
    ensures |r| == |values| && forall i :: 0 <= i < |values| ==> r[i] == map[field := values[i]]
  {
    seq(|values|, i requires 0 <= i < |values| => map[field := values[i]])
  }

  /** The constraints: categories, then cuisines. */
  function Constraints(args: SearchArgs): seq<Clause> {
    Each("recipeCategory", args.categories) + Each("recipeCuisine", args.cuisines)
  }

  function Op(args: SearchArgs): string {
    if args.op.Some? then args.op.value else "$and"
  }

  /** The filter `search` builds from its conditions and its combined constraints. */
  function Query(conditions: seq<Clause>, constraints: Clause): Clause {
    if |conditions| == 0 && |constraints| == 0 then map[]
    else if |conditions| == 0 then constraints
    else if |constraints| == 0 then MakeClause("$and", conditions)
    else map["$and" := Arr(Objs(conditions) + [Obj(constraints)])]
  }

  /** Whatever the case `search` takes, its filter selects the documents that meet every
      condition and the combined constraints. */
  lemma QueryMeaning(conditions: seq<Clause>, constraints: Clause, doc: Record, hits: set<string>)
    ensures Satisfies(doc, hits, Obj(Query(conditions, constraints)))
      <==> AllSatisfied(doc, hits, conditions) && Satisfies(doc, hits, Obj(constraints))
  {
    if |conditions| == 0 {
      assert AllSatisfied(doc, hits, conditions);
    } else if |constraints| == 0 {
      assert constraints == map[];
      MakeClauseMeaning("$and", conditions, doc, hits);
    } else {
      var all := Objs(conditions) + [Obj(constraints)];
      var q := Obj(Query(conditions, constraints));
      assert q.fields.Keys == {"$and"};
      assert Satisfies(doc, hits, q) <==> EntryHolds(doc, hits, "$and", Arr(all));
      assert all[|conditions|] == Obj(constraints);
      if AllSatisfied(doc, hits, conditions) && Satisfies(doc, hits, Obj(constraints)) {
        forall i | 0 <= i < |all| ensures Satisfies(doc, hits, all[i]) {
          if i < |conditions| {
            assert all[i] == Obj(conditions[i]);
          }
        }
      }
      if EntryHolds(doc, hits, "$and", Arr(all)) {
        forall i | 0 <= i < |conditions| ensures Satisfies(doc, hits, Obj(conditions[i])) {
          assert all[i] == Obj(conditions[i]);
        }
      }
    }
  }

  lemma AllAppend(doc: Record, hits: set<string>, a: seq<Clause>, b: seq<Clause>)
    ensures AllSatisfied(doc, hits, a + b) <==> AllSatisfied(doc, hits, a) && AllSatisfied(doc, hits, b)
  {
    var ab := a + b;
    if AllSatisfied(doc, hits, a) && AllSatisfied(doc, hits, b) {
      forall i | 0 <= i < |ab| ensures Satisfies(doc, hits, Obj(ab[i])) {
        if i >= |a| {
          assert ab[i] == b[i - |a|];
        }
      }
    }
    if AllSatisfied(doc, hits, ab) {
      forall i | 0 <= i < |a| ensures Satisfies(doc, hits, Obj(a[i])) {
        assert ab[i] == a[i];
      }
      forall i | 0 <= i < |b| ensures Satisfies(doc, hits, Obj(b[i])) {
        assert ab[|a| + i] == b[i];
      }
    }
  }

  lemma SomeAppend(doc: Record, hits: set<string>, a: seq<Clause>, b: seq<Clause>)
    ensures SomeSatisfied(doc, hits, a + b) <==> SomeSatisfied(doc, hits, a) || SomeSatisfied(doc, hits, b)
  {
    var ab := a + b;
    if SomeSatisfied(doc, hits, ab) {
      var i :| 0 <= i < |ab| && Satisfies(doc, hits, Obj(ab[i]));
      if i >= |a| {
        assert ab[i] == b[i - |a|];
      }
    }
    if SomeSatisfied(doc, hits, a) {
      var i :| 0 <= i < |a| && Satisfies(doc, hits, Obj(a[i]));
      assert ab[i] == a[i];
    }
    if SomeSatisfied(doc, hits, b) {
      var i :| 0 <= i < |b| && Satisfies(doc, hits, Obj(b[i]));
      assert ab[|a| + i] == b[i];
    }
  }

  /** `{field: v}` on an ordinary field is the equality it names. */
  lemma EqualityMeaning(field: string, v: Value, doc: Record, hits: set<string>)
    requires field != "$and" && field != "$or" && field != "$text"
    ensures AllSatisfied(doc, hits, [map[field := v]]) <==> FieldEquals(doc, field, v)
  {
    var c := map[field := v];
    assert c.Keys == {field};
    AllSingle(doc, hits, c);
  }

  lemma AllSingle(doc: Record, hits: set<string>, c: Clause)
    ensures AllSatisfied(doc, hits, [c]) <==> Satisfies(doc, hits, Obj(c))
  {
    assert [c][0] == c;
  }

  /** The conditions hold exactly when the document answers the text search and has the
      name and the url asked for. */
  lemma ConditionsMeaning(args: SearchArgs, doc: Record, hits: set<string>)
    ensures AllSatisfied(doc, hits, Conditions(args))
      <==> ((args.text != "" ==> args.text in hits)
            && (args.name.Some? ==> FieldEquals(doc, "name", args.name.value))
            && (args.url.Some? ==> FieldEquals(doc, "url", args.url.value)))
  {
    var t: seq<Clause> := if args.text != "" then [TextCondition(args.text)] else [];
    var n: seq<Clause> := if args.name.Some? then [map["name" := args.name.value]] else [];
    var u: seq<Clause> := if args.url.Some? then [map["url" := args.url.value]] else [];
    assert Conditions(args) == t + n + u;
    AllAppend(doc, hits, t + n, u);
    AllAppend(doc, hits, t, n);
    if args.text != "" {
      assert AllSatisfied(doc, hits, t) <==> args.text in hits by {
        assert TextCondition(args.text).Keys == {"$text"};
        AllSingle(doc, hits, t[0]);
      }
    }
    if args.name.Some? {
      EqualityMeaning("name", args.name.value, doc, hits);
    }
    if args.url.Some? {
      EqualityMeaning("url", args.url.value, doc, hits);
    }
  }

  /** Each constraint clause is the equality it names. */
  lemma EachMeaning(field: string, values: seq<Value>, i: nat, doc: Record, hits: set<string>)
    requires i < |values| && field != "$and" && field != "$or" && field != "$text"
    ensures Satisfies(doc, hits, Obj(Each(field, values)[i])) <==> FieldEquals(doc, field, values[i])
  {
    assert Each(field, values)[i].Keys == {field};
  }

  /** All the equalities of `Each` hold when the field holds every value; one of them
      when it holds some value. */
  lemma EachAllSome(field: string, values: seq<Value>, doc: Record, hits: set<string>)
    requires field != "$and" && field != "$or" && field != "$text"
    ensures AllSatisfied(doc, hits, Each(field, values))
      <==> forall i :: 0 <= i < |values| ==> FieldEquals(doc, field, values[i])
    ensures SomeSatisfied(doc, hits, Each(field, values))
      <==> exists i :: 0 <= i < |values| && FieldEquals(doc, field, values[i])
  {
    forall i | 0 <= i < |values|
      ensures Satisfies(doc, hits, Obj(Each(field, values)[i])) <==> FieldEquals(doc, field, values[i])
    {
      EachMeaning(field, values, i, doc, hits);
    }
  }

  /** With the default `op` every category and every cuisine must match; with `$or` one
      is enough; with none given every document passes, whatever `op` says. */
  lemma ConstraintsMeaning(args: SearchArgs, doc: Record, hits: set<string>)
    requires Op(args) == "$and" || Op(args) == "$or"
    ensures Satisfies(doc, hits, Obj(MakeClause(Op(args), Constraints(args))))
      <==> ((args.categories == [] && args.cuisines == [])
            || (Op(args) == "$and"
                && (forall i :: 0 <= i < |args.categories| ==> FieldEquals(doc, "recipeCategory", args.categories[i]))
                && (forall i :: 0 <= i < |args.cuisines| ==> FieldEquals(doc, "recipeCuisine", args.cuisines[i])))
            || (Op(args) == "$or"
                && ((exists i :: 0 <= i < |args.categories| && FieldEquals(doc, "recipeCategory", args.categories[i]))
                    || (exists i :: 0 <= i < |args.cuisines| && FieldEquals(doc, "recipeCuisine", args.cuisines[i])))))
  {
    var a := Each("recipeCategory", args.categories);
    var b := Each("recipeCuisine", args.cuisines);
    MakeClauseMeaning(Op(args), a + b, doc, hits);
    AllAppend(doc, hits, a, b);
    SomeAppend(doc, hits, a, b);
    EachAllSome("recipeCategory", args.categories, doc, hits);
    EachAllSome("recipeCuisine", args.cuisines, doc, hits);
  }

  // ----- readable durations -----------------------------------------------------------

  /** The length of the run of decimal digits that `t` starts with. */
  function DigitRun(t: string): (k: nat)
    ensures k <= |t| && AllDigits(t[..k]) && (k < |t| ==> !IsDigit(t[k]))
  {
    if t != [] && IsDigit(t[0]) then
      var k := 1 + DigitRun(t[1..]);
      assert t[..k] == [t[0]] + t[1..][..k - 1];
      k
    else 0
  }

  /** The optional group `(\d+X)?` at the start of `t`, for the designator whose lower
      case is `x`: the digits when it matches, and what is left to match. */
  function Designated(t: string, x: char): (r: (Option<string>, string))
    ensures Suffix(r.1, t)
    ensures r.0.Some? ==> r.0.value != [] && AllDigits(r.0.value)
  {
    var k := DigitRun(t);
    if 0 < k < |t| && Lower(t[k]) == x then (Some(t[..k]), t[k + 1..]) else (None, t)
  }

  /** The groups of `(\d+X)?(\d+Y)?(\d+Z)?` at the start of `t` for the designators
      `x`, `y`, `z`, and what is left to match. */
  function Triple(t: string, x: char, y: char, z: char): (r: (seq<Option<string>>, string))
    ensures |r.0| == 3
  {
    var a := Designated(t, x);
    var b := Designated(a.1, y);
    var c := Designated(b.1, z);
    ([a.0, b.0, c.0], c.1)
  }

  /** `u` is what is left of `t` after some prefix. */
  predicate Suffix(u: string, t: string) {
    |u| <= |t| && u == t[|t| - |u|..]
  }

  lemma SuffixTrans(u: string, v: string, t: string)
    requires Suffix(u, v) && Suffix(v, t)
    ensures Suffix(u, t)
  {
    assert t[|t| - |v|..][|v| - |u|..] == t[|t| - |u|..];
  }

  lemma TripleSuffix(t: string, x: char, y: char, z: char)
    ensures Suffix(Triple(t, x, y, z).1, t)
  {
    var a := Designated(t, x);
    var b := Designated(a.1, y);
    var c := Designated(b.1, z);
    SuffixTrans(b.1, a.1, t);
    SuffixTrans(c.1, b.1, t);
  }

  /** The groups of `P(\d+Y)?(\d+M)?(\d+D)?T(\d+H)?(\d+M)?(\d+S)?` matched at the start
      of `t`, case-insensitively. The designators all differ from digits and from each
      other, so taking a group whenever it matches never blocks the match. */
  function MatchAt(t: string): (r: Option<seq<Option<string>>>)
    ensures r.Some? ==> |r.value| == 6
  {
    if t != [] && Lower(t[0]) == 'p' then
      var date := Triple(t[1..], 'y', 'm', 'd');
      if date.1 != [] && Lower(date.1[0]) == 't' then
        Some(date.0 + Triple(date.1[1..], 'h', 'm', 's').0)
      else None
    else None
  }

  /** A match needs the time designator. */
  lemma MatchNeedsDesignator(t: string)
    requires forall k :: 0 <= k < |t| ==> Lower(t[k]) != 't'
    ensures MatchAt(t) == None
  {
    if t != [] && Lower(t[0]) == 'p' {
      var rest := Triple(t[1..], 'y', 'm', 'd').1;
      TripleSuffix(t[1..], 'y', 'm', 'd');
      if rest != [] {
        assert rest[0] == t[|t| - |rest|];
      }
    }
  }

  /** `re.search`: the match at the first position where there is one. */
  function SearchFrom(t: string): (r: Option<seq<Option<string>>>)
    ensures r.Some? ==> |r.value| == 6
  {
    if t == [] then None
    else
      match MatchAt(t)
      case Some(groups) => Some(groups)
      case None => SearchFrom(t[1..])
  }

  const Spans: seq<string> := ["years", "months", "days", "hours", "mins", "secs"]

  /** `"%s %s" % (dur[:-1], inc)` for every group from the `i`-th on that is present,
      paired with its unit. */
  function Labels(groups: seq<Option<string>>, i: nat): seq<string>
    decreases |groups| - i
  {
    if i >= |groups| || i >= |Spans| then []
    else (if groups[i].Some? then [groups[i].value + " " + Spans[i]] else []) + Labels(groups, i + 1)
  }

  /** `convert_duration`; `None` where the pattern is not found and `m.groups()` raises. */
  function ConvertDuration(duration: string): Option<string> {
    match SearchFrom(duration)
    case None => None
    case Some(groups) => Some(Join(Labels(groups, 0), ", "))
  }

  /** A duration as ISO 8601 writes it with the time designator: each component present
      or not. */
  datatype Duration = Duration(
    years: Option<nat>, months: Option<nat>, days: Option<nat>,
    hours: Option<nat>, mins: Option<nat>, secs: Option<nat>)

  function Part(n: Option<nat>, designator: char): string {
    if n.Some? then NatToString(n.value) + [designator] else ""
  }

  /** The ISO 8601 text of a duration, in the alternative with the `T` designator. */
  function Iso(d: Duration): string {
    "P" + (DatePart(d) + ("T" + TimePart(d)))
  }

  function DatePart(d: Duration): string {
    Part(d.years, 'Y') + (Part(d.months, 'M') + Part(d.days, 'D'))
  }

  function TimePart(d: Duration): string {
    Part(d.hours, 'H') + (Part(d.mins, 'M') + Part(d.secs, 'S'))
  }

  function Phrase(n: Option<nat>, unit: string): seq<string> {
    if n.Some? then [NatToString(n.value) + " " + unit] else []
  }

  /** The readable form: one phrase per component present, largest unit first. */
  function Readable(d: Duration): string {
    Join(Phrase(d.years, "years") + (Phrase(d.months, "months") + (Phrase(d.days, "days")
         + (Phrase(d.hours, "hours") + (Phrase(d.mins, "mins") + Phrase(d.secs, "secs"))))), ", ")
  }

  lemma {:induction false} DigitRunOf(digits: string, rest: string)
    requires AllDigits(digits) && (rest == [] || !IsDigit(rest[0]))
    ensures DigitRun(digits + rest) == |digits|
    decreases |digits|
  {
    if digits != [] {
      assert (digits + rest)[1..] == digits[1..] + rest;
      DigitRunOf(digits[1..], rest);
    } else {
      assert digits + rest == rest;
    }
  }

  function Group(n: Option<nat>): Option<string> {
    if n.Some? then Some(NatToString(n.value)) else None
  }

  /** A component present and followed by what does not start with a digit is taken, and
      the match goes on after its designator. */
  lemma DesignatedPart(n: Option<nat>, designator: char, rest: string)
    requires !IsDigit(designator) && (n.None? ==> Designated(rest, Lower(designator)) == (None, rest))
    ensures Designated(Part(n, designator) + rest, Lower(designator)) == (Group(n), rest)
  {
    if n.Some? {
      var digits := NatToString(n.value);
      assert Part(n, designator) + rest == digits + ([designator] + rest);
      DigitRunOf(digits, [designator] + rest);
      assert (digits + ([designator] + rest))[|digits| + 1..] == rest;
      assert (digits + ([designator] + rest))[..|digits|] == digits;
    } else {
      assert Part(n, designator) + rest == rest;
    }
  }

  /** The group for `x` is absent where a component with another designator starts, and
      where a non-digit starts. */
  lemma DesignatedMiss(n: Option<nat>, designator: char, rest: string, x: char)
    requires !IsDigit(designator) && Lower(designator) != x
    requires n.None? ==> Designated(rest, x) == (None, rest)
    ensures Designated(Part(n, designator) + rest, x) == (None, Part(n, designator) + rest)
  {
    if n.Some? {
      var digits := NatToString(n.value);
      assert Part(n, designator) + rest == digits + ([designator] + rest);
      DigitRunOf(digits, [designator] + rest);
      assert (digits + ([designator] + rest))[|digits|] == designator;
    } else {
      assert Part(n, designator) + rest == rest;
    }
  }

  lemma DesignatedNonDigit(t: string, x: char)
    requires t == [] || !IsDigit(t[0])
    ensures Designated(t, x) == (None, t)
  {
  }

  /** The date part of the ISO text: its three groups, then the rest from `T` on. */
  lemma DateTriple(d: Duration, t3: string)
    requires t3 != [] && t3[0] == 'T'
    ensures Triple(DatePart(d) + t3, 'y', 'm', 'd') == ([Group(d.years), Group(d.months), Group(d.days)], t3)
  {
    var t2 := Part(d.days, 'D') + t3;
    var t1 := Part(d.months, 'M') + t2;
    assert DatePart(d) + t3 == Part(d.years, 'Y') + t1;
    DesignatedNonDigit(t3, 'y');
    DesignatedNonDigit(t3, 'm');
    DesignatedMiss(d.days, 'D', t3, 'y');
    DesignatedMiss(d.months, 'M', t2, 'y');
    DesignatedMiss(d.days, 'D', t3, 'm');
    DesignatedPart(d.years, 'Y', t1);
    DesignatedPart(d.months, 'M', t2);
    DesignatedPart(d.days, 'D', t3);
  }

  /** The time part of the ISO text: its three groups. */
  lemma TimeTriple(d: Duration)
    ensures Triple(TimePart(d), 'h', 'm', 's').0 == [Group(d.hours), Group(d.mins), Group(d.secs)]
  {
    var t6 := Part(d.secs, 'S') + [];
    var t5 := Part(d.mins, 'M') + t6;
    assert TimePart(d) == Part(d.hours, 'H') + t5;
    DesignatedNonDigit([], 'h');
    DesignatedNonDigit([], 'm');
    DesignatedNonDigit([], 's');
    DesignatedMiss(d.secs, 'S', [], 'h');
    DesignatedMiss(d.secs, 'S', [], 'm');
    DesignatedMiss(d.mins, 'M', t6, 'h');
    DesignatedPart(d.hours, 'H', t5);
    DesignatedPart(d.mins, 'M', t6);
    DesignatedPart(d.secs, 'S', []);
  }

  lemma ThreeAndThree<T>(a: seq<T>, b: seq<T>)
    requires |a| == 3 && |b| == 3
    ensures a + b == [a[0], a[1], a[2], b[0], b[1], b[2]]
  {
  }

  /** The groups of the pattern on the ISO text of a duration are its components. */
  lemma MatchIso(d: Duration)
    ensures MatchAt(Iso(d)) == Some([Group(d.years), Group(d.months), Group(d.days),
                                     Group(d.hours), Group(d.mins), Group(d.secs)])
  {
    var t3 := "T" + TimePart(d);
    assert Iso(d)[1..] == DatePart(d) + t3;
    DateTriple(d, t3);
    assert t3[1..] == TimePart(d);
    TimeTriple(d);
    var t := Iso(d);
    assert t != [] && t[0] == 'P' && Lower('P') == 'p';
    assert t3[0] == 'T' && Lower('T') == 't';
    var date := Triple(t[1..], 'y', 'm', 'd');
    assert date.1 == t3;
    var time := Triple(date.1[1..], 'h', 'm', 's');
    assert MatchAt(t) == Some(date.0 + time.0);
    var a := [Group(d.years), Group(d.months), Group(d.days)];
    var b := [Group(d.hours), Group(d.mins), Group(d.secs)];
    assert date.0 == a && time.0 == b;
    ThreeAndThree(a, b);
  }

  /** Round trip: the readable form of an ISO 8601 duration lists its components, largest
      unit first, joined by commas. */
  lemma ConvertIso(d: Duration)
    ensures ConvertDuration(Iso(d)) == Some(Readable(d))
  {
    MatchIso(d);
    var g := [Group(d.years), Group(d.months), Group(d.days), Group(d.hours), Group(d.mins), Group(d.secs)];
    assert SearchFrom(Iso(d)) == Some(g);
    LabelsOfGroups(d);
  }

  lemma LabelsOfGroups(d: Duration)
    ensures var g := [Group(d.years), Group(d.months), Group(d.days), Group(d.hours), Group(d.mins), Group(d.secs)];
      Labels(g, 0) == Phrase(d.years, "years") + (Phrase(d.months, "months") + (Phrase(d.days, "days")
         + (Phrase(d.hours, "hours") + (Phrase(d.mins, "mins") + Phrase(d.secs, "secs")))))
  {
    var g := [Group(d.years), Group(d.months), Group(d.days), Group(d.hours), Group(d.mins), Group(d.secs)];
    assert Labels(g, 5) == Phrase(d.secs, "secs");
    assert Labels(g, 4) == Phrase(d.mins, "mins") + Labels(g, 5);
    assert Labels(g, 3) == Phrase(d.hours, "hours") + Labels(g, 4);
    assert Labels(g, 2) == Phrase(d.days, "days") + Labels(g, 3);
    assert Labels(g, 1) == Phrase(d.months, "months") + Labels(g, 2);
    assert Labels(g, 0) == Phrase(d.years, "years") + Labels(g, 1);
  }

  /** Without a time designator the pattern is not found, so the conversion raises. */
  lemma NoDesignatorFails(duration: string)
    requires forall k :: 0 <= k < |duration| ==> Lower(duration[k]) != 't'
    ensures ConvertDuration(duration) == None
  {
    NotFound(duration);
  }

  lemma {:induction false} NotFound(t: string)
    requires forall k :: 0 <= k < |t| ==> Lower(t[k]) != 't'
    ensures SearchFrom(t) == None
  {
    if t != [] {
      MatchNeedsDesignator(t);
      assert forall k :: 0 <= k < |t[1..]| ==> t[1..][k] == t[k + 1];
      NotFound(t[1..]);
    }
  }

  /** The conversion of a string never contains a `p`, so it is never a duration again. */
  lemma {:induction false} NoPrefixNotFound(t: string)
    requires forall k :: 0 <= k < |t| ==> Lower(t[k]) != 'p'
    ensures SearchFrom(t) == None
  {
    if t != [] {
      assert forall k :: 0 <= k < |t[1..]| ==> t[1..][k] == t[k + 1];
      NoPrefixNotFound(t[1..]);
    }
  }

  // ----- serialize_recipe -------------------------------------------------------------

  const TimingFields: seq<string> := ["totalTime", "cookTime", "prepTime"]

  /** Python truthiness of a stored value. */
  predicate Truthy(v: Value) {
    !(v == Null || v == Bool(false) || v == Num(0) || v == Str("") || v == Arr([]) || v == Obj(map[]))
  }

  /** `convert_duration` on a stored value; a value that is not a string makes the
      pattern search raise. */
  function Converted(v: Value): Option<string> {
    if v.Str? then ConvertDuration(v.s) else None
  }

  /** Some non-empty timing field cannot be converted, so `serialize_recipe` raises. */
  predicate SerializeFails(recipe: Record) {
    exists f :: f in TimingFields && f in recipe && Truthy(recipe[f]) && Converted(recipe[f]).None?
  }

  /** The recipe as `serialize_recipe` leaves it: every non-empty timing field replaced by
      its readable form, everything else as it was. */
  function Serialized(recipe: Record): (r: Option<Record>)
    ensures r.None? <==> SerializeFails(recipe)
    ensures r.Some? ==> r.value.Keys == recipe.Keys
  {
    if SerializeFails(recipe) then None
    else Some(map k | k in recipe :: if k in TimingFields then Rewrite(recipe[k]) else recipe[k])
  }

  /** A timing value after `serialize_recipe`: its readable form when it is non-empty. */
  function Rewrite(v: Value): Value {
    if Truthy(v) && Converted(v).Some? then Str(Converted(v).value) else v
  }

  /** The recipe after the first `i` timing fields were rewritten. */
  function Partial(recipe: Record, i: nat): (r: Record)
    requires i <= |TimingFields|
    ensures r.Keys == recipe.Keys
  {
    map k | k in recipe :: if k in TimingFields[..i] then Rewrite(recipe[k]) else recipe[k]
  }

  /** Each timing field comes once. */
  lemma FieldNew(i: nat)
    requires i < |TimingFields|
    ensures TimingFields[i] !in TimingFields[..i]
  {
    assert TimingFields[0][0] == 't' && TimingFields[1][0] == 'c' && TimingFields[2][0] == 'p';
  }

  lemma PartialStep(recipe: Record, i: nat)
    requires i < |TimingFields|
    ensures var f := TimingFields[i];
      f in recipe ==> Partial(recipe, i)[f] == recipe[f] && Partial(recipe, i + 1) == Partial(recipe, i)[f := Rewrite(recipe[f])]
    ensures TimingFields[i] !in recipe ==> Partial(recipe, i + 1) == Partial(recipe, i)
  {
    FieldNew(i);
    assert TimingFields[..i + 1] == TimingFields[..i] + [TimingFields[i]];
  }

  /** `serialize_recipe`: the timing fields in turn, stopping at the first that raises. */
  method SerializeRecipe(recipe: Record) returns (r: Option<Record>)
    ensures r == Serialized(recipe)
  {
    var current := recipe;
    assert TimingFields[..0] == [];
    assert Partial(recipe, 0) == recipe;
    for i := 0 to |TimingFields|
      invariant current == Partial(recipe, i)
      invariant forall j ::
          0 <= j < i && TimingFields[j] in recipe && Truthy(recipe[TimingFields[j]]) ==> Converted(recipe[TimingFields[j]]).Some?
    {
      var field := TimingFields[i];
      PartialStep(recipe, i);
      if field in current && Truthy(current[field]) {
        var readable := Converted(current[field]);
        if readable.None? {
          assert SerializeFails(recipe);
          return None;
        }
        current := current[field := Str(readable.value)];
      }
    }
    assert TimingFields[..|TimingFields|] == TimingFields;
    assert !SerializeFails(recipe) by {
      forall f | f in TimingFields ensures exists j :: 0 <= j < 3 && TimingFields[j] == f {
      }
    }
    r := Some(current);
  }

  /** `serialize_recipe` cannot run twice: a second pass raises as soon as some timing
      field was rewritten to non-empty text, and otherwise changes nothing. */
  lemma SerializeTwice(recipe: Record)
    requires Serialized(recipe).Some?
    ensures var once := Serialized(recipe).value;
      Serialized(once) == if exists f :: f in TimingFields && f in once && Truthy(once[f]) then None else Some(once)
  {
    var once := Serialized(recipe).value;
    forall f | f in TimingFields && f in once && Truthy(once[f])
      ensures Converted(once[f]).None?
    {
      var text := Converted(recipe[f]).value;
      ReadableHasNoP(recipe[f].s);
      NoPrefixNotFound(text);
    }
    if !exists f :: f in TimingFields && f in once && Truthy(once[f]) {
      assert Serialized(once).value == once;
    }
  }

  /** Readable text is made of the digits of the input, spaces, commas and unit names. */
  lemma ReadableHasNoP(duration: string)
    requires ConvertDuration(duration).Some?
    ensures forall k :: 0 <= k < |ConvertDuration(duration).value| ==> Lower(ConvertDuration(duration).value[k]) != 'p'
  {
    var groups := SearchFrom(duration).value;
    GroupsDigits(duration);
    LabelsNoP(groups, 0);
    JoinNoP(Labels(groups, 0), ", ");
  }

  /** No character of `s` folds to `p`. */
  predicate NoP(s: string) {
    forall k :: 0 <= k < |s| ==> Lower(s[k]) != 'p'
  }

  predicate DigitGroups(groups: seq<Option<string>>) {
    forall i :: 0 <= i < |groups| && groups[i].Some? ==> AllDigits(groups[i].value)
  }

  lemma {:induction false} GroupsDigits(t: string)
    requires SearchFrom(t).Some?
    ensures DigitGroups(SearchFrom(t).value)
  {
    if MatchAt(t).None? {
      GroupsDigits(t[1..]);
    } else {
      MatchDigits(t);
    }
  }

  lemma MatchDigits(t: string)
    requires MatchAt(t).Some?
    ensures DigitGroups(MatchAt(t).value)
  {
    var date := Triple(t[1..], 'y', 'm', 'd');
    var time := Triple(date.1[1..], 'h', 'm', 's');
    MatchAtGroups(t);
    TripleDigits(t[1..], 'y', 'm', 'd');
    TripleDigits(date.1[1..], 'h', 'm', 's');
    DigitGroupsAppend(date.0, time.0);
  }

  lemma DigitGroupsAppend(a: seq<Option<string>>, b: seq<Option<string>>)
    requires DigitGroups(a) && DigitGroups(b)
    ensures DigitGroups(a + b)
  {
    forall i | 0 <= i < |a + b| && (a + b)[i].Some? ensures AllDigits((a + b)[i].value) {
      if i < |a| {
        assert (a + b)[i] == a[i];
      } else {
        assert (a + b)[i] == b[i - |a|];
      }
    }
  }

  lemma MatchAtGroups(t: string)
    requires MatchAt(t).Some?
    ensures var date := Triple(t[1..], 'y', 'm', 'd');
      MatchAt(t).value == date.0 + Triple(date.1[1..], 'h', 'm', 's').0
  {
  }

  lemma TripleDigits(t: string, x: char, y: char, z: char)
    ensures DigitGroups(Triple(t, x, y, z).0)
  {
    var a := Designated(t, x);
    var b := Designated(a.1, y);
    var c := Designated(b.1, z);
    var g := [a.0, b.0, c.0];
    assert Triple(t, x, y, z).0 == g;
    forall i | 0 <= i < 3 && g[i].Some? ensures AllDigits(g[i].value) {
      if i == 0 { } else if i == 1 { } else { }
    }
  }

  lemma {:induction false} LabelsNoP(groups: seq<Option<string>>, i: nat)
    requires DigitGroups(groups)
    ensures forall j :: 0 <= j < |Labels(groups, i)| ==> NoP(Labels(groups, i)[j])
    decreases |groups| - i
  {
    if i < |groups| && i < |Spans| {
      LabelsNoP(groups, i + 1);
      if groups[i].Some? {
        var phrase := groups[i].value + " " + Spans[i];
        forall k | 0 <= k < |phrase| ensures Lower(phrase[k]) != 'p' {
          if k < |groups[i].value| {
            assert phrase[k] == groups[i].value[k];
          }
        }
        var head: seq<string> := [phrase];
        assert Labels(groups, i) == head + Labels(groups, i + 1);
      }
    }
  }

  lemma {:induction false} JoinNoP(pieces: seq<string>, sep: string)
    requires NoP(sep) && forall j :: 0 <= j < |pieces| ==> NoP(pieces[j])
    ensures NoP(Join(pieces, sep))
    decreases |pieces|
  {
    if |pieces| > 1 {
      JoinNoP(pieces[1..], sep);
      var rest := Join(pieces[1..], sep);
      assert Join(pieces, sep) == pieces[0] + sep + rest;
      forall k | 0 <= k < |pieces[0] + sep + rest| ensures Lower((pieces[0] + sep + rest)[k]) != 'p' {
        if k < |pieces[0]| {
        } else if k < |pieces[0]| + |sep| {
          assert (pieces[0] + sep + rest)[k] == sep[k - |pieces[0]|];
        } else {
          assert (pieces[0] + sep + rest)[k] == rest[k - |pieces[0]| - |sep|];
        }
      }
    }
  }

  // ----- search, results and indexes ----------------------------------------------------

  /** The `$meta` projection and sort entry of a text search. */
  const TextScore: Value := Obj(map["$meta" := Str("textScore")])
  const Ascending: int := 1
  const Descending: int := -1
  const DefaultSort: Value := Arr([Arr([Str("name"), Num(Ascending)])])
  const TextScoreSort: Value := Arr([Arr([Str("score"), TextScore])])

  /** The fields the shells read to show one recipe. */
  const RecipeProjection: Clause := map[
    "name" := Num(1), "recipeIngredient" := Num(1), "recipeInstructions" := Num(1), "recipeYield" := Num(1),
    "totalTime" := Num(1), "prepTime" := Num(1), "cookTime" := Num(1), "_id" := Num(0)]

  /** What `search` passes to `find`. */
  datatype Find = Find(query: Clause, projection: Clause, sort: Value)

  /** The filter of `search` for its keyword arguments. */
  function SearchQuery(args: SearchArgs): Clause {
    Query(Conditions(args), MakeClause(Op(args), Constraints(args)))
  }

  /** The filter of `search` selects the documents that answer the text search, have the
      name and url asked for, and match the categories and cuisines under `op`. */
  lemma SearchMeaning(args: SearchArgs, doc: Record, hits: set<string>)
    requires Op(args) == "$and" || Op(args) == "$or"
    ensures Satisfies(doc, hits, Obj(SearchQuery(args)))
      <==> ((args.text != "" ==> args.text in hits)
            && (args.name.Some? ==> FieldEquals(doc, "name", args.name.value))
            && (args.url.Some? ==> FieldEquals(doc, "url", args.url.value))
            && ((args.categories == [] && args.cuisines == [])
                || (Op(args) == "$and"
                    && (forall i :: 0 <= i < |args.categories| ==> FieldEquals(doc, "recipeCategory", args.categories[i]))
                    && (forall i :: 0 <= i < |args.cuisines| ==> FieldEquals(doc, "recipeCuisine", args.cuisines[i])))
                || (Op(args) == "$or"
                    && ((exists i :: 0 <= i < |args.categories| && FieldEquals(doc, "recipeCategory", args.categories[i]))
                        || (exists i :: 0 <= i < |args.cuisines| && FieldEquals(doc, "recipeCuisine", args.cuisines[i]))))))
  {
    QueryMeaning(Conditions(args), MakeClause(Op(args), Constraints(args)), doc, hits);
    ConditionsMeaning(args, doc, hits);
    ConstraintsMeaning(args, doc, hits);
  }

  /** With no condition and no constraint the filter is empty, so every document is
      found; with constraints only, the filter is their clause. */
  lemma SearchQueryCases(args: SearchArgs)
    ensures Conditions(args) == [] && Constraints(args) == [] ==> SearchQuery(args) == map[]
    ensures Conditions(args) == [] ==> SearchQuery(args) == MakeClause(Op(args), Constraints(args))
    ensures |Conditions(args)| == 1 && Constraints(args) == [] ==> SearchQuery(args) == Conditions(args)[0]
  {
    var cs := Constraints(args);
    if |cs| == 1 {
      assert |cs[0]| == 1 by {
        if |args.categories| == 1 {
          assert cs[0] == map["recipeCategory" := args.categories[0]];
        } else {
          assert cs[0] == map["recipeCuisine" := args.cuisines[0]];
        }
      }
    }
  }

  /** The results of `search`: every document found, serialized, and their number. */
  datatype Results = Results(objects: seq<Record>, total: nat)

  /** The loop over the cursor: each document is serialized and appended; a document
      whose timing field does not convert makes the whole call raise. */
  method Collect(found: seq<Record>) returns (r: Option<Results>)
    ensures r.Some? <==> forall i :: 0 <= i < |found| ==> Serialized(found[i]).Some?
    ensures r.Some? ==>
      r.value.total == |found| == |r.value.objects|
      && forall i :: 0 <= i < |found| ==> r.value.objects[i] == Serialized(found[i]).value
  {
    var objects: seq<Record> := [];
    var total := 0;
    for i := 0 to |found|
      invariant total == |objects| == i
      invariant forall j :: 0 <= j < i ==> Serialized(found[j]).Some? && objects[j] == Serialized(found[j]).value
    {
      var rcp := SerializeRecipe(found[i]);
      if rcp.None? {
        return None;
      }
      objects := objects + [rcp.value];
      total := total + 1;
    }
    r := Some(Results(objects, total));
  }

  /** `create_index`'s order table. */
  function Order(name: string): (r: Option<int>)
    ensures r == Some(Ascending) <==> name == "asc" || name == "ascending"
    ensures r == Some(Descending) <==> name == "desc" || name == "descending"
    ensures r.Some? ==> r == Some(Ascending) || r == Some(Descending)
  {
    if name == "asc" || name == "ascending" then Some(Ascending)
    else if name == "desc" || name == "descending" then Some(Descending)
    else None
  }

  /** The key list of `create_index`: each field with its direction, in order; an order
      outside the table raises (`None`). */
  function IndexKeys(fields: seq<(string, string)>): (r: Option<seq<(string, int)>>)
    ensures r.Some? <==> forall i :: 0 <= i < |fields| ==> Order(fields[i].1).Some?
    ensures r.Some? ==>
      |r.value| == |fields| && forall i :: 0 <= i < |fields| ==> r.value[i] == (fields[i].0, Order(fields[i].1).value)
  {
    if fields == [] then Some([])
    else
      var rest := IndexKeys(fields[1..]);
      match Order(fields[0].1)
      case None => None
      case Some(direction) =>
        if rest.None? then
          assert exists i :: 1 <= i < |fields| && Order(fields[i].1).None? by {
            var j :| 0 <= j < |fields[1..]| && Order(fields[1..][j].1).None?;
            assert fields[j + 1] == fields[1..][j];
          }
          None
        else Some([(fields[0].0, direction)] + rest.value)
  }

  /** `weights` after `weights.update(...)`: every field without a weight gets 1. */
  function WithDefaults(weights: map<string, int>, fields: seq<string>): (r: map<string, int>)
    ensures r.Keys == weights.Keys + set f | f in fields
    ensures forall k :: k in weights ==> r[k] == weights[k]
    ensures forall k :: k in r && k !in weights ==> r[k] == 1
  {
    weights + map f | f in fields && f !in weights :: 1
  }

  /** Filling in the defaults again changes nothing. */
  lemma WithDefaultsIdempotent(weights: map<string, int>, fields: seq<string>)
    ensures WithDefaults(WithDefaults(weights, fields), fields) == WithDefaults(weights, fields)
  {
  }

  /** What `create_text_index` asks MongoDB for. */
  datatype TextIndex = TextIndex(keys: seq<(string, string)>, name: string, language: string, weights: map<string, int>)

  /** The keys of a text index: every field, in order, of type "text". */
  function TextKeys(fields: seq<string>): (r: seq<(string, string)>)
    ensures |r| == |fields| && forall i :: 0 <= i < |fields| ==> r[i] == (fields[i], "text")
  {
    seq(|fields|, i requires 0 <= i < |fields| => (fields[i], "text"))
  }

  /** The conditions of `search`, appended in order. */
  method BuildConditions(args: SearchArgs) returns (conditions: seq<Clause>)
    ensures conditions == Conditions(args)
  {
    conditions := [];
    if args.text != "" {
      conditions := conditions + [TextCondition(args.text)];
    }
    if args.name.Some? {
      conditions := conditions + [map["name" := args.name.value]];
    }
    if args.url.Some? {
      conditions := conditions + [map["url" := args.url.value]];
    }
  }

  /** The constraints of `search`: one per category, then one per cuisine. */
  method BuildConstraints(args: SearchArgs) returns (constraints: seq<Clause>)
    ensures constraints == Constraints(args)
  {
    constraints := [];
    for i := 0 to |args.categories|
      invariant constraints == Each("recipeCategory", args.categories[..i])
    {
      constraints := constraints + [map["recipeCategory" := args.categories[i]]];
    }
    assert args.categories[..|args.categories|] == args.categories;
    for i := 0 to |args.cuisines|
      invariant constraints == Each("recipeCategory", args.categories) + Each("recipeCuisine", args.cuisines[..i])
    {
      constraints := constraints + [map["recipeCuisine" := args.cuisines[i]]];
    }
    assert args.cuisines[..|args.cuisines|] == args.cuisines;
  }

  /** The module-level `DEFAULT_PROJECTION` dictionary and the `weights = {}` default
      argument of `create_text_index`: one object for the whole program, updated in place
      and seen by every `Manager`. */
  class Defaults {
    var projection: Clause
    var weights: map<string, int>

    constructor ()
      ensures projection == map["name" := Num(1), "url" := Num(1), "_id" := Num(0)]
      ensures weights == map[]
    {
      projection := map["name" := Num(1), "url" := Num(1), "_id" := Num(0)];
      weights := map[];
    }
  }

  /** A manager: its `search` and `create_text_index` read and update the program's one
      `Defaults` object, which every manager shares. */
  class Manager {
    const defaults: Defaults

    constructor (defaults: Defaults)
      ensures this.defaults == defaults
    {
      this.defaults := defaults;
    }

    /** `search` up to its `find` call: the filter, the projection and the sort. A text
        search adds the score to the projection it uses, which is the shared default
        when the caller gives none. */
    method Search(args: SearchArgs) returns (plan: Find)
      modifies defaults`projection
      ensures plan.query == SearchQuery(args)
      ensures var base := if args.projection.Some? then args.projection.value else old(defaults.projection);
        plan.projection == if args.text != "" then base["score" := TextScore] else base
      ensures plan.sort == if args.sort.Some? then args.sort.value else if args.text != "" then TextScoreSort else DefaultSort
      ensures defaults.projection == if args.text != "" && args.projection.None? then plan.projection else old(defaults.projection)
    {
      var conditions := BuildConditions(args);
      var constraints := BuildConstraints(args);
      var op := if args.op.Some? then args.op.value else "$and";
      var clause := MakeClause(op, constraints);
      var query: Clause;
      if |conditions| == 0 && |clause| == 0 {
        query := map[];
      } else if |conditions| == 0 {
        query := clause;
      } else if |clause| == 0 {
        query := MakeClause("$and", conditions);
      } else {
        query := map["$and" := Arr(Objs(conditions) + [Obj(clause)])];
      }
      var projection := if args.projection.Some? then args.projection.value else defaults.projection;
      var sort: Value;
      if args.text != "" {
        sort := if args.sort.Some? then args.sort.value else TextScoreSort;
        projection := projection["score" := TextScore];
        if args.projection.None? {
          defaults.projection := projection;
        }
      } else {
        sort := if args.sort.Some? then args.sort.value else DefaultSort;
      }
      plan := Find(query, projection, sort);
    }

    /** `create_text_index` up to its `create_index` call. Without `weights` the shared
        default dictionary is filled in and kept for later calls. */
    method CreateTextIndex(fields: seq<string>, name: string, language: string, weights: Option<map<string, int>>)
      returns (index: TextIndex)
      modifies defaults`weights
      ensures var given := if weights.Some? then weights.value else old(defaults.weights);
        index == TextIndex(TextKeys(fields), name, language, WithDefaults(given, fields))
      ensures defaults.weights == if weights.None? then index.weights else old(defaults.weights)
    {
      var w := if weights.Some? then weights.value else defaults.weights;
      w := WithDefaults(w, fields);
      if weights.None? {
        defaults.weights := w;
      }
      var keys: seq<(string, string)> := [];
      for i := 0 to |fields|
        invariant keys == TextKeys(fields[..i])
      {
        keys := keys + [(fields[i], "text")];
      }
      assert fields[..|fields|] == fields;
      index := TextIndex(keys, name, language, w);
    }
  }

  /** A text search without a projection leaves the score in the shared default, so a
      later plain search projects it too, even on another manager. */
  method ScoreLeaks(text: string) returns (first: Find, second: Find)
    requires text != ""
    ensures "score" in first.projection && "score" in second.projection
  {
    var shared := new Defaults();
    var m := new Manager(shared);
    first := m.Search(SearchArgs(text, None, None, None, [], [], None, None));
    var other := new Manager(shared);
    second := other.Search(SearchArgs("", None, None, None, [], [], None, None));
  }

  /** Text indexes built without weights share one dictionary, even on another manager:
      the second carries the fields of the first. */
  method WeightsLeak(first: seq<string>, second: seq<string>) returns (a: TextIndex, b: TextIndex)
    ensures forall f :: f in first ==> f in b.weights
  {
    var shared := new Defaults();
    var m := new Manager(shared);
    a := m.CreateTextIndex(first, "text_index", "none", None);
    var other := new Manager(shared);
    b := other.CreateTextIndex(second, "text_index", "none", None);
  }
}
