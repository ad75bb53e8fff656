/** The search constraints both shells keep (cmdlineutils/main.py and
    search_util/recipe_search.py hold the same code): how `do_set` reads
    `param = value(s)`, what it stores, and how `do_search` turns the constraints into
    the arguments of `Manager.search`. */
module SearchParams {
  import opened Wrappers
  import opened Text
  import opened Values
  import Manager

  /** A stored constraint: a list of values, or a single string (the operator). */
  datatype Param = Many(items: seq<string>) | One(text: string)

  type Params = map<string, Param>

  const Category := "recipeCategory"
  const Cuisine := "recipeCuisine"
  const Operator := "operator"

  /** The constraints a shell starts with, and `do_reset` restores. */
  const Defaults: Params := map[Category := Many([]), Cuisine := Many([]), Operator := One("all")]

  /** The three constraints, categories and cuisines as lists, the operator `any` or
      `all`. */
  predicate WellFormed(params: Params) {
    && params.Keys == {Category, Cuisine, Operator}
    && params[Category].Many? && params[Cuisine].Many?
    && (params[Operator] == One("any") || params[Operator] == One("all"))
  }

  lemma DefaultsWellFormed()
    ensures WellFormed(Defaults)
  {
  }

  // ----- `re.match("(\w+)\s*=\s*(.*)", args.strip())` --------------------------------

  /** Nothing but word characters. */
  predicate IsWord(s: string) {
    forall j :: 0 <= j < |s| ==> IsWordChar(s[j])
  }

  /** Nothing but whitespace. */
  predicate AllSpace(s: string) {
    forall j :: 0 <= j < |s| ==> IsSpace(s[j])
  }

  /** The length of the run of word characters `t` starts with. */
  function WordRun(t: string): (k: nat)
    ensures k <= |t| && IsWord(t[..k])
    ensures k < |t| ==> !IsWordChar(t[k])
  {
    if t != [] && IsWordChar(t[0]) then
      var k := 1 + WordRun(t[1..]);
      assert t[..k] == [t[0]] + t[1..][..k - 1];
      k
    else 0
  }

  /** `t` up to its first newline: what `.*` matches. */
  function Line(t: string): (r: string)
    ensures |r| <= |t| && r == t[..|r|] && '\n' !in r
    ensures |r| < |t| ==> t[|r|] == '\n'
  {
    if t == [] || t[0] == '\n' then [] else [t[0]] + Line(t[1..])
  }

  /** The two groups of the match: the longest leading word (the pattern cannot match a
      shorter one, since the word must be followed by space or `=`), then past the `=`
      and the whitespace after it, the rest of the line. */
  function Assignment(args: string): (r: Option<(string, string)>)
    ensures r.Some? ==> r.value.0 != [] && IsWord(r.value.0)
    ensures r.Some? ==> '\n' !in r.value.1
  {
    var t := Strip(args, Ascii);
    var k := WordRun(t);
    var u := TrimLeft(t[k..], Ascii);
    if k == 0 || u == [] || u[0] != '=' then None
    else Some((t[..k], Line(TrimLeft(u[1..], Ascii))))
  }

  /** Whitespace before a non-space character is skipped. */
  lemma TrimLeftPast(sp: string, x: string)
    requires AllSpace(sp)
    requires x != [] && !IsSpace(x[0])
    ensures TrimLeft(sp + x, Ascii) == x
  {
    var s := sp + x;
    var r := TrimLeft(s, Ascii);
    assert s[|sp|] == x[0];
    assert forall k :: 0 <= k < |sp| ==> s[k] == sp[k];
  }

  lemma WordRunOf(param: string, rest: string)
    requires IsWord(param)
    requires rest != [] && !IsWordChar(rest[0])
    ensures WordRun(param + rest) == |param|
  {
    var t := param + rest;
    assert t[|param|] == rest[0];
    assert t[..|param|] == param;
  }

  lemma LineOf(t: string)
    requires '\n' !in t
    ensures Line(t) == t
  {
  }

  /** The three parameter names can be written as the pattern's word. */
  lemma KeysAreWords()
    ensures IsWord(Category) && IsWord(Cuisine) && IsWord(Operator)
  {
    forall j | 0 <= j < |Category| ensures IsWordChar(Category[j]) {
      assert 'a' <= Category[j] <= 'z' || Category[j] == 'C';
    }
    forall j | 0 <= j < |Cuisine| ensures IsWordChar(Cuisine[j]) {
      assert 'a' <= Cuisine[j] <= 'z' || Cuisine[j] == 'C';
    }
    forall j | 0 <= j < |Operator| ensures IsWordChar(Operator[j]) {
      assert 'a' <= Operator[j] <= 'z';
    }
  }

  /** An assignment written `param<spaces>=<spaces>value` reads back as that parameter and
      value. */
  lemma AssignmentOf(param: string, before: string, after: string, value: string)
    requires param != [] && IsWord(param) && AllSpace(before) && AllSpace(after)
    requires value != [] && '\n' !in value && !IsSpace(value[0]) && !IsSpace(value[|value| - 1])
    ensures Assignment(param + (before + (['='] + (after + value)))) == Some((param, value))
  {
    var eq := ['='] + (after + value);
    var rest := before + eq;
    var args := param + rest;
    StrippedAssignment(param, before, after, value);
    EqualsAfterSpaces(before, eq);
    ValueAfterEquals(before, after, value);
    WordRunOf(param, rest);
    assert args[|param|..] == rest && args[..|param|] == param;
    AssignmentSplit(args, |param|, eq, value);
  }

  /** Such an assignment has nothing to strip. */
  lemma StrippedAssignment(param: string, before: string, after: string, value: string)
    requires param != [] && IsWord(param)
    requires value != [] && !IsSpace(value[|value| - 1])
    ensures var args := param + (before + (['='] + (after + value))); Strip(args, Ascii) == args
  {
    var args := param + (before + (['='] + (after + value)));
    assert args[0] == param[0] && args[|args| - 1] == value[|value| - 1];
  }

  /** The word ends where the spaces or the `=` begin. */
  lemma EqualsAfterSpaces(before: string, eq: string)
    requires AllSpace(before) && eq != [] && eq[0] == '='
    ensures before + eq != [] && !IsWordChar((before + eq)[0])
  {
    if before != [] {
      assert (before + eq)[0] == before[0];
    } else {
      assert before + eq == eq;
    }
  }

  /** Past the spaces, the `=`; past it and the spaces after it, the value. */
  lemma ValueAfterEquals(before: string, after: string, value: string)
    requires AllSpace(before) && AllSpace(after)
    requires value != [] && '\n' !in value && !IsSpace(value[0])
    ensures var eq := ['='] + (after + value);
      TrimLeft(before + eq, Ascii) == eq && Line(TrimLeft(eq[1..], Ascii)) == value
  {
    var eq := ['='] + (after + value);
    TrimLeftPast(before, eq);
    assert eq[1..] == after + value;
    TrimLeftPast(after, value);
    LineOf(value);
  }

  /** The match on a word followed by the rest of an assignment. */
  lemma AssignmentSplit(args: string, k: nat, u: string, v: string)
    requires Strip(args, Ascii) == args && 0 < k == WordRun(args)
    requires TrimLeft(args[k..], Ascii) == u && u != [] && u[0] == '=' && Line(TrimLeft(u[1..], Ascii)) == v
    ensures Assignment(args) == Some((args[..k], v))
  {
  }

  // ----- `do_set` ----------------------------------------------------------------------

  /** Why `do_set` refuses its argument. */
  datatype SetError = Unparsed | BadParam(param: string) | BadOperator

  /** The stored form of a value: stripped comma-separated pieces as a list, a single
      category or cuisine as a one-element list, anything else as it is. */
  function Converted(param: string, raw: string): (p: Param)
    ensures ',' in raw ==> p.Many? && |p.items| == |Split(raw, ',')|
    ensures ',' in raw ==> forall k :: 0 <= k < |p.items| ==> p.items[k] == Strip(Split(raw, ',')[k], Ascii)
    ensures ',' !in raw && (param == Category || param == Cuisine) ==> p == Many([raw])
    ensures ',' !in raw && param != Category && param != Cuisine ==> p == One(raw)
  {
    if ',' in raw then Many(StripEach(Split(raw, ',')))
    else if param == Category || param == Cuisine then Many([raw])
    else One(raw)
  }

  /** `[val.strip() for val in pieces]`. */
  function StripEach(pieces: seq<string>): (r: seq<string>)
    ensures |r| == |pieces| && forall k :: 0 <= k < |r| ==> r[k] == Strip(pieces[k], Ascii)
  {
    if pieces == [] then [] else [Strip(pieces[0], Ascii)] + StripEach(pieces[1..])
  }

  /** The operator's value is `any` or `all` exactly when it was written so. */
  lemma OperatorValue(raw: string)
    ensures Converted(Operator, raw) == One("any") <==> raw == "any"
    ensures Converted(Operator, raw) == One("all") <==> raw == "all"
  {
    if raw == "any" || raw == "all" {
      assert ',' !in raw;
    }
  }

  /** What `do_set` makes of its argument: the parameter and the value it stores, or why
      it stores nothing. */
  function ReadSet(args: string): (r: Result<(string, Param), SetError>)
    ensures Assignment(args).None? ==> r == Err(Unparsed)
    ensures Assignment(args).Some? ==> var (param, raw) := Assignment(args).value;
      && (param != Category && param != Cuisine && param != Operator ==> r == Err(BadParam(param)))
      && (param == Operator ==> (r.Ok? <==> raw == "any" || raw == "all"))
      && (param == Category || param == Cuisine ==> r.Ok?)
      && (r.Err? && param == Operator ==> r == Err(BadOperator))
      && (r.Ok? ==> r.value == (param, Converted(param, raw)))
  {
    match Assignment(args)
    case None => Err(Unparsed)
    case Some((param, raw)) =>
      var value := Converted(param, raw);
      OperatorValue(raw);
      if param != Category && param != Cuisine && param != Operator then Err(BadParam(param))
      else if param == Operator && value != One("any") && value != One("all") then Err(BadOperator)
      else Ok((param, value))
  }

  /** The constraints after `do_set(args)`: only the named one changes, and only when the
      argument is accepted. */
  function Assign(params: Params, args: string): (r: Params)
    ensures ReadSet(args).Err? ==> r == params
    ensures ReadSet(args).Ok? ==> r == params[ReadSet(args).value.0 := ReadSet(args).value.1]
  {
    match ReadSet(args)
    case Err(_) => params
    case Ok((param, value)) => params[param := value]
  }

  /** `do_set` keeps the constraints well formed: a category or cuisine is always stored
      as a list, the operator only as `any` or `all`. */
  lemma AssignWellFormed(params: Params, args: string)
    requires WellFormed(params)
    ensures WellFormed(Assign(params, args))
  {
  }

  /** A comma-separated list of stripped values is stored as exactly those values, for
      the operator too (which then refuses it). */
  lemma ListStored(param: string, items: seq<string>)
    requires |items| >= 2
    requires forall k :: 0 <= k < |items| ==> ',' !in items[k] && Strip(items[k], Ascii) == items[k]
    ensures Converted(param, Join(items, ",")) == Many(items)
  {
    CommaInJoin(items);
    SplitJoin(items, ',');
    StripEachStripped(items);
  }

  lemma CommaInJoin(items: seq<string>)
    requires |items| >= 2
    ensures ',' in Join(items, ",")
  {
    var head := items[0] + ",";
    assert Join(items, ",") == head + Join(items[1..], ",");
    assert head[|items[0]|] == ',';
    assert Join(items, ",")[|items[0]|] == ',';
  }

  lemma StripEachStripped(items: seq<string>)
    requires forall k :: 0 <= k < |items| ==> Strip(items[k], Ascii) == items[k]
    ensures StripEach(items) == items
  {
  }

  lemma StrippedEnds(s: string)
    requires s != [] && Strip(s, Ascii) == s
    ensures !IsSpace(s[0]) && !IsSpace(s[|s| - 1])
  {
  }

  /** Setting a category list written `recipeCategory = a,b,...` stores that list. */
  lemma SetCategories(items: seq<string>)
    requires |items| >= 2
    requires forall k :: 0 <= k < |items| ==> ',' !in items[k] && '\n' !in items[k] && Strip(items[k], Ascii) == items[k]
    requires items[0] != [] && items[|items| - 1] != []
    ensures ReadSet(Category + (" " + ("=" + (" " + Join(items, ","))))) == Ok((Category, Many(items)))
  {
    var value := Join(items, ",");
    var args := Category + (" " + ("=" + (" " + value)));
    ListValue(items);
    KeysAreWords();
    AssignmentOf(Category, " ", " ", value);
    ListStored(Category, items);
    CategoryRead(args, value, items);
  }

  lemma CategoryRead(args: string, value: string, items: seq<string>)
    requires Assignment(args) == Some((Category, value)) && Converted(Category, value) == Many(items)
    ensures ReadSet(args) == Ok((Category, Many(items)))
  {
  }

  /** A list of stripped values joined by commas is a one-line value with no space at
      either end. */
  lemma ListValue(items: seq<string>)
    requires |items| >= 2
    requires forall k :: 0 <= k < |items| ==> '\n' !in items[k] && Strip(items[k], Ascii) == items[k]
    requires items[0] != [] && items[|items| - 1] != []
    ensures var value := Join(items, ",");
      value != [] && '\n' !in value && !IsSpace(value[0]) && !IsSpace(value[|value| - 1])
  {
    JoinEnds(items, ',');
    JoinAvoids(items, ',', '\n');
    StrippedEnds(items[0]);
    StrippedEnds(items[|items| - 1]);
  }

  /** The operator accepts exactly `any` and `all`. */
  lemma SetOperator(word: string)
    requires word != [] && '\n' !in word && ',' !in word && !IsSpace(word[0]) && !IsSpace(word[|word| - 1])
    ensures ReadSet(Operator + "=" + word).Ok? <==> word == "any" || word == "all"
    ensures ReadSet(Operator + "=" + word).Ok? ==> ReadSet(Operator + "=" + word).value == (Operator, One(word))
  {
    OperatorAssignment(word);
    OperatorRead(Operator + "=" + word, word);
  }

  lemma OperatorAssignment(word: string)
    requires word != [] && '\n' !in word && !IsSpace(word[0]) && !IsSpace(word[|word| - 1])
    ensures Assignment(Operator + "=" + word) == Some((Operator, word))
  {
    assert Operator + "=" + word == Operator + ("" + ("=" + ("" + word)));
    KeysAreWords();
    AssignmentOf(Operator, "", "", word);
  }

  lemma OperatorRead(args: string, word: string)
    requires Assignment(args) == Some((Operator, word)) && ',' !in word
    ensures ReadSet(args).Ok? <==> word == "any" || word == "all"
    ensures ReadSet(args).Ok? ==> ReadSet(args).value == (Operator, One(word))
  {
    OperatorValue(word);
  }

  // ----- `do_search` -------------------------------------------------------------------

  /** `"$and" if operator == "all" else "$or"`. */
  function OpFor(operator: Param): (op: string)
    ensures op == "$and" <==> operator == One("all")
    ensures op == "$and" || op == "$or"
  {
    if operator == One("all") then "$and" else "$or"
  }

  function Strs(items: seq<string>): (vs: seq<Value>)
    ensures |vs| == |items| && forall k :: 0 <= k < |items| ==> vs[k] == Str(items[k])
  {
    seq(|items|, k requires 0 <= k < |items| => Str(items[k]))
  }

  /** The arguments `do_search(text)` passes to `Manager.search`. */
  function SearchFor(params: Params, text: string): (args: Manager.SearchArgs)
    requires WellFormed(params)
    ensures args.text == text && args.name.None? && args.url.None?
    ensures args.op == Some(OpFor(params[Operator]))
    ensures args.categories == Strs(params[Category].items) && args.cuisines == Strs(params[Cuisine].items)
  {
    Manager.SearchArgs(text, None, None, Some(OpFor(params[Operator])),
      Strs(params[Category].items), Strs(params[Cuisine].items), None, None)
  }

  /** A search finds the documents that answer the text and that have every listed
      category and cuisine under `all`, or at least one of them under `any`. */
  lemma SearchForMeaning(params: Params, text: string, doc: Record, hits: set<string>)
    requires WellFormed(params)
    ensures var cats, cuis := params[Category].items, params[Cuisine].items;
      Manager.Satisfies(doc, hits, Obj(Manager.SearchQuery(SearchFor(params, text))))
      <==> ((text != "" ==> text in hits)
            && ((cats == [] && cuis == [])
                || (params[Operator] == One("all")
                    && (forall i :: 0 <= i < |cats| ==> Manager.FieldEquals(doc, Category, Str(cats[i])))
                    && (forall i :: 0 <= i < |cuis| ==> Manager.FieldEquals(doc, Cuisine, Str(cuis[i]))))
                || (params[Operator] == One("any")
                    && ((exists i :: 0 <= i < |cats| && Manager.FieldEquals(doc, Category, Str(cats[i])))
                        || (exists i :: 0 <= i < |cuis| && Manager.FieldEquals(doc, Cuisine, Str(cuis[i])))))))
  {
    var args := SearchFor(params, text);
    Manager.SearchMeaning(args, doc, hits);
  }
}
