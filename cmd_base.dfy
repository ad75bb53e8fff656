/** `RecipeUtilBase` and `RecipeUtilPager` (cmdlineutils/base.py): the option parser the
    shell commands share, and the pager whose page count rounds up. `shlex` splitting
    is not modelled: the parser reads a given token sequence, with shlex's one-token
    push-back. */
module CmdBase {
  import opened Wrappers
  import opened Text
  import opened Paging

  /** A parsed option value. */
  datatype Arg = Flag | Text(value: string) | Items(items: seq<string>) | PairList(pairs: seq<(string, string)>)

  /** Why `parse_args` raises. */
  datatype ParseError = NoArgType(token: string) | BadValue(token: string) | MissingSeparator

  type Params = map<string, Arg>

  /** The outcome of reading one `item : value` pair. */
  datatype PairRead = Exhausted | BadPair | Pair(item: string, value: string, rest: seq<string>)

  /** `get_pair` on the remaining tokens: three tokens are read before the separator is
      looked at; running out of tokens first ends parsing. */
  function PairOf(ts: seq<string>): (r: PairRead)
    ensures r.Pair? ==> |ts| >= 3 && ts[1] == ":" && r.item == ts[0] && r.value == ts[2] && r.rest == ts[3..]
    ensures r == Exhausted <==> |ts| < 3
    ensures r == BadPair <==> |ts| >= 3 && ts[1] != ":"
  {
    if |ts| < 3 then Exhausted
    else if ts[1] != ":" then BadPair
    else Pair(ts[0], ts[2], ts[3..])
  }

  /** The `while True` loop of `parse_args` from the remaining tokens `ts`, with the options
      recorded so far. Running out of tokens (`StopIteration`) ends it with what is
      recorded. */
  function Parse(ts: seq<string>, types: map<string, string>, params: Params): Result<Params, ParseError>
    decreases |ts|, 0
  {
    if ts == [] then Ok(params)
    else
      var t := ts[0];
      if t !in types then Err(NoArgType(t))
      else if types[t] == "store_true" then Parse(ts[1..], types, params[t := Flag])
      else if |ts| == 1 then Ok(params)
      else if ts[1] != "=" then Err(BadValue(t))
      else
        var rest := ts[2..];
        if types[t] == "string" then
          if rest == [] then Ok(params) else Parse(rest[1..], types, params[t := Text(rest[0])])
        else if types[t] == "list" then
          if rest == [] then Ok(params) else ListFrom(rest[1..], types, params, t, [rest[0]])
        else if types[t] == "pairs" then
          match PairOf(rest)
          case Exhausted => Ok(params)
          case BadPair => Err(MissingSeparator)
          case Pair(item, value, after) => PairsFrom(after, types, params, t, [(item, value)])
        else Parse(rest, types, params)
  }

  /** The `while self.check(lex, ",")` loop of a `list` option whose items so far are
      `acc`. */
  function ListFrom(ts: seq<string>, types: map<string, string>, params: Params, t: string, acc: seq<string>)
    : Result<Params, ParseError>
    decreases |ts|, 1
  {
    if ts == [] then Ok(params[t := Items(acc)])
    else if ts[0] != "," then Parse(ts, types, params[t := Items(acc)])
    else if |ts| == 1 then Ok(params[t := Items(acc)])
    else ListFrom(ts[2..], types, params, t, acc + [ts[1]])
  }

  /** The same loop for a `pairs` option. */
  function PairsFrom(ts: seq<string>, types: map<string, string>, params: Params, t: string, acc: seq<(string, string)>)
    : Result<Params, ParseError>
    decreases |ts|, 1
  {
    if ts == [] then Ok(params[t := PairList(acc)])
    else if ts[0] != "," then Parse(ts, types, params[t := PairList(acc)])
    else match PairOf(ts[1..])
      case Exhausted => Ok(params[t := PairList(acc)])
      case BadPair => Err(MissingSeparator)
      case Pair(item, value, after) => PairsFrom(after, types, params, t, acc + [(item, value)])
  }

  /** shlex's token stream: `next` takes the first pending token, `push_token` puts one
      back in front. */
  class Lexer {
    var pending: seq<string>

    constructor (tokens: seq<string>)
      ensures pending == tokens
    {
      pending := tokens;
    }

    /** `lex.next()`; `None` stands for `StopIteration`. */
    method Next() returns (t: Option<string>)
      modifies this
      ensures old(pending) == [] ==> t == None && pending == []
      ensures old(pending) != [] ==> t == Some(old(pending)[0]) && pending == old(pending)[1..]
    {
      if pending == [] {
        t := None;
      } else {
        t := Some(pending[0]);
        pending := pending[1..];
      }
    }

    /** `lex.push_token(token)`. */
    method PushToken(token: string)
      modifies this
      ensures pending == [token] + old(pending)
    {
      pending := [token] + pending;
    }
  }

  /** `check`: consumes the next token only when it is `value`; `None` when no token is
      left. */
  method Check(lex: Lexer, value: string) returns (r: Option<bool>)
    modifies lex
    ensures old(lex.pending) == [] ==> r == None && lex.pending == []
    ensures old(lex.pending) != [] ==> r == Some(old(lex.pending)[0] == value)
    ensures old(lex.pending) != [] && old(lex.pending)[0] == value ==> lex.pending == old(lex.pending)[1..]
    ensures old(lex.pending) != [] && old(lex.pending)[0] != value ==> lex.pending == old(lex.pending)
  {
    var token := lex.Next();
    if token.None? {
      return None;
    }
    if token.value != value {
      lex.PushToken(token.value);
      assert [old(lex.pending)[0]] + old(lex.pending)[1..] == old(lex.pending);
      return Some(false);
    }
    return Some(true);
  }

  /** `get_pair`: reads item, separator and value, and fails unless the separator is ":". */
  method GetPair(lex: Lexer) returns (r: PairRead)
    modifies lex
    ensures r == PairOf(old(lex.pending))
    ensures r.Pair? ==> lex.pending == r.rest
    ensures r == Exhausted ==> lex.pending == []
    ensures |lex.pending| <= |old(lex.pending)|
  {
    var item := lex.Next();
    var sep := lex.Next();
    var value := lex.Next();
    if item.None? || sep.None? || value.None? {
      return Exhausted;
    }
    assert old(lex.pending)[3..] == lex.pending;
    if sep.value != ":" {
      return BadPair;
    }
    return Pair(item.value, value.value, lex.pending);
  }

  /** `parse_args`: the options of `tokens` by the types in `types`. */
  method ParseArgs(tokens: seq<string>, types: map<string, string>) returns (r: Result<Params, ParseError>)
    ensures r == Parse(tokens, types, map[])
  {
    var lex := new Lexer(tokens);
    var params: Params := map[];
    while true
      invariant Parse(lex.pending, types, params) == Parse(tokens, types, map[])
      decreases |lex.pending|
    {
      var pending := lex.pending;
      var token := lex.Next();
      if token.None? {
        return Ok(params);
      }
      var t := token.value;
      if t !in types {
        return Err(NoArgType(t));
      }
      if types[t] == "store_true" {
        params := params[t := Flag];
        continue;
      }
      var eq := lex.Next();
      if eq.None? {
        return Ok(params);
      }
      if eq.value != "=" {
        return Err(BadValue(t));
      }
      if types[t] == "string" {
        var value := lex.Next();
        if value.None? {
          return Ok(params);
        }
        params := params[t := Text(value.value)];
      } else if types[t] == "list" {
        var first := lex.Next();
        if first.None? {
          return Ok(params);
        }
        assert pending[3..] == lex.pending;
        r := ListLoop(lex, types, params, t, first.value);
        if r.Err? || lex.pending == [] {
          return;
        }
        params := r.value;
      } else if types[t] == "pairs" {
        assert pending[2..] == lex.pending;
        var pair := GetPair(lex);
        if pair == Exhausted {
          return Ok(params);
        } else if pair == BadPair {
          return Err(MissingSeparator);
        }
        r := PairsLoop(lex, types, params, t, [(pair.item, pair.value)]);
        if r.Err? || lex.pending == [] {
          return;
        }
        params := r.value;
      }
    }
  }

  /** The item loop of a `list` option: returns the options with the list recorded, and
      leaves the lexer at the first token after it (nothing left when parsing ended). */
  method ListLoop(lex: Lexer, types: map<string, string>, params: Params, t: string, first: string)
    returns (r: Result<Params, ParseError>)
    modifies lex
    ensures |lex.pending| <= |old(lex.pending)|
    ensures ListFrom(old(lex.pending), types, params, t, [first])
         == (if r.Err? || lex.pending == [] then r else Parse(lex.pending, types, r.value))
    ensures r.Ok?
  {
    var acc := [first];
    while true
      invariant ListFrom(lex.pending, types, params, t, acc) == ListFrom(old(lex.pending), types, params, t, [first])
      invariant |lex.pending| <= |old(lex.pending)|
      decreases |lex.pending|
    {
      var pending := lex.pending;
      var more := Check(lex, ",");
      if more.None? || !more.value {
        return Ok(params[t := Items(acc)]);
      }
      var item := lex.Next();
      if item.None? {
        return Ok(params[t := Items(acc)]);
      }
      assert pending[2..] == lex.pending;
      acc := acc + [item.value];
    }
  }

  /** The pair loop of a `pairs` option, in the same terms. */
  method PairsLoop(lex: Lexer, types: map<string, string>, params: Params, t: string, first: seq<(string, string)>)
    returns (r: Result<Params, ParseError>)
    modifies lex
    ensures |lex.pending| <= |old(lex.pending)|
    ensures PairsFrom(old(lex.pending), types, params, t, first)
         == (if r.Err? || lex.pending == [] then r else Parse(lex.pending, types, r.value))
  {
    var acc := first;
    while true
      invariant PairsFrom(lex.pending, types, params, t, acc) == PairsFrom(old(lex.pending), types, params, t, first)
      invariant |lex.pending| <= |old(lex.pending)|
      decreases |lex.pending|
    {
      var pending := lex.pending;
      var more := Check(lex, ",");
      if more.None? {
        return Ok(params[t := PairList(acc)]);
      }
      if !more.value {
        assert pending[0] != ",";
        assert PairsFrom(pending, types, params, t, acc) == Parse(pending, types, params[t := PairList(acc)]);
        return Ok(params[t := PairList(acc)]);
      }
      assert pending[1..] == lex.pending;
      var pair := GetPair(lex);
      if pair == Exhausted {
        return Ok(params[t := PairList(acc)]);
      } else if pair == BadPair {
        return Err(MissingSeparator);
      }
      acc := acc + [(pair.item, pair.value)];
    }
  }

  // ----- what the parser accepts -------------------------------------------------------

  /** The tokens after the first item of a list: `, item` for each further item. */
  function ItemTail(ws: seq<string>): seq<string> {
    if ws == [] then [] else [",", ws[0]] + ItemTail(ws[1..])
  }

  /** The tokens after the first pair: `, item : value` for each further pair. */
  function PairTail(ps: seq<(string, string)>): seq<string> {
    if ps == [] then [] else [",", ps[0].0, ":", ps[0].1] + PairTail(ps[1..])
  }

  /** The tokens that spell one option. */
  function Spell(name: string, arg: Arg): (ts: seq<string>)
    requires arg.Items? ==> arg.items != []
    requires arg.PairList? ==> arg.pairs != []
    ensures ts != [] && ts[0] == name
  {
    match arg
    case Flag => [name]
    case Text(v) => [name, "=", v]
    case Items(vs) => [name, "=", vs[0]] + ItemTail(vs[1..])
    case PairList(ps) => [name, "=", ps[0].0, ":", ps[0].1] + PairTail(ps[1..])
  }

  /** An option the parser can read back: a known name other than ",", a value of the kind
      its type names, and at least one item or pair. */
  predicate WellTyped(types: map<string, string>, name: string, arg: Arg) {
    name in types && name != ","
    && match arg
       case Flag => types[name] == "store_true"
       case Text(_) => types[name] == "string"
       case Items(vs) => types[name] == "list" && vs != []
       case PairList(ps) => types[name] == "pairs" && ps != []
  }

  /** A command line: the options spelled one after the other. */
  function Command(types: map<string, string>, entries: seq<(string, Arg)>): seq<string>
    requires forall k :: 0 <= k < |entries| ==> WellTyped(types, entries[k].0, entries[k].1)
  {
    if entries == [] then []
    else
      assert WellTyped(types, entries[0].0, entries[0].1);
      Spell(entries[0].0, entries[0].1) + Command(types, entries[1..])
  }

  /** The options recorded in order, a later one replacing an earlier one of that name. */
  function Apply(entries: seq<(string, Arg)>, params: Params): Params {
    if entries == [] then params else Apply(entries[1..], params[entries[0].0 := entries[0].1])
  }

  lemma ItemCons(w: string, tail: seq<string>, types: map<string, string>, params: Params, t: string, acc: seq<string>)
    ensures ListFrom([",", w] + tail, types, params, t, acc) == ListFrom(tail, types, params, t, acc + [w])
  {
    assert ([",", w] + tail)[2..] == tail;
  }

  lemma {:induction false} ItemTailParses(ws: seq<string>, rest: seq<string>, types: map<string, string>, params: Params, t: string, acc: seq<string>)
    requires rest == [] || rest[0] != ","
    ensures ListFrom(ItemTail(ws) + rest, types, params, t, acc) == Parse(rest, types, params[t := Items(acc + ws)])
    decreases |ws|
  {
    if ws == [] {
      assert ItemTail(ws) + rest == rest && acc + ws == acc;
    } else {
      assert ItemTail(ws) + rest == [",", ws[0]] + (ItemTail(ws[1..]) + rest);
      ItemCons(ws[0], ItemTail(ws[1..]) + rest, types, params, t, acc);
      ItemTailParses(ws[1..], rest, types, params, t, acc + [ws[0]]);
      assert acc + [ws[0]] + ws[1..] == acc + ws;
    }
  }

  lemma PairCons(p: (string, string), tail: seq<string>, types: map<string, string>, params: Params, t: string, acc: seq<(string, string)>)
    ensures PairsFrom([",", p.0, ":", p.1] + tail, types, params, t, acc) == PairsFrom(tail, types, params, t, acc + [p])
  {
    var ts := [",", p.0, ":", p.1] + tail;
    assert ts[1..] == [p.0, ":", p.1] + tail;
    assert PairOf(ts[1..]) == Pair(p.0, p.1, tail);
  }

  lemma {:induction false} PairTailParses(ps: seq<(string, string)>, rest: seq<string>, types: map<string, string>, params: Params, t: string, acc: seq<(string, string)>)
    requires rest == [] || rest[0] != ","
    ensures PairsFrom(PairTail(ps) + rest, types, params, t, acc) == Parse(rest, types, params[t := PairList(acc + ps)])
    decreases |ps|
  {
    if ps == [] {
      assert PairTail(ps) + rest == rest && acc + ps == acc;
    } else {
      assert PairTail(ps) + rest == [",", ps[0].0, ":", ps[0].1] + (PairTail(ps[1..]) + rest);
      PairCons(ps[0], PairTail(ps[1..]) + rest, types, params, t, acc);
      PairTailParses(ps[1..], rest, types, params, t, acc + [ps[0]]);
      assert acc + [ps[0]] + ps[1..] == acc + ps;
    }
  }

  /** One well-typed option followed by anything that does not start with "," parses to
      that option recorded, then the rest. */
  lemma SpellParses(types: map<string, string>, name: string, arg: Arg, rest: seq<string>, params: Params)
    requires WellTyped(types, name, arg)
    requires rest == [] || rest[0] != ","
    ensures Parse(Spell(name, arg) + rest, types, params) == Parse(rest, types, params[name := arg])
  {
    match arg
    case Flag =>
      assert (Spell(name, arg) + rest)[1..] == rest;
    case Text(v) =>
      assert (Spell(name, arg) + rest)[2..][1..] == rest;
    case Items(vs) =>
      ItemsParse(types, name, vs, rest, params);
    case PairList(ps) =>
      PairsParse(types, name, ps, rest, params);
  }

  lemma ItemsParse(types: map<string, string>, name: string, vs: seq<string>, rest: seq<string>, params: Params)
    requires WellTyped(types, name, Items(vs))
    requires rest == [] || rest[0] != ","
    ensures Parse(Spell(name, Items(vs)) + rest, types, params) == Parse(rest, types, params[name := Items(vs)])
  {
    var ts := Spell(name, Items(vs)) + rest;
    ItemsShape(name, vs, rest);
    ListOption(ts, types, params);
    ItemTailParses(vs[1..], rest, types, params, name, [vs[0]]);
    assert [vs[0]] + vs[1..] == vs;
  }

  lemma ItemsShape(name: string, vs: seq<string>, rest: seq<string>)
    requires vs != []
    ensures var ts := Spell(name, Items(vs)) + rest;
      |ts| >= 3 && ts[0] == name && ts[1] == "=" && ts[2] == vs[0] && ts[3..] == ItemTail(vs[1..]) + rest
  {
    var ts := Spell(name, Items(vs)) + rest;
    assert ts == [name, "=", vs[0]] + (ItemTail(vs[1..]) + rest);
  }

  /** A `list` option with its first item: the items loop takes over. */
  lemma ListOption(ts: seq<string>, types: map<string, string>, params: Params)
    requires |ts| >= 3 && ts[0] in types && types[ts[0]] == "list" && ts[1] == "="
    ensures Parse(ts, types, params) == ListFrom(ts[3..], types, params, ts[0], [ts[2]])
  {
    assert ts[2..][1..] == ts[3..];
  }

  lemma PairsParse(types: map<string, string>, name: string, ps: seq<(string, string)>, rest: seq<string>, params: Params)
    requires WellTyped(types, name, PairList(ps))
    requires rest == [] || rest[0] != ","
    ensures Parse(Spell(name, PairList(ps)) + rest, types, params) == Parse(rest, types, params[name := PairList(ps)])
  {
    var ts := Spell(name, PairList(ps)) + rest;
    PairsShape(name, ps, rest);
    PairsOption(ts, types, params);
    PairTailParses(ps[1..], rest, types, params, name, [ps[0]]);
    assert [ps[0]] + ps[1..] == ps;
  }

  lemma PairsShape(name: string, ps: seq<(string, string)>, rest: seq<string>)
    requires ps != []
    ensures var ts := Spell(name, PairList(ps)) + rest;
      |ts| >= 2 && ts[0] == name && ts[1] == "="
      && PairOf(ts[2..]) == Pair(ps[0].0, ps[0].1, PairTail(ps[1..]) + rest)
  {
    var ts := Spell(name, PairList(ps)) + rest;
    assert ts[2..] == [ps[0].0, ":", ps[0].1] + (PairTail(ps[1..]) + rest);
  }

  /** A `pairs` option with a first pair: the pairs loop takes over. */
  lemma PairsOption(ts: seq<string>, types: map<string, string>, params: Params)
    requires |ts| >= 2 && ts[0] in types && types[ts[0]] == "pairs" && ts[1] == "=" && PairOf(ts[2..]).Pair?
    ensures var p := PairOf(ts[2..]);
      Parse(ts, types, params) == PairsFrom(p.rest, types, params, ts[0], [(p.item, p.value)])
  {
  }

  /** Parsing a command line records its options in order, then goes on with what
      follows: reading back what was spelled gives the options, a repeated option keeping
      its last value. */
  lemma {:induction false} CommandParses(types: map<string, string>, entries: seq<(string, Arg)>, more: seq<string>, params: Params)
    requires forall k :: 0 <= k < |entries| ==> WellTyped(types, entries[k].0, entries[k].1)
    requires more == [] || more[0] != ","
    ensures Parse(Command(types, entries) + more, types, params) == Parse(more, types, Apply(entries, params))
    decreases |entries|
  {
    if entries != [] {
      var e := entries[0];
      assert WellTyped(types, e.0, e.1);
      var rest := Command(types, entries[1..]) + more;
      CommandStart(types, entries[1..], more);
      CommandParses(types, entries[1..], more, params[e.0 := e.1]);
      SpellParses(types, e.0, e.1, rest, params);
      CommandCons(types, entries, more);
      assert Apply(entries, params) == Apply(entries[1..], params[e.0 := e.1]);
    } else {
      assert Command(types, entries) + more == more;
    }
  }

  lemma CommandCons(types: map<string, string>, entries: seq<(string, Arg)>, more: seq<string>)
    requires entries != []
    requires forall k :: 0 <= k < |entries| ==> WellTyped(types, entries[k].0, entries[k].1)
    ensures WellTyped(types, entries[0].0, entries[0].1)
    ensures Command(types, entries) + more == Spell(entries[0].0, entries[0].1) + (Command(types, entries[1..]) + more)
  {
    assert WellTyped(types, entries[0].0, entries[0].1);
  }

  /** What follows an option on a spelled command line never starts with a comma. */
  lemma CommandStart(types: map<string, string>, entries: seq<(string, Arg)>, more: seq<string>)
    requires forall k :: 0 <= k < |entries| ==> WellTyped(types, entries[k].0, entries[k].1)
    requires more == [] || more[0] != ","
    ensures var ts := Command(types, entries) + more; ts == [] || ts[0] != ","
  {
    if entries != [] {
      assert WellTyped(types, entries[0].0, entries[0].1);
    }
  }

  /** Round trip: the options of a spelled command line are the options spelled. */
  lemma RoundTrip(types: map<string, string>, entries: seq<(string, Arg)>)
    requires forall k :: 0 <= k < |entries| ==> WellTyped(types, entries[k].0, entries[k].1)
    ensures Parse(Command(types, entries), types, map[]) == Ok(Apply(entries, map[]))
  {
    CommandParses(types, entries, [], map[]);
    assert Command(types, entries) + [] == Command(types, entries);
  }

  /** After valid options, a token with no type raises, whatever follows. */
  lemma UnknownTokenRaises(types: map<string, string>, entries: seq<(string, Arg)>, u: string, rest: seq<string>)
    requires forall k :: 0 <= k < |entries| ==> WellTyped(types, entries[k].0, entries[k].1)
    requires u !in types && u != ","
    ensures Parse(Command(types, entries) + ([u] + rest), types, map[]) == Err(NoArgType(u))
  {
    CommandParses(types, entries, [u] + rest, map[]);
  }

  /** A `store_true` option is recorded as set without reading an `=`. */
  lemma FlagTakesNoValue(types: map<string, string>, t: string, rest: seq<string>, params: Params)
    requires t in types && types[t] == "store_true"
    ensures Parse([t] + rest, types, params) == Parse(rest, types, params[t := Flag])
  {
    assert ([t] + rest)[1..] == rest;
  }

  /** A value cut off by the end of the line is not recorded, and neither is a pair cut
      off before its value. */
  lemma CutOffNotRecorded(types: map<string, string>, t: string, params: Params, a: string)
    requires t in types && types[t] in {"string", "list", "pairs"}
    ensures Parse([t], types, params) == Ok(params)
    ensures Parse([t, "="], types, params) == Ok(params)
    ensures types[t] == "pairs" ==> Parse([t, "=", a, ":"], types, params) == Ok(params)
  {
    assert [t, "="][2..] == [];
    assert [t, "=", a, ":"][2..] == [a, ":"];
  }

  // ----- the pager -----------------------------------------------------------------

  /** `RecipeUtilPager`: the page count rounds up. `total` is the item count the pager
      was built for; the source keeps only the page count. */
  class Pager {
    const lines: nat
    const lineLength: int
    const lastPage: nat
    ghost const total: nat
    var current: int

    ghost predicate Valid() {
      lines > 0 && lastPage == CeilPages(total, lines)
    }

    /** `__init__`: the pager starts on page 0. */
    constructor (lines: nat, lineLength: int, totalItems: nat)
      requires lines > 0
      ensures Valid() && this.lines == lines && this.lineLength == lineLength && total == totalItems
      ensures current == 0
    {
      this.lines := lines;
      this.lineLength := lineLength;
      total := totalItems;
      lastPage := CeilPages(totalItems, lines);
      current := 0;
    }

    /** `display_page`: false where it raises. A page is shown exactly when it holds at
        least one item; with no items no page is. */
    method DisplayPage(page: int) returns (ok: bool)
      requires Valid()
      ensures ok <==> 0 <= page && page * lines < total
    {
      CeilAdmitsNonEmpty(total, lines, page);
      ok := Admits(page, lastPage);
    }

    /** `do_page`: `None` for a number that does not parse, otherwise whether the target
        page is shown. */
    method DoPage(num: string) returns (r: Option<bool>)
      requires Valid()
      ensures r.None? <==> PageTarget(num, current).None?
      ensures r.Some? ==> (r.value <==> 0 <= PageTarget(num, current).value && PageTarget(num, current).value * lines < total)
    {
      var page := PageTarget(num, current);
      if page.None? {
        return None;
      }
      var ok := DisplayPage(page.value);
      return Some(ok);
    }

    /** `do_next`: the page after the current one. */
    method DoNext() returns (ok: bool)
      requires Valid()
      ensures ok <==> 0 <= current + 1 && (current + 1) * lines < total
    {
      ok := DisplayPage(current + 1);
    }

    /** `do_previous`: the page before the current one. */
    method DoPrevious() returns (ok: bool)
      requires Valid()
      ensures ok <==> 0 <= current - 1 && (current - 1) * lines < total
    {
      ok := DisplayPage(current - 1);
    }
  }
}
