/** `RecipeList.line_breaks` (cmdlineutils/recipes.py:53-67, and its copy in
    search_util/recipe_list.py:57-71): greedy word wrap of an instruction to the screen
    width. As written, a word that does not fit closes the current line and is itself
    lost; `CarryBreaks` is the wrap that starts the next line with it. */
module Wrap {
  import opened Text

  /** The loop state: finished lines, the line being filled, and its width counting one
      separator per word. */
  datatype Acc = Acc(lines: seq<seq<string>>, current: seq<string>, length: int)

  /** One word of the loop as written. */
  function Step(acc: Acc, word: string, lineLength: int): Acc {
    if acc.length + |word| + 1 < lineLength then Acc(acc.lines, acc.current + [word], acc.length + |word| + 1)
    else Acc(acc.lines + [acc.current], [], 0)
  }

  /** The loop as written over `words`. */
  function Fold(words: seq<string>, lineLength: int): Acc {
    if words == [] then Acc([], [], 0)
    else Step(Fold(words[..|words| - 1], lineLength), words[|words| - 1], lineLength)
  }

  /** The lines `line_breaks` joins: the finished ones and the last. */
  function Breaks(words: seq<string>, lineLength: int): seq<seq<string>> {
    var acc := Fold(words, lineLength);
    acc.lines + [acc.current]
  }

  /** `"\n".join([" ".join(line) for line in lines])`. */
  function Render(lines: seq<seq<string>>): string {
    Join(seq(|lines|, i requires 0 <= i < |lines| => Join(lines[i], " ")), "\n")
  }

  /** `line_breaks`: the words of `text` (split on whitespace), wrapped. */
  method LineBreaks(text: string, lineLength: int) returns (r: string)
    ensures r == Render(Breaks(Words(text, Unicode), lineLength))
  {
    var words := Words(text, Unicode);
    var lines: seq<seq<string>> := [];
    var current: seq<string> := [];
    var length := 0;
    for i := 0 to |words|
      invariant Acc(lines, current, length) == Fold(words[..i], lineLength)
    {
      assert words[..i + 1][..i] == words[..i];
      var word := words[i];
      if length + |word| + 1 < lineLength {
        current := current + [word];
        length := length + |word| + 1;
      } else {
        lines := lines + [current];
        current := [];
        length := 0;
      }
    }
    assert words[..|words|] == words;
    lines := lines + [current];
    r := Render(lines);
  }

  // ----- what the wrap keeps --------------------------------------------------------

  /** The width a line occupies in the loop's count: each word plus one separator. */
  function Width(line: seq<string>): nat {
    if line == [] then 0 else Width(line[..|line| - 1]) + |line[|line| - 1]| + 1
  }

  /** The words of the lines, in order. */
  function Flatten(lines: seq<seq<string>>): seq<string> {
    if lines == [] then [] else Flatten(lines[..|lines| - 1]) + lines[|lines| - 1]
  }

  /** `a` is `b` with some elements left out. */
  predicate IsSubseq(a: seq<string>, b: seq<string>)
    decreases |b|
  {
    if a == [] then true
    else if b == [] then false
    else if a[|a| - 1] == b[|b| - 1] then IsSubseq(a[..|a| - 1], b[..|b| - 1])
    else IsSubseq(a, b[..|b| - 1])
  }

  lemma {:induction false} SubseqExtend(a: seq<string>, b: seq<string>, x: string)
    requires IsSubseq(a, b)
    ensures IsSubseq(a, b + [x])
    decreases |b|, 1
  {
    assert (b + [x])[..|b|] == b;
    if a != [] && a[|a| - 1] == x {
      SubseqDropLast(a, b);
    }
  }

  lemma {:induction false} SubseqDropLast(a: seq<string>, b: seq<string>)
    requires a != [] && IsSubseq(a, b)
    ensures IsSubseq(a[..|a| - 1], b)
    decreases |b|, 0
  {
    var b', last := b[..|b| - 1], b[|b| - 1];
    assert b' + [last] == b;
    if a[|a| - 1] != last {
      SubseqDropLast(a, b');
    }
    SubseqExtend(a[..|a| - 1], b', last);
  }

  lemma FlattenSnoc(lines: seq<seq<string>>, line: seq<string>)
    ensures Flatten(lines + [line]) == Flatten(lines) + line
  {
    assert (lines + [line])[..|lines|] == lines;
  }

  /** A non-empty line joined by single spaces is one character shorter than its width. */
  lemma {:induction false} JoinedWidth(line: seq<string>)
    ensures |Join(line, " ")| == if line == [] then 0 else Width(line) - 1
    decreases |line|
  {
    if |line| > 1 {
      JoinedWidth(line[1..]);
      WidthCons(line[0], line[1..]);
      assert [line[0]] + line[1..] == line;
    }
  }

  lemma {:induction false} WidthCons(w: string, rest: seq<string>)
    ensures Width([w] + rest) == |w| + 1 + Width(rest)
    decreases |rest|
  {
    if rest != [] {
      var init := rest[..|rest| - 1];
      WidthCons(w, init);
      assert ([w] + rest)[..|rest|] == [w] + init;
    }
  }

  /** What the loop as written keeps: the line being filled has the counted width and
      fits, every finished line fits, the kept words are the input's in order, and each
      finished line stands for one dropped word. */
  predicate Kept(acc: Acc, words: seq<string>, lineLength: int) {
    acc.length == Width(acc.current)
    && (acc.current == [] || acc.length < lineLength)
    && (forall i :: 0 <= i < |acc.lines| ==> acc.lines[i] == [] || Width(acc.lines[i]) < lineLength)
    && IsSubseq(Flatten(acc.lines) + acc.current, words)
    && |Flatten(acc.lines) + acc.current| + |acc.lines| == |words|
  }

  lemma {:induction false} FoldKept(words: seq<string>, lineLength: int)
    ensures Kept(Fold(words, lineLength), words, lineLength)
    decreases |words|
  {
    if words != [] {
      var init, w := words[..|words| - 1], words[|words| - 1];
      FoldKept(init, lineLength);
      assert init + [w] == words;
      var a := Fold(init, lineLength);
      if a.length + |w| + 1 < lineLength {
        KeepStep(a, init, w, lineLength);
      } else {
        DropStep(a, init, w, lineLength);
      }
    }
  }

  lemma KeepStep(a: Acc, init: seq<string>, w: string, lineLength: int)
    requires Kept(a, init, lineLength) && a.length + |w| + 1 < lineLength
    ensures Kept(Step(a, w, lineLength), init + [w], lineLength)
  {
    var kept := Flatten(a.lines) + a.current;
    assert (a.current + [w])[..|a.current|] == a.current;
    assert Flatten(a.lines) + (a.current + [w]) == kept + [w];
    assert (kept + [w])[..|kept|] == kept;
    assert (init + [w])[..|init|] == init;
  }

  lemma DropStep(a: Acc, init: seq<string>, w: string, lineLength: int)
    requires Kept(a, init, lineLength) && a.length + |w| + 1 >= lineLength
    ensures Kept(Step(a, w, lineLength), init + [w], lineLength)
  {
    var kept := Flatten(a.lines) + a.current;
    FlattenSnoc(a.lines, a.current);
    assert Flatten(a.lines + [a.current]) + [] == kept;
    SubseqExtend(kept, init, w);
  }

  /** Every line of the output is shorter than the line length (when it is positive),
      the words shown are words of the text in their order, and there is one line more
      than words lost: each word that does not fit ends a line and is dropped. */
  lemma LineBreaksAsWritten(words: seq<string>, lineLength: int)
    requires lineLength > 0
    ensures var lines := Breaks(words, lineLength);
      (forall i :: 0 <= i < |lines| ==> |Join(lines[i], " ")| < lineLength)
      && IsSubseq(Flatten(lines), words)
      && |lines| == 1 + (|words| - |Flatten(lines)|)
  {
    var a := Fold(words, lineLength);
    FoldKept(words, lineLength);
    FlattenSnoc(a.lines, a.current);
    var lines := Breaks(words, lineLength);
    forall i | 0 <= i < |lines|
      ensures |Join(lines[i], " ")| < lineLength
    {
      JoinedWidth(lines[i]);
    }
  }

  /** With a width of 5, "abc def" wraps to "abc" and an empty line: "def" is lost. */
  lemma OverflowingWordDropped()
    ensures Breaks(["abc", "def"], 5) == [["abc"], []]
    ensures Render(Breaks(["abc", "def"], 5)) == "abc\n"
  {
    assert ["abc", "def"][..1] == ["abc"];
    assert ["abc"][..0] == [];
    assert Fold(["abc"], 5) == Acc([], ["abc"], 4);
    assert Fold(["abc", "def"], 5) == Acc([["abc"]], [], 0);
    var lines := [["abc"], []];
    assert Join(lines[0], " ") == "abc";
    assert Join(lines[1], " ") == "";
    assert seq(|lines|, i requires 0 <= i < |lines| => Join(lines[i], " ")) == ["abc", ""];
    assert ["abc", ""][1..] == [""];
  }

  // ----- the wrap that keeps every word --------------------------------------------

  /** One word when an overflowing word opens the next line. */
  function CarryStep(acc: Acc, word: string, lineLength: int): Acc {
    if acc.length + |word| + 1 < lineLength then Acc(acc.lines, acc.current + [word], acc.length + |word| + 1)
    else Acc(acc.lines + [acc.current], [word], |word| + 1)
  }

  function CarryFold(words: seq<string>, lineLength: int): Acc {
    if words == [] then Acc([], [], 0)
    else CarryStep(CarryFold(words[..|words| - 1], lineLength), words[|words| - 1], lineLength)
  }

  /** The lines of the wrap that carries the overflowing word. */
  function CarryBreaks(words: seq<string>, lineLength: int): seq<seq<string>> {
    var acc := CarryFold(words, lineLength);
    acc.lines + [acc.current]
  }

  /** What the carrying wrap keeps: every word, in order, and every line of two or more
      words fits. */
  predicate Carried(acc: Acc, words: seq<string>, lineLength: int) {
    acc.length == Width(acc.current)
    && (|acc.current| >= 2 ==> acc.length < lineLength)
    && (forall i :: 0 <= i < |acc.lines| ==> |acc.lines[i]| < 2 || Width(acc.lines[i]) < lineLength)
    && Flatten(acc.lines) + acc.current == words
  }

  lemma {:induction false} CarryFoldCarried(words: seq<string>, lineLength: int)
    ensures Carried(CarryFold(words, lineLength), words, lineLength)
    decreases |words|
  {
    if words != [] {
      var init, w := words[..|words| - 1], words[|words| - 1];
      CarryFoldCarried(init, lineLength);
      var a := CarryFold(init, lineLength);
      assert init + [w] == words;
      if a.length + |w| + 1 < lineLength {
        assert (a.current + [w])[..|a.current|] == a.current;
      } else {
        FlattenSnoc(a.lines, a.current);
        assert [w][..0] == [];
      }
    }
  }

  /** The carrying wrap shows every word of the text in order, and a line is too wide only
      when it holds a single word longer than the screen. */
  lemma CarryBreaksKeepWords(words: seq<string>, lineLength: int)
    ensures var lines := CarryBreaks(words, lineLength);
      Flatten(lines) == words
      && forall i :: 0 <= i < |lines| ==> |lines[i]| < 2 || |Join(lines[i], " ")| < lineLength - 1
  {
    var a := CarryFold(words, lineLength);
    CarryFoldCarried(words, lineLength);
    FlattenSnoc(a.lines, a.current);
    var lines := a.lines + [a.current];
    assert forall i :: 0 <= i < |lines| ==> |lines[i]| < 2 || Width(lines[i]) < lineLength;
    forall i | 0 <= i < |lines|
      ensures |lines[i]| < 2 || |Join(lines[i], " ")| < lineLength - 1
    {
      JoinedWidth(lines[i]);
    }
  }

  /** On the same input the carrying wrap keeps "def". */
  lemma OverflowingWordCarried()
    ensures CarryBreaks(["abc", "def"], 5) == [["abc"], ["def"]]
  {
    assert ["abc", "def"][..1] == ["abc"];
    assert ["abc"][..0] == [];
    assert CarryFold(["abc"], 5) == Acc([], ["abc"], 4);
    assert CarryFold(["abc", "def"], 5) == Acc([["abc"]], ["def"], 4);
  }
}
