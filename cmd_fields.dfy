/** `FieldList` (application/cmdlineutils/fields.py): a page-by-page view of a field's
    distinct values and their counts that can be re-sorted. Its base pager is taken to
    be `RecipeUtilPager` of cmdlineutils/base.py, with the rounded-up page count. */
module CmdFields {
  import opened Wrappers
  import opened Text
  import opened Paging
  import opened Sorting

  /** Why `do_sort` refuses its options. */
  datatype SortError = Unparsed | BadField(field: string) | BadOrder(order: string)

  datatype SortOptions = SortOptions(field: Field, descending: bool)

  const FieldNames: seq<string> := ["value", "count"]
  const OrderNames: seq<string> := ["asc", "ascending", "desc", "descending"]
  const DescendingNames: seq<string> := ["desc", "descending"]

  /** `field, order = options.split()` and the two membership checks. */
  function ReadSortOptions(options: string): (r: Result<SortOptions, SortError>)
    ensures var w := Words(options, Ascii);
      && (r == Err(Unparsed) <==> |w| != 2)
      && (r.Ok? <==> |w| == 2 && w[0] in FieldNames && w[1] in OrderNames)
      && (|w| == 2 && w[0] !in FieldNames ==> r == Err(BadField(w[0])))
      && (|w| == 2 && w[0] in FieldNames && w[1] !in OrderNames ==> r == Err(BadOrder(w[1])))
      && (r.Ok? ==> (r.value.field == ByValue <==> w[0] == "value") && (r.value.descending <==> w[1] in DescendingNames))
  {
    var w := Words(options, Ascii);
    if |w| != 2 then Err(Unparsed)
    else if w[0] !in FieldNames then Err(BadField(w[0]))
    else if w[1] !in OrderNames then Err(BadOrder(w[1]))
    else Ok(SortOptions(if w[0] == "value" then ByValue else ByCount, w[1] in DescendingNames))
  }

  /** The words that spell a choice of options. */
  function Spelled(opts: SortOptions): (options: string)
    ensures options != []
  {
    (if opts.field == ByValue then "value" else "count") + " " + (if opts.descending then "desc" else "asc")
  }

  /** Every choice of key and direction can be asked for, and is read back as asked. */
  lemma ReadSpelled(opts: SortOptions)
    ensures ReadSortOptions(Spelled(opts)) == Ok(opts)
  {
    var f := if opts.field == ByValue then "value" else "count";
    var o := if opts.descending then "desc" else "asc";
    WordsOfPair(f, o, Ascii);
  }

  /** Anything but exactly two words is refused before the words are looked at. */
  lemma OneWordUnparsed(word: string)
    requires word != [] && forall j :: 0 <= j < |word| ==> !IsWs(Ascii, word[j])
    ensures ReadSortOptions(word) == Err(Unparsed)
  {
    WordsOfWord(word, Ascii);
  }

  /** The new order of the objects: sorted on the key, reversed for a descending order. */
  function Arranged(opts: SortOptions, objects: seq<Entry>): seq<Entry> {
    var sorted := SortBy(opts.field, objects);
    if opts.descending then Reverse(sorted) else sorted
  }

  /** Re-sorting keeps exactly the same entries, in the order asked for. */
  lemma ArrangedOrdered(opts: SortOptions, objects: seq<Entry>)
    ensures multiset(Arranged(opts, objects)) == multiset(objects)
    ensures !opts.descending ==> Ascending(opts.field, Arranged(opts, objects))
    ensures opts.descending ==> Descending(opts.field, Arranged(opts, objects))
  {
    SortPermutes(opts.field, objects);
    SortAscending(opts.field, objects);
    if opts.descending {
      ReverseDescending(opts.field, SortBy(opts.field, objects));
    }
  }

  class FieldList {
    const lines: nat
    const lineLength: int
    const lastPage: nat
    ghost const total: nat
    /** The field whose values are listed. */
    const field: string
    var current: int
    /** `values["objects"]`. */
    var objects: seq<Entry>
    /** The numbers the prompt shows: page `prompt.0` of `prompt.1`. */
    var prompt: (int, int)

    ghost predicate Valid()
      reads this
    {
      lines > 0 && lastPage == CeilPages(total, lines)
    }

    /** `__init__`: the prompt names page 1, and `display_page(0)` keeps it so whether or
        not page 0 is shown. */
    constructor (lines: nat, lineLength: int, objects: seq<Entry>, total: nat, field: string)
      requires lines > 0
      ensures Valid() && this.lines == lines && this.lineLength == lineLength && this.total == total
      ensures this.objects == objects && this.field == field
      ensures current == 0 && prompt == (1, CeilPages(total, lines))
    {
      this.lines := lines;
      this.lineLength := lineLength;
      this.total := total;
      lastPage := CeilPages(total, lines);
      this.field := field;
      current := 0;
      this.objects := objects;
      prompt := (1, CeilPages(total, lines));
      new;
      var _ := DisplayPage(0);
    }

    /** `display_page`: a page holding at least one of the matches becomes the current
        page and lists its window of the objects; any other page is refused and nothing
        changes. */
    method DisplayPage(page: int) returns (shown: Option<seq<Entry>>)
      requires Valid()
      modifies this`current, this`prompt
      ensures shown.Some? <==> 0 <= page && page * lines < total
      ensures shown.Some? ==> shown.value == Window(objects, page, lines) && current == page && prompt == (page + 1, lastPage)
      ensures shown.None? ==> current == old(current) && prompt == old(prompt)
    {
      CeilAdmitsNonEmpty(total, lines, page);
      if !Admits(page, lastPage) {
        return None;
      }
      current := page;
      shown := Some(Window(objects, page, lines));
      prompt := (page + 1, lastPage);
    }

    /** `do_page`: `None` for a number that does not parse. */
    method DoPage(num: string) returns (r: Option<Option<seq<Entry>>>)
      requires Valid()
      modifies this`current, this`prompt
      ensures r.None? <==> PageTarget(num, old(current)).None?
      ensures r.None? ==> current == old(current) && prompt == old(prompt)
      ensures r.Some? ==> var page := PageTarget(num, old(current)).value;
        (r.value.Some? <==> 0 <= page && page * lines < total)
        && (r.value.Some? ==> current == page)
    {
      var page := PageTarget(num, current);
      if page.None? {
        return None;
      }
      var shown := DisplayPage(page.value);
      return Some(shown);
    }

    /** `do_next`: the page after the current one. */
    method DoNext() returns (shown: Option<seq<Entry>>)
      requires Valid()
      modifies this`current, this`prompt
      ensures shown.Some? <==> 0 <= old(current) + 1 && (old(current) + 1) * lines < total
      ensures shown.Some? ==> current == old(current) + 1
      ensures shown.None? ==> current == old(current)
    {
      shown := DisplayPage(current + 1);
    }

    /** `do_previous`: the page before the current one. */
    method DoPrevious() returns (shown: Option<seq<Entry>>)
      requires Valid()
      modifies this`current, this`prompt
      ensures shown.Some? <==> 0 <= old(current) - 1 && (old(current) - 1) * lines < total
      ensures shown.Some? ==> current == old(current) - 1
      ensures shown.None? ==> current == old(current)
    {
      shown := DisplayPage(current - 1);
    }

    /** `do_sort`: refused options leave everything as it was; accepted ones re-sort the
        objects and show page 0 of the new order. */
    method DoSort(options: string) returns (r: Result<Option<seq<Entry>>, SortError>)
      requires Valid()
      modifies this`objects, this`current, this`prompt
      ensures r.Err? <==> ReadSortOptions(options).Err?
      ensures r.Err? ==> (r.error == ReadSortOptions(options).error
        && objects == old(objects) && current == old(current) && prompt == old(prompt))
      ensures r.Ok? ==> (objects == Arranged(ReadSortOptions(options).value, old(objects))
        && (r.value.Some? <==> total > 0)
        && (r.value.Some? ==> r.value.value == Window(objects, 0, lines) && current == 0 && prompt == (1, lastPage))
        && (r.value.None? ==> current == old(current) && prompt == old(prompt)))
    {
      var opts := ReadSortOptions(options);
      if opts.Err? {
        return Err(opts.error);
      }
      objects := SortBy(opts.value.field, objects);
      if opts.value.descending {
        objects := Reverse(objects);
      }
      var shown := DisplayPage(0);
      return Ok(shown);
    }
  }
}
