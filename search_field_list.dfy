/** `FieldList` (search_util/field_list.py): a page-by-page view of a field's distinct
    values and their counts, over the rounded-down page count of `Pager`. */
module SearchFieldList {
  import opened Wrappers
  import opened Text
  import opened Paging
  import opened Sorting

  class FieldList {
    const lines: nat
    const lineLength: int
    const lastPage: nat
    ghost const total: nat
    /** The field whose values are listed. */
    const field: string
    var current: int
    /** `values["objects"]`. */
    const objects: seq<Entry>
    /** The numbers the prompt shows: page `prompt.0` of `prompt.1`. */
    var prompt: (int, int)

    ghost predicate Valid()
      reads this
    {
      lines > 0 && lastPage == FloorPages(total, lines)
    }

    /** `__init__`: the prompt names page 1 and `display_page(0)` is tried, which the
        rounded-down count refuses when there are fewer values than lines. */
    constructor (lines: nat, lineLength: int, objects: seq<Entry>, total: nat, field: string)
      requires lines > 0
      ensures Valid() && this.lines == lines && this.lineLength == lineLength && this.total == total
      ensures this.objects == objects && this.field == field
      ensures current == 0 && prompt == (1, total / lines)
    {
      this.lines := lines;
      this.lineLength := lineLength;
      this.total := total;
      lastPage := FloorPages(total, lines);
      this.field := field;
      current := 0;
      this.objects := objects;
      prompt := (1, FloorPages(total, lines));
      new;
      var _ := DisplayPage(0);
    }

    /** `display_page`: a full page becomes the current page and lists its window of the
        objects; any other page is refused and nothing changes. */
    method DisplayPage(page: int) returns (shown: Option<seq<Entry>>)
      requires Valid()
      modifies this`current, this`prompt
      ensures shown.Some? <==> 0 <= page && (page + 1) * lines <= total
      ensures shown.Some? ==> shown.value == Window(objects, page, lines) && current == page && prompt == (page + 1, lastPage)
      ensures shown.None? ==> current == old(current) && prompt == old(prompt)
    {
      FloorAdmitsFull(total, lines, page);
      if !Admits(page, lastPage) {
        return None;
      }
      current := page;
      shown := Some(Window(objects, page, lines));
      prompt := (page + 1, lastPage);
    }

    /** `do_page`: `None` for an argument that is not a number (which raises, see
        `SearchPager.Pager.DoPage`). */
    method DoPage(num: string) returns (r: Option<Option<seq<Entry>>>)
      requires Valid()
      modifies this`current, this`prompt
      ensures r.None? <==> PageTarget(num, old(current)).None?
      ensures r.None? ==> current == old(current) && prompt == old(prompt)
      ensures r.Some? ==> var page := PageTarget(num, old(current)).value;
        (r.value.Some? <==> 0 <= page && (page + 1) * lines <= total)
        && (r.value.Some? ==> current == page)
    {
      var page := PageTarget(num, current);
      if page.None? {
        return None;
      }
      var shown := DisplayPage(page.value);
      return Some(shown);
    }

    /** `do_next`: the page after the current one. */
    method DoNext() returns (shown: Option<seq<Entry>>)
      requires Valid()
      modifies this`current, this`prompt
      ensures shown.Some? <==> 0 <= old(current) + 1 && (old(current) + 2) * lines <= total
      ensures shown.Some? ==> current == old(current) + 1
      ensures shown.None? ==> current == old(current)
    {
      shown := DisplayPage(current + 1);
    }

    /** `do_previous`: the page before the current one. */
    method DoPrevious() returns (shown: Option<seq<Entry>>)
      requires Valid()
      modifies this`current, this`prompt
      ensures shown.Some? <==> 0 <= old(current) - 1 && old(current) * lines <= total
      ensures shown.Some? ==> current == old(current) - 1
      ensures shown.None? ==> current == old(current)
    {
      shown := DisplayPage(current - 1);
    }
  }
}
