/** `Pager` (search_util/pager.py): the pager of the older search shell. Its page count
    `int(ceil(total_items) / float(lines))` rounds the division down, so only full pages
    can be shown. */
module SearchPager {
  import opened Wrappers
  import opened Text
  import opened Paging

  class Pager {
    const lines: nat
    const lineLength: int
    const lastPage: nat
    ghost const total: nat
    var current: int

    ghost predicate Valid()
      reads this
    {
      lines > 0 && lastPage == FloorPages(total, lines)
    }

    /** `__init__`: the rounded-down page count; the pager starts on page 0. */
    constructor (lines: nat, lineLength: int, totalItems: nat)
      requires lines > 0
      ensures Valid() && this.lines == lines && this.lineLength == lineLength && total == totalItems
      ensures current == 0 && lastPage == totalItems / lines
    {
      this.lines := lines;
      this.lineLength := lineLength;
      total := totalItems;
      lastPage := FloorPages(totalItems, lines);
      current := 0;
    }

    /** `display_page`: false where it raises. A page is accepted exactly when it is full,
        so a trailing partial page never is. */
    method DisplayPage(page: int) returns (ok: bool)
      requires Valid()
      ensures ok <==> FullPage(page, lines, total)
    {
      FloorAdmitsFull(total, lines, page);
      ok := Admits(page, lastPage);
    }

    /** `do_page`: `None` for an argument that is not a number (where the code writes to
        `sys`, which this module does not import, and so raises), otherwise whether the
        target page is accepted. */
    method DoPage(num: string) returns (r: Option<bool>)
      requires Valid()
      ensures r.None? <==> PageTarget(num, current).None?
      ensures r.Some? ==> var page := PageTarget(num, current).value;
        (r.value <==> FullPage(page, lines, total))
    {
      var page := PageTarget(num, current);
      if page.None? {
        return None;
      }
      var ok := DisplayPage(page.value);
      return Some(ok);
    }

    /** `do_next`: the page after the current one. */
    method DoNext() returns (ok: bool)
      requires Valid()
      ensures ok <==> 0 <= current + 1 && (current + 2) * lines <= total
    {
      ok := DisplayPage(current + 1);
    }

    /** `do_previous`: the page before the current one. */
    method DoPrevious() returns (ok: bool)
      requires Valid()
      ensures ok <==> 0 <= current - 1 && current * lines <= total
    {
      ok := DisplayPage(current - 1);
    }
  }
}
