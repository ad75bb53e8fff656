/** Pager arithmetic shared by the two shells: how many pages a result set has, which
    pages `display_page` admits, and which objects a page lists. The `cmdlineutils`
    pagers round the page count up (cmdlineutils/base.py:92); the `search_util` pager
    divides the rounded-up total, which rounds the page count down
    (search_util/pager.py:11). */
module Paging {
  import opened Wrappers
  import opened Text

  /** `int(ceil(total / float(lines)))`. */
  function CeilPages(total: nat, lines: nat): nat
    requires lines > 0
  {
    (total + lines - 1) / lines
  }

  /** `int(ceil(total) / float(lines))`: the division is not rounded up, only `total` is. */
  function FloorPages(total: nat, lines: nat): nat
    requires lines > 0
  {
    total / lines
  }

  /** `display_page`'s check: `0 <= page < last_page`. */
  predicate Admits(page: int, lastPage: nat) {
    0 <= page < lastPage
  }

  lemma MulMono(a: int, b: int, c: nat)
    requires a <= b
    ensures a * c <= b * c
  {
    assert b * c - a * c == (b - a) * c;
  }

  /** Division is determined by quotient and remainder. */
  lemma DivUnique(a: int, lines: nat, q: int, r: int)
    requires lines > 0 && a == q * lines + r && 0 <= r < lines
    ensures a / lines == q
  {
    var q', r' := a / lines, a % lines;
    assert (q - q') * lines == r' - r by {
      assert q * lines - q' * lines == (q - q') * lines;
    }
    if q > q' {
      MulMono(1, q - q', lines);
    } else if q < q' {
      MulMono(1, q' - q, lines);
    }
  }

  /** `page` is below `a / lines` exactly when page `page` ends within `a`. */
  lemma BelowQuotient(a: nat, lines: nat, page: nat)
    requires lines > 0
    ensures page < a / lines <==> (page + 1) * lines <= a
  {
    var q, r := a / lines, a % lines;
    assert a == q * lines + r && 0 <= r < lines;
    if page < q {
      MulMono(page + 1, q, lines);
    } else {
      MulMono(q + 1, page + 1, lines);
      assert (q + 1) * lines == q * lines + lines;
    }
  }

  /** Under the rounded-up count a page is admitted exactly when it lists at least one
      of `total` objects. */
  lemma CeilAdmitsNonEmpty(total: nat, lines: nat, page: int)
    requires lines > 0
    ensures Admits(page, CeilPages(total, lines)) <==> 0 <= page && page * lines < total
  {
    if page >= 0 {
      BelowQuotient(total + lines - 1, lines, page);
      assert (page + 1) * lines == page * lines + lines;
    }
  }

  /** Page `page` (from 0) is a full page of `lines` among `total` objects. */
  predicate FullPage(page: int, lines: nat, total: nat) {
    0 <= page && (page + 1) * lines <= total
  }

  /** Under the rounded-down count a page is admitted exactly when it is full. */
  lemma FloorAdmitsFull(total: nat, lines: nat, page: int)
    requires lines > 0
    ensures Admits(page, FloorPages(total, lines)) <==> FullPage(page, lines, total)
  {
    if page >= 0 {
      BelowQuotient(total, lines, page);
    }
  }

  /** The floor count hides a trailing partial page: it holds objects but is refused;
      fewer objects than lines give no page at all. */
  lemma TrailingPageUnreachable(total: nat, lines: nat)
    requires lines > 0 && total % lines != 0
    ensures var page := total / lines;
      page * lines < total && !Admits(page, FloorPages(total, lines)) && Admits(page, CeilPages(total, lines))
    ensures total < lines ==> FloorPages(total, lines) == 0 && !Admits(0, FloorPages(total, lines))
  {
    CeilAdmitsNonEmpty(total, lines, total / lines);
  }

  /** `objects[page * lines : min((page + 1) * lines, len(objects))]`. */
  function Window<T>(objects: seq<T>, page: nat, lines: nat): (w: seq<T>)
    ensures |w| == if page * lines >= |objects| then 0 else Min(lines, |objects| - page * lines)
    ensures forall j :: 0 <= j < |w| ==> page * lines + j < |objects| && w[j] == objects[page * lines + j]
  {
    var first := page * lines;
    var last := Min((page + 1) * lines, |objects|);
    if first >= last then [] else objects[first..last]
  }

  function Min(a: int, b: int): int {
    if a < b then a else b
  }

  /** The rows a listing shows: each object of the window with its number, counted from
      `page * lines + 1`. */
  function Numbered<T>(objects: seq<T>, page: nat, lines: nat): (rows: seq<(int, T)>)
    ensures |rows| == |Window(objects, page, lines)|
    ensures forall j :: 0 <= j < |rows| ==> rows[j] == (page * lines + j + 1, objects[page * lines + j])
  {
    var w := Window(objects, page, lines);
    seq(|w|, j requires 0 <= j < |w| => (page * lines + j + 1, w[j]))
  }

  /** The windows of pages `0 .. count - 1`, one after the other. */
  function Pages<T>(objects: seq<T>, lines: nat, count: nat): seq<T> {
    if count == 0 then [] else Pages(objects, lines, count - 1) + Window(objects, lines := lines, page := count - 1)
  }

  /** The first `count` full pages list the first `count * lines` objects in order. */
  lemma {:induction false} PagesPrefix<T>(objects: seq<T>, lines: nat, count: nat)
    requires lines > 0 && count * lines <= |objects|
    ensures Pages(objects, lines, count) == objects[..count * lines]
  {
    if count > 0 {
      PagesPrefix(objects, lines, count - 1);
      var w := Window(objects, count - 1, lines);
      assert w == objects[(count - 1) * lines..count * lines];
      assert objects[..count * lines] == objects[..(count - 1) * lines] + w;
    }
  }

  /** The rounded-up count is the number of full pages, plus one for a partial page. */
  lemma CeilPagesValue(total: nat, lines: nat)
    requires lines > 0
    ensures CeilPages(total, lines) == total / lines + (if total % lines == 0 then 0 else 1)
  {
    var full := total / lines;
    assert total == full * lines + total % lines;
    if total % lines == 0 {
      DivUnique(total + lines - 1, lines, full, lines - 1);
    } else {
      assert (full + 1) * lines == full * lines + lines;
      DivUnique(total + lines - 1, lines, full + 1, total % lines - 1);
    }
  }

  /** Paging through every admitted page of the rounded-up count shows each object once,
      in order. */
  lemma CeilPagesCover<T>(objects: seq<T>, lines: nat)
    requires lines > 0
    ensures Pages(objects, lines, CeilPages(|objects|, lines)) == objects
  {
    var n := |objects|;
    var full := n / lines;
    CeilPagesValue(n, lines);
    var m := full * lines;
    assert n == m + n % lines;
    PagesPrefix(objects, lines, full);
    if n % lines == 0 {
      assert objects[..m] == objects;
    } else {
      PartialPageCover(objects, lines, full);
    }
  }

  /** Adding the partial last page to the full pages before it completes the listing. */
  lemma PartialPageCover<T>(objects: seq<T>, lines: nat, full: nat)
    requires lines > 0 && full * lines <= |objects| < full * lines + lines
    requires Pages(objects, lines, full) == objects[..full * lines]
    ensures Pages(objects, lines, full + 1) == objects
  {
    var m := full * lines;
    LastWindow(objects, lines, full);
    assert Pages(objects, lines, full + 1) == objects[..m] + objects[m..];
    SplitAt(objects, m);
  }

  lemma SplitAt<T>(s: seq<T>, m: nat)
    requires m <= |s|
    ensures s == s[..m] + s[m..]
  {
  }

  /** The page that reaches the end lists everything from its start. */
  lemma LastWindow<T>(objects: seq<T>, lines: nat, page: nat)
    requires page * lines <= |objects| < page * lines + lines
    ensures Window(objects, page, lines) == objects[page * lines..]
  {
    assert (page + 1) * lines == page * lines + lines;
  }

  /** Paging through every admitted page of the rounded-down count shows only the full
      pages: the last `len % lines` objects are never listed. */
  lemma FloorPagesMissTail<T>(objects: seq<T>, lines: nat)
    requires lines > 0
    ensures Pages(objects, lines, FloorPages(|objects|, lines)) == objects[..|objects| - |objects| % lines]
  {
    var n, q := |objects|, |objects| / lines;
    assert n == q * lines + n % lines;
    PagesPrefix(objects, lines, q);
    assert q * lines == n - n % lines;
  }

  /** `do_page`'s target: the current page for an empty argument, otherwise the 1-based
      page number the argument parses to, less one; `None` when it does not parse. */
  function PageTarget(num: string, current: int): (r: Option<int>)
    ensures num == "" ==> r == Some(current)
    ensures num != "" ==> (r.None? <==> ParseInt(num).None?)
    ensures num != "" && r.Some? ==> r.value == ParseInt(num).value - 1
  {
    if num == "" then Some(current)
    else match ParseInt(num)
      case None => None
      case Some(n) => Some(n - 1)
  }

  /** The page a user types, counted from 1, is the page shown, counted from 0. */
  lemma PageTargetOfNumber(current: int, n: int)
    ensures PageTarget(IntToString(n), current) == Some(n - 1)
  {
    ParseIntToString(n);
  }
}
