/** The order `do_sort` puts a field listing in (application/cmdlineutils/fields.py):
    `sorted` on one key of the aggregated `{value, count}` entries, then `reversed` for a
    descending order. */
module Sorting {
  /** One row of a field listing: a distinct value of the field and how many recipes
      carry it. */
  datatype Entry = Entry(value: string, count: int)

  /** The key `do_sort` sorts on. */
  datatype Field = ByValue | ByCount

  /** Python's string comparison: code point by code point, a proper prefix first. */
  predicate StrLeq(a: string, b: string) {
    a == [] || (b != [] && (a[0] < b[0] || (a[0] == b[0] && StrLeq(a[1..], b[1..]))))
  }

  /** Any two strings are ordered one way or the other. */
  lemma {:induction false} StrLeqTotal(a: string, b: string)
    ensures StrLeq(a, b) || StrLeq(b, a)
  {
    if a != [] && b != [] && a[0] == b[0] {
      StrLeqTotal(a[1..], b[1..]);
    }
  }

  /** `key(x) <= key(y)`. */
  predicate KeyLeq(field: Field, x: Entry, y: Entry) {
    match field
    case ByValue => StrLeq(x.value, y.value)
    case ByCount => x.count <= y.count
  }

  lemma KeyLeqTotal(field: Field, x: Entry, y: Entry)
    ensures KeyLeq(field, x, y) || KeyLeq(field, y, x)
  {
    if field.ByValue? {
      StrLeqTotal(x.value, y.value);
    }
  }

  /** Each entry's key is at most the next one's. */
  predicate Ascending(field: Field, s: seq<Entry>) {
    forall i :: 0 <= i < |s| - 1 ==> KeyLeq(field, s[i], s[i + 1])
  }

  /** Each entry's key is at least the next one's. */
  predicate Descending(field: Field, s: seq<Entry>) {
    forall i :: 0 <= i < |s| - 1 ==> KeyLeq(field, s[i + 1], s[i])
  }

  /** `x` placed before the first entry whose key is not below its own. */
  function Insert(field: Field, x: Entry, s: seq<Entry>): (r: seq<Entry>)
    ensures |r| == |s| + 1
    ensures r[0] == x || (s != [] && r[0] == s[0])
  {
    if s == [] || KeyLeq(field, x, s[0]) then [x] + s else [s[0]] + Insert(field, x, s[1..])
  }

  /** `sorted(s, key = lambda obj: obj[field])`, as insertion of each entry in front of
      the sorted rest. */
  function SortBy(field: Field, s: seq<Entry>): (r: seq<Entry>)
    ensures |r| == |s|
  {
    if s == [] then [] else Insert(field, s[0], SortBy(field, s[1..]))
  }

  /** `[obj for obj in reversed(s)]`. */
  function Reverse(s: seq<Entry>): (r: seq<Entry>)
    ensures |r| == |s|
    ensures forall i :: 0 <= i < |s| ==> r[i] == s[|s| - 1 - i]
  {
    if s == [] then [] else Reverse(s[1..]) + [s[0]]
  }

  lemma {:induction false} InsertPermutes(field: Field, x: Entry, s: seq<Entry>)
    ensures multiset(Insert(field, x, s)) == multiset(s) + multiset{x}
  {
    if s != [] && !KeyLeq(field, x, s[0]) {
      InsertPermutes(field, x, s[1..]);
      assert s == [s[0]] + s[1..];
    }
  }

  lemma {:induction false} InsertAscending(field: Field, x: Entry, s: seq<Entry>)
    requires Ascending(field, s)
    ensures Ascending(field, Insert(field, x, s))
  {
    if s != [] && !KeyLeq(field, x, s[0]) {
      InsertAscending(field, x, s[1..]);
      KeyLeqTotal(field, x, s[0]);
    }
  }

  /** Sorting rearranges the entries: none is lost, none is added. */
  lemma {:induction false} SortPermutes(field: Field, s: seq<Entry>)
    ensures multiset(SortBy(field, s)) == multiset(s)
  {
    if s != [] {
      SortPermutes(field, s[1..]);
      InsertPermutes(field, s[0], SortBy(field, s[1..]));
      assert s == [s[0]] + s[1..];
    }
  }

  /** Sorting leaves the keys non-decreasing. */
  lemma {:induction false} SortAscending(field: Field, s: seq<Entry>)
    ensures Ascending(field, SortBy(field, s))
  {
    if s != [] {
      SortAscending(field, s[1..]);
      InsertAscending(field, s[0], SortBy(field, s[1..]));
    }
  }

  /** A listing already in non-decreasing order is left as it is. */
  lemma {:induction false} SortSortedUnchanged(field: Field, s: seq<Entry>)
    requires Ascending(field, s)
    ensures SortBy(field, s) == s
  {
    if s != [] {
      SortSortedUnchanged(field, s[1..]);
      assert s == [s[0]] + s[1..];
    }
  }

  /** Reversing keeps the entries and turns a non-decreasing order into a non-increasing
      one. */
  lemma ReverseDescending(field: Field, s: seq<Entry>)
    requires Ascending(field, s)
    ensures Descending(field, Reverse(s))
    ensures multiset(Reverse(s)) == multiset(s)
  {
    ReversePermutes(s);
  }

  lemma {:induction false} ReversePermutes(s: seq<Entry>)
    ensures multiset(Reverse(s)) == multiset(s)
  {
    if s != [] {
      ReversePermutes(s[1..]);
      assert s == [s[0]] + s[1..];
    }
  }
}
