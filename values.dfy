/** Values held in recipe records and in the JSON-LD the extractor reads, and the
    record-level operations of `Collector.validate` (collection/collector.py). */
module Values {

  /** A JSON value, plus `Time` for the `datetime` stamps the collector adds.
      JSON numbers are modelled as integers. */
  datatype Value =
    | Null
    | Bool(b: bool)
    | Num(n: int)
    | Str(s: string)
    | Arr(items: seq<Value>)
    | Obj(fields: map<string, Value>)
    | Time(stamp: nat)

  /** A recipe record: a document keyed by field name. */
  type Record = map<string, Value>

  /** The values `validate` treats as absent: `None`, `""`, `[]` and `{}`. */
  predicate IsEmpty(v: Value) {
    v == Null || v == Str("") || v == Arr([]) || v == Obj(map[])
  }

  /** The record with every empty-valued key removed. */
  function StripEmpty(r: Record): (s: Record)
    ensures s.Keys <= r.Keys
    ensures forall k :: k in s ==> s[k] == r[k] && !IsEmpty(r[k])
    ensures forall k :: k in r && !IsEmpty(r[k]) ==> k in s
  {
    map k | k in r && !IsEmpty(r[k]) :: r[k]
  }

  /** Every required field is a key of `r`. */
  predicate HasAll(r: Record, required: seq<string>) {
    forall f :: f in required ==> f in r
  }

  /** The required fields absent from `r`, in the order of `required`. */
  function Missing(required: seq<string>, r: Record): (m: seq<string>)
    ensures forall f :: f in m <==> f in required && f !in r
  {
    if required == [] then []
    else (if required[0] in r then [] else [required[0]]) + Missing(required[1..], r)
  }

  /** The entries of `r` whose keys are in `keys` (a dict comprehension filtered by an allow-list). */
  function Restrict(r: Record, keys: set<string>): (s: Record)
    ensures s.Keys == r.Keys * keys
    ensures forall k :: k in s ==> s[k] == r[k]
  {
    map k | k in r && k in keys :: r[k]
  }

  /** After stripping, no value is empty. */
  lemma StripEmptyNoEmpty(r: Record)
    ensures forall k :: k in StripEmpty(r) ==> !IsEmpty(StripEmpty(r)[k])
  {
  }

  /** Stripping twice is stripping once. */
  lemma StripEmptyIdempotent(r: Record)
    ensures StripEmpty(StripEmpty(r)) == StripEmpty(r)
  {
  }

  /** `validate`'s verdict: no required field is missing after stripping. */
  lemma {:induction false} MissingEmptyIffHasAll(required: seq<string>, r: Record)
    ensures Missing(required, r) == [] <==> HasAll(r, required)
  {
    if Missing(required, r) != [] {
      assert Missing(required, r)[0] in Missing(required, r);
    }
  }
}
