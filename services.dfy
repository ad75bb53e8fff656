/** The outside world the collector talks to, reduced to what it observes: the network as
    a script of outcomes consumed one request at a time, the sleeps it requests, the
    clock, and the MongoDB collection as a sequence of documents in insertion order. */
module Services {
  import opened Wrappers
  import opened Values
  import opened Fetch

  /** The first `n` elements removed (all of them when there are fewer). */
  function Drop<T>(s: seq<T>, n: nat): (r: seq<T>)
    ensures |r| == if n <= |s| then |s| - n else 0
  {
    if n <= |s| then s[n..] else []
  }

  /** Taking one more element off a script already cut at `n`. */
  lemma DropNext<T>(s: seq<T>, n: nat)
    ensures Drop(Drop(s, n), 1) == Drop(s, n + 1)
    ensures n < |s| ==> Drop(s, n) != [] && Drop(s, n)[0] == s[n]
    ensures n >= |s| ==> Drop(s, n) == []
  {
  }

  /** Network, sleep and clock. */
  class Env {
    /** The outcomes of the requests still to be made, in order. */
    var script: seq<Outcome>
    /** Every `time.sleep` requested so far, in seconds. */
    var pauses: seq<int>
    /** What `datetime.utcnow()` returns; timestamps are plain numbers. */
    const now: nat

    constructor (script: seq<Outcome>, now: nat)
      ensures this.script == script && this.pauses == [] && this.now == now
    {
      this.script := script;
      this.pauses := [];
      this.now := now;
    }

    /** `requests.get`: the next outcome of the script; an exhausted script refuses. */
    method Request() returns (o: Outcome)
      modifies this
      ensures o == Attempt(old(script), 0)
      ensures script == Drop(old(script), 1) && pauses == old(pauses)
    {
      if script == [] {
        o := Failed;
      } else {
        o := script[0];
        script := script[1..];
      }
    }

    /** `time.sleep(seconds)`. */
    method Sleep(seconds: int)
      modifies this
      ensures pauses == old(pauses) + [seconds] && script == old(script)
    {
      pauses := pauses + [seconds];
    }
  }

  /** The document has `url` as its "url" field. */
  predicate HasUrl(d: Record, url: string) {
    "url" in d && d["url"] == Str(url)
  }

  /** `find_one({"url": url})`: the first document with that url. */
  function FirstWithUrl(docs: seq<Record>, url: string): (r: Option<nat>)
    ensures r.None? <==> forall i :: 0 <= i < |docs| ==> !HasUrl(docs[i], url)
    ensures r.Some? ==>
      r.value < |docs| && HasUrl(docs[r.value], url) && forall i :: 0 <= i < r.value ==> !HasUrl(docs[i], url)
  {
    if docs == [] then None
    else if HasUrl(docs[0], url) then Some(0)
    else
      var r := FirstWithUrl(docs[1..], url);
      assert forall i :: 1 <= i < |docs| ==> docs[i] == docs[1..][i - 1];
      if r.Some? then Some(r.value + 1) else None
  }

  /** Some stored document has that url. */
  predicate Stored(docs: seq<Record>, url: string) {
    exists i :: 0 <= i < |docs| && HasUrl(docs[i], url)
  }

  /** `update_one({"url": url}, {"$set": updates})` without upsert: the first document
      with that url gets every field of `updates`; nothing else changes. */
  function SetFields(docs: seq<Record>, url: string, updates: Record): (r: seq<Record>)
    ensures |r| == |docs|
    ensures forall i :: 0 <= i < |docs| ==> docs[i].Keys <= r[i].Keys
    ensures match FirstWithUrl(docs, url)
      case None => r == docs
      case Some(i) => r == docs[i := docs[i] + updates]
  {
    match FirstWithUrl(docs, url)
    case None => docs
    case Some(i) => docs[i := docs[i] + updates]
  }

  /** The recipe collection. */
  class Store {
    var docs: seq<Record>

    constructor (docs: seq<Record>)
      ensures this.docs == docs
    {
      this.docs := docs;
    }

    /** `find_one({"url": url})`. */
    method FindOne(url: string) returns (r: Option<Record>)
      ensures r.None? <==> !Stored(docs, url)
      ensures r.Some? ==> HasUrl(r.value, url) && r.value == docs[FirstWithUrl(docs, url).value]
    {
      var i := 0;
      while i < |docs| && !HasUrl(docs[i], url)
        invariant i <= |docs|
        invariant forall j :: 0 <= j < i ==> !HasUrl(docs[j], url)
      {
        i := i + 1;
      }
      if i == |docs| {
        r := None;
      } else {
        r := Some(docs[i]);
        assert FirstWithUrl(docs, url) == Some(i) by {
          var f := FirstWithUrl(docs, url);
          assert f.Some?;
          assert !(f.value < i) && !(i < f.value);
        }
      }
    }

    /** `insert_many(records)`. */
    method InsertMany(records: seq<Record>)
      modifies this
      ensures docs == old(docs) + records
    {
      docs := docs + records;
    }

    /** `update_one({"url": url}, {"$set": updates})`. */
    method UpdateOne(url: string, updates: Record)
      modifies this
      ensures docs == SetFields(old(docs), url, updates)
    {
      docs := SetFields(docs, url, updates);
    }
  }
}
