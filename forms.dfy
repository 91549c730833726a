/**
 * The `URLSearchParams` object the handlers fill with `append` before posting it: an ordered
 * list of name/value pairs in which a name may repeat.
 */
module Forms {

  type Pair = (string, string)

  /** `getAll(key)`: the values appended under `key`, in the order they were appended. */
  function ValuesOf(entries: seq<Pair>, key: string): (vs: seq<string>)
    ensures |vs| <= |entries|
  {
    if entries == [] then []
    else (if entries[0].0 == key then [entries[0].1] else []) + ValuesOf(entries[1..], key)
  }

  /** No pair carries the name `key`. */
  predicate Lacks(entries: seq<Pair>, key: string) {
    forall k :: 0 <= k < |entries| ==> entries[k].0 != key
  }

  /** No name occurs twice. */
  predicate DistinctNames(entries: seq<Pair>) {
    forall i, j :: 0 <= i < j < |entries| ==> entries[i].0 != entries[j].0
  }

  /** A form body in the making. */
  class FormData {
    var entries: seq<Pair>

    /** `new URLSearchParams()`: no pairs yet. */
    constructor ()
      ensures entries == []
    {
      entries := [];
    }

    /** `append(name, value)`: one more pair at the end; the earlier pairs, and with them every
        earlier value of `name`, stay in place. */
    method Append(name: string, value: string)
      modifies this
      ensures entries == old(entries) + [(name, value)]
    {
      entries := entries + [(name, value)];
    }

    /** `getAll(key)` on the current pairs. */
    function GetAll(key: string): seq<string>
      reads this
    {
      ValuesOf(entries, key)
    }
  }

  /** The values of a concatenation are the values of the first part, then those of the
      second. */
  lemma {:induction false} ValuesOfAppend(a: seq<Pair>, b: seq<Pair>, key: string)
    ensures ValuesOf(a + b, key) == ValuesOf(a, key) + ValuesOf(b, key)
    decreases |a|
  {
    if a == [] {
      assert a + b == b;
    } else {
      var t := a + b;
      var head := if a[0].0 == key then [a[0].1] else [];
      assert t[0] == a[0] && t[1..] == a[1..] + b;
      ValuesOfAppend(a[1..], b, key);
      calc {
        ValuesOf(t, key);
        head + ValuesOf(a[1..] + b, key);
        head + (ValuesOf(a[1..], key) + ValuesOf(b, key));
        (head + ValuesOf(a[1..], key)) + ValuesOf(b, key);
        ValuesOf(a, key) + ValuesOf(b, key);
      }
    }
  }

  /** What `append` does to `getAll`: the appended value is added at the end under its own name
      and nowhere else. */
  lemma AppendGetAll(entries: seq<Pair>, name: string, value: string, key: string)
    ensures ValuesOf(entries + [(name, value)], key)
         == ValuesOf(entries, key) + (if name == key then [value] else [])
  {
    ValuesOfAppend(entries, [(name, value)], key);
  }

  /** A name carried by no pair has no values. */
  lemma {:induction false} ValuesOfAbsent(entries: seq<Pair>, key: string)
    requires Lacks(entries, key)
    ensures ValuesOf(entries, key) == []
    decreases |entries|
  {
    if entries != [] {
      ValuesOfAbsent(entries[1..], key);
    }
  }

  /** A name carried by exactly one pair is transmitted once, with that pair's value. */
  lemma SentOnce(before: seq<Pair>, key: string, value: string, rest: seq<Pair>)
    requires Lacks(before, key) && Lacks(rest, key)
    ensures ValuesOf(before + [(key, value)] + rest, key) == [value]
  {
    var tail := [(key, value)] + rest;
    assert before + [(key, value)] + rest == before + tail;
    ValuesOfAppend(before, tail, key);
    ValuesOfAbsent(before, key);
    ValuesOfAbsent(rest, key);
    assert tail[1..] == rest;
  }

  /** In a body whose names are all different, every pair is the one and only value of its
      name. */
  lemma DistinctSentOnce(entries: seq<Pair>, i: nat)
    requires i < |entries|
    requires DistinctNames(entries)
    ensures ValuesOf(entries, entries[i].0) == [entries[i].1]
  {
    var before, rest := entries[..i], entries[i + 1..];
    DistinctLacks(entries, i);
    SentOnce(before, entries[i].0, entries[i].1, rest);
    assert before + [(entries[i].0, entries[i].1)] + rest == entries;
  }

  /** In such a body, the pairs before and after any one pair lack its name. */
  lemma DistinctLacks(entries: seq<Pair>, i: nat)
    requires i < |entries|
    requires DistinctNames(entries)
    ensures Lacks(entries[..i], entries[i].0) && Lacks(entries[i + 1..], entries[i].0)
  {
    var key := entries[i].0;
    var before, rest := entries[..i], entries[i + 1..];
    forall k | 0 <= k < |before|
      ensures before[k].0 != key
    {
      assert before[k] == entries[k];
    }
    forall k | 0 <= k < |rest|
      ensures rest[k].0 != key
    {
      assert rest[k] == entries[i + 1 + k];
    }
  }
}
