/** A JavaScript `Map` used as a recency list: deleting a key and setting it again moves it to
    the end, and the first key is the next one to go. */
module LruMap {
  datatype Entry<V> = Entry(key: string, value: V)

  function IndexOf<V>(es: seq<Entry<V>>, key: string): (i: nat)
    ensures i <= |es| && (i < |es| ==> es[i].key == key)
    ensures forall j | 0 <= j < i :: es[j].key != key
  {
    if es == [] || es[0].key == key then 0 else 1 + IndexOf(es[1..], key)
  }

  predicate Has<V>(es: seq<Entry<V>>, key: string) {
    IndexOf(es, key) < |es|
  }

  function Lookup<V>(es: seq<Entry<V>>, key: string): V
    requires Has(es, key)
  {
    es[IndexOf(es, key)].value
  }

  function Delete<V>(es: seq<Entry<V>>, key: string): seq<Entry<V>> {
    if Has(es, key) then es[..IndexOf(es, key)] + es[IndexOf(es, key) + 1..] else es
  }

  function Touch<V>(es: seq<Entry<V>>, key: string, value: V): seq<Entry<V>> {
    Delete(es, key) + [Entry(key, value)]
  }

  predicate Distinct<V>(es: seq<Entry<V>>) {
    forall i, j | 0 <= i < j < |es| :: es[i].key != es[j].key
  }

  /** Deleting keeps the other entries, in order. */
  lemma DeleteIsMapRemoval<V>(es: seq<Entry<V>>, key: string)
    requires Distinct(es)
    ensures var d := Delete(es, key);
            && Distinct(d) && !Has(d, key)
            && (forall e :: e in d <==> e in es && e.key != key)
  {
    var n := IndexOf(es, key);
    if n < |es| {
      InTwo(es, n);
      DistinctAround(es[..n], es[n], es[n + 1..]);
    }
    hide Distinct;
    var d := Delete(es, key);
    assert !Has(d, key) by {
      assert forall i | 0 <= i < |d| :: d[i] in d;
    }
  }

  lemma InTwo<V>(es: seq<Entry<V>>, n: nat)
    requires n < |es|
    ensures es == es[..n] + [es[n]] + es[n + 1..]
  {
  }

  lemma DistinctAround<V>(a: seq<Entry<V>>, e: Entry<V>, b: seq<Entry<V>>)
    requires Distinct(a + [e] + b)
    ensures Distinct(a + b)
    ensures forall x :: x in a + b <==> x in a + [e] + b && x.key != e.key
  {
    var all, some := a + [e] + b, a + b;
    assert forall i | 0 <= i < |some| :: some[i] == all[if i < |a| then i else i + 1];
    assert all[|a|] == e;
    forall x | x in some
      ensures x in all && x.key != e.key
    {
      var i :| 0 <= i < |some| && some[i] == x;
      assert x == all[if i < |a| then i else i + 1];
    }
  }

  /** What the cache holds for a key does not depend on the order. */
  lemma TouchIsMapUpdate<V>(es: seq<Entry<V>>, key: string, value: V)
    requires Distinct(es)
    ensures var t := Touch(es, key, value);
            && Distinct(t) && Has(t, key) && Lookup(t, key) == value
            && (forall e :: e in t <==> e == Entry(key, value) || (e in es && e.key != key))
  {
    DeleteIsMapRemoval(es, key);
    hide Delete;
    var d, t := Delete(es, key), Touch(es, key, value);
    assert t == d + [Entry(key, value)] && forall i | 0 <= i < |d| :: d[i] in d;
    assert t[|d|] == Entry(key, value);
    assert IndexOf(t, key) == |d|;
  }

  lemma FoundIfIn<V>(es: seq<Entry<V>>, e: Entry<V>)
    requires Distinct(es)
    ensures e in es <==> Has(es, e.key) && Lookup(es, e.key) == e.value
  {
    if e in es {
      var i :| 0 <= i < |es| && es[i] == e;
      var n := IndexOf(es, e.key);
      assert n <= i;
    } else if Has(es, e.key) {
      assert es[IndexOf(es, e.key)] in es;
    }
  }

  // ---------------------------------------------------------------- recency

  /** Position of the last use of a key in the log of uses, or -1. */
  function LastUse(log: seq<string>, key: string): (i: int)
    ensures -1 <= i < |log| && (i >= 0 ==> log[i] == key)
    ensures forall j | i < j < |log| :: log[j] != key
  {
    if log == [] then -1
    else if log[|log| - 1] == key then |log| - 1
    else LastUse(log[..|log| - 1], key)
  }

  predicate ByRecency<V>(es: seq<Entry<V>>, log: seq<string>) {
    && (forall i | 0 <= i < |es| :: es[i].key in log)
    && (forall i, j | 0 <= i < j < |es| :: LastUse(log, es[i].key) < LastUse(log, es[j].key))
  }

  lemma LastUseOfOther(log: seq<string>, key: string, used: string)
    requires key != used
    ensures LastUse(log + [used], key) == LastUse(log, key)
  {
    assert (log + [used])[..|log|] == log;
  }

  lemma DeleteKeepsRecency<V>(es: seq<Entry<V>>, log: seq<string>, key: string)
    requires ByRecency(es, log)
    ensures ByRecency(Delete(es, key), log)
  {
    var d, n := Delete(es, key), IndexOf(es, key);
    if n < |es| {
      assert |d| == |es| - 1;
      assert forall i | 0 <= i < n :: d[i] == es[i];
      assert forall i | n <= i < |d| :: d[i] == es[i + 1];
    }
  }

  lemma RecencyIsDistinct<V>(es: seq<Entry<V>>, log: seq<string>)
    requires ByRecency(es, log)
    ensures Distinct(es)
  {
  }

  /** Touching keeps the list ordered by last use, the touched key last. */
  lemma TouchKeepsRecency<V>(es: seq<Entry<V>>, log: seq<string>, key: string, value: V)
    requires ByRecency(es, log)
    ensures ByRecency(Touch(es, key, value), log + [key])
  {
    RecencyIsDistinct(es, log);
    DeleteIsMapRemoval(es, key);
    DeleteKeepsRecency(es, log, key);
    hide Delete;
    var d, more := Delete(es, key), log + [key];
    forall i | 0 <= i < |d|
      ensures d[i].key in more && LastUse(more, d[i].key) == LastUse(log, d[i].key) < |log|
    {
      assert d[i] in d;
      LastUseOfOther(log, d[i].key, key);
    }
    assert LastUse(more, key) == |log|;
  }

  /** Dropping from the front drops what was used longest ago. */
  lemma FrontIsLeastRecent<V>(es: seq<Entry<V>>, log: seq<string>, n: nat)
    requires ByRecency(es, log) && n <= |es|
    ensures ByRecency(es[n..], log)
    ensures forall a, b | a in es[..n] && b in es[n..] :: LastUse(log, a.key) < LastUse(log, b.key)
  {
  }

  lemma ConsKeepsRecency<V>(e: Entry<V>, rest: seq<Entry<V>>, log: seq<string>)
    requires ByRecency(rest, log) && e.key in log
    requires forall r | r in rest :: LastUse(log, e.key) < LastUse(log, r.key)
    ensures ByRecency([e] + rest, log)
  {
    var es := [e] + rest;
    assert forall i | 0 < i < |es| :: es[i] == rest[i - 1] && rest[i - 1] in rest;
  }

  // ---------------------------------------------------------------- how much was used since

  /** The uses after the last one of a key. */
  function After(log: seq<string>, key: string): seq<string> {
    log[LastUse(log, key) + 1..]
  }

  /** Weight of the keys in the list, each counted once. */
  function Weight(keys: seq<string>, weight: string -> nat): nat {
    if keys == [] then 0 else (if keys[0] in keys[1..] then 0 else weight(keys[0])) + Weight(keys[1..], weight)
  }

  function Total<V>(es: seq<Entry<V>>, weight: string -> nat): nat {
    if es == [] then 0 else weight(es[0].key) + Total(es[1..], weight)
  }

  lemma {:induction false} TotalSplits<V>(a: seq<Entry<V>>, b: seq<Entry<V>>, weight: string -> nat)
    ensures Total(a + b, weight) == Total(a, weight) + Total(b, weight)
    decreases |a|
  {
    if a == [] {
      assert a + b == b;
    } else {
      assert (a + b)[1..] == a[1..] + b;
      TotalSplits(a[1..], b, weight);
    }
  }

  lemma TotalWithout<V>(es: seq<Entry<V>>, key: string, weight: string -> nat)
    ensures Total(es, weight) == Total(Delete(es, key), weight) + if Has(es, key) then weight(key) else 0
  {
    var n := IndexOf(es, key);
    if n < |es| {
      InTwo(es, n);
      TotalSplits(es[..n] + [es[n]], es[n + 1..], weight);
      TotalSplits(es[..n], [es[n]], weight);
      TotalSplits(es[..n], es[n + 1..], weight);
    }
  }

  /** Entries with different keys weigh no more than their keys. */
  lemma {:induction false} TotalWithin<V>(es: seq<Entry<V>>, keys: seq<string>, weight: string -> nat)
    requires Distinct(es) && forall e | e in es :: e.key in keys
    ensures Total(es, weight) <= Weight(keys, weight)
    decreases |keys|
  {
    if keys != [] && keys[0] in keys[1..] {
      TotalWithin(es, keys[1..], weight);
    } else if keys != [] {
      DeleteIsMapRemoval(es, keys[0]);
      TotalWithout(es, keys[0], weight);
      hide Delete, Distinct;
      TotalWithin(Delete(es, keys[0]), keys[1..], weight);
    }
  }

  /** What stands behind an entry was used after it, so it weighs no more than those uses. */
  lemma FollowersWithin<V>(es: seq<Entry<V>>, log: seq<string>, i: nat, weight: string -> nat)
    requires ByRecency(es, log) && i < |es|
    ensures Total(es[i + 1..], weight) <= Weight(After(log, es[i].key), weight)
  {
    var rest, after := es[i + 1..], After(log, es[i].key);
    RecencyIsDistinct(es, log);
    forall e | e in rest
      ensures e.key in after
    {
      var j :| 0 <= j < |rest| && rest[j] == e;
      assert e == es[i + 1 + j];
      var u := LastUse(log, e.key);
      assert u > LastUse(log, es[i].key) && after[u - LastUse(log, es[i].key) - 1] == e.key;
    }
    TotalWithin(rest, after, weight);
  }
}
