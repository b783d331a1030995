/** The process-local cache of local-media blocks: least-recently-used within a byte budget, a
    lifetime per block, and one shared fetch per key. */
module BlockCache {
  import opened Js
  import opened BlockProtocol
  import opened LruMap

  const CACHE_TTL_MS: int := 120_000
  const CACHE_MAX_BYTES: int := 64 * 1024 * 1024

  /** A background fetch: the promise that callers of the same key share. */
  type Flight = nat

  datatype Block = Block(bytes: seq<Byte>, expiresAt: int)

  datatype Cache = Cache(blocks: seq<Entry<Block>>, totalBytes: int, inflight: map<string, Flight>)

  const Empty := Cache([], 0, map[])

  function Size(es: seq<Entry<Block>>): (n: nat) {
    if es == [] then 0 else |es[0].value.bytes| + Size(es[1..])
  }

  // ---------------------------------------------------------------- keys

  function Decimal(n: nat): (d: string)
    ensures |d| > 0 && forall c | c in d :: '0' <= c <= '9'
  {
    if n < 10 then ['0' + n as char] else Decimal(n / 10) + ['0' + (n % 10) as char]
  }

  function BlockKey(mediaId: string, blockStart: nat): string {
    mediaId + ":" + Decimal(blockStart)
  }

  /** `key.startsWith(mediaId + ":")` */
  predicate OfMedia(key: string, mediaId: string) {
    mediaId + ":" <= key
  }

  lemma {:induction false} DecimalIsInjective(m: nat, n: nat)
    ensures Decimal(m) == Decimal(n) ==> m == n
  {
    if m >= 10 && n >= 10 {
      DecimalIsInjective(m / 10, n / 10);
      if Decimal(m) == Decimal(n) {
        var k := |Decimal(m)| - 1;
        assert Decimal(m)[..k] == Decimal(m / 10) && Decimal(n)[..k] == Decimal(n / 10);
        assert Decimal(m)[k] == '0' + (m % 10) as char && Decimal(n)[k] == '0' + (n % 10) as char;
      }
    } else if m >= 10 {
      assert |Decimal(m)| == |Decimal(m / 10)| + 1 > 1;
    } else if n >= 10 {
      assert |Decimal(n)| == |Decimal(n / 10)| + 1 > 1;
    }
  }

  /** For media ids without a colon a key belongs to one block of one medium, and the prefix
      test used for clearing selects exactly the keys of that medium. */
  lemma KeysNameOneBlock(m1: string, s1: nat, m2: string, s2: nat)
    requires ':' !in m1 && ':' !in m2
    ensures BlockKey(m1, s1) == BlockKey(m2, s2) <==> m1 == m2 && s1 == s2
    ensures OfMedia(BlockKey(m1, s1), m2) <==> m1 == m2
  {
    var k1, k2 := BlockKey(m1, s1), BlockKey(m2, s2);
    assert k1[|m1|] == ':' && forall i | 0 <= i < |m1| :: k1[i] == m1[i] && m1[i] in m1;
    assert k2[|m2|] == ':' && forall i | 0 <= i < |m2| :: k2[i] == m2[i] && m2[i] in m2;
    if OfMedia(k1, m2) {
      assert k1[|m2|] == (m2 + ":")[|m2|] == ':';
      assert forall i | 0 <= i < |m2| :: k1[i] == (m2 + ":")[i] == m2[i];
      assert |m1| == |m2|;
      assert m1 == m2;
    }
    if k1 == k2 {
      assert |m1| == |m2|;
      assert m1 == k1[..|m1|] == m2;
      assert Decimal(s1) == k1[|m1| + 1..] == Decimal(s2);
      DecimalIsInjective(s1, s2);
    }
    if m1 == m2 {
      assert m1 + ":" <= k1;
    }
  }

  // ---------------------------------------------------------------- eviction

  /** How many of the oldest blocks must go so that `incoming` more bytes fit. */
  function Evicted(es: seq<Entry<Block>>, incoming: nat): (k: nat)
    ensures k <= |es|
    ensures k < |es| ==> Size(es[k..]) + incoming <= CACHE_MAX_BYTES
    ensures forall j | 0 <= j < k :: Size(es[j..]) + incoming > CACHE_MAX_BYTES
  {
    if es == [] || Size(es) + incoming <= CACHE_MAX_BYTES then
      assert es[0..] == es;
      0
    else
      var k := Evicted(es[1..], incoming);
      assert forall j | 0 < j <= |es| :: es[j..] == es[1..][j - 1..];
      assert es[0..] == es;
      k + 1
  }

  function Put(c: Cache, key: string, bytes: seq<Byte>, now: int): Cache {
    var left := c.blocks[Evicted(c.blocks, |bytes|)..];
    var blocks := Touch(left, key, Block(bytes, now + CACHE_TTL_MS));
    c.(blocks := blocks, totalBytes := Size(blocks))
  }

  predicate Fresh(c: Cache, key: string, now: int) {
    Has(c.blocks, key) && Lookup(c.blocks, key).expiresAt > now
  }

  // ---------------------------------------------------------------- what a request does

  /** Served at once, told to wait for a fetch under way, or told to start one. */
  datatype Answer = Hit(bytes: seq<Byte>) | Wait(flight: Flight) | Start(flight: Flight)

  function Ask(c: Cache, key: string, now: int, next: Flight): (Cache, Answer) {
    if Fresh(c, key, now) then
      var b := Lookup(c.blocks, key);
      (c.(blocks := Touch(c.blocks, key, b)), Hit(b.bytes))
    else if key in c.inflight then (c, Wait(c.inflight[key]))
    else (c.(inflight := c.inflight[key := next]), Start(next))
  }

  /** The `finally` of a fetch: the slot of its key goes, whoever holds it. */
  function Release(c: Cache, key: string): Cache {
    c.(inflight := c.inflight - {key})
  }

  function KeepOthers(es: seq<Entry<Block>>, mediaId: string): seq<Entry<Block>> {
    if es == [] then []
    else if OfMedia(es[0].key, mediaId) then KeepOthers(es[1..], mediaId)
    else [es[0]] + KeepOthers(es[1..], mediaId)
  }

  function Clear(c: Cache, mediaId: string): Cache {
    var blocks := KeepOthers(c.blocks, mediaId);
    Cache(blocks, Size(blocks), map k | k in c.inflight && !OfMedia(k, mediaId) :: c.inflight[k])
  }

  /** The byte count is right, keys are distinct and, unless one oversized block is alone in
      the cache, the budget holds. */
  predicate Valid(c: Cache) {
    && Distinct(c.blocks)
    && c.totalBytes == Size(c.blocks)
    && (c.totalBytes <= CACHE_MAX_BYTES || |c.blocks| == 1)
  }

  lemma {:induction false} SizeSplits(a: seq<Entry<Block>>, b: seq<Entry<Block>>)
    ensures Size(a + b) == Size(a) + Size(b)
  {
    if a == [] {
      assert a + b == b;
    } else {
      assert (a + b)[1..] == a[1..] + b;
      SizeSplits(a[1..], b);
    }
  }

  lemma SizeWithout(es: seq<Entry<Block>>, key: string)
    ensures Size(Delete(es, key)) == Size(es) - if Has(es, key) then |Lookup(es, key).bytes| else 0
  {
    var n := IndexOf(es, key);
    if n < |es| {
      assert es == es[..n] + [es[n]] + es[n + 1..];
      SizeSplits(es[..n] + [es[n]], es[n + 1..]);
      SizeSplits(es[..n], [es[n]]);
      SizeSplits(es[..n], es[n + 1..]);
    }
  }

  lemma SizeTouched(es: seq<Entry<Block>>, key: string, b: Block)
    ensures Size(Touch(es, key, b)) == Size(es) - (if Has(es, key) then |Lookup(es, key).bytes| else 0) + |b.bytes|
  {
    SizeWithout(es, key);
    SizeSplits(Delete(es, key), [Entry(key, b)]);
  }

  lemma OneKeptOrNot(kept: seq<Entry<Block>>, es: seq<Entry<Block>>, i: nat, mediaId: string)
    requires i < |es|
    ensures Size(es[i..]) == |es[i].value.bytes| + Size(es[i + 1..])
    ensures Size(kept + [es[i]]) == Size(kept) + |es[i].value.bytes|
    ensures KeepOthers(es[i..], mediaId) == (if OfMedia(es[i].key, mediaId) then [] else [es[i]]) + KeepOthers(es[i + 1..], mediaId)
  {
    assert es[i..][1..] == es[i + 1..];
    SizeSplits(kept, [es[i]]);
  }

  /** The loop over the keys of the cache, with the byte count kept up to date. */
  method DropMedia(es: seq<Entry<Block>>, totalBytes: int, mediaId: string) returns (kept: seq<Entry<Block>>, total: int)
    ensures kept == KeepOthers(es, mediaId)
    ensures totalBytes - total == Size(es) - Size(kept)
  {
    kept, total := [], totalBytes;
    assert es[0..] == es;
    for i := 0 to |es|
      invariant KeepOthers(es, mediaId) == kept + KeepOthers(es[i..], mediaId)
      invariant total - Size(kept) - Size(es[i..]) == totalBytes - Size(es)
    {
      OneKeptOrNot(kept, es, i, mediaId);
      if OfMedia(es[i].key, mediaId) {
        total := total - |es[i].value.bytes|;
      } else {
        kept := kept + [es[i]];
      }
    }
  }

  // ---------------------------------------------------------------- the cache itself

  class Slot {
    var blocks: seq<Entry<Block>>
    var totalBytes: int
    var inflight: map<string, Flight>
    var nextFlight: Flight

    ghost function View(): Cache
      reads this
    {
      Cache(blocks, totalBytes, inflight)
    }

    constructor ()
      ensures View() == Empty
    {
      blocks, totalBytes, inflight, nextFlight := [], 0, map[], 0;
    }

    method EvictIfNeeded(incomingBytes: nat)
      requires totalBytes == Size(blocks)
      modifies this
      ensures inflight == old(inflight) && nextFlight == old(nextFlight)
      ensures blocks == old(blocks)[Evicted(old(blocks), incomingBytes)..] && totalBytes == Size(blocks)
    {
      ghost var k := 0;
      while totalBytes + incomingBytes > CACHE_MAX_BYTES && |blocks| > 0
        invariant inflight == old(inflight) && nextFlight == old(nextFlight)
        invariant k <= |old(blocks)| && blocks == old(blocks)[k..] && totalBytes == Size(blocks)
        invariant k + Evicted(blocks, incomingBytes) == Evicted(old(blocks), incomingBytes)
        decreases |blocks|
      {
        var oldest := blocks[0];
        blocks := blocks[1..];
        totalBytes := totalBytes - |oldest.value.bytes|;
        k := k + 1;
      }
    }

    method PutL1(key: string, bytes: seq<Byte>, now: int)
      requires totalBytes == Size(blocks)
      modifies this
      ensures View() == Put(old(View()), key, bytes, now) && nextFlight == old(nextFlight)
    {
      EvictIfNeeded(|bytes|);
      var entry := Block(bytes, now + CACHE_TTL_MS);
      SizeTouched(blocks, key, entry);
      if Has(blocks, key) {
        totalBytes := totalBytes - |Lookup(blocks, key).bytes|;
      }
      blocks := Touch(blocks, key, entry);
      totalBytes := totalBytes + |bytes|;
    }

    /** The part of a request before its first wait. */
    method Request(key: string, now: int) returns (answer: Answer)
      modifies this
      ensures (View(), answer) == Ask(old(View()), key, now, old(nextFlight))
      ensures nextFlight == if answer.Start? then old(nextFlight) + 1 else old(nextFlight)
    {
      if Has(blocks, key) {
        var hit := Lookup(blocks, key);
        if hit.expiresAt > now {
          blocks := Touch(blocks, key, hit);
          return Hit(hit.bytes);
        }
      }
      if key in inflight {
        return Wait(inflight[key]);
      }
      inflight := inflight[key := nextFlight];
      answer := Start(nextFlight);
      nextFlight := nextFlight + 1;
    }

    method FinishFlight(key: string)
      modifies this
      ensures View() == Release(old(View()), key) && nextFlight == old(nextFlight)
    {
      inflight := inflight - {key};
    }

    method ClearL1ForMedia(mediaId: string)
      requires totalBytes == Size(blocks)
      modifies this
      ensures View() == Clear(old(View()), mediaId) && nextFlight == old(nextFlight)
    {
      blocks, totalBytes := DropMedia(blocks, totalBytes, mediaId);
      inflight := map k | k in inflight && !OfMedia(k, mediaId) :: inflight[k];
    }

    method InvalidateAll()
      modifies this
      ensures View() == Empty && nextFlight == old(nextFlight)
    {
      blocks, inflight, totalBytes := [], map[], 0;
    }
  }

  // ---------------------------------------------------------------- budget and recency

  /** After any block is stored the cache is within its budget exactly when that block is. */
  lemma BudgetHolds(c: Cache, key: string, bytes: seq<Byte>, now: int)
    requires Valid(c)
    ensures Valid(Put(c, key, bytes, now))
    ensures Put(c, key, bytes, now).totalBytes <= CACHE_MAX_BYTES <==> |bytes| <= CACHE_MAX_BYTES
    ensures Fresh(Put(c, key, bytes, now), key, now) && Lookup(Put(c, key, bytes, now).blocks, key).bytes == bytes
  {
    var k := Evicted(c.blocks, |bytes|);
    var left := c.blocks[k..];
    var b := Block(bytes, now + CACHE_TTL_MS);
    TouchIsMapUpdate(left, key, b);
    SizeWithout(left, key);
    SizeTouched(left, key, b);
    assert Size(Touch(left, key, b)) == Size(Delete(left, key)) + |bytes|;
    if |bytes| > CACHE_MAX_BYTES {
      assert left == [];
    }
  }

  /** A stored block is served for two minutes and not a moment longer, however often it was
      used meanwhile. */
  lemma BlockLivesTwoMinutes(c: Cache, key: string, bytes: seq<Byte>, stored: int, used: int, now: int)
    requires Valid(c) && stored <= used < stored + CACHE_TTL_MS
    ensures var d := Put(c, key, bytes, stored);
            && Ask(d, key, used, 0).1 == Hit(bytes)
            && (Fresh(Ask(d, key, used, 0).0, key, now) <==> now < stored + CACHE_TTL_MS)
  {
    var b := Block(bytes, stored + CACHE_TTL_MS);
    var left := c.blocks[Evicted(c.blocks, |bytes|)..];
    assert Distinct(left);
    hide Touch, Distinct, Size, Evicted, Has, Lookup;
    TouchIsMapUpdate(left, key, b);
    TouchIsMapUpdate(Touch(left, key, b), key, b);
  }

  /** Eviction removes the blocks used longest ago, and no more of them than needed. */
  lemma EvictionFollowsRecency(c: Cache, log: seq<string>, key: string, bytes: seq<Byte>, now: int)
    requires ByRecency(c.blocks, log)
    ensures var k := Evicted(c.blocks, |bytes|);
            && (forall a, b | a in c.blocks[..k] && b in c.blocks[k..] :: LastUse(log, a.key) < LastUse(log, b.key))
            && (k > 0 ==> Size(c.blocks[k - 1..]) + |bytes| > CACHE_MAX_BYTES)
    ensures ByRecency(Put(c, key, bytes, now).blocks, log + [key])
  {
    var k := Evicted(c.blocks, |bytes|);
    FrontIsLeastRecent(c.blocks, log, k);
    TouchKeepsRecency(c.blocks[k..], log, key, Block(bytes, now + CACHE_TTL_MS));
  }

  /** A store touches no other block but those it evicts. */
  lemma PutKeepsTheRest(c: Cache, key: string, bytes: seq<Byte>, now: int, e: Entry<Block>)
    requires Valid(c) && e.key != key
    ensures e in Put(c, key, bytes, now).blocks <==> e in c.blocks[Evicted(c.blocks, |bytes|)..]
  {
    var left := c.blocks[Evicted(c.blocks, |bytes|)..];
    assert Distinct(left);
    TouchIsMapUpdate(left, key, Block(bytes, now + CACHE_TTL_MS));
    hide Touch, Distinct, Size, Evicted;
  }

  /** And it evicts a block exactly when that block, those used after it and the new bytes do
      not fit together. */
  lemma SurvivesPutIff(c: Cache, key: string, bytes: seq<Byte>, now: int, i: nat)
    requires Valid(c) && i < |c.blocks| && c.blocks[i].key != key
    ensures c.blocks[i] in Put(c, key, bytes, now).blocks <==> Size(c.blocks[i..]) + |bytes| <= 64 * 1024 * 1024
  {
    var es, k := c.blocks, Evicted(c.blocks, |bytes|);
    PutKeepsTheRest(c, key, bytes, now, es[i]);
    hide Put;
    if i >= k {
      assert es[k..][i - k] == es[i];
      LessBehind(es, k, i);
    }
  }

  lemma LessBehind(es: seq<Entry<Block>>, k: nat, i: nat)
    requires k <= i <= |es|
    ensures Size(es[i..]) <= Size(es[k..])
  {
    assert es[k..] == es[k..i] + es[i..];
    SizeSplits(es[k..i], es[i..]);
  }
}
