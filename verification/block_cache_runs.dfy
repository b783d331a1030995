/** Runs of the block cache: requests, fetches that store and finish or fail in any order, and
    invalidations, against an unchanging source of blocks. */
module BlockCacheRuns {
  import opened BlockProtocol
  import opened LruMap
  import opened BlockCache

  datatype Event =
    | Request(key: string, now: int)
    | Store(flight: Flight, now: int)
    | Finish(flight: Flight)
    | Fail(flight: Flight)
    | ClearMedia(mediaId: string)
    | ClearAll

  type Source = string -> seq<Byte>

  datatype Delivery = Delivery(key: string, bytes: seq<Byte>)

  /** `running`: the key each fetch under way is for. `waiting`: callers and the fetch whose
      promise they hold. `log`: the keys in order of use. */
  datatype System = System(cache: Cache, running: map<Flight, string>, next: Flight, waiting: set<(string, Flight)>,
                           log: seq<string>, delivered: set<Delivery>)

  const Initial := System(Empty, map[], 0, {}, [], {})

  function Step(s: System, e: Event, source: Source): System {
    match e
    case Request(key, now) =>
      var (c, a) := Ask(s.cache, key, now, s.next);
      (match a
       case Hit(bytes) => s.(cache := c, log := s.log + [key], delivered := s.delivered + {Delivery(key, bytes)})
       case Wait(f) => s.(waiting := s.waiting + {(key, f)})
       case Start(f) => s.(cache := c, running := s.running[f := key], next := s.next + 1, waiting := s.waiting + {(key, f)}))
    case Store(f, now) =>
      if f in s.running then
        var key := s.running[f];
        s.(cache := Put(s.cache, key, source(key), now), log := s.log + [key])
      else s
    case Finish(f) =>
      if f in s.running then
        s.(cache := Release(s.cache, s.running[f]),
           running := s.running - {f},
           waiting := (set w | w in s.waiting && w.1 != f),
           delivered := s.delivered + (set w | w in s.waiting && w.1 == f :: Delivery(w.0, source(s.running[f]))))
      else s
    case Fail(f) =>
      if f in s.running then
        s.(cache := Release(s.cache, s.running[f]),
           running := s.running - {f},
           waiting := (set w | w in s.waiting && w.1 != f))
      else s
    case ClearMedia(m) => s.(cache := Clear(s.cache, m))
    case ClearAll => s.(cache := Empty)
  }

  function Run(s: System, es: seq<Event>, source: Source): System
    decreases |es|
  {
    if es == [] then s else Run(Step(s, es[0], source), es[1..], source)
  }

  predicate SlotsRun(s: System) {
    && (forall k | k in s.cache.inflight :: s.cache.inflight[k] in s.running && s.running[s.cache.inflight[k]] == k)
    && (forall w | w in s.waiting :: w.1 in s.running && s.running[w.1] == w.0)
    && (forall f | f in s.running :: f < s.next)
  }

  predicate BlocksAreTrue(c: Cache, source: Source) {
    forall e | e in c.blocks :: e.value.bytes == source(e.key)
  }

  predicate Inv(s: System, source: Source) {
    && Valid(s.cache) && ByRecency(s.cache.blocks, s.log) && BlocksAreTrue(s.cache, source)
    && SlotsRun(s)
    && forall d | d in s.delivered :: d.bytes == source(d.key)
  }

  lemma TouchKeepsTruth(es: seq<Entry<Block>>, source: Source, key: string, b: Block)
    requires Distinct(es) && (forall e | e in es :: e.value.bytes == source(e.key)) && b.bytes == source(key)
    ensures forall e | e in Touch(es, key, b) :: e.value.bytes == source(e.key)
  {
    TouchIsMapUpdate(es, key, b);
    hide Touch, Distinct;
  }

  lemma PutKeeps(c: Cache, log: seq<string>, source: Source, key: string, now: int)
    requires Valid(c) && ByRecency(c.blocks, log) && BlocksAreTrue(c, source)
    ensures var d := Put(c, key, source(key), now);
            Valid(d) && ByRecency(d.blocks, log + [key]) && BlocksAreTrue(d, source)
  {
    BudgetHolds(c, key, source(key), now);
    EvictionFollowsRecency(c, log, key, source(key), now);
    PutKeepsTruth(c, source, key, now);
    hide Put, Valid, ByRecency, BlocksAreTrue;
  }

  lemma PutKeepsTruth(c: Cache, source: Source, key: string, now: int)
    requires Valid(c) && BlocksAreTrue(c, source)
    ensures BlocksAreTrue(Put(c, key, source(key), now), source)
  {
    hide Touch, Size;
    var left := c.blocks[Evicted(c.blocks, |source(key)|)..];
    assert forall e | e in left :: e in c.blocks;
    TouchKeepsTruth(left, source, key, Block(source(key), now + CACHE_TTL_MS));
  }

  lemma HitKeeps(c: Cache, log: seq<string>, source: Source, key: string)
    requires Valid(c) && ByRecency(c.blocks, log) && BlocksAreTrue(c, source) && Has(c.blocks, key)
    ensures var b := Lookup(c.blocks, key);
            var d := c.(blocks := Touch(c.blocks, key, b));
            Valid(d) && ByRecency(d.blocks, log + [key]) && BlocksAreTrue(d, source) && b.bytes == source(key)
  {
    var b := Lookup(c.blocks, key);
    assert Entry(key, b) == c.blocks[IndexOf(c.blocks, key)];
    assert |Touch(c.blocks, key, b)| == |c.blocks|;
    TouchKeepsTruth(c.blocks, source, key, b);
    TouchIsMapUpdate(c.blocks, key, b);
    TouchKeepsRecency(c.blocks, log, key, b);
    SizeTouched(c.blocks, key, b);
    hide Touch, Size, ByRecency, Distinct;
  }

  lemma {:induction false} KeptAreTheOthers(es: seq<Entry<Block>>, mediaId: string)
    ensures var kept := KeepOthers(es, mediaId);
            && Size(kept) <= Size(es) && |kept| <= |es|
            && forall e :: e in kept <==> e in es && !OfMedia(e.key, mediaId)
  {
    hide OfMedia;
    if es != [] {
      KeptAreTheOthers(es[1..], mediaId);
      assert ([es[0]] + KeepOthers(es[1..], mediaId))[1..] == KeepOthers(es[1..], mediaId);
      assert forall e :: e in es <==> e == es[0] || e in es[1..];
    }
  }

  lemma {:induction false} KeptByRecency(es: seq<Entry<Block>>, log: seq<string>, mediaId: string)
    requires ByRecency(es, log)
    ensures ByRecency(KeepOthers(es, mediaId), log)
  {
    if es != [] {
      assert es[0].key in log && es[..1] == [es[0]];
      FrontIsLeastRecent(es, log, 1);
      hide OfMedia, ByRecency, LastUse;
      KeptByRecency(es[1..], log, mediaId);
      KeptAreTheOthers(es[1..], mediaId);
      ConsKeepsRecency(es[0], KeepOthers(es[1..], mediaId), log);
    }
  }

  lemma ClearKeeps(c: Cache, log: seq<string>, source: Source, mediaId: string)
    requires Valid(c) && ByRecency(c.blocks, log) && BlocksAreTrue(c, source)
    ensures var d := Clear(c, mediaId);
            Valid(d) && ByRecency(d.blocks, log) && BlocksAreTrue(d, source)
  {
    var kept := KeepOthers(c.blocks, mediaId);
    KeptByRecency(c.blocks, log, mediaId);
    KeptAreTheOthers(c.blocks, mediaId);
    RecencyIsDistinct(kept, log);
    if |c.blocks| == 1 && |kept| != 1 {
      assert kept == [];
    }
  }

  lemma StepKeeps(s: System, e: Event, source: Source)
    requires Inv(s, source)
    ensures Inv(Step(s, e, source), source)
  {
    hide Valid, ByRecency, BlocksAreTrue, Put, Touch, Lookup, KeepOthers, OfMedia;
    match e {
      case Request(key, now) =>
        if Fresh(s.cache, key, now) {
          HitKeeps(s.cache, s.log, source, key);
        } else {
          SameBlocks(s.cache, s.cache.(inflight := s.cache.inflight[key := s.next]), source);
        }
      case Store(f, now) =>
        if f in s.running {
          PutKeeps(s.cache, s.log, source, s.running[f], now);
          PutKeepsSlots(s.cache, s.running[f], source(s.running[f]), now);
        }
      case Finish(f) =>
        if f in s.running {
          SameBlocks(s.cache, Release(s.cache, s.running[f]), source);
        }
      case Fail(f) =>
        if f in s.running {
          SameBlocks(s.cache, Release(s.cache, s.running[f]), source);
        }
      case ClearMedia(m) => ClearKeeps(s.cache, s.log, source, m);
      case ClearAll => EmptyIsFine(s.log, source);
    }
  }

  lemma SameBlocks(c: Cache, d: Cache, source: Source)
    requires d == c.(inflight := d.inflight)
    ensures Valid(c) ==> Valid(d)
    ensures BlocksAreTrue(c, source) ==> BlocksAreTrue(d, source)
  {
  }

  lemma PutKeepsSlots(c: Cache, key: string, bytes: seq<Byte>, now: int)
    ensures Put(c, key, bytes, now).inflight == c.inflight
  {
  }

  lemma EmptyIsFine(log: seq<string>, source: Source)
    ensures Valid(Empty) && ByRecency(Empty.blocks, log) && BlocksAreTrue(Empty, source)
  {
  }

  /** In every run, whatever is invalidated and in whatever order fetches end: the byte count
      is exact and the budget holds, the blocks are in order of last use, and every block ever
      delivered, from the cache or from a shared fetch, is the source's block for that key. */
  lemma {:induction false} EveryRunAgreesWithTheSource(s: System, es: seq<Event>, source: Source)
    requires Inv(s, source)
    ensures Inv(Run(s, es, source), source)
    decreases |es|
  {
    hide Inv, Step;
    if es != [] {
      StepKeeps(s, es[0], source);
      EveryRunAgreesWithTheSource(Step(s, es[0], source), es[1..], source);
    }
  }

  /** With blocks no larger than the limit the cache never exceeds it. */
  lemma NeverOverBudget(es: seq<Event>, source: Source)
    requires forall k :: |source(k)| <= CACHE_MAX_BYTES
    ensures Run(Initial, es, source).cache.totalBytes <= CACHE_MAX_BYTES
  {
    EmptyIsFine([], source);
    EveryRunAgreesWithTheSource(Initial, es, source);
    var c := Run(Initial, es, source).cache;
    if |c.blocks| == 1 {
      assert c.blocks[0] in c.blocks;
      assert Size(c.blocks) == |c.blocks[0].value.bytes| + Size(c.blocks[1..]);
    }
  }

  // ---------------------------------------------------------------- one fetch per key

  /** Every fetch under way holds the slot of its key. */
  predicate NoOrphans(s: System) {
    forall f | f in s.running :: s.running[f] in s.cache.inflight && s.cache.inflight[s.running[f]] == f
  }

  predicate Invalidates(e: Event) {
    e.ClearMedia? || e.ClearAll?
  }

  lemma StepMakesNoOrphan(s: System, e: Event, source: Source)
    requires Inv(s, source) && NoOrphans(s) && !Invalidates(e)
    ensures NoOrphans(Step(s, e, source))
  {
    hide Valid, ByRecency, BlocksAreTrue, Touch, Lookup, Evicted, Size;
  }

  /** Without invalidations at most one fetch per key is ever under way. */
  lemma {:induction false} OneFetchPerKey(s: System, es: seq<Event>, source: Source)
    requires Inv(s, source) && NoOrphans(s) && forall e | e in es :: !Invalidates(e)
    ensures NoOrphans(Run(s, es, source))
    ensures var t := Run(s, es, source);
            forall f, g | f in t.running && g in t.running && t.running[f] == t.running[g] :: f == g
    decreases |es|
  {
    hide Inv, Step;
    if es != [] {
      StepKeeps(s, es[0], source);
      StepMakesNoOrphan(s, es[0], source);
      OneFetchPerKey(Step(s, es[0], source), es[1..], source);
    }
  }

  // ---------------------------------------------------------------- fetches that lost their slot

  /** The slot of its key is this fetch's. */
  predicate HoldsSlot(s: System, f: Flight) {
    f in s.running && s.running[f] in s.cache.inflight && s.cache.inflight[s.running[f]] == f
  }

  /** What takes the slot from a fetch under way: clearing its medium, or the end of another
      fetch of its key. */
  predicate Takes(s: System, e: Event, f: Flight) {
    f in s.running &&
    match e
    case ClearMedia(m) => OfMedia(s.running[f], m)
    case ClearAll => true
    case Finish(g) => g in s.running && g != f && s.running[g] == s.running[f]
    case Fail(g) => g in s.running && g != f && s.running[g] == s.running[f]
    case _ => false
  }

  /** The fetches that something has taken the slot from since they started. */
  function Lost(s: System, es: seq<Event>, source: Source, lost: set<Flight>): set<Flight>
    decreases |es|
  {
    if es == [] then lost
    else Lost(Step(s, es[0], source), es[1..], source, lost + set f | f in s.running && Takes(s, es[0], f))
  }

  /** A fetch is among them exactly when some event of the run took its slot. */
  lemma {:induction false} LostIsTaken(s: System, es: seq<Event>, source: Source, lost: set<Flight>, f: Flight)
    ensures f in Lost(s, es, source, lost)
            <==> f in lost || exists i | 0 <= i < |es| :: Takes(Run(s, es[..i], source), es[i], f)
    decreases |es|
  {
    if es != [] {
      var t, rest := Step(s, es[0], source), es[1..];
      LostIsTaken(t, rest, source, lost + (set f | f in s.running && Takes(s, es[0], f)), f);
      assert es[..0] == [];
      forall i | 0 <= i < |rest|
        ensures Run(t, rest[..i], source) == Run(s, es[..i + 1], source) && rest[i] == es[i + 1]
      {
        assert es[..i + 1][1..] == rest[..i] && es[..i + 1][0] == es[0];
      }
      hide Takes, Step, Run;
      assert Run(s, [], source) == s by { NoEvents(s, source); }
      if exists i | 0 <= i < |rest| :: Takes(Run(t, rest[..i], source), rest[i], f) {
        var i :| 0 <= i < |rest| && Takes(Run(t, rest[..i], source), rest[i], f);
        assert Takes(Run(s, es[..i + 1], source), es[i + 1], f);
      }
      if exists i | 0 <= i < |es| :: Takes(Run(s, es[..i], source), es[i], f) {
        var i :| 0 <= i < |es| && Takes(Run(s, es[..i], source), es[i], f);
        if i > 0 {
          assert Takes(Run(t, rest[..i - 1], source), rest[i - 1], f);
        }
      }
    }
  }

  lemma NoEvents(s: System, source: Source)
    ensures Run(s, [], source) == s
  {
  }

  predicate SlotsAgree(s: System, lost: set<Flight>) {
    (forall f | f in s.running :: HoldsSlot(s, f) <==> f !in lost) && forall f | f in lost :: f < s.next
  }

  lemma StepAgrees(s: System, e: Event, source: Source, lost: set<Flight>)
    requires SlotsRun(s) && SlotsAgree(s, lost)
    ensures SlotsAgree(Step(s, e, source), lost + set f | f in s.running && Takes(s, e, f))
  {
    hide Touch, Lookup, Evicted, Size, KeepOthers, OfMedia, Fresh;
    match e
    case Request(key, now) =>
    case Store(f, now) =>
    case Finish(f) =>
    case Fail(f) =>
    case ClearMedia(m) =>
    case ClearAll =>
  }

  lemma {:induction false} RunAgrees(s: System, es: seq<Event>, source: Source, lost: set<Flight>)
    requires Inv(s, source) && SlotsAgree(s, lost)
    ensures SlotsAgree(Run(s, es, source), Lost(s, es, source, lost))
    decreases |es|
  {
    if es != [] {
      StepKeeps(s, es[0], source);
      StepAgrees(s, es[0], source, lost);
      hide Step, Inv, SlotsAgree, Takes;
      RunAgrees(Step(s, es[0], source), es[1..], source, lost + set f | f in s.running && Takes(s, es[0], f));
    }
  }

  /** In every run a fetch under way holds the slot of its key exactly when, since it started,
      its medium has not been cleared and no other fetch of its key has ended. */
  lemma SlotIsLostIff(es: seq<Event>, source: Source, f: Flight)
    requires f in Run(Initial, es, source).running
    ensures HoldsSlot(Run(Initial, es, source), f)
            <==> !exists i | 0 <= i < |es| :: Takes(Run(Initial, es[..i], source), es[i], f)
  {
    EmptyIsFine([], source);
    RunAgrees(Initial, es, source, {});
    LostIsTaken(Initial, es, source, {}, f);
  }

  /** When a request starts a further fetch of a key: exactly when no fresh block is cached and
      every fetch of the key under way has had its slot taken. */
  lemma RequestStartsAnotherIff(es: seq<Event>, source: Source, key: string, now: int)
    ensures var t := Run(Initial, es, source);
            Ask(t.cache, key, now, t.next).1.Start?
            <==> !Fresh(t.cache, key, now)
                 && forall f | f in t.running && t.running[f] == key ::
                      exists i | 0 <= i < |es| :: Takes(Run(Initial, es[..i], source), es[i], f)
  {
    var t := Run(Initial, es, source);
    EmptyIsFine([], source);
    EveryRunAgreesWithTheSource(Initial, es, source);
    forall f | f in t.running && t.running[f] == key
      ensures HoldsSlot(t, f) <==> !exists i | 0 <= i < |es| :: Takes(Run(Initial, es[..i], source), es[i], f)
    {
      SlotIsLostIff(es, source, f);
    }
    hide Run, Takes, Fresh;
    if key in t.cache.inflight {
      assert HoldsSlot(t, t.cache.inflight[key]);
    }
  }

  /** The shortest such run: two fetches of one key are under way although the only
      invalidation came before both of them. */
  lemma InvalidationSplitsAFetch(source: Source)
    ensures var key := BlockKey("m", 0);
            var t := Run(Initial, [Request(key, 0), ClearMedia("m"), Request(key, 1), Finish(0), Request(key, 2)], source);
            t.running == map[1 := key, 2 := key]
  {
    var key := BlockKey("m", 0);
    var es := [Request(key, 0), ClearMedia("m"), Request(key, 1), Finish(0), Request(key, 2)];
    assert OfMedia(key, "m");
    var s1 := Step(Initial, es[0], source);
    assert s1.running == map[0 := key] && s1.cache.inflight == map[key := 0];
    var s2 := Step(s1, es[1], source);
    assert s2.cache == Empty;
    var s3 := Step(s2, es[2], source);
    assert s3.running == map[0 := key, 1 := key] && s3.cache.inflight == map[key := 1];
    var s4 := Step(s3, es[3], source);
    assert s4.running == map[1 := key] && s4.cache.inflight == map[];
    var s5 := Step(s4, es[4], source);
    assert es[1..][1..][1..][1..][1..] == [];
    assert es[1..][1..][1..][1..][0] == es[4] && es[1..][1..][1..][0] == es[3] && es[1..][1..][0] == es[2] && es[1..][0] == es[1];
    assert Run(s4, es[1..][1..][1..][1..], source) == Run(s5, [], source);
    assert Run(s2, es[1..][1..], source) == Run(s3, es[1..][1..][1..], source) == Run(s4, es[1..][1..][1..][1..], source);
    assert Run(Initial, es, source) == Run(s1, es[1..], source) == Run(s2, es[1..][1..], source);
  }

  // ---------------------------------------------------------------- staying clear

  /** No block of the medium is cached. */
  predicate ClearOf(c: Cache, mediaId: string) {
    forall b | b in c.blocks :: !OfMedia(b.key, mediaId)
  }

  /** A fetch under way for the medium stores its block. */
  predicate StoresFor(s: System, e: Event, mediaId: string) {
    e.Store? && e.flight in s.running && OfMedia(s.running[e.flight], mediaId)
  }

  lemma TouchKeepsClear(es: seq<Entry<Block>>, key: string, b: Block, mediaId: string)
    requires Distinct(es) && !OfMedia(key, mediaId) && forall x | x in es :: !OfMedia(x.key, mediaId)
    ensures forall x | x in Touch(es, key, b) :: !OfMedia(x.key, mediaId)
  {
    TouchIsMapUpdate(es, key, b);
    hide Touch, Distinct, OfMedia;
  }

  lemma PutKeepsClear(c: Cache, key: string, bytes: seq<Byte>, now: int, mediaId: string)
    requires Valid(c) && ClearOf(c, mediaId) && !OfMedia(key, mediaId)
    ensures ClearOf(Put(c, key, bytes, now), mediaId)
  {
    hide Touch, Size, OfMedia;
    var left := c.blocks[Evicted(c.blocks, |bytes|)..];
    assert forall e | e in left :: e in c.blocks;
    TouchKeepsClear(left, key, Block(bytes, now + CACHE_TTL_MS), mediaId);
  }

  lemma HitKeepsClear(c: Cache, key: string, mediaId: string)
    requires Valid(c) && ClearOf(c, mediaId) && Has(c.blocks, key)
    ensures ClearOf(c.(blocks := Touch(c.blocks, key, Lookup(c.blocks, key))), mediaId)
  {
    hide Touch, Size, OfMedia;
    assert c.blocks[IndexOf(c.blocks, key)] in c.blocks;
    TouchKeepsClear(c.blocks, key, Lookup(c.blocks, key), mediaId);
  }

  lemma StepKeepsClear(s: System, e: Event, source: Source, mediaId: string)
    requires Inv(s, source) && ClearOf(s.cache, mediaId) && !StoresFor(s, e, mediaId)
    ensures ClearOf(Step(s, e, source).cache, mediaId)
  {
    hide Put, Touch, Lookup, KeepOthers, OfMedia, Valid, ByRecency, BlocksAreTrue;
    match e
    case Request(key, now) =>
      if Fresh(s.cache, key, now) {
        HitKeepsClear(s.cache, key, mediaId);
      }
    case Store(f, now) =>
      if f in s.running {
        PutKeepsClear(s.cache, s.running[f], source(s.running[f]), now, mediaId);
      }
    case Finish(f) =>
    case Fail(f) =>
    case ClearMedia(m) => KeptAreTheOthers(s.cache.blocks, m);
    case ClearAll =>
  }

  lemma StoreReturns(s: System, e: Event, source: Source, mediaId: string)
    requires Inv(s, source) && StoresFor(s, e, mediaId)
    ensures !ClearOf(Step(s, e, source).cache, mediaId)
  {
    var key := s.running[e.flight];
    BudgetHolds(s.cache, key, source(key), e.now);
    hide Put, OfMedia, Valid;
    var d := Put(s.cache, key, source(key), e.now);
    assert d.blocks[IndexOf(d.blocks, key)] in d.blocks;
  }

  lemma {:induction false} RunByOne(s: System, es: seq<Event>, i: nat, source: Source)
    requires i < |es|
    ensures Run(s, es[..i + 1], source) == Step(Run(s, es[..i], source), es[i], source)
    decreases i
  {
    hide Step;
    var more := es[..i + 1];
    if i == 0 {
      assert more[1..] == [] && es[..0] == [];
    } else {
      RunByOne(Step(s, es[0], source), es[1..], i - 1, source);
      assert more[1..] == es[1..][..i] && es[..i][1..] == es[1..][..i - 1];
    }
  }

  lemma {:induction false} StaysClear(s: System, es: seq<Event>, source: Source, mediaId: string, n: nat)
    requires Inv(s, source) && ClearOf(s.cache, mediaId) && n <= |es|
    requires forall i | 0 <= i < n :: !StoresFor(Run(s, es[..i], source), es[i], mediaId)
    ensures ClearOf(Run(s, es[..n], source).cache, mediaId)
    decreases n
  {
    hide Step, Inv, ClearOf, StoresFor;
    if n == 0 {
      assert es[..0] == [];
    } else {
      StaysClear(s, es, source, mediaId, n - 1);
      EveryRunAgreesWithTheSource(s, es[..n - 1], source);
      StepKeepsClear(Run(s, es[..n - 1], source), es[n - 1], source, mediaId);
      RunByOne(s, es, n - 1, source);
    }
  }

  /** How far an invalidation reaches: a medium with no block cached, as after its blocks were
      cleared, stays out of the cache for a whole run exactly when no fetch under way for it
      stores its block, be it one that was under way already when the medium was cleared. */
  lemma MediumStaysClearIff(s: System, es: seq<Event>, source: Source, mediaId: string)
    requires Inv(s, source) && ClearOf(s.cache, mediaId)
    ensures (forall n | 0 <= n <= |es| :: ClearOf(Run(s, es[..n], source).cache, mediaId))
            <==> forall i | 0 <= i < |es| :: !StoresFor(Run(s, es[..i], source), es[i], mediaId)
  {
    hide Step, Inv, ClearOf, StoresFor, Run;
    if forall i | 0 <= i < |es| :: !StoresFor(Run(s, es[..i], source), es[i], mediaId) {
      forall n | 0 <= n <= |es|
        ensures ClearOf(Run(s, es[..n], source).cache, mediaId)
      {
        StaysClear(s, es, source, mediaId, n);
      }
    } else {
      var i :| 0 <= i < |es| && StoresFor(Run(s, es[..i], source), es[i], mediaId);
      EveryRunAgreesWithTheSource(s, es[..i], source);
      StoreReturns(Run(s, es[..i], source), es[i], source, mediaId);
      RunByOne(s, es, i, source);
    }
  }

  /** The shortest run in which a cleared medium comes back: the store of a fetch under way
      right after the clear. */
  lemma StoreAfterClearReturns(s: System, f: Flight, mediaId: string, now: int, source: Source)
    requires Inv(s, source) && f in s.running && OfMedia(s.running[f], mediaId)
    ensures ClearOf(Step(s, ClearMedia(mediaId), source).cache, mediaId)
    ensures Fresh(Step(Step(s, ClearMedia(mediaId), source), Store(f, now), source).cache, s.running[f], now)
  {
    KeptAreTheOthers(s.cache.blocks, mediaId);
    ClearKeeps(s.cache, s.log, source, mediaId);
    BudgetHolds(Clear(s.cache, mediaId), s.running[f], source(s.running[f]), now);
  }

  // ---------------------------------------------------------------- what stays cached

  function Bytes(source: Source): string -> nat {
    (k: string) => |source(k)|
  }

  /** The event neither clears the key nor stores it anew, and what it stores fits beside the
      key's block and everything used since. */
  predicate LeavesRoom(s: System, e: Event, key: string, source: Source) {
    match e
    case Store(f, _) =>
      f in s.running ==>
        s.running[f] != key
        && |source(key)| + Weight(After(s.log, key), Bytes(source)) + |source(s.running[f])| <= CACHE_MAX_BYTES
    case ClearMedia(m) => !OfMedia(key, m)
    case ClearAll => false
    case _ => true
  }

  lemma {:induction false} TrueSize(es: seq<Entry<Block>>, source: Source)
    requires forall e | e in es :: e.value.bytes == source(e.key)
    ensures Size(es) == Total(es, Bytes(source))
    decreases |es|
  {
    if es != [] {
      assert es[0] in es;
      TrueSize(es[1..], source);
    }
  }

  lemma StoreKeepsRecent(c: Cache, log: seq<string>, source: Source, key: string, other: string, now: int)
    requires Valid(c) && ByRecency(c.blocks, log) && BlocksAreTrue(c, source) && Has(c.blocks, key) && other != key
    requires |source(key)| + Weight(After(log, key), Bytes(source)) + |source(other)| <= CACHE_MAX_BYTES
    ensures Entry(key, Lookup(c.blocks, key)) in Put(c, other, source(other), now).blocks
  {
    var es, i := c.blocks, IndexOf(c.blocks, key);
    var rest := es[i + 1..];
    assert es[i] in es && es[i..][0] == es[i] && es[i..][1..] == rest;
    assert forall e | e in rest :: e in es;
    TrueSize(rest, source);
    FollowersWithin(es, log, i, Bytes(source));
    SurvivesPutIff(c, other, source(other), now, i);
    assert Size(es[i..]) == |es[i].value.bytes| + Size(rest);
  }

  lemma StepKeepsBlock(s: System, e: Event, source: Source, b: Entry<Block>)
    requires Inv(s, source) && b in s.cache.blocks && LeavesRoom(s, e, b.key, source)
    ensures b in Step(s, e, source).cache.blocks
  {
    FoundIfIn(s.cache.blocks, b);
    hide Put, Touch, KeepOthers, OfMedia, ByRecency, BlocksAreTrue, Has, Lookup, Distinct, Weight, After, Size;
    match e
    case Request(key, now) =>
      if Fresh(s.cache, key, now) {
        TouchIsMapUpdate(s.cache.blocks, key, Lookup(s.cache.blocks, key));
      }
    case Store(f, now) =>
      if f in s.running {
        StoreKeepsRecent(s.cache, s.log, source, b.key, s.running[f], now);
      }
    case Finish(f) =>
    case Fail(f) =>
    case ClearMedia(m) => KeptAreTheOthers(s.cache.blocks, m);
    case ClearAll =>
  }

  lemma {:induction false} RunKeepsBlock(s: System, es: seq<Event>, source: Source, b: Entry<Block>)
    requires Inv(s, source) && b in s.cache.blocks
    requires forall i | 0 <= i < |es| :: LeavesRoom(Run(s, es[..i], source), es[i], b.key, source)
    ensures b in Run(s, es, source).cache.blocks
    decreases |es|
  {
    hide Inv, Step, LeavesRoom, Run;
    if es == [] {
      NoEvents(s, source);
    } else {
      assert es[..0] == [];
      NoEvents(s, source);
      StepKeeps(s, es[0], source);
      StepKeepsBlock(s, es[0], source, b);
      forall i | 0 <= i < |es[1..]|
        ensures LeavesRoom(Run(Step(s, es[0], source), es[1..][..i], source), es[1..][i], b.key, source)
      {
        RunCons(s, es, i, source);
        assert LeavesRoom(Run(s, es[..i + 1], source), es[i + 1], b.key, source);
      }
      RunKeepsBlock(Step(s, es[0], source), es[1..], source, b);
      RunCons(s, es, |es| - 1, source);
      assert es[..|es| - 1 + 1] == es && es[1..][..|es| - 1] == es[1..];
    }
  }

  lemma RunCons(s: System, es: seq<Event>, i: nat, source: Source)
    requires i < |es|
    ensures Run(s, es[..i + 1], source) == Run(Step(s, es[0], source), es[1..][..i], source)
  {
    assert es[..i + 1][1..] == es[1..][..i];
  }

  /** What the cache is for: once a block is stored, and while its medium is not cleared and
      everything used since fits beside it, every request for its key is answered from the
      cache with the source's bytes for just two minutes, whatever else happens. */
  lemma RecentBlockIsServed(s: System, f: Flight, stored: int, es: seq<Event>, now: int, source: Source)
    requires Inv(s, source) && f in s.running
    requires var t := Step(s, Store(f, stored), source);
             forall i | 0 <= i < |es| :: LeavesRoom(Run(t, es[..i], source), es[i], s.running[f], source)
    ensures var key, t := s.running[f], Run(Step(s, Store(f, stored), source), es, source);
            && (now < stored + 120_000 ==> Ask(t.cache, key, now, t.next).1 == Hit(source(key)))
            && (now >= stored + 120_000 ==> !Ask(t.cache, key, now, t.next).1.Hit?)
  {
    hide Step, Run, Inv, LeavesRoom, Ask;
    var key, first := s.running[f], Step(s, Store(f, stored), source);
    var b := Entry(key, Block(source(key), stored + CACHE_TTL_MS));
    StepKeeps(s, Store(f, stored), source);
    StoreIsThere(s, f, stored, source);
    RunKeepsBlock(first, es, source, b);
    EveryRunAgreesWithTheSource(first, es, source);
    ServedWhileFresh(Run(first, es, source), key, b.value, now, source);
  }

  lemma StoreIsThere(s: System, f: Flight, stored: int, source: Source)
    requires Inv(s, source) && f in s.running
    ensures var key := s.running[f];
            Entry(key, Block(source(key), stored + CACHE_TTL_MS)) in Step(s, Store(f, stored), source).cache.blocks
  {
    hide Put;
    StoredIsThere(s.cache, s.running[f], source(s.running[f]), stored);
  }

  lemma ServedWhileFresh(s: System, key: string, b: Block, now: int, source: Source)
    requires Inv(s, source) && Entry(key, b) in s.cache.blocks
    ensures b.expiresAt > now ==> Ask(s.cache, key, now, s.next).1 == Hit(b.bytes)
    ensures b.expiresAt <= now ==> !Ask(s.cache, key, now, s.next).1.Hit?
  {
    hide ByRecency, Touch;
    FoundIfIn(s.cache.blocks, Entry(key, b));
  }

  lemma StoredIsThere(c: Cache, key: string, bytes: seq<Byte>, now: int)
    requires Valid(c)
    ensures Entry(key, Block(bytes, now + CACHE_TTL_MS)) in Put(c, key, bytes, now).blocks
  {
    var left := c.blocks[Evicted(c.blocks, |bytes|)..];
    assert Distinct(left);
    TouchIsMapUpdate(left, key, Block(bytes, now + CACHE_TTL_MS));
  }
}
