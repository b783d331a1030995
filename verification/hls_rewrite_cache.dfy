/** The cache of rewritten playlists: at most 256 entries, least recently used first out, each
    good for fifteen seconds, and one computation per key at a time. */
module HlsRewriteCache {
  import opened Js
  import opened LruMap

  const MAX_ENTRIES: nat := 256
  const CACHE_TTL_MS: int := 15_000

  datatype Page = Page(body: string, contentType: string)

  datatype Cached = Cached(page: Page, expiresAt: int)

  type Work = nat

  datatype Cache = Cache(entries: seq<Entry<Cached>>, inflight: map<string, Work>)

  /** The newest entries, as many as fit. */
  function Trim(es: seq<Entry<Cached>>): seq<Entry<Cached>> {
    if |es| > MAX_ENTRIES then es[|es| - MAX_ENTRIES..] else es
  }

  function TouchAndTrim(es: seq<Entry<Cached>>, key: string, v: Cached): seq<Entry<Cached>> {
    Trim(Touch(es, key, v))
  }

  predicate Fresh(c: Cache, key: string, now: int) {
    Has(c.entries, key) && Lookup(c.entries, key).expiresAt > now
  }

  function Used(c: Cache, key: string): Cache
    requires Has(c.entries, key)
  {
    c.(entries := TouchAndTrim(c.entries, key, Lookup(c.entries, key)))
  }

  function Peek(c: Cache, key: string, now: int): (Cache, Option<Page>) {
    if Fresh(c, key, now) then (Used(c, key), Some(Lookup(c.entries, key).page)) else (c, None)
  }

  datatype Answer = Hit(page: Page) | Wait(work: Work) | Compute(work: Work)

  function Ask(c: Cache, key: string, now: int, next: Work): (Cache, Answer) {
    if Fresh(c, key, now) then (Used(c, key), Hit(Lookup(c.entries, key).page))
    else if key in c.inflight then (c, Wait(c.inflight[key]))
    else (c.(inflight := c.inflight[key := next]), Compute(next))
  }

  class Store {
    var cache: seq<Entry<Cached>>
    var inflight: map<string, Work>
    var nextWork: Work

    ghost function View(): Cache
      reads this
    {
      Cache(cache, inflight)
    }

    constructor ()
      ensures View() == Cache([], map[])
    {
      cache, inflight, nextWork := [], map[], 0;
    }

    method TouchEntry(key: string, v: Cached)
      modifies this`cache
      ensures cache == TouchAndTrim(old(cache), key, v)
    {
      cache := Touch(cache, key, v);
      ghost var touched := cache;
      while |cache| > MAX_ENTRIES
        invariant |cache| <= |touched| && cache == touched[|touched| - |cache|..]
        invariant |touched| <= MAX_ENTRIES ==> cache == touched
        invariant |touched| > MAX_ENTRIES ==> |cache| >= MAX_ENTRIES
        decreases |cache|
      {
        cache := cache[1..];
      }
    }

    method PeekEntry(key: string, now: int) returns (page: Option<Page>)
      modifies this`cache
      ensures (View(), page) == Peek(old(View()), key, now)
    {
      if !Has(cache, key) || Lookup(cache, key).expiresAt <= now {
        return None;
      }
      var hit := Lookup(cache, key);
      TouchEntry(key, hit);
      return Some(hit.page);
    }

    method GetOrCompute(key: string, now: int) returns (answer: Answer)
      modifies this
      ensures (View(), answer) == Ask(old(View()), key, now, old(nextWork))
      ensures nextWork == if answer.Compute? then old(nextWork) + 1 else old(nextWork)
    {
      var hit := PeekEntry(key, now);
      if hit.Some? {
        return Hit(hit.value);
      }
      if key in inflight {
        return Wait(inflight[key]);
      }
      inflight := inflight[key := nextWork];
      answer := Compute(nextWork);
      nextWork := nextWork + 1;
    }

    method Computed(key: string, page: Page, now: int)
      modifies this`cache
      ensures cache == TouchAndTrim(old(cache), key, Cached(page, now + CACHE_TTL_MS))
    {
      TouchEntry(key, Cached(page, now + CACHE_TTL_MS));
    }

    method Settled(key: string)
      modifies this`inflight
      ensures inflight == old(inflight) - {key}
    {
      inflight := inflight - {key};
    }
  }

  // ---------------------------------------------------------------- runs

  datatype Event =
    | Looks(key: string, now: int)
    | Requests(key: string, now: int)
    | Computes(work: Work, page: Page, now: int)
    | Settles(work: Work)

  /** A finished computation. */
  datatype Result = Result(key: string, page: Page, at: int)

  /** A page handed out from the cache, with the results known by then. */
  datatype Served = Served(key: string, page: Page, now: int, known: nat)

  /** A computation under way: its key, how many results were known when it started, and the
      position of its own result once it has one. */
  datatype Job = Job(key: string, start: nat, result: Option<nat>)

  /** A page handed to a caller that waited for a computation started at `start`. */
  datatype Shared = Shared(key: string, page: Page, start: nat, known: nat)

  /** `waiting`: callers and the computation whose promise they hold. */
  datatype System = System(cache: Cache, running: map<Work, Job>, next: Work, waiting: set<(string, Work)>,
                           uses: seq<string>, results: seq<Result>, served: seq<Served>, shared: set<Shared>)

  const Initial := System(Cache([], map[]), map[], 0, {}, [], [], [], {})

  function Step(s: System, e: Event): System {
    match e
    case Looks(key, now) =>
      var (c, page) := Peek(s.cache, key, now);
      if page.Some? then Handed(s, key, page.value, now) else s
    case Requests(key, now) =>
      var (c, a) := Ask(s.cache, key, now, s.next);
      (match a
       case Hit(page) => Handed(s, key, page, now)
       case Wait(w) => s.(waiting := s.waiting + {(key, w)})
       case Compute(w) => s.(cache := c, running := s.running[w := Job(key, |s.results|, None)], next := s.next + 1,
                             waiting := s.waiting + {(key, w)}))
    case Computes(w, page, now) =>
      if w in s.running && s.running[w].result.None? then
        var job := s.running[w];
        s.(cache := s.cache.(entries := TouchAndTrim(s.cache.entries, job.key, Cached(page, now + CACHE_TTL_MS))),
           running := s.running[w := job.(result := Some(|s.results|))],
           uses := s.uses + [job.key], results := s.results + [Result(job.key, page, now)])
      else s
    case Settles(w) =>
      if w in s.running then
        s.(cache := s.cache.(inflight := s.cache.inflight - {s.running[w].key}), running := s.running - {w},
           waiting := (set x | x in s.waiting && x.1 != w),
           shared := s.shared + Outcome(s, w))
      else s
  }

  /** What the callers of a settling computation get: its result, or, when it has failed,
      no page at all. */
  function Outcome(s: System, w: Work): set<Shared>
    requires w in s.running
  {
    var r := s.running[w].result;
    set x | x in s.waiting && x.1 == w && r.Some? && r.value < |s.results| ::
      Shared(x.0, s.results[r.value].page, s.running[w].start, |s.results|)
  }

  function Handed(s: System, key: string, page: Page, now: int): System {
    s.(cache := if Has(s.cache.entries, key) then Used(s.cache, key) else s.cache,
       uses := s.uses + [key], served := s.served + [Served(key, page, now, |s.results|)])
  }

  function Run(s: System, es: seq<Event>): System
    decreases |es|
  {
    if es == [] then s else Run(Step(s, es[0]), es[1..])
  }

  /** Position of the newest result for a key among the first `n`, or -1. */
  function Newest(rs: seq<Result>, n: nat, key: string): (i: int)
    requires n <= |rs|
    ensures -1 <= i < n && (i >= 0 ==> rs[i].key == key)
    ensures forall j | i < j < n :: rs[j].key != key
  {
    if n == 0 then -1 else if rs[n - 1].key == key then n - 1 else Newest(rs, n - 1, key)
  }

  /** An entry is the newest result for its key, and its lifetime counts from there. */
  predicate EntryIsNewest(e: Entry<Cached>, rs: seq<Result>) {
    var i := Newest(rs, |rs|, e.key);
    i >= 0 && e.value == Cached(rs[i].page, rs[i].at + CACHE_TTL_MS)
  }

  predicate ServedIsFresh(d: Served, rs: seq<Result>) {
    && d.known <= |rs|
    && var i := Newest(rs, d.known, d.key);
       i >= 0 && d.page == rs[i].page && d.now < rs[i].at + CACHE_TTL_MS
  }

  predicate PagesFit(entries: seq<Entry<Cached>>, uses: seq<string>, rs: seq<Result>, served: seq<Served>) {
    && |entries| <= MAX_ENTRIES && ByRecency(entries, uses)
    && (forall e | e in entries :: EntryIsNewest(e, rs))
    && (forall d | d in served :: ServedIsFresh(d, rs))
  }

  /** The newest result for its key, and not older than the computation waited for. */
  predicate SharedIsNewest(d: Shared, rs: seq<Result>) {
    && d.known <= |rs|
    && var i := Newest(rs, d.known, d.key);
       i >= d.start && d.page == rs[i].page
  }

  predicate JobFits(j: Job, rs: seq<Result>) {
    j.start <= |rs| && (j.result.Some? ==> j.start <= j.result.value && Newest(rs, |rs|, j.key) == j.result.value)
  }

  predicate JobsFit(s: System) {
    && (forall w | w in s.running :: JobFits(s.running[w], s.results))
    && (forall x | x in s.waiting :: x.1 in s.running && s.running[x.1].key == x.0)
    && (forall d | d in s.shared :: SharedIsNewest(d, s.results))
  }

  predicate Inv(s: System) {
    PagesFit(s.cache.entries, s.uses, s.results, s.served) && SlotsMatch(s) && JobsFit(s)
  }

  /** The slots are exactly the computations under way. */
  predicate SlotsMatch(s: System) {
    && (forall k | k in s.cache.inflight :: s.cache.inflight[k] in s.running && s.running[s.cache.inflight[k]].key == k)
    && (forall w | w in s.running :: w < s.next && s.running[w].key in s.cache.inflight && s.cache.inflight[s.running[w].key] == w)
  }

  lemma TrimKeeps(es: seq<Entry<Cached>>, log: seq<string>)
    requires ByRecency(es, log)
    ensures ByRecency(Trim(es), log) && |Trim(es)| <= MAX_ENTRIES
    ensures forall e | e in Trim(es) :: e in es
  {
    if |es| > MAX_ENTRIES {
      FrontIsLeastRecent(es, log, |es| - MAX_ENTRIES);
    }
  }

  lemma TouchAndTrimKeeps(es: seq<Entry<Cached>>, log: seq<string>, key: string, v: Cached)
    requires ByRecency(es, log)
    ensures var t := TouchAndTrim(es, key, v);
            && ByRecency(t, log + [key]) && |t| <= MAX_ENTRIES
            && forall e | e in t :: e == Entry(key, v) || (e in es && e.key != key)
  {
    RecencyIsDistinct(es, log);
    TouchKeepsRecency(es, log, key, v);
    TouchIsMapUpdate(es, key, v);
    hide Touch, Trim, ByRecency;
    TrimKeeps(Touch(es, key, v), log + [key]);
  }

  lemma {:induction false} NewestOfMore(rs: seq<Result>, r: Result, n: nat, key: string)
    requires n <= |rs|
    ensures Newest(rs + [r], n, key) == Newest(rs, n, key)
  {
    if n > 0 {
      assert (rs + [r])[n - 1] == rs[n - 1];
      NewestOfMore(rs, r, n - 1, key);
    }
  }

  lemma HandedKeeps(s: System, key: string, now: int)
    requires Inv(s) && Fresh(s.cache, key, now)
    ensures Inv(Handed(s, key, Lookup(s.cache.entries, key).page, now))
  {
    var v := Lookup(s.cache.entries, key);
    assert Entry(key, v) == s.cache.entries[IndexOf(s.cache.entries, key)];
    assert EntryIsNewest(Entry(key, v), s.results);
    TouchAndTrimKeeps(s.cache.entries, s.uses, key, v);
    hide TouchAndTrim, ByRecency, EntryIsNewest;
    assert EntryIsNewest(Entry(key, v), s.results);
    assert ServedIsFresh(Served(key, v.page, now, |s.results|), s.results) by { NewestIsFresh(key, v, now, s.results); }
  }

  lemma NewestIsFresh(key: string, v: Cached, now: int, rs: seq<Result>)
    requires EntryIsNewest(Entry(key, v), rs) && v.expiresAt > now
    ensures ServedIsFresh(Served(key, v.page, now, |rs|), rs)
  {
  }

  lemma ComputedKeeps(s: System, w: Work, page: Page, now: int)
    requires Inv(s) && w in s.running && s.running[w].result.None?
    ensures Inv(Step(s, Computes(w, page, now)))
  {
    hide PagesFit, TouchAndTrim, SlotsMatch, JobsFit;
    ComputedFits(s.cache.entries, s.uses, s.results, s.served, Result(s.running[w].key, page, now));
    SlotsStay(s, Step(s, Computes(w, page, now)));
    JobsStayFit(s, w, page, now);
  }

  lemma JobsStayFit(s: System, w: Work, page: Page, now: int)
    requires SlotsMatch(s) && JobsFit(s) && w in s.running && s.running[w].result.None?
    ensures JobsFit(Step(s, Computes(w, page, now)))
  {
    hide TouchAndTrim;
    var t, r := Step(s, Computes(w, page, now)), Result(s.running[w].key, page, now);
    assert t.results == s.results + [r] && Newest(t.results, |t.results|, r.key) == |s.results|;
    forall v | v in t.running
      ensures JobFits(t.running[v], t.results)
    {
      if v != w {
        assert s.running[v].key != r.key;
        NewestOfMore(s.results, r, |s.results|, s.running[v].key);
      }
    }
    forall d | d in t.shared
      ensures SharedIsNewest(d, t.results)
    {
      assert SharedIsNewest(d, s.results);
      NewestOfMore(s.results, r, d.known, d.key);
    }
  }

  lemma SettledKeeps(s: System, w: Work)
    requires Inv(s) && w in s.running
    ensures Inv(Step(s, Settles(w)))
  {
    hide PagesFit, Newest;
    var t := Step(s, Settles(w));
    forall x | x in s.waiting && x.1 == w && s.running[w].result.Some?
      ensures SharedIsNewest(Shared(x.0, s.results[s.running[w].result.value].page, s.running[w].start, |s.results|), s.results)
    {
      assert JobFits(s.running[w], s.results);
    }
  }

  lemma SlotsStay(s: System, t: System)
    requires SlotsMatch(s) && t.cache.inflight == s.cache.inflight && t.next == s.next && t.running.Keys == s.running.Keys
    requires forall w | w in s.running :: t.running[w].key == s.running[w].key
    ensures SlotsMatch(t)
  {
  }

  lemma ComputedFits(es: seq<Entry<Cached>>, uses: seq<string>, rs: seq<Result>, served: seq<Served>, r: Result)
    requires PagesFit(es, uses, rs, served)
    ensures PagesFit(TouchAndTrim(es, r.key, Cached(r.page, r.at + CACHE_TTL_MS)), uses + [r.key], rs + [r], served)
  {
    hide TouchAndTrim, ByRecency, EntryIsNewest, ServedIsFresh;
    var v := Cached(r.page, r.at + CACHE_TTL_MS);
    TouchAndTrimKeeps(es, uses, r.key, v);
    EntriesStayNewest(es, TouchAndTrim(es, r.key, v), rs, r, v);
    ServedStaysFresh(served, rs, r);
  }

  lemma EntriesStayNewest(es: seq<Entry<Cached>>, t: seq<Entry<Cached>>, rs: seq<Result>, r: Result, v: Cached)
    requires v == Cached(r.page, r.at + CACHE_TTL_MS) && forall e | e in es :: EntryIsNewest(e, rs)
    requires forall e | e in t :: e == Entry(r.key, v) || (e in es && e.key != r.key)
    ensures forall e | e in t :: EntryIsNewest(e, rs + [r])
  {
    var more := rs + [r];
    forall e | e in t
      ensures EntryIsNewest(e, more)
    {
      if e == Entry(r.key, v) {
        assert Newest(more, |more|, r.key) == |rs|;
      } else {
        assert EntryIsNewest(e, rs);
        NewestOfMore(rs, r, |rs|, e.key);
      }
    }
  }

  lemma ServedStaysFresh(served: seq<Served>, rs: seq<Result>, r: Result)
    requires forall d | d in served :: ServedIsFresh(d, rs)
    ensures forall d | d in served :: ServedIsFresh(d, rs + [r])
  {
    forall d | d in served
      ensures ServedIsFresh(d, rs + [r])
    {
      assert ServedIsFresh(d, rs);
      NewestOfMore(rs, r, d.known, d.key);
    }
  }

  lemma RequestKeeps(s: System, key: string, now: int)
    requires Inv(s)
    ensures Inv(Step(s, Requests(key, now)))
  {
    hide ByRecency, EntryIsNewest, ServedIsFresh, TouchAndTrim, Handed;
    if Fresh(s.cache, key, now) {
      HandedKeeps(s, key, now);
    }
  }

  lemma StepKeeps(s: System, e: Event)
    requires Inv(s)
    ensures Inv(Step(s, e))
  {
    match e {
      case Looks(key, now) =>
        hide ByRecency, EntryIsNewest, ServedIsFresh, TouchAndTrim, Handed, Inv;
        if Fresh(s.cache, key, now) {
          HandedKeeps(s, key, now);
        }
      case Requests(key, now) =>
        hide Inv;
        RequestKeeps(s, key, now);
      case Computes(w, page, now) =>
        hide PagesFit, SlotsMatch, JobsFit, TouchAndTrim;
        if w in s.running && s.running[w].result.None? {
          ComputedKeeps(s, w, page, now);
        }
      case Settles(w) =>
        hide Inv;
        if w in s.running {
          SettledKeeps(s, w);
        }
    }
  }

  /** In every run: never more than 256 entries, in order of last use; every page handed out
      from the cache is the newest result then known for its key and less than fifteen seconds
      old; and one computation per key at most is under way. */
  lemma {:induction false} EveryRunServesFreshPages(s: System, es: seq<Event>)
    requires Inv(s)
    ensures Inv(Run(s, es))
    ensures var t := Run(s, es);
            forall v, w | v in t.running && w in t.running && t.running[v].key == t.running[w].key :: v == w
    decreases |es|
  {
    if es != [] {
      StepKeeps(s, es[0]);
      EveryRunServesFreshPages(Step(s, es[0]), es[1..]);
    }
  }

  /** Every page handed out from the cache was computed for its key less than fifteen seconds
      before, and nothing newer for the key was known. */
  lemma NeverServesExpired(es: seq<Event>, d: Served)
    requires d in Run(Initial, es).served
    ensures var rs := Run(Initial, es).results;
            exists i :: 0 <= i < d.known <= |rs| && rs[i].key == d.key && rs[i].page == d.page
                        && d.now < rs[i].at + CACHE_TTL_MS && forall j | i < j < d.known :: rs[j].key != d.key
  {
    EveryRunServesFreshPages(Initial, es);
    var rs := Run(Initial, es).results;
    assert ServedIsFresh(d, rs);
    var i := Newest(rs, d.known, d.key);
    assert rs[i].key == d.key;
  }

  /** Every page handed to a caller that waited was computed for its key by the computation it
      waited for, while that was under way, and nothing newer for the key was known. */
  lemma WaitersGetTheNewest(es: seq<Event>, d: Shared)
    requires d in Run(Initial, es).shared
    ensures var rs := Run(Initial, es).results;
            exists i :: d.start <= i < d.known <= |rs| && rs[i].key == d.key && rs[i].page == d.page
                        && forall j | i < j < d.known :: rs[j].key != d.key
  {
    EveryRunServesFreshPages(Initial, es);
    var rs := Run(Initial, es).results;
    assert SharedIsNewest(d, rs);
    var i := Newest(rs, d.known, d.key);
    assert rs[i].key == d.key;
  }

  // ---------------------------------------------------------------- what stays cached

  /** No page is computed anew for the key, and with it and what was used since, another use
      does not exceed the number of entries. */
  predicate LeavesRoom(s: System, e: Event, key: string) {
    && (e.Computes? && e.work in s.running && s.running[e.work].result.None? ==> s.running[e.work].key != key)
    && DistinctAfter(s.uses, key) + 2 <= MAX_ENTRIES
  }

  /** How many keys have been used since the last use of this one. */
  function DistinctAfter(uses: seq<string>, key: string): nat {
    Weight(After(uses, key), (k: string) => 1)
  }

  lemma {:induction false} Counts(es: seq<Entry<Cached>>)
    ensures Total(es, (k: string) => 1) == |es|
    decreases |es|
  {
    if es != [] {
      Counts(es[1..]);
    }
  }

  /** An entry with so few used since stands so near the end. */
  lemma NearTheEnd(es: seq<Entry<Cached>>, uses: seq<string>, i: nat)
    requires ByRecency(es, uses) && i < |es|
    ensures |es| - i - 1 <= DistinctAfter(uses, es[i].key)
  {
    FollowersWithin(es, uses, i, (k: string) => 1);
    Counts(es[i + 1..]);
  }

  lemma TouchKeepsNear(es: seq<Entry<Cached>>, uses: seq<string>, e: Entry<Cached>, key: string, v: Cached)
    requires ByRecency(es, uses) && e in es && e.key != key && DistinctAfter(uses, e.key) + 2 <= MAX_ENTRIES
    ensures e in TouchAndTrim(es, key, v)
  {
    var d := Delete(es, key);
    RecencyIsDistinct(es, uses);
    DeleteIsMapRemoval(es, key);
    DeleteKeepsRecency(es, uses, key);
    hide Delete, ByRecency, DistinctAfter;
    var i :| 0 <= i < |d| && d[i] == e;
    NearTheEnd(d, uses, i);
    var t := d + [Entry(key, v)];
    assert t == Touch(es, key, v) && t[i] == e;
    TrimKeepsNear(t, i);
  }

  lemma TrimKeepsNear(es: seq<Entry<Cached>>, i: nat)
    requires i < |es| && |es| - i <= MAX_ENTRIES
    ensures es[i] in Trim(es)
  {
    if |es| > MAX_ENTRIES {
      assert Trim(es)[i - (|es| - MAX_ENTRIES)] == es[i];
    }
  }

  lemma TouchKeepsItself(es: seq<Entry<Cached>>, uses: seq<string>, key: string, v: Cached)
    requires ByRecency(es, uses)
    ensures Entry(key, v) in TouchAndTrim(es, key, v)
  {
    var t := Touch(es, key, v);
    assert t[|t| - 1] == Entry(key, v);
    TrimKeepsNear(t, |t| - 1);
  }

  lemma UseKeepsEntry(s: System, key: string, e: Entry<Cached>)
    requires Inv(s) && e in s.cache.entries && Has(s.cache.entries, key) && DistinctAfter(s.uses, e.key) + 2 <= MAX_ENTRIES
    ensures e in Used(s.cache, key).entries
  {
    RecencyIsDistinct(s.cache.entries, s.uses);
    FoundIfIn(s.cache.entries, e);
    hide ByRecency, DistinctAfter, TouchAndTrim, Distinct;
    if e.key == key {
      TouchKeepsItself(s.cache.entries, s.uses, key, Lookup(s.cache.entries, key));
    } else {
      TouchKeepsNear(s.cache.entries, s.uses, e, key, Lookup(s.cache.entries, key));
    }
  }

  lemma StepKeepsEntry(s: System, m: Event, e: Entry<Cached>)
    requires Inv(s) && e in s.cache.entries && LeavesRoom(s, m, e.key)
    ensures e in Step(s, m).cache.entries
  {
    hide ByRecency, DistinctAfter, TouchAndTrim, Used, SlotsMatch, JobsFit;
    match m
    case Looks(key, now) =>
      if Fresh(s.cache, key, now) {
        UseKeepsEntry(s, key, e);
      }
    case Requests(key, now) =>
      if Fresh(s.cache, key, now) {
        UseKeepsEntry(s, key, e);
      }
    case Computes(w, page, now) =>
      if w in s.running && s.running[w].result.None? {
        TouchKeepsNear(s.cache.entries, s.uses, e, s.running[w].key, Cached(page, now + CACHE_TTL_MS));
      }
    case Settles(w) =>
  }

  lemma {:induction false} RunKeepsEntry(s: System, es: seq<Event>, e: Entry<Cached>)
    requires Inv(s) && e in s.cache.entries
    requires forall i | 0 <= i < |es| :: LeavesRoom(Run(s, es[..i]), es[i], e.key)
    ensures e in Run(s, es).cache.entries
    decreases |es|
  {
    NothingRun(s);
    hide Inv, Step, LeavesRoom, Run;
    if es != [] {
      assert es[..0] == [];
      StepKeeps(s, es[0]);
      StepKeepsEntry(s, es[0], e);
      forall i | 0 <= i < |es[1..]|
        ensures LeavesRoom(Run(Step(s, es[0]), es[1..][..i]), es[1..][i], e.key)
      {
        RunCons(s, es, i);
        assert LeavesRoom(Run(s, es[..i + 1]), es[i + 1], e.key);
      }
      RunKeepsEntry(Step(s, es[0]), es[1..], e);
      RunCons(s, es, |es| - 1);
      assert es[..|es| - 1 + 1] == es && es[1..][..|es| - 1] == es[1..];
    }
  }

  lemma NothingRun(s: System)
    ensures Run(s, []) == s
  {
  }

  lemma RunCons(s: System, es: seq<Event>, i: nat)
    requires i < |es|
    ensures Run(s, es[..i + 1]) == Run(Step(s, es[0]), es[1..][..i])
  {
    assert es[..i + 1][1..] == es[1..][..i];
  }

  /** What the cache is for: once a page is computed, and while no newer one is and fewer than
      255 other keys are used since, every look for its key is served that page for just
      fifteen seconds. */
  lemma RecentPageIsServed(s: System, w: Work, page: Page, computed: int, es: seq<Event>, now: int)
    requires Inv(s) && w in s.running && s.running[w].result.None?
    requires var t := Step(s, Computes(w, page, computed));
             forall i | 0 <= i < |es| :: LeavesRoom(Run(t, es[..i]), es[i], s.running[w].key)
    ensures var key, t := s.running[w].key, Run(Step(s, Computes(w, page, computed)), es);
            && (now < computed + 15_000 ==> Ask(t.cache, key, now, t.next).1 == Hit(page) && Peek(t.cache, key, now).1 == Some(page))
            && (now >= computed + 15_000 ==> !Ask(t.cache, key, now, t.next).1.Hit? && Peek(t.cache, key, now).1 == None)
  {
    hide Inv, Step, Run, LeavesRoom, Ask, Peek;
    var first := Step(s, Computes(w, page, computed));
    var e := Entry(s.running[w].key, Cached(page, computed + CACHE_TTL_MS));
    ComputedIsThere(s, w, page, computed);
    RunKeepsEntry(first, es, e);
    EveryRunServesFreshPages(first, es);
    EntryIsServed(Run(first, es), e, now);
  }

  lemma ComputedIsThere(s: System, w: Work, page: Page, now: int)
    requires Inv(s) && w in s.running && s.running[w].result.None?
    ensures var t := Step(s, Computes(w, page, now));
            Inv(t) && Entry(s.running[w].key, Cached(page, now + CACHE_TTL_MS)) in t.cache.entries
  {
    hide *;
    var e := Cached(page, now + CACHE_TTL_MS);
    StepKeeps(s, Computes(w, page, now));
    OrderOfUse(s);
    TouchKeepsItself(s.cache.entries, s.uses, s.running[w].key, e);
    ComputedEntries(s, w, page, now);
  }

  lemma OrderOfUse(s: System)
    requires Inv(s)
    ensures ByRecency(s.cache.entries, s.uses)
  {
    hide ByRecency;
  }

  lemma ComputedEntries(s: System, w: Work, page: Page, now: int)
    requires w in s.running && s.running[w].result.None?
    ensures Step(s, Computes(w, page, now)).cache.entries
            == TouchAndTrim(s.cache.entries, s.running[w].key, Cached(page, now + CACHE_TTL_MS))
  {
    hide TouchAndTrim;
  }

  lemma EntryIsServed(s: System, e: Entry<Cached>, now: int)
    requires Inv(s) && e in s.cache.entries
    ensures if now < e.value.expiresAt
            then Ask(s.cache, e.key, now, s.next).1 == Hit(e.value.page) && Peek(s.cache, e.key, now).1 == Some(e.value.page)
            else !Ask(s.cache, e.key, now, s.next).1.Hit? && Peek(s.cache, e.key, now).1 == None
  {
    RecencyIsDistinct(s.cache.entries, s.uses);
    FoundIfIn(s.cache.entries, e);
    hide Inv, TouchAndTrim, Distinct, ByRecency;
  }
}
