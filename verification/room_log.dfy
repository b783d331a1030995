/** The room's action log: entries are appended as actions happen and pruned by age and length
    at every append. */
module RoomLog {
  const MAX_AGE_MS: real := 3600.0 * 1000.0

  /** An entry; `rest` is its id, actor and payload. */
  datatype Entry = Entry(action: string, at: real, rest: int)

  /** The actions shown in the room and those kept for the server only. */
  predicate Tracked(action: string) {
    action in {"participant:joined", "participant:disconnected", "participant:username", "participant:role:changed",
               "participant:owner:transferred", "participant:error", "playback:pause", "playback:unpause", "playback:rate",
               "playback:seek", "playback:loop", "playlist:add", "playlist:remove", "playlist:reorder", "media:played",
               "room:password:set", "room:password:cleared", "room:default-role:set"}
  }

  function Since(log: seq<Entry>, cutoff: real): seq<Entry> {
    if log == [] then [] else (if log[0].at >= cutoff then [log[0]] else []) + Since(log[1..], cutoff)
  }

  /** `slice(-limit)` of a list longer than `limit`. */
  function Newest<T>(log: seq<T>, limit: nat): seq<T> {
    if |log| > limit then log[|log| - limit..] else log
  }

  function Prune(log: seq<Entry>, now: real, limit: nat): seq<Entry> {
    Newest(Since(log, now - MAX_AGE_MS), limit)
  }

  function Append(log: seq<Entry>, e: Entry, limit: nat): seq<Entry> {
    if Tracked(e.action) then Prune(log + [e], e.at, limit) else log
  }

  class Room {
    var actionLog: seq<Entry>
    /** `ROOM_ACTION_LOG_LIMIT`, at least one. */
    const limit: nat

    constructor (limit: nat)
      requires limit >= 1
      ensures actionLog == [] && this.limit == limit
    {
      actionLog := [];
      this.limit := limit;
    }

    method PruneActionLog(now: real) returns (next: seq<Entry>)
      ensures next == Prune(actionLog, now, limit)
    {
      var cutoff := now - MAX_AGE_MS;
      next := [];
      assert actionLog[0..] == actionLog;
      for i := 0 to |actionLog|
        invariant next + Since(actionLog[i..], cutoff) == Since(actionLog, cutoff)
      {
        assert actionLog[i..][1..] == actionLog[i + 1..];
        if actionLog[i].at >= cutoff {
          next := next + [actionLog[i]];
        }
      }
      if |next| > limit {
        next := next[|next| - limit..];
      }
    }

    method AppendActionLog(e: Entry)
      modifies this
      ensures actionLog == Append(old(actionLog), e, limit)
    {
      if !Tracked(e.action) {
        return;
      }
      actionLog := actionLog + [e];
      actionLog := PruneActionLog(e.at);
    }
  }

  // ---------------------------------------------------------------- what pruning keeps

  predicate Ordered(log: seq<Entry>) {
    forall i, j | 0 <= i < j < |log| :: log[i].at <= log[j].at
  }

  /** Index of the first entry young enough. */
  function FirstSince(log: seq<Entry>, cutoff: real): (k: nat)
    ensures k <= |log| && (k < |log| ==> log[k].at >= cutoff)
    ensures forall i | 0 <= i < k :: log[i].at < cutoff
  {
    if log == [] || log[0].at >= cutoff then 0 else 1 + FirstSince(log[1..], cutoff)
  }

  lemma {:induction false} SinceIsASuffix(log: seq<Entry>, cutoff: real)
    requires Ordered(log)
    ensures Since(log, cutoff) == log[FirstSince(log, cutoff)..]
  {
    if log != [] {
      SinceIsASuffix(log[1..], cutoff);
      if log[0].at >= cutoff && |log| > 1 {
        assert log[1].at >= cutoff;
        assert FirstSince(log[1..], cutoff) == 0;
      }
    }
  }

  /** Young enough, and followed by fewer than `limit` others. */
  predicate Keeps(log: seq<Entry>, i: nat, now: real, limit: nat)
    requires i < |log|
  {
    log[i].at >= now - MAX_AGE_MS && |log| - i <= limit
  }

  function KeptFrom(log: seq<Entry>, now: real, limit: nat): (k: nat)
    ensures k <= |log|
    ensures Ordered(log) ==> forall i | 0 <= i < |log| :: i >= k <==> Keeps(log, i, now, limit)
  {
    var young := FirstSince(log, now - MAX_AGE_MS);
    if |log| - young > limit then |log| - limit else young
  }

  /** Pruning an ordered log keeps exactly the entries that are young enough and followed by
      fewer than `limit` others, in order. */
  lemma PruneKeeps(log: seq<Entry>, now: real, limit: nat)
    requires Ordered(log)
    ensures Prune(log, now, limit) == log[KeptFrom(log, now, limit)..]
  {
    SinceIsASuffix(log, now - MAX_AGE_MS);
  }

  // ---------------------------------------------------------------- online and offline

  function AppendAll(log: seq<Entry>, es: seq<Entry>, limit: nat): seq<Entry>
    decreases |es|
  {
    if es == [] then log else AppendAll(Append(log, es[0], limit), es[1..], limit)
  }

  function TrackedOnly(es: seq<Entry>): seq<Entry> {
    if es == [] then [] else (if Tracked(es[0].action) then [es[0]] else []) + TrackedOnly(es[1..])
  }

  /** The kept log of a history is what is left when it is pruned once, at its last entry. */
  function PrunedOnce(history: seq<Entry>, limit: nat): seq<Entry> {
    if history == [] then [] else Prune(history, history[|history| - 1].at, limit)
  }

  lemma OneMore(history: seq<Entry>, e: Entry, limit: nat)
    requires limit >= 1 && Ordered(history + [e])
    ensures Prune(PrunedOnce(history, limit) + [e], e.at, limit) == PrunedOnce(history + [e], limit)
  {
    hide *;
    var more := history + [e];
    TailPlus(history, e, 0);
    LastOf(more, limit);
    if history == [] {
      EmptyPruned(limit);
    } else {
      OrderedParts(history, e);
      LastOf(history, limit);
      var last := history[|history| - 1].at;
      PruneKeeps(history, last, limit);
      var k := KeptFrom(history, last, limit);
      var kept := more[k..];
      TailPlus(history, e, k);
      OrderedTail(more, k);
      PruneKeeps(kept, e.at, limit);
      PruneKeeps(more, e.at, limit);
      SameStart(more, k, e.at, limit, last);
      SliceTwice(more, k, KeptFrom(kept, e.at, limit));
    }
  }

  lemma LastOf(history: seq<Entry>, limit: nat)
    requires history != []
    ensures PrunedOnce(history, limit) == Prune(history, history[|history| - 1].at, limit)
  {
  }

  lemma EmptyPruned(limit: nat)
    ensures PrunedOnce([], limit) == []
  {
  }

  lemma TailPlus(history: seq<Entry>, e: Entry, k: nat)
    requires k <= |history|
    ensures var more := history + [e];
            more[..|more| - 1] == history && history[k..] + [e] == more[k..] && more[|more| - 1] == e
  {
  }

  lemma SliceTwice(log: seq<Entry>, i: nat, j: nat)
    requires i + j <= |log|
    ensures log[i..][j..] == log[i + j..]
  {
  }

  lemma OrderedParts(history: seq<Entry>, e: Entry)
    requires history != [] && Ordered(history + [e])
    ensures Ordered(history) && history[|history| - 1].at <= e.at
  {
    var more := history + [e];
    assert forall i | 0 <= i < |history| :: more[i] == history[i];
    assert more[|history|] == e;
  }

  lemma OrderedTail(log: seq<Entry>, k: nat)
    requires Ordered(log) && k <= |log|
    ensures Ordered(log[k..])
  {
  }

  /** Dropping entries that would go anyway does not change where the kept ones start. */
  lemma SameStart(more: seq<Entry>, k: nat, now: real, limit: nat, last: real)
    requires 0 < |more| && Ordered(more) && k < |more| && last <= now && limit >= 1
    requires k == KeptFrom(more[..|more| - 1], last, limit)
    ensures KeptFrom(more, now, limit) == k + KeptFrom(more[k..], now, limit)
  {
    var history, kept := more[..|more| - 1], more[k..];
    var b := KeptFrom(kept, now, limit);
    OrderedTail(more, k);
    OrderedHead(more, |more| - 1);
    forall i | 0 <= i < |more|
      ensures i >= k + b <==> Keeps(more, i, now, limit)
    {
      if i < k {
        assert history[i] == more[i];
        assert !Keeps(history, i, last, limit);
      } else {
        assert kept[i - k] == more[i];
        assert i - k >= b <==> Keeps(kept, i - k, now, limit);
      }
    }
    KeptFromIs(more, now, limit, k + b);
  }

  lemma OrderedHead(log: seq<Entry>, k: nat)
    requires Ordered(log) && k <= |log|
    ensures Ordered(log[..k])
  {
  }

  lemma KeptFromIs(log: seq<Entry>, now: real, limit: nat, k: nat)
    requires Ordered(log) && k <= |log| && forall i | 0 <= i < |log| :: i >= k <==> Keeps(log, i, now, limit)
    ensures KeptFrom(log, now, limit) == k
  {
    var a := KeptFrom(log, now, limit);
    assert a < |log| ==> Keeps(log, a, now, limit);
    assert k < |log| ==> Keeps(log, k, now, limit);
  }

  lemma {:induction false} OnlineFrom(history: seq<Entry>, es: seq<Entry>, limit: nat)
    requires limit >= 1 && Ordered(history + TrackedOnly(es))
    ensures AppendAll(PrunedOnce(history, limit), es, limit) == PrunedOnce(history + TrackedOnly(es), limit)
    decreases |es|
  {
    hide Tracked, Prune, PrunedOnce;
    if es == [] {
      assert history + [] == history;
    } else if Tracked(es[0].action) {
      var h := history + [es[0]];
      assert history + TrackedOnly(es) == h + TrackedOnly(es[1..]);
      assert Ordered(h) by {
        var all := h + TrackedOnly(es[1..]);
        assert forall i | 0 <= i < |h| :: h[i] == all[i];
      }
      OneMore(history, es[0], limit);
      OnlineFrom(h, es[1..], limit);
    } else {
      assert TrackedOnly(es) == TrackedOnly(es[1..]);
      OnlineFrom(history, es[1..], limit);
    }
  }

  /** For any run of appends whose tracked entries come in order of time, pruning at every
      append gives what one pruning of the whole history gives at its last entry: a run of
      entries in order, within the limit and within the age bound. */
  lemma OnlineEqualsOffline(es: seq<Entry>, limit: nat)
    requires limit >= 1 && Ordered(TrackedOnly(es))
    ensures AppendAll([], es, limit) == PrunedOnce(TrackedOnly(es), limit)
    ensures |AppendAll([], es, limit)| <= limit && Ordered(AppendAll([], es, limit))
    ensures var h := TrackedOnly(es);
            h != [] ==> forall e | e in AppendAll([], es, limit) :: e in h && h[|h| - 1].at - MAX_AGE_MS <= e.at <= h[|h| - 1].at
  {
    hide *;
    var h := TrackedOnly(es);
    assert [] + h == h;
    EmptyPruned(limit);
    OnlineFrom([], es, limit);
    PrunedOnceIsBounded(h, limit);
  }

  lemma PrunedOnceIsBounded(h: seq<Entry>, limit: nat)
    requires Ordered(h)
    ensures var kept := PrunedOnce(h, limit);
            && |kept| <= limit && Ordered(kept)
            && (h != [] ==> forall e | e in kept :: e in h && h[|h| - 1].at - MAX_AGE_MS <= e.at <= h[|h| - 1].at)
  {
    if h != [] {
      var last := h[|h| - 1].at;
      PruneKeeps(h, last, limit);
      var k := KeptFrom(h, last, limit);
      assert PrunedOnce(h, limit) == h[k..];
      assert forall i | k <= i < |h| :: Keeps(h, i, last, limit);
      hide Prune, PrunedOnce, KeptFrom;
      TailIsBounded(h, k, last, limit);
    }
  }

  lemma TailIsBounded(h: seq<Entry>, k: nat, last: real, limit: nat)
    requires h != [] && k <= |h| && Ordered(h) && last == h[|h| - 1].at && forall i | k <= i < |h| :: Keeps(h, i, last, limit)
    ensures |h[k..]| <= limit && Ordered(h[k..])
    ensures forall e | e in h[k..] :: e in h && last - MAX_AGE_MS <= e.at <= last
  {
    assert k < |h| ==> Keeps(h, k, last, limit);
    forall e | e in h[k..]
      ensures e in h && last - MAX_AGE_MS <= e.at <= last
    {
      var i :| 0 <= i < |h[k..]| && h[k..][i] == e;
      assert e == h[k + i] && Keeps(h, k + i, last, limit);
    }
  }

  // ---------------------------------------------------------------- out of order

  /** No entry of the history, itself included, is over the age limit younger than its first. */
  predicate Survives(history: seq<Entry>)
    requires history != []
  {
    forall j | 0 <= j < |history| :: history[0].at >= history[j].at - MAX_AGE_MS
  }

  /** The entries that no later one has made too old. */
  function Survivors(history: seq<Entry>): seq<Entry> {
    if history == [] then [] else (if Survives(history) then [history[0]] else []) + Survivors(history[1..])
  }

  lemma {:induction false} SurvivorsAndOne(history: seq<Entry>, e: Entry)
    ensures Survivors(history + [e]) == Since(Survivors(history), e.at - MAX_AGE_MS) + [e]
    ensures |Survivors(history)| <= |history|
    decreases |history|
  {
    var more := history + [e];
    if history == [] {
      assert more == [e] && more[1..] == [];
      assert Survives([e]);
    } else {
      assert more[1..] == history[1..] + [e] && more[0] == history[0];
      SurvivorsAndOne(history[1..], e);
      SurvivesOneMore(history, e);
      SinceOf(if Survives(history) then [history[0]] else [], Survivors(history[1..]), e.at - MAX_AGE_MS);
    }
  }

  lemma SurvivesOneMore(history: seq<Entry>, e: Entry)
    requires history != []
    ensures Survives(history + [e]) <==> Survives(history) && history[0].at >= e.at - MAX_AGE_MS
  {
    var more := history + [e];
    assert more[|history|] == e && forall j | 0 <= j < |history| :: more[j] == history[j];
  }

  lemma {:induction false} SinceOf(a: seq<Entry>, b: seq<Entry>, cutoff: real)
    ensures Since(a + b, cutoff) == Since(a, cutoff) + Since(b, cutoff)
    ensures |Since(a, cutoff)| <= |a|
    decreases |a|
  {
    if a == [] {
      assert a + b == b;
    } else {
      assert (a + b)[1..] == a[1..] + b;
      SinceOf(a[1..], b, cutoff);
    }
  }

  lemma AppendSurvivor(history: seq<Entry>, e: Entry, limit: nat)
    requires Tracked(e.action) && |history| < limit
    ensures Append(Survivors(history), e, limit) == Survivors(history + [e])
  {
    hide *;
    SurvivorsAndOne(history, e);
    AppendIsPrune(Survivors(history), e, limit);
    PruneWithin(Survivors(history), e, limit);
  }

  lemma AppendIsPrune(log: seq<Entry>, e: Entry, limit: nat)
    requires Tracked(e.action)
    ensures Append(log, e, limit) == Prune(log + [e], e.at, limit)
  {
    hide Tracked, Prune;
  }

  lemma PruneWithin(log: seq<Entry>, e: Entry, limit: nat)
    requires |log| < limit
    ensures Prune(log + [e], e.at, limit) == Since(log, e.at - MAX_AGE_MS) + [e]
  {
    var cutoff := e.at - MAX_AGE_MS;
    SinceOf(log, [e], cutoff);
    assert Since([e], cutoff) == [e];
    hide Since;
  }

  lemma {:induction false} OnlineSurvivors(history: seq<Entry>, es: seq<Entry>, limit: nat)
    requires |history + TrackedOnly(es)| <= limit
    ensures AppendAll(Survivors(history), es, limit) == Survivors(history + TrackedOnly(es))
    decreases |es|
  {
    hide Tracked, Survivors;
    if es == [] {
      assert history + [] == history;
    } else if Tracked(es[0].action) {
      assert history + TrackedOnly(es) == (history + [es[0]]) + TrackedOnly(es[1..]);
      AppendSurvivor(history, es[0], limit);
      OnlineSurvivors(history + [es[0]], es[1..], limit);
    } else {
      assert TrackedOnly(es) == TrackedOnly(es[1..]);
      OnlineSurvivors(history, es[1..], limit);
    }
  }

  /** No entry at or after `from` that is young at the last append is over the age limit older
      than an entry after it. */
  predicate NoneOvertaken(history: seq<Entry>, from: nat)
    requires history != []
  {
    forall i, j | from <= i < j < |history| && history[i].at >= history[|history| - 1].at - MAX_AGE_MS ::
      history[i].at >= history[j].at - MAX_AGE_MS
  }

  lemma {:induction false} SurvivorsAreYoungIff(history: seq<Entry>, from: nat)
    requires from < |history|
    ensures var cutoff := history[|history| - 1].at - MAX_AGE_MS;
            && |Survivors(history[from..])| <= |Since(history[from..], cutoff)|
            && (Survivors(history[from..]) == Since(history[from..], cutoff) <==> NoneOvertaken(history, from))
            && (|Survivors(history[from..])| == |Since(history[from..], cutoff)| ==> NoneOvertaken(history, from))
    decreases |history| - from
  {
    var rest, cutoff := history[from..], history[|history| - 1].at - MAX_AGE_MS;
    assert rest[0] == history[from] && rest[1..] == history[from + 1..];
    FirstSurvives(history, from);
    if from + 1 < |history| {
      SurvivorsAreYoungIff(history, from + 1);
    } else {
      assert rest[1..] == [];
    }
    assert NoneOvertaken(history, from) <==>
      (history[from].at >= cutoff ==> Survives(rest)) && (from + 1 < |history| ==> NoneOvertaken(history, from + 1));
  }

  lemma FirstSurvives(history: seq<Entry>, from: nat)
    requires from < |history|
    ensures Survives(history[from..]) <==> forall j | from < j < |history| :: history[from].at >= history[j].at - MAX_AGE_MS
    ensures Survives(history[from..]) ==> history[from].at >= history[|history| - 1].at - MAX_AGE_MS
  {
    var rest := history[from..];
    assert forall j | 0 <= j < |rest| :: rest[j] == history[from + j];
    assert forall j | from <= j < |history| :: history[j] == rest[j - from];
  }

  /** How far out of order a history may be: as long as it fits the limit, pruning at every
      append gives what one pruning at its last entry gives exactly when no entry that is young
      at the last append is over an hour older than an entry after it. */
  lemma OnlineEqualsOfflineIff(es: seq<Entry>, limit: nat)
    requires |TrackedOnly(es)| <= limit && TrackedOnly(es) != []
    ensures AppendAll([], es, limit) == PrunedOnce(TrackedOnly(es), limit) <==> NoneOvertaken(TrackedOnly(es), 0)
  {
    hide *;
    var h := TrackedOnly(es);
    assert [] + h == h && h[0..] == h;
    NoSurvivors();
    OnlineSurvivors([], es, limit);
    OnceWithin(h, limit);
    SurvivorsAreYoungIff(h, 0);
  }

  lemma NoSurvivors()
    ensures Survivors([]) == []
  {
  }

  lemma OnceWithin(h: seq<Entry>, limit: nat)
    requires h != [] && |h| <= limit
    ensures PrunedOnce(h, limit) == Since(h, h[|h| - 1].at - MAX_AGE_MS)
  {
    SinceOf(h, [], h[|h| - 1].at - MAX_AGE_MS);
  }

  // ---------------------------------------------------------------- out of order, any length

  /** The append of entry `j` does not drop entry `i`: it is not over the age limit younger, and
      fewer than `limit` entries after `i` are left. */
  predicate NotDroppedAt(history: seq<Entry>, i: nat, j: nat, limit: nat)
    requires i <= j < |history|
  {
    history[i].at >= history[j].at - MAX_AGE_MS && |Survivors(history[i + 1..j + 1])| < limit
  }

  predicate NeverDropped(history: seq<Entry>, i: nat, limit: nat)
    requires i < |history|
  {
    forall j | i <= j < |history| :: NotDroppedAt(history, i, j, limit)
  }

  /** Age limit at the last append. */
  function Cutoff(history: seq<Entry>): real
    requires history != []
  {
    history[|history| - 1].at - MAX_AGE_MS
  }

  /** One pruning at the last append keeps the entry: it is young and fewer than `limit` young
      ones follow. */
  predicate KeptOnce(history: seq<Entry>, i: nat, limit: nat)
    requires i < |history|
  {
    history[i].at >= Cutoff(history) && |Since(history[i + 1..], Cutoff(history))| < limit
  }

  /** The entries from `from` on that no append drops. */
  function Undropped(history: seq<Entry>, from: nat, limit: nat): seq<Entry>
    requires from <= |history|
    decreases |history| - from
  {
    if from == |history| then []
    else (if NeverDropped(history, from, limit) then [history[from]] else []) + Undropped(history, from + 1, limit)
  }

  lemma SurvivorsStep(history: seq<Entry>, i: nat)
    requires i < |history|
    ensures Survivors(history[i..]) == (if Survives(history[i..]) then [history[i]] else []) + Survivors(history[i + 1..])
  {
    assert history[i..][1..] == history[i + 1..] && history[i..][0] == history[i];
  }

  lemma SinceStep(history: seq<Entry>, i: nat, cutoff: real)
    requires i < |history|
    ensures Since(history[i..], cutoff) == (if history[i].at >= cutoff then [history[i]] else []) + Since(history[i + 1..], cutoff)
  {
    assert history[i..][1..] == history[i + 1..] && history[i..][0] == history[i];
  }

  lemma {:induction false} SurvivorsOfTail(history: seq<Entry>, n: nat)
    requires n <= |history|
    ensures |Survivors(history[n..])| <= |Survivors(history)|
    decreases n
  {
    if n == 0 {
      assert history[0..] == history;
    } else {
      SurvivorsOfTail(history[1..], n - 1);
      assert history[1..][n - 1..] == history[n..];
    }
  }

  /** Behind an entry that an append does not drop it drops others by age alone. */
  lemma BehindUndroppedAt(history: seq<Entry>, i: nat, k: nat, j: nat, limit: nat)
    requires i < k <= j < |history| && NotDroppedAt(history, i, j, limit)
    ensures NotDroppedAt(history, k, j, limit) <==> history[k].at >= history[j].at - MAX_AGE_MS
  {
    var behind := history[i + 1..j + 1];
    SurvivorsOfTail(behind, k - i);
    hide Survivors;
    assert behind[k - i..] == history[k + 1..j + 1];
  }

  lemma BehindUndropped(history: seq<Entry>, i: nat, k: nat, limit: nat)
    requires i < k < |history| && NeverDropped(history, i, limit)
    ensures NeverDropped(history, k, limit) <==> Survives(history[k..])
  {
    FirstSurvives(history, k);
    hide NotDroppedAt, Survives;
    forall j | k <= j < |history|
      ensures NotDroppedAt(history, k, j, limit) <==> history[k].at >= history[j].at - MAX_AGE_MS
    {
      assert NotDroppedAt(history, i, j, limit);
      BehindUndroppedAt(history, i, k, j, limit);
    }
  }

  lemma {:induction false} UndroppedSurvive(history: seq<Entry>, i: nat, from: nat, limit: nat)
    requires i < from <= |history| && NeverDropped(history, i, limit)
    ensures Undropped(history, from, limit) == Survivors(history[from..])
    decreases |history| - from
  {
    hide NeverDropped, Survives, Survivors;
    if from < |history| {
      UndroppedSurvive(history, i, from + 1, limit);
      BehindUndropped(history, i, from, limit);
      SurvivorsStep(history, from);
    } else {
      assert history[from..] == [];
      NoSurvivors();
    }
  }

  lemma NotDroppedAtLonger(history: seq<Entry>, e: Entry, i: nat, j: nat, limit: nat)
    requires i <= j < |history|
    ensures NotDroppedAt(history + [e], i, j, limit) <==> NotDroppedAt(history, i, j, limit)
  {
    hide Survivors;
    assert (history + [e])[i + 1..j + 1] == history[i + 1..j + 1];
  }

  lemma NotDroppedAtNext(history: seq<Entry>, e: Entry, i: nat, limit: nat)
    requires i < |history|
    ensures NotDroppedAt(history + [e], i, |history|, limit)
            <==> history[i].at >= e.at - MAX_AGE_MS && |Since(Survivors(history[i + 1..]), e.at - MAX_AGE_MS)| + 1 < limit
  {
    SurvivorsAndOne(history[i + 1..], e);
    hide Survivors, Since;
    assert (history + [e])[i + 1..|history| + 1] == history[i + 1..] + [e] && (history + [e])[|history|] == e;
  }

  lemma DroppedByOneMore(history: seq<Entry>, e: Entry, i: nat, limit: nat)
    requires i < |history|
    ensures NeverDropped(history + [e], i, limit)
            <==> NeverDropped(history, i, limit) && history[i].at >= e.at - MAX_AGE_MS
                 && |Since(Survivors(history[i + 1..]), e.at - MAX_AGE_MS)| + 1 < limit
  {
    hide NotDroppedAt, Survivors, Since;
    NotDroppedAtNext(history, e, i, limit);
    forall j | i <= j < |history|
      ensures NotDroppedAt(history + [e], i, j, limit) <==> NotDroppedAt(history, i, j, limit)
    {
      NotDroppedAtLonger(history, e, i, j, limit);
    }
  }

  /** One append drops what no longer counts as undropped. */
  lemma {:induction false} UndroppedAndOne(history: seq<Entry>, e: Entry, from: nat, limit: nat)
    requires limit >= 1 && from <= |history|
    ensures Undropped(history + [e], from, limit)
            == Newest(Since(Undropped(history, from, limit), e.at - MAX_AGE_MS) + [e], limit)
    decreases |history| - from
  {
    hide NeverDropped, Survivors, Newest, Since;
    var more, cutoff := history + [e], e.at - MAX_AGE_MS;
    if from == |history| {
      LastIsUndropped(history, e, limit);
      NewestOfOne(e, limit);
    } else {
      UndroppedAndOne(history, e, from + 1, limit);
      DroppedByOneMore(history, e, from, limit);
      assert more[from] == history[from];
      var rest := Undropped(history, from + 1, limit);
      assert [] + Undropped(more, from + 1, limit) == Undropped(more, from + 1, limit) && [] + rest == rest;
      if NeverDropped(history, from, limit) {
        UndroppedSurvive(history, from, from + 1, limit);
        OneMoreKept(history[from], rest, e, cutoff, limit);
      }
    }
  }

  lemma OneMoreKept(x: Entry, rest: seq<Entry>, e: Entry, cutoff: real, limit: nat)
    ensures var kept := Since(rest, cutoff) + [e];
            Newest(Since([x] + rest, cutoff) + [e], limit)
            == if x.at >= cutoff && |kept| < limit then [x] + Newest(kept, limit) else Newest(kept, limit)
  {
    hide *;
    var kept := Since(rest, cutoff) + [e];
    SinceOf([x], rest, cutoff);
    SinceOne(x, cutoff);
    NewestCons(x, kept, limit);
    Reassociated(x, Since(rest, cutoff), e);
  }

  lemma SinceOne(x: Entry, cutoff: real)
    ensures Since([x], cutoff) == if x.at >= cutoff then [x] else []
  {
  }

  lemma Reassociated(x: Entry, a: seq<Entry>, e: Entry)
    ensures ([x] + a) + [e] == [x] + (a + [e]) && [] + a == a
  {
  }

  lemma LastIsUndropped(history: seq<Entry>, e: Entry, limit: nat)
    requires limit >= 1
    ensures Undropped(history + [e], |history|, limit) == [e]
  {
    var more := history + [e];
    assert more[|history| + 1..|history| + 1] == [];
    NoSurvivors();
    assert NotDroppedAt(more, |history|, |history|, limit);
    assert Undropped(more, |history| + 1, limit) == [];
  }

  lemma NewestOfOne(e: Entry, limit: nat)
    requires limit >= 1
    ensures Newest(Since([], e.at) + [e], limit) == [e] && Since([], e.at - MAX_AGE_MS) == [] == Since([], e.at)
  {
  }

  lemma NewestCons<T>(x: T, rest: seq<T>, limit: nat)
    ensures Newest([x] + rest, limit) == if |rest| < limit then [x] + rest else Newest(rest, limit)
    ensures |rest| < limit ==> Newest(rest, limit) == rest
  {
  }

  lemma {:induction false} OnlineUndropped(history: seq<Entry>, es: seq<Entry>, limit: nat)
    requires limit >= 1
    ensures AppendAll(Undropped(history, 0, limit), es, limit) == Undropped(history + TrackedOnly(es), 0, limit)
    decreases |es|
  {
    hide Tracked, Undropped;
    if es == [] {
      assert history + [] == history;
    } else if Tracked(es[0].action) {
      assert history + TrackedOnly(es) == (history + [es[0]]) + TrackedOnly(es[1..]);
      AppendUndropped(history, es[0], limit);
      OnlineUndropped(history + [es[0]], es[1..], limit);
    } else {
      assert TrackedOnly(es) == TrackedOnly(es[1..]);
      OnlineUndropped(history, es[1..], limit);
    }
  }

  lemma AppendUndropped(history: seq<Entry>, e: Entry, limit: nat)
    requires limit >= 1 && Tracked(e.action)
    ensures Append(Undropped(history, 0, limit), e, limit) == Undropped(history + [e], 0, limit)
  {
    var log := Undropped(history, 0, limit);
    AppendIsPrune(log, e, limit);
    SinceOf(log, [e], e.at - MAX_AGE_MS);
    assert Since([e], e.at - MAX_AGE_MS) == [e];
    UndroppedAndOne(history, e, 0, limit);
    hide *;
    PruneIs(log + [e], e.at, limit);
  }

  lemma PruneIs(log: seq<Entry>, now: real, limit: nat)
    ensures Prune(log, now, limit) == Newest(Since(log, now - MAX_AGE_MS), limit)
  {
  }

  // What one pruning keeps, entry by entry.

  function Once(history: seq<Entry>, from: nat, limit: nat): seq<Entry>
    requires history != [] && from <= |history|
  {
    Newest(Since(history[from..], Cutoff(history)), limit)
  }

  lemma OnceStep(history: seq<Entry>, i: nat, limit: nat)
    requires i < |history|
    ensures if KeptOnce(history, i, limit)
            then Once(history, i, limit) == [history[i]] + Once(history, i + 1, limit)
                 && Once(history, i + 1, limit) == Since(history[i + 1..], Cutoff(history))
            else Once(history, i, limit) == Once(history, i + 1, limit)
    ensures history[i].at >= Cutoff(history) && !KeptOnce(history, i, limit) ==> |Once(history, i + 1, limit)| == limit
  {
    var young := Since(history[i + 1..], Cutoff(history));
    assert history[i..][1..] == history[i + 1..] && history[i..][0] == history[i];
    NewestCons(history[i], young, limit);
    assert [] + young == young;
  }

  lemma UndroppedIsYoung(history: seq<Entry>, i: nat, limit: nat)
    requires i < |history| && NeverDropped(history, i, limit)
    ensures history[i].at >= Cutoff(history) && |Survivors(history[i + 1..])| < limit
  {
    assert NotDroppedAt(history, i, |history| - 1, limit);
    assert history[i + 1..|history| - 1 + 1] == history[i + 1..];
  }

  lemma UndroppedAges(history: seq<Entry>, i: nat, limit: nat)
    requires i < |history| && NeverDropped(history, i, limit)
    ensures Survives(history[i..]) && forall j | i <= j < |history| :: history[i].at >= history[j].at - MAX_AGE_MS
  {
    forall j | i <= j < |history|
      ensures history[i].at >= history[j].at - MAX_AGE_MS
    {
      assert NotDroppedAt(history, i, j, limit);
    }
    FirstSurvives(history, i);
  }

  lemma {:induction false} FewerSurvive(history: seq<Entry>, from: nat, limit: nat)
    requires history != [] && from <= |history|
    ensures |Undropped(history, from, limit)| <= |Survivors(history[from..])| <= |Since(history[from..], Cutoff(history))|
    decreases |history| - from
  {
    hide NeverDropped, Survives, Survivors, Since;
    if from < |history| {
      SurvivorsAreYoungIff(history, from);
      FewerSurvive(history, from + 1, limit);
      SurvivorsStep(history, from);
      if NeverDropped(history, from, limit) {
        UndroppedAges(history, from, limit);
      }
    } else {
      assert history[from..] == [];
      NoSurvivors();
    }
  }

  /** When one pruning keeps nothing that an append drops, both keep the same. */
  lemma {:induction false} SameWhenUndropped(history: seq<Entry>, from: nat, limit: nat)
    requires history != [] && from <= |history|
    requires forall i | from <= i < |history| && KeptOnce(history, i, limit) :: NeverDropped(history, i, limit)
    ensures Undropped(history, from, limit) == Once(history, from, limit)
    decreases |history| - from
  {
    hide NeverDropped, KeptOnce, Survivors;
    if from < |history| {
      SameWhenUndropped(history, from + 1, limit);
      OnceStep(history, from, limit);
      if NeverDropped(history, from, limit) {
        UndroppedIsYoung(history, from, limit);
        UndroppedSurvive(history, from, from + 1, limit);
      }
    }
  }

  /** Entries no later than `t`. */
  function Low(es: seq<Entry>, t: real): nat {
    if es == [] then 0 else (if es[0].at <= t then 1 else 0) + Low(es[1..], t)
  }

  lemma LowCons(c: bool, x: Entry, rest: seq<Entry>, t: real)
    ensures Low((if c then [x] else []) + rest, t) == (if c && x.at <= t then 1 else 0) + Low(rest, t)
  {
    LowOf(if c then [x] else [], rest, t);
    assert Low([x], t) == if x.at <= t then 1 else 0;
  }

  lemma {:induction false} LowOf(a: seq<Entry>, b: seq<Entry>, t: real)
    ensures Low(a + b, t) == Low(a, t) + Low(b, t)
    decreases |a|
  {
    if a == [] {
      assert a + b == b;
    } else {
      assert (a + b)[1..] == a[1..] + b;
      LowOf(a[1..], b, t);
    }
  }

  /** Survivors before an entry that overtakes `t` are later than `t`. */
  lemma {:induction false} LowSurvivors(history: seq<Entry>, from: nat, m: nat, t: real)
    requires from <= m < |history| && t < history[m].at - MAX_AGE_MS
    ensures Low(Survivors(history[from..]), t) == Low(Survivors(history[m..]), t)
    decreases m - from
  {
    hide Low, Survivors, Survives, Since;
    if from < m {
      LowSurvivors(history, from + 1, m, t);
      FirstSurvives(history, from);
      SurvivorsStep(history, from);
      LowCons(Survives(history[from..]), history[from], Survivors(history[from + 1..]), t);
    }
  }

  lemma {:induction false} LowYoung(history: seq<Entry>, from: nat, t: real)
    requires from < |history|
    ensures Low(Survivors(history[from..]), t) <= Low(Since(history[from..], Cutoff(history)), t)
    decreases |history| - from
  {
    hide Low, Survivors, Survives, Since;
    var cutoff := Cutoff(history);
    FirstSurvives(history, from);
    SurvivorsStep(history, from);
    SinceStep(history, from, cutoff);
    LowCons(Survives(history[from..]), history[from], Survivors(history[from + 1..]), t);
    LowCons(history[from].at >= cutoff, history[from], Since(history[from + 1..], cutoff), t);
    if from + 1 < |history| {
      LowYoung(history, from + 1, t);
    } else {
      assert history[from + 1..] == [];
      NothingLow(cutoff, t);
    }
  }

  lemma NothingLow(cutoff: real, t: real)
    ensures Low(Survivors([]), t) == Low(Since([], cutoff), t) == 0
  {
  }

  lemma {:induction false} LowLater(history: seq<Entry>, from: nat, m: nat, t: real)
    requires from <= m <= |history| && history != []
    ensures Low(Since(history[from..], Cutoff(history)), t) >= Low(Since(history[m..], Cutoff(history)), t)
    decreases m - from
  {
    hide Low, Since;
    if from < m {
      LowLater(history, from + 1, m, t);
      SinceStep(history, from, Cutoff(history));
      LowCons(history[from].at >= Cutoff(history), history[from], Since(history[from + 1..], Cutoff(history)), t);
    }
  }

  lemma {:induction false} LowOnce(history: seq<Entry>, from: nat, i: nat, limit: nat, t: real)
    requires from <= i < |history|
    ensures Low(Once(history, from, limit), t) >= Low(Once(history, i, limit), t)
    decreases i - from
  {
    hide Once, KeptOnce, Low;
    if from < i {
      LowOnce(history, from + 1, i, limit, t);
      OnceStep(history, from, limit);
      LowCons(true, history[from], Once(history, from + 1, limit), t);
    }
  }

  lemma OvertakenShowsAt(history: seq<Entry>, from: nat, i: nat, m: nat, limit: nat)
    requires from < i < m < |history| && KeptOnce(history, i, limit)
    requires history[i].at < history[m].at - MAX_AGE_MS <= history[from].at
    ensures Low([history[from]] + Survivors(history[from + 1..]), history[i].at) < Low(Once(history, from + 1, limit), history[i].at)
  {
    hide *;
    var t := history[i].at;
    LowKept(history, from + 1, i, limit, t);
    LowSurvivors(history, from + 1, m, t);
    LowYoung(history, m, t);
    LowLater(history, i + 1, m, t);
    LowCons(true, history[from], Survivors(history[from + 1..]), t);
  }

  /** An entry that one pruning keeps and a later one has overtaken shows in the times kept. */
  lemma OvertakenShows(history: seq<Entry>, from: nat, i: nat, limit: nat)
    requires from < i < |history| && KeptOnce(history, i, limit) && !Survives(history[i..])
    requires forall j | from <= j < |history| :: history[from].at >= history[j].at - MAX_AGE_MS
    ensures [history[from]] + Survivors(history[from + 1..]) != Once(history, from + 1, limit)
  {
    hide *;
    FirstSurvives(history, i);
    var m :| i < m < |history| && history[i].at < history[m].at - MAX_AGE_MS;
    OvertakenShowsAt(history, from, i, m, limit);
  }

  /** The kept entry itself counts. */
  lemma LowKept(history: seq<Entry>, from: nat, i: nat, limit: nat, t: real)
    requires from <= i < |history| && KeptOnce(history, i, limit) && history[i].at <= t
    ensures Low(Once(history, from, limit), t) >= 1 + Low(Since(history[i + 1..], Cutoff(history)), t)
  {
    hide *;
    LowOnce(history, from, i, limit, t);
    OnceStep(history, i, limit);
    LowCons(true, history[i], Once(history, i + 1, limit), t);
  }

  /** If every kept entry survives, there are as many survivors. */
  lemma {:induction false} KeptSurvive(history: seq<Entry>, from: nat, limit: nat)
    requires history != [] && from <= |history|
    requires forall i | from <= i < |history| && KeptOnce(history, i, limit) :: Survives(history[i..])
    ensures |Once(history, from, limit)| <= |Survivors(history[from..])|
    decreases |history| - from
  {
    hide Once, KeptOnce, Survivors, Survives;
    if from < |history| {
      KeptSurvive(history, from + 1, limit);
      OnceStep(history, from, limit);
      SurvivorsStep(history, from);
    } else {
      NothingLeft(history, limit);
    }
  }

  lemma NothingLeft(history: seq<Entry>, limit: nat)
    requires history != []
    ensures Once(history, |history|, limit) == []
  {
    assert history[|history|..] == [];
  }

  lemma {:induction false} UndroppedWhenSame(history: seq<Entry>, from: nat, limit: nat)
    requires history != [] && from <= |history| && Undropped(history, from, limit) == Once(history, from, limit)
    ensures forall i | from <= i < |history| && KeptOnce(history, i, limit) :: NeverDropped(history, i, limit)
    decreases |history| - from
  {
    hide NeverDropped, KeptOnce, Survivors, Once, Since, Survives;
    if from < |history| {
      OnceStep(history, from, limit);
      FewerSurvive(history, from + 1, limit);
      if NeverDropped(history, from, limit) && !KeptOnce(history, from, limit) {
        PushedOutShows(history, from, limit);
      } else {
        SameTail(history[from], Undropped(history, from + 1, limit), Once(history, from + 1, limit));
        UndroppedWhenSame(history, from + 1, limit);
      }
    }
  }

  lemma SameTail<T>(x: T, a: seq<T>, b: seq<T>)
    ensures [x] + a == [x] + b ==> a == b
    ensures [] + a == a
  {
    assert ([x] + a)[1..] == a && ([x] + b)[1..] == b;
  }

  lemma PushedOutShows(history: seq<Entry>, from: nat, limit: nat)
    requires from < |history| && NeverDropped(history, from, limit) && !KeptOnce(history, from, limit)
    ensures Undropped(history, from, limit) != Once(history, from, limit)
  {
    hide *;
    UndroppedStep(history, from, limit);
    UndroppedSurvive(history, from, from + 1, limit);
    UndroppedIsYoung(history, from, limit);
    UndroppedAges(history, from, limit);
    OnceStep(history, from, limit);
    if forall i | from + 1 <= i < |history| && KeptOnce(history, i, limit) :: Survives(history[i..]) {
      KeptSurvive(history, from + 1, limit);
    } else {
      var i :| from + 1 <= i < |history| && KeptOnce(history, i, limit) && !Survives(history[i..]);
      OvertakenShows(history, from, i, limit);
    }
  }

  lemma UndroppedStep(history: seq<Entry>, i: nat, limit: nat)
    requires i < |history| && NeverDropped(history, i, limit)
    ensures Undropped(history, i, limit) == [history[i]] + Undropped(history, i + 1, limit)
  {
  }

  /** How far out of order any history may be, however long: pruning at every append gives what
      one pruning at the last entry gives exactly when no append drops an entry that this one
      pruning keeps. */
  lemma OnlineEqualsOfflineExactly(es: seq<Entry>, limit: nat)
    requires limit >= 1 && TrackedOnly(es) != []
    ensures var h := TrackedOnly(es);
            AppendAll([], es, limit) == PrunedOnce(h, limit)
            <==> forall i | 0 <= i < |h| && KeptOnce(h, i, limit) :: NeverDropped(h, i, limit)
  {
    hide *;
    var h := TrackedOnly(es);
    assert [] + h == h && h[0..] == h;
    NothingUndropped(limit);
    OnlineUndropped([], es, limit);
    OnceIsPrunedOnce(h, limit);
    if AppendAll([], es, limit) == PrunedOnce(h, limit) {
      UndroppedWhenSame(h, 0, limit);
    }
    if forall i | 0 <= i < |h| && KeptOnce(h, i, limit) :: NeverDropped(h, i, limit) {
      SameWhenUndropped(h, 0, limit);
    }
  }

  lemma NothingUndropped(limit: nat)
    ensures Undropped([], 0, limit) == []
  {
  }

  lemma OnceIsPrunedOnce(h: seq<Entry>, limit: nat)
    requires h != []
    ensures Once(h, 0, limit) == PrunedOnce(h, limit)
  {
    assert h[0..] == h;
  }

  /** Order in time is needed: an entry from the future makes an append drop what a pruning at
      the last entry would keep. */
  lemma OutOfOrderDiffers()
    ensures var a := Entry("media:played", 0.0, 0);
            var b := Entry("media:played", 7200000.0, 1);
            var c := Entry("media:played", 1.0, 2);
            AppendAll([], [a, b, c], 10) != PrunedOnce([a, b, c], 10)
  {
    var a, b, c := Entry("media:played", 0.0, 0), Entry("media:played", 7200000.0, 1), Entry("media:played", 1.0, 2);
    var es := [a, b, c];
    assert [] + [a] == [a] && [a] + [b] == [a, b] && [b] + [c] == [b, c];
    assert es[1..] == [b, c] && [b, c][1..] == [c] && [c][1..] == [] && [a, b][1..] == [b] && [b][1..] == [] && [a][1..] == [];
    assert Since([a], 0.0 - MAX_AGE_MS) == [a];
    assert Since([a, b], 7200000.0 - MAX_AGE_MS) == Since([b], 7200000.0 - MAX_AGE_MS) == [b];
    assert Since([c], 1.0 - MAX_AGE_MS) == [c] && Since([b, c], 1.0 - MAX_AGE_MS) == [b, c];
    assert Tracked("media:played");
    assert Append([], a, 10) == [a];
    assert Append([a], b, 10) == [b];
    assert Append([b], c, 10) == [b, c];
    assert AppendAll([], es, 10) == AppendAll([a], [b, c], 10) == AppendAll([b], [c], 10) == AppendAll([b, c], [], 10);
    assert Since(es, 1.0 - MAX_AGE_MS) == [a, b, c];
  }
}
