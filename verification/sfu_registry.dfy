/** The server's tables of data-channel producers: routers by room, transports, producers, the
    provider channel of each local media id (the latest wins) and its viewers' request
    channels, with the close hooks that keep them together. */
module SfuRegistry {
  import opened Js

  type Id = nat

  /** What a data producer was made with. */
  datatype Info = Info(transportId: Id, localMediaId: Option<string>, roomId: string, ownerUserId: string, isRequestChannel: bool)

  datatype Entry = Entry(dataProducerId: Id, roomId: string, ownerUserId: string)

  /** `open` are the producers alive inside the SFU library; the other fields are the tables. */
  datatype Registry = Registry(routers: set<string>, transports: map<Id, string>, dataProducers: map<Id, Info>, open: set<Id>,
                               providers: map<string, Entry>, requests: map<string, map<Id, Entry>>)

  const Fresh := Registry({}, map[], map[], {}, map[], map[])

  predicate HasMedia(i: Info) {
    i.localMediaId.Some? && i.localMediaId.value != ""
  }

  function EntryOf(id: Id, i: Info): Entry {
    Entry(id, i.roomId, i.ownerUserId)
  }

  function TableOf(s: Registry, mediaId: string): map<Id, Entry> {
    if mediaId in s.requests then s.requests[mediaId] else map[]
  }

  function CreateTransport(s: Registry, id: Id, roomKey: string): Registry {
    s.(routers := s.routers + {roomKey}, transports := s.transports[id := roomKey])
  }

  function Register(s: Registry, id: Id, i: Info): Registry {
    var t := s.(dataProducers := s.dataProducers[id := i], open := s.open + {id});
    if !HasMedia(i) then t
    else if i.isRequestChannel then
      var m := i.localMediaId.value;
      t.(requests := s.requests[m := TableOf(s, m)[id := EntryOf(id, i)]])
    else t.(providers := s.providers[i.localMediaId.value := EntryOf(id, i)])
  }

  function UnregisterProvider(ps: map<string, Entry>, id: Id, i: Info): map<string, Entry> {
    if HasMedia(i) && !i.isRequestChannel && i.localMediaId.value in ps && ps[i.localMediaId.value].dataProducerId == id
    then ps - {i.localMediaId.value} else ps
  }

  function UnregisterRequest(rs: map<string, map<Id, Entry>>, id: Id, i: Info): map<string, map<Id, Entry>> {
    if HasMedia(i) && i.isRequestChannel && i.localMediaId.value in rs then
      var m := i.localMediaId.value;
      var left := rs[m] - {id};
      if left == map[] then rs - {m} else rs[m := left]
    else rs
  }

  /** The observer hook of one producer. */
  function OnClose(s: Registry, id: Id, i: Info): Registry {
    s.(dataProducers := s.dataProducers - {id},
       providers := UnregisterProvider(s.providers, id, i),
       requests := UnregisterRequest(s.requests, id, i))
  }

  /** `dataProducers.get(id)?.close()`: a closed producer stays closed and fires no hook again. */
  function CloseOne(s: Registry, id: Id): Registry {
    if id in s.dataProducers && id in s.open then OnClose(s.(open := s.open - {id}), id, s.dataProducers[id]) else s
  }

  // ---------------------------------------------------------------- what closing means

  predicate EntryFits(dp: map<Id, Info>, mediaId: string, e: Entry, requests: bool) {
    && e.dataProducerId in dp
    && var i := dp[e.dataProducerId];
       i.localMediaId == Some(mediaId) && mediaId != "" && i.isRequestChannel == requests && e == EntryOf(e.dataProducerId, i)
  }

  ghost predicate ProvidersFit(ps: map<string, Entry>, dp: map<Id, Info>) {
    forall m | m in ps :: EntryFits(dp, m, ps[m], false)
  }

  ghost predicate TablesFit(rs: map<string, map<Id, Entry>>, dp: map<Id, Info>) {
    && (forall m | m in rs :: rs[m] != map[])
    && (forall m, id | m in rs && id in rs[m] :: rs[m][id].dataProducerId == id && EntryFits(dp, m, rs[m][id], true))
  }

  /** Every entry names an open producer made for it, no inner table is empty, and every
      producer's transport and every transport's router is there. */
  ghost predicate Sound(s: Registry) {
    && s.dataProducers.Keys == s.open
    && ProvidersFit(s.providers, s.dataProducers)
    && TablesFit(s.requests, s.dataProducers)
    && (forall id | id in s.dataProducers :: s.dataProducers[id].transportId in s.transports)
    && (forall id | id in s.transports :: s.transports[id] in s.routers)
  }

  /** Every open request channel is listed under its media id. */
  ghost predicate Complete(s: Registry) {
    forall id | id in s.dataProducers && HasMedia(s.dataProducers[id]) && s.dataProducers[id].isRequestChannel ::
      id in TableOf(s, s.dataProducers[id].localMediaId.value)
  }

  function DropProviders(ps: map<string, Entry>, gone: set<Id>): map<string, Entry> {
    map m | m in ps && ps[m].dataProducerId !in gone :: ps[m]
  }

  function DropRequests(rs: map<string, map<Id, Entry>>, gone: set<Id>): map<string, map<Id, Entry>> {
    map m | m in rs && rs[m] - gone != map[] :: rs[m] - gone
  }

  /** The registry without a set of producers, said at once. */
  function Without(s: Registry, gone: set<Id>): (w: Registry)
    ensures w.transports == s.transports && w.routers == s.routers
  {
    s.(dataProducers := s.dataProducers - gone, open := s.open - gone,
       providers := DropProviders(s.providers, gone), requests := DropRequests(s.requests, gone))
  }

  lemma UnregisterProviderDrops(ps: map<string, Entry>, dp: map<Id, Info>, id: Id)
    requires ProvidersFit(ps, dp) && id in dp
    ensures UnregisterProvider(ps, id, dp[id]) == DropProviders(ps, {id})
  {
  }

  lemma UnregisterRequestDrops(rs: map<string, map<Id, Entry>>, dp: map<Id, Info>, id: Id)
    requires TablesFit(rs, dp) && id in dp
    ensures UnregisterRequest(rs, id, dp[id]) == DropRequests(rs, {id})
  {
    hide UnregisterRequest, DropRequests;
    assert forall m | m in rs && id in rs[m] :: EntryFits(dp, m, rs[m][id], true);
    if HasMedia(dp[id]) && dp[id].isRequestChannel {
      DropFromOneTable(rs, id, dp[id]);
    } else {
      DropFromNoTable(rs, id, dp[id]);
    }
  }

  lemma DropFromNoTable(rs: map<string, map<Id, Entry>>, id: Id, i: Info)
    requires forall m | m in rs :: id !in rs[m] && rs[m] != map[]
    requires !(HasMedia(i) && i.isRequestChannel)
    ensures UnregisterRequest(rs, id, i) == DropRequests(rs, {id})
  {
    assert forall m | m in rs :: rs[m] - {id} == rs[m];
  }

  lemma DropFromOneTable(rs: map<string, map<Id, Entry>>, id: Id, i: Info)
    requires HasMedia(i) && i.isRequestChannel
    requires forall m | m in rs :: rs[m] != map[] && (id in rs[m] ==> m == i.localMediaId.value)
    ensures UnregisterRequest(rs, id, i) == DropRequests(rs, {id})
  {
    assert forall m | m in rs && id !in rs[m] :: rs[m] - {id} == rs[m];
  }

  lemma CloseOneIsWithout(s: Registry, id: Id)
    requires Sound(s)
    ensures CloseOne(s, id) == Without(s, {id})
  {
    hide UnregisterProvider, UnregisterRequest, DropProviders, DropRequests, ProvidersFit, TablesFit;
    if id in s.dataProducers {
      UnregisterProviderDrops(s.providers, s.dataProducers, id);
      UnregisterRequestDrops(s.requests, s.dataProducers, id);
    } else {
      NothingToDrop(s, {id});
    }
  }

  lemma NothingToDrop(s: Registry, gone: set<Id>)
    requires Sound(s) && gone !! s.open
    ensures Without(s, gone) == s
  {
    assert s.dataProducers - gone == s.dataProducers && s.open - gone == s.open;
    assert DropProviders(s.providers, gone) == s.providers;
    forall m | m in s.requests
      ensures s.requests[m] - gone == s.requests[m]
    {
      assert forall id | id in s.requests[m] :: id in s.open;
    }
  }

  lemma WithoutTwice(s: Registry, a: set<Id>, b: set<Id>)
    ensures Without(Without(s, a), b) == Without(s, a + b)
  {
    assert s.dataProducers - a - b == s.dataProducers - (a + b) && s.open - a - b == s.open - (a + b);
    assert DropProviders(DropProviders(s.providers, a), b) == DropProviders(s.providers, a + b);
    RequestsTwice(s.requests, a, b);
  }

  lemma RequestsTwice(rs: map<string, map<Id, Entry>>, a: set<Id>, b: set<Id>)
    ensures DropRequests(DropRequests(rs, a), b) == DropRequests(rs, a + b)
  {
    forall m | m in rs
      ensures rs[m] - a - b == rs[m] - (a + b)
    {
    }
    forall m | m in rs && rs[m] - a == map[]
      ensures rs[m] - (a + b) == map[]
    {
      assert rs[m] - (a + b) == (rs[m] - a) - b == map[];
    }
  }

  lemma WithoutKeepsSound(s: Registry, gone: set<Id>)
    requires Sound(s)
    ensures Sound(Without(s, gone)) && (Complete(s) ==> Complete(Without(s, gone)))
  {
    var w := Without(s, gone);
    TablesStillFit(s.requests, s.dataProducers, gone);
    if Complete(s) {
      WithoutKeepsComplete(s, gone);
    }
  }

  lemma TablesStillFit(rs: map<string, map<Id, Entry>>, dp: map<Id, Info>, gone: set<Id>)
    requires TablesFit(rs, dp)
    ensures TablesFit(DropRequests(rs, gone), dp - gone)
  {
    forall m, id | m in DropRequests(rs, gone) && id in DropRequests(rs, gone)[m]
      ensures DropRequests(rs, gone)[m][id].dataProducerId == id && EntryFits(dp - gone, m, DropRequests(rs, gone)[m][id], true)
    {
      assert id in rs[m] && EntryFits(dp, m, rs[m][id], true);
    }
  }

  lemma WithoutKeepsComplete(s: Registry, gone: set<Id>)
    requires Complete(s)
    ensures Complete(Without(s, gone))
  {
    var w := Without(s, gone);
    forall id | id in w.dataProducers && HasMedia(w.dataProducers[id]) && w.dataProducers[id].isRequestChannel
      ensures id in TableOf(w, w.dataProducers[id].localMediaId.value)
    {
      var m := s.dataProducers[id].localMediaId.value;
      assert id in s.requests[m] - gone;
    }
  }

  /** The producers the tables name for a media id. */
  function Named(s: Registry, mediaId: string): set<Id> {
    (if mediaId in s.providers then {s.providers[mediaId].dataProducerId} else {}) + TableOf(s, mediaId).Keys
  }

  function OnAny(dp: map<Id, Info>, ts: set<Id>): set<Id> {
    set id | id in dp && dp[id].transportId in ts
  }

  function CloseTransportOf(s: Registry, t: Id): Registry {
    if t in s.transports then Without(s, OnAny(s.dataProducers, {t})).(transports := s.transports - {t}) else s
  }

  function RoomTransports(s: Registry, roomKey: string): set<Id> {
    set t | t in s.transports && s.transports[t] == roomKey
  }

  /** The producers of media whose provider entry is of the room. */
  function OfRoomProviders(s: Registry, roomKey: string): set<Id> {
    set m, id | m in s.providers && s.providers[m].roomId == roomKey && id in Named(s, m) :: id
  }

  function OfRoomRequests(s: Registry, roomKey: string): set<Id> {
    set m, id | m in s.requests && id in s.requests[m] && InTable(s.requests, m, roomKey, id) :: id
  }

  function ClosedWithRoom(s: Registry, roomKey: string): set<Id> {
    OfRoomProviders(s, roomKey) + OfRoomRequests(s, roomKey) + OnAny(s.dataProducers, RoomTransports(s, roomKey))
  }

  function CloseRoomOf(s: Registry, roomKey: string): Registry {
    Without(s, ClosedWithRoom(s, roomKey)).(transports := s.transports - RoomTransports(s, roomKey), routers := s.routers - {roomKey})
  }

  // ---------------------------------------------------------------- the tables themselves

  class Runtime {
    var routers: set<string>
    var transports: map<Id, string>
    var dataProducers: map<Id, Info>
    var open: set<Id>
    var providers: map<string, Entry>
    var requests: map<string, map<Id, Entry>>

    ghost function View(): Registry
      reads this
    {
      Registry(routers, transports, dataProducers, open, providers, requests)
    }

    constructor ()
      ensures View() == Fresh
    {
      routers, transports, dataProducers, open, providers, requests := {}, map[], map[], {}, map[], map[];
    }

    method NewTransport(id: Id, roomKey: string)
      modifies this
      ensures View() == CreateTransport(old(View()), id, roomKey)
    {
      if roomKey !in routers {
        routers := routers + {roomKey};
      }
      transports := transports[id := roomKey];
    }

    /** Fails when the transport is not registered. */
    method ProduceData(id: Id, i: Info) returns (ok: bool)
      modifies this
      ensures ok == (i.transportId in old(transports))
      ensures View() == if ok then Register(old(View()), id, i) else old(View())
    {
      if i.transportId !in transports {
        return false;
      }
      dataProducers := dataProducers[id := i];
      open := open + {id};
      if HasMedia(i) {
        var mediaId := i.localMediaId.value;
        var entry := EntryOf(id, i);
        if i.isRequestChannel {
          var byProducer := if mediaId in requests then requests[mediaId] else map[];
          byProducer := byProducer[id := entry];
          requests := requests[mediaId := byProducer];
        } else {
          providers := providers[mediaId := entry];
        }
      }
      ok := true;
    }

    method RunCloseHook(id: Id, i: Info)
      modifies this
      ensures View() == OnClose(old(View()), id, i)
    {
      dataProducers := dataProducers - {id};
      if !HasMedia(i) {
        return;
      }
      var mediaId := i.localMediaId.value;
      if i.isRequestChannel {
        if mediaId in requests {
          var byProducer := requests[mediaId] - {id};
          requests := requests[mediaId := byProducer];
          if byProducer == map[] {
            requests := requests - {mediaId};
            assert requests == old(requests) - {mediaId};
          }
        }
        return;
      }
      if mediaId in providers && providers[mediaId].dataProducerId == id {
        providers := providers - {mediaId};
      }
    }

    method CloseProducer(id: Id)
      modifies this
      ensures View() == CloseOne(old(View()), id)
    {
      if id !in dataProducers || id !in open {
        return;
      }
      var i := dataProducers[id];
      open := open - {id};
      RunCloseHook(id, i);
    }

    /** The loop of `ClearMedia`: the table is no longer registered when its producers close. */
    method CloseUnlisted(mediaId: string, ids: set<Id>, ghost s: Registry, ghost first: set<Id>)
      requires Sound(s) && ids == TableOf(s, mediaId).Keys && first !! ids
      requires View() == Cleared(Without(s, first), mediaId)
      modifies this
      ensures View() == Cleared(Without(s, first + ids), mediaId)
    {
      hide Without, Sound, CloseOne;
      var todo := ids;
      ghost var done := first;
      while todo != {}
        invariant todo <= ids && done == first + (ids - todo)
        invariant View() == Cleared(Without(s, done), mediaId)
        decreases |todo|
      {
        var id :| id in todo;
        todo := todo - {id};
        WithoutKeepsSound(s, done);
        StillInTable(s, done, mediaId, id);
        CloseProducer(id);
        RequestGoneFirst(Without(s, done), mediaId, id);
        WithoutTwice(s, done, {id});
        done := done + {id};
      }
      assert done == first + ids;
    }

    /** Entries go first, so the hooks of the producers closed here find nothing to remove. */
    method ClearMedia(mediaId: string)
      requires Sound(View())
      modifies this
      ensures View() == Without(old(View()), Named(old(View()), mediaId))
    {
      hide Without, Sound, CloseOne;
      ghost var s := View();
      ghost var first := Named(s, mediaId) - TableOf(s, mediaId).Keys;
      if mediaId in providers {
        var provider := providers[mediaId];
        providers := providers - {mediaId};
        CloseProducer(provider.dataProducerId);
        ProviderGoneFirst(s, mediaId);
      } else {
        assert first == {};
        NothingToDrop(s, first);
      }
      assert View() == Without(s, first);
      assert TableOf(View(), mediaId) == TableOf(s, mediaId);
      var ids := if mediaId in requests then requests[mediaId].Keys else {};
      requests := requests - {mediaId};
      CloseUnlisted(mediaId, ids, s, first);
      assert first + ids == Named(s, mediaId);
      TableIsEmptied(s, first + ids, mediaId);
    }

    /** The library closes the producers of the transport, then the transport's own hook runs. */
    method CloseTransport(t: Id)
      requires Sound(View())
      modifies this
      ensures View() == CloseTransportOf(old(View()), t)
    {
      hide Without, Sound, CloseOne;
      ghost var s := View();
      NothingToDrop(s, {});
      if t !in transports {
        return;
      }
      var ids := set id | id in dataProducers && dataProducers[id].transportId == t;
      assert ids == OnAny(s.dataProducers, {t});
      ghost var done := {};
      while ids != {}
        invariant ids <= OnAny(s.dataProducers, {t}) && done == OnAny(s.dataProducers, {t}) - ids
        invariant View() == Without(s, done)
        decreases |ids|
      {
        var id :| id in ids;
        ids := ids - {id};
        CloseProducer(id);
        OneMoreClosed(s, done, id);
        done := done + {id};
      }
      assert done == OnAny(s.dataProducers, {t});
      assert View().transports == s.transports;
      transports := transports - {t};
      assert View() == Without(s, done).(transports := s.transports - {t});
    }

    method CloseRoomProviders(roomKey: string)
      requires Sound(View())
      modifies this
      ensures View() == Without(old(View()), OfRoomProviders(old(View()), roomKey))
    {
      hide Sound, Without, Named;
      ghost var s := View();
      NothingToDrop(s, {});
      var todo := providers;
      ghost var gone := {};
      while todo != map[]
        invariant todo.Keys <= s.providers.Keys && forall m | m in todo :: todo[m] == s.providers[m]
        invariant gone == set m, id | m in s.providers && s.providers[m].roomId == roomKey && m !in todo && id in Named(s, m) :: id
        invariant View() == Without(s, gone)
        decreases |todo|
      {
        var mediaId :| mediaId in todo;
        var entry := todo[mediaId];
        todo := todo - {mediaId};
        if entry.roomId == roomKey {
          WithoutKeepsSound(s, gone);
          NamedWithout(s, gone, mediaId);
          WithoutTwice(s, gone, Named(Without(s, gone), mediaId));
          ClearMedia(mediaId);
          gone := gone + Named(s, mediaId);
        }
      }
      assert gone == OfRoomProviders(s, roomKey);
    }

    method CloseRoomRequests(roomKey: string)
      requires Sound(View())
      modifies this
      ensures View() == Without(old(View()), OfRoomRequests(old(View()), roomKey))
    {
      hide Without, Sound, RoomIds, OfRoomRequests;
      ghost var s := View();
      NothingToDrop(s, {});
      NoRoomIds(s, roomKey);
      var todo := requests.Keys;
      ghost var done, gone := {}, {};
      while todo != {}
        invariant todo <= s.requests.Keys && done == s.requests.Keys - todo
        invariant gone == RoomIds(s.requests, done, roomKey)
        invariant View() == Without(s, gone)
        decreases |todo|
      {
        var mediaId :| mediaId in todo;
        todo := todo - {mediaId};
        WithoutKeepsSound(s, gone);
        OtherTablesUntouched(s, done, mediaId, roomKey);
        CloseTableOfRoom(mediaId, roomKey);
        ghost var closed := RoomIds(s.requests, {mediaId}, roomKey);
        WithoutTwice(s, gone, closed);
        gone := gone + closed;
        done := done + {mediaId};
      }
      assert done == s.requests.Keys;
    }

    /** `byProducer.delete(id)` on the registered table, then the close whose hook finds it gone. */
    method CloseListed(mediaId: string, byProducer: map<Id, Entry>, id: Id) returns (rest: map<Id, Entry>)
      requires Sound(View()) && mediaId in requests && byProducer == requests[mediaId] && id in byProducer
      modifies this
      ensures View() == Without(old(View()), {id}) && rest == TableOf(View(), mediaId)
    {
      hide Without, Sound, CloseOne;
      ghost var s := View();
      rest := byProducer - {id};
      requests := requests[mediaId := rest];
      CloseProducer(id);
      TableEntryGoneFirst(s, mediaId, id);
    }

    /** One round of the outer loop over the request tables. The inner table is the registered
        one, so what is deleted from it is deleted from the registry. */
    method CloseTableOfRoom(mediaId: string, roomKey: string)
      requires Sound(View()) && mediaId in requests
      modifies this
      ensures View() == Without(old(View()), RoomIds(old(requests), {mediaId}, roomKey))
    {
      hide Without, Sound;
      ghost var s := View();
      NothingToDrop(s, {});
      var table := requests[mediaId];
      var byProducer, todo := table, table.Keys;
      ghost var gone := {};
      while todo != {}
        invariant todo <= table.Keys
        invariant gone == set id | id in table && id !in todo && table[id].roomId == roomKey
        invariant View() == Without(s, gone) && byProducer == TableOf(View(), mediaId)
        decreases |todo|
      {
        var producerId :| producerId in todo;
        todo := todo - {producerId};
        if table[producerId].roomId == roomKey {
          WithoutKeepsSound(s, gone);
          StillInTable(s, gone, mediaId, producerId);
          byProducer := CloseListed(mediaId, byProducer, producerId);
          WithoutTwice(s, gone, {producerId});
          gone := gone + {producerId};
        }
      }
      assert gone == RoomIds(s.requests, {mediaId}, roomKey);
      if byProducer == map[] {
        WithoutKeepsSound(s, gone);
        NoEmptyTable(View(), mediaId);
        requests := requests - {mediaId};
      }
    }

    method CloseRoom(roomKey: string)
      requires Sound(View())
      modifies this
      ensures View() == CloseRoomOf(old(View()), roomKey)
    {
      hide OfRoomProviders, OfRoomRequests, Sound, Without, ClosedTransports, CloseRoomOf, CloseTransportOf;
      ghost var s := View();
      CloseRoomProviders(roomKey);
      ghost var a := OfRoomProviders(s, roomKey);
      WithoutKeepsSound(s, a);
      CloseRoomRequests(roomKey);
      RequestsAfterProviders(s, roomKey);
      ghost var ab := a + OfRoomRequests(s, roomKey);
      WithoutKeepsSound(s, ab);
      ghost var w := Without(s, ab);
      NoTransportClosed(s, ab);
      var todo := set t | t in transports && transports[t] == roomKey;
      ghost var done := {};
      while todo != {}
        invariant todo <= RoomTransports(w, roomKey) && done == RoomTransports(w, roomKey) - todo
        invariant View() == ClosedTransports(w, done) && Sound(View())
        decreases |todo|
      {
        var t :| t in todo;
        todo := todo - {t};
        CloseTransport(t);
        OneMoreTransport(w, done, t);
        done := done + {t};
      }
      assert done == RoomTransports(w, roomKey) && View() == ClosedTransports(w, done);
      assert w.transports == s.transports;
      assert View().routers == s.routers;
      if roomKey in routers {
        routers := routers - {roomKey};
      }
      RoomIsGone(s, roomKey);
      assert View() == ClosedTransports(w, RoomTransports(s, roomKey)).(routers := s.routers - {roomKey});
    }
  }

  // ---------------------------------------------------------------- steps of the proofs above

  function Cleared(s: Registry, mediaId: string): Registry {
    s.(requests := s.requests - {mediaId})
  }

  predicate InTable(rs: map<string, map<Id, Entry>>, mediaId: string, roomKey: string, id: Id) {
    mediaId in rs && id in rs[mediaId] && rs[mediaId][id].roomId == roomKey
  }

  /** The registry without some transports and everything on them. */
  function ClosedTransports(s: Registry, ts: set<Id>): (c: Registry)
    ensures c.routers == s.routers
  {
    Without(s, OnAny(s.dataProducers, ts)).(transports := s.transports - ts)
  }

  lemma OneMoreClosed(s: Registry, gone: set<Id>, id: Id)
    requires Sound(s)
    ensures CloseOne(Without(s, gone), id) == Without(s, gone + {id})
  {
    hide Sound, CloseOne, Without;
    WithoutKeepsSound(s, gone);
    CloseOneIsWithout(Without(s, gone), id);
    WithoutTwice(s, gone, {id});
  }

  /** Without its own entry a closing provider changes the other tables as it always does. */
  lemma ProviderGoneFirst(s: Registry, mediaId: string)
    requires Sound(s) && mediaId in s.providers
    ensures var id := s.providers[mediaId].dataProducerId;
            && CloseOne(s.(providers := s.providers - {mediaId}), id) == Without(s, {id})
            && Named(s, mediaId) - TableOf(s, mediaId).Keys == {id}
            && TableOf(Without(s, {id}), mediaId) == TableOf(s, mediaId)
  {
    var id := s.providers[mediaId].dataProducerId;
    assert EntryFits(s.dataProducers, mediaId, s.providers[mediaId], false);
    UnregisterProviderDrops(s.providers, s.dataProducers, id);
    UnregisterRequestDrops(s.requests, s.dataProducers, id);
    assert id !in TableOf(s, mediaId);
  }

  lemma RequestGoneFirst(s: Registry, mediaId: string, id: Id)
    requires Sound(s) && id in TableOf(s, mediaId)
    ensures CloseOne(Cleared(s, mediaId), id) == Cleared(Without(s, {id}), mediaId)
  {
    hide ProvidersFit, UnregisterProvider, DropProviders, UnregisterRequest, DropRequests;
    assert EntryFits(s.dataProducers, mediaId, s.requests[mediaId][id], true);
    var i := s.dataProducers[id];
    UnregisterProviderDrops(s.providers, s.dataProducers, id);
    UnregisterRequestDrops(s.requests, s.dataProducers, id);
    ClearedTable(s.requests, id, i);
  }

  lemma ClearedTable(rs: map<string, map<Id, Entry>>, id: Id, i: Info)
    requires i.localMediaId.Some?
    ensures var m := i.localMediaId.value; UnregisterRequest(rs - {m}, id, i) == UnregisterRequest(rs, id, i) - {m}
  {
  }

  lemma TableEntryGoneFirst(s: Registry, mediaId: string, id: Id)
    requires Sound(s) && mediaId in s.requests && id in s.requests[mediaId]
    ensures CloseOne(s.(requests := s.requests[mediaId := s.requests[mediaId] - {id}]), id) == Without(s, {id})
    ensures TableOf(Without(s, {id}), mediaId) == s.requests[mediaId] - {id}
  {
    hide ProvidersFit, UnregisterProvider, DropProviders;
    assert EntryFits(s.dataProducers, mediaId, s.requests[mediaId][id], true);
    UnregisterProviderDrops(s.providers, s.dataProducers, id);
    UnregisterRequestDrops(s.requests, s.dataProducers, id);
    var cut := s.requests[mediaId] - {id};
    assert cut - {id} == cut;
  }

  function RoomIds(rs: map<string, map<Id, Entry>>, ms: set<string>, roomKey: string): set<Id> {
    set m, id | m in ms && m in rs && id in rs[m] && InTable(rs, m, roomKey, id) :: id
  }

  lemma StillInTable(s: Registry, gone: set<Id>, mediaId: string, id: Id)
    requires id in TableOf(s, mediaId) && id !in gone
    ensures id in TableOf(Without(s, gone), mediaId)
  {
    assert id in s.requests[mediaId] - gone;
  }

  lemma TableIsEmptied(s: Registry, gone: set<Id>, mediaId: string)
    requires TableOf(s, mediaId).Keys <= gone
    ensures Cleared(Without(s, gone), mediaId) == Without(s, gone)
  {
    if mediaId in s.requests {
      assert s.requests[mediaId] - gone == map[];
    }
  }

  lemma NoEmptyTable(s: Registry, mediaId: string)
    requires Sound(s) && TableOf(s, mediaId) == map[]
    ensures mediaId !in s.requests && s.requests - {mediaId} == s.requests
  {
  }

  lemma NoTransportClosed(s: Registry, gone: set<Id>)
    requires Sound(Without(s, gone))
    ensures ClosedTransports(Without(s, gone), {}) == Without(s, gone)
    ensures RoomTransportsKept(s, gone)
  {
    var w := Without(s, gone);
    assert w.transports - {} == w.transports;
    NothingToDrop(w, OnAny(w.dataProducers, {}));
  }

  ghost predicate RoomTransportsKept(s: Registry, gone: set<Id>) {
    Without(s, gone).transports == s.transports && Without(s, gone).routers == s.routers
  }

  lemma NamedWithout(s: Registry, gone: set<Id>, mediaId: string)
    ensures gone + Named(Without(s, gone), mediaId) == gone + Named(s, mediaId)
  {
    if mediaId in s.requests {
      assert s.requests[mediaId].Keys - gone == (s.requests[mediaId] - gone).Keys;
    }
  }

  /** Closing the tables of other media leaves this one alone: a producer is in one table. */
  lemma OtherTablesUntouched(s: Registry, done: set<string>, mediaId: string, roomKey: string)
    requires Sound(s) && mediaId in s.requests && mediaId !in done
    ensures var gone := RoomIds(s.requests, done, roomKey);
            var w := Without(s, gone);
            && mediaId in w.requests && RoomIds(w.requests, {mediaId}, roomKey) == RoomIds(s.requests, {mediaId}, roomKey)
            && gone + RoomIds(s.requests, {mediaId}, roomKey) == RoomIds(s.requests, done + {mediaId}, roomKey)
  {
    var rs := s.requests;
    var gone := RoomIds(rs, done, roomKey);
    forall id | id in rs[mediaId]
      ensures id !in gone
    {
      assert EntryFits(s.dataProducers, mediaId, rs[mediaId][id], true);
      assert forall m | m in rs && id in rs[m] :: EntryFits(s.dataProducers, m, rs[m][id], true);
    }
    assert rs[mediaId] - gone == rs[mediaId];
  }

  lemma NoRoomIds(s: Registry, roomKey: string)
    ensures RoomIds(s.requests, {}, roomKey) == {}
    ensures RoomIds(s.requests, s.requests.Keys, roomKey) == OfRoomRequests(s, roomKey)
  {
  }

  lemma RequestsAfterProviders(s: Registry, roomKey: string)
    ensures var a := OfRoomProviders(s, roomKey);
            Without(Without(s, a), OfRoomRequests(Without(s, a), roomKey)) == Without(s, a + OfRoomRequests(s, roomKey))
  {
    hide OfRoomProviders;
    var a := OfRoomProviders(s, roomKey);
    WithoutTwice(s, a, OfRoomRequests(Without(s, a), roomKey));
    RoomRequestsLeft(s, a, roomKey);
  }

  lemma RoomRequestsLeft(s: Registry, a: set<Id>, roomKey: string)
    ensures a + OfRoomRequests(Without(s, a), roomKey) == a + OfRoomRequests(s, roomKey)
  {
    forall id | id in OfRoomRequests(s, roomKey) && id !in a
      ensures id in OfRoomRequests(Without(s, a), roomKey)
    {
      var m :| InTable(s.requests, m, roomKey, id);
      InTableStill(s.requests, a, m, roomKey, id);
    }
  }

  lemma InTableStill(rs: map<string, map<Id, Entry>>, a: set<Id>, m: string, roomKey: string, id: Id)
    requires InTable(rs, m, roomKey, id) && id !in a
    ensures InTable(DropRequests(rs, a), m, roomKey, id)
  {
    assert id in rs[m] - a;
  }

  lemma OneMoreTransport(s: Registry, ts: set<Id>, t: Id)
    requires Sound(s) && t in s.transports && t !in ts && Sound(ClosedTransports(s, ts))
    ensures CloseTransportOf(ClosedTransports(s, ts), t) == ClosedTransports(s, ts + {t})
    ensures Sound(ClosedTransports(s, ts + {t}))
  {
    hide DropProviders, DropRequests, ProvidersFit, TablesFit;
    var a, b := OnAny(s.dataProducers, ts), OnAny(s.dataProducers, {t});
    WithoutTwice(s, a, b);
    assert OnAny(s.dataProducers - a, {t}) == b;
    assert a + b == OnAny(s.dataProducers, ts + {t});
    assert s.transports - ts - {t} == s.transports - (ts + {t});
    WithoutKeepsSound(s, a + b);
  }

  lemma RoomIsGone(s: Registry, roomKey: string)
    ensures var ab := OfRoomProviders(s, roomKey) + OfRoomRequests(s, roomKey);
            ClosedTransports(Without(s, ab), RoomTransports(s, roomKey)).(routers := s.routers - {roomKey}) == CloseRoomOf(s, roomKey)
  {
    hide OfRoomProviders, OfRoomRequests, DropProviders, DropRequests;
    var ab := OfRoomProviders(s, roomKey) + OfRoomRequests(s, roomKey);
    var ts := RoomTransports(s, roomKey);
    var c := OnAny(s.dataProducers - ab, ts);
    WithoutTwice(s, ab, c);
    assert ab + c == ClosedWithRoom(s, roomKey);
  }
}
