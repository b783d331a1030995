/** Normalising a stored room: whatever was read back, the repaired room is within its limits
    and well formed. */
module Repair {
  import opened Js
  import RoomLog

  /** A stored value of unknown type. `asNumber` is what a comparison turns it into. */
  datatype Raw = Undefined | Null | Boolean(flag: bool) | Number(n: Num) | Text(text: string, asNumber: Num) | Other(asNumber: Num)

  predicate Truthy(r: Raw) {
    match r
    case Undefined => false
    case Null => false
    case Boolean(b) => b
    case Number(n) => n != NaN && n != Fin(0.0)
    case Text(t, _) => t != ""
    case Other(_) => true
  }

  function ToNumber(r: Raw): Num {
    match r
    case Undefined => NaN
    case Null => Fin(0.0)
    case Boolean(b) => Fin(if b then 1.0 else 0.0)
    case Number(n) => n
    case Text(_, n) => n
    case Other(n) => n
  }

  predicate AtLeast(n: Num, bound: real) {
    n == PosInf || (n.Fin? && n.value >= bound)
  }

  predicate Below(n: Num, bound: real) {
    n == NegInf || (n.Fin? && n.value < bound)
  }

  predicate IsFinite(r: Raw) {
    r.Number? && r.n.Fin?
  }

  predicate Is(r: Raw, text: string) {
    r.Text? && r.text == text
  }

  predicate NonEmptyText(r: Raw) {
    r.Text? && r.text != ""
  }

  function Word(text: string): Raw {
    Text(text, NaN)
  }

  function Amount(x: real): Raw {
    Number(Fin(x))
  }

  // ---------------------------------------------------------------- playlist items

  /** Fields of an older schema, `Undefined` when absent. */
  datatype Legacy = Legacy(isResolving: Raw, resolutionError: Raw, originalUrl: Raw, selectedStreamId: Raw, selectedTextTrackId: Raw)

  const NoLegacy := Legacy(Undefined, Undefined, Undefined, Undefined, Undefined)

  datatype Item = Item(id: Raw, name: Raw, sourceUrl: Raw, playableUrl: Raw, localMediaId: Raw, sourceKind: Raw, playbackMode: Raw,
                       ingestStatus: Raw, ingestError: Raw, defaultStreamId: Raw, defaultTextTrackId: Raw, legacy: Legacy)

  predicate WellTyped(i: Item) {
    i.id.Text? && i.name.Text? && i.sourceUrl.Text? && i.playableUrl.Text?
  }

  predicate KnownStatus(r: Raw) {
    Is(r, "ready") || Is(r, "resolving") || Is(r, "error")
  }

  /** Item fields in range, nothing left of the older schema. */
  predicate ItemFits(i: Item) {
    && WellTyped(i)
    && KnownKind(i.sourceKind) && KnownMode(i.playbackMode)
    && (Is(i.sourceKind, "local_file") ==> Is(i.playbackMode, "direct"))
    && KnownStatus(i.ingestStatus)
    && i.legacy == NoLegacy
  }

  function Migrated(current: Raw, old_: Raw): Raw {
    if CanMigrate(current, old_) then old_ else current
  }

  function Mended(i: Item): Item {
    var kind := if KnownKind(i.sourceKind) then i.sourceKind
                else if Truthy(i.localMediaId) then Word("local_file") else Word("remote_url");
    var mode := if Is(i.playbackMode, "direct") then i.playbackMode
                else if Is(i.playbackMode, "relay") && !Is(kind, "local_file") then i.playbackMode
                else Word("direct");
    var status := if KnownStatus(i.ingestStatus) then i.ingestStatus
                  else if Truthy(i.legacy.isResolving) then Word("resolving")
                  else if Truthy(i.legacy.resolutionError) then Word("error") else Word("ready");
    i.(sourceKind := kind, playbackMode := mode, ingestStatus := status,
       ingestError := Migrated(i.ingestError, i.legacy.resolutionError),
       defaultStreamId := Migrated(i.defaultStreamId, i.legacy.selectedStreamId),
       defaultTextTrackId := Migrated(i.defaultTextTrackId, i.legacy.selectedTextTrackId),
       legacy := NoLegacy)
  }

  datatype Finding =
    | RoomIdInvalid | OwnerRepaired | SecurityRepaired | PasswordDisabled
    | PlaylistRepaired | SourceKindRepaired | PlaybackModeRepaired | LocalPlaybackModeRepaired | IngestStatusRepaired
    | IngestErrorMigrated | DefaultStreamMigrated | DefaultTextTrackMigrated
    | IndexClamped | IndexRepaired | PlaylistTrimmed
    | ParticipantsRepaired | ParticipantsCleaned | JoinedAtRepaired | ParticipantsTrimmed
    | ActionLogRepaired | ActionLogFiltered | ActionLogTrimmed
    | PlaybackObjectRepaired | PlaybackRepaired | HistoryStripped | ShuffleStripped
    | UpdatedAtRepaired | GenerationRepaired | StructuralRevisionRepaired

  function If(c: bool, f: Finding): seq<Finding> {
    if c then [f] else []
  }

  predicate KnownKind(r: Raw) {
    Is(r, "remote_url") || Is(r, "local_file")
  }

  predicate KnownMode(r: Raw) {
    Is(r, "direct") || Is(r, "relay")
  }

  predicate CanMigrate(current: Raw, old_: Raw) {
    !Truthy(current) && old_.Text?
  }

  function ItemFindings(i: Item): seq<Finding> {
    If(!KnownKind(i.sourceKind), SourceKindRepaired)
    + If(!KnownMode(i.playbackMode), PlaybackModeRepaired)
    + If(Is(Mended(i).sourceKind, "local_file") && Is(i.playbackMode, "relay"), LocalPlaybackModeRepaired)
    + If(!KnownStatus(i.ingestStatus), IngestStatusRepaired)
    + If(CanMigrate(i.ingestError, i.legacy.resolutionError), IngestErrorMigrated)
    + If(CanMigrate(i.defaultStreamId, i.legacy.selectedStreamId), DefaultStreamMigrated)
    + If(CanMigrate(i.defaultTextTrackId, i.legacy.selectedTextTrackId), DefaultTextTrackMigrated)
  }

  /** The repair of one item, field by field. */
  method RepairPlaylistItemFields(given: Item) returns (item: Item, findings: seq<Finding>)
    ensures item == Mended(given) && findings == ItemFindings(given)
  {
    hide If, CanMigrate, KnownStatus;
    item := given;
    findings := If(!KnownKind(item.sourceKind), SourceKindRepaired);
    if !KnownKind(item.sourceKind) {
      item := item.(sourceKind := if Truthy(item.localMediaId) then Word("local_file") else Word("remote_url"));
    }
    findings := findings + If(!KnownMode(item.playbackMode), PlaybackModeRepaired);
    if !KnownMode(item.playbackMode) {
      item := item.(playbackMode := Word("direct"));
    }
    findings := findings + If(Is(item.sourceKind, "local_file") && Is(item.playbackMode, "relay"), LocalPlaybackModeRepaired);
    if Is(item.sourceKind, "local_file") && Is(item.playbackMode, "relay") {
      item := item.(playbackMode := Word("direct"));
    }
    findings := findings + If(!KnownStatus(item.ingestStatus), IngestStatusRepaired);
    if !KnownStatus(item.ingestStatus) {
      item := item.(ingestStatus := if Truthy(item.legacy.isResolving) then Word("resolving")
                                    else if Truthy(item.legacy.resolutionError) then Word("error") else Word("ready"));
    }
    findings := findings + If(CanMigrate(item.ingestError, item.legacy.resolutionError), IngestErrorMigrated);
    if CanMigrate(item.ingestError, item.legacy.resolutionError) {
      item := item.(ingestError := item.legacy.resolutionError);
    }
    findings := findings + If(CanMigrate(item.defaultStreamId, item.legacy.selectedStreamId), DefaultStreamMigrated);
    if CanMigrate(item.defaultStreamId, item.legacy.selectedStreamId) {
      item := item.(defaultStreamId := item.legacy.selectedStreamId);
    }
    findings := findings + If(CanMigrate(item.defaultTextTrackId, item.legacy.selectedTextTrackId), DefaultTextTrackMigrated);
    if CanMigrate(item.defaultTextTrackId, item.legacy.selectedTextTrackId) {
      item := item.(defaultTextTrackId := item.legacy.selectedTextTrackId);
    }
    item := item.(legacy := NoLegacy);
  }

  lemma MendingSettles(i: Item)
    requires WellTyped(i)
    ensures ItemFits(Mended(i)) && Mended(Mended(i)) == Mended(i)
    ensures ItemFits(i) <==> Mended(i) == i
    ensures ItemFits(i) ==> ItemFindings(i) == []
  {
  }

  /** Which of the two holds the text of a field that has moved: the field itself while it has a
      value, else the older one when that is a text. */
  predicate Moved(mended: Raw, current: Raw, old_: Raw) {
    && (Truthy(current) ==> mended == current)
    && (!Truthy(current) && old_.Text? ==> mended == old_)
    && (!Truthy(current) && !old_.Text? ==> mended == current)
  }

  /** A repaired item names the same medium; what it knew under an older name is lost exactly where
      the field has a value of its own; only a relayed remote item stays relayed, and an unknown
      kind or status is read off the other fields. */
  lemma MendingKeepsTheItem(i: Item)
    ensures var m := Mended(i);
            && (m.id, m.name, m.sourceUrl, m.playableUrl, m.localMediaId) == (i.id, i.name, i.sourceUrl, i.playableUrl, i.localMediaId)
            && Moved(m.ingestError, i.ingestError, i.legacy.resolutionError)
            && Moved(m.defaultStreamId, i.defaultStreamId, i.legacy.selectedStreamId)
            && Moved(m.defaultTextTrackId, i.defaultTextTrackId, i.legacy.selectedTextTrackId)
            && (KnownKind(i.sourceKind) ==> m.sourceKind == i.sourceKind)
            && (!KnownKind(i.sourceKind) ==> (Is(m.sourceKind, "local_file") <==> Truthy(i.localMediaId)))
            && (Is(m.playbackMode, "relay") <==> Is(i.playbackMode, "relay") && !Is(m.sourceKind, "local_file"))
            && (KnownStatus(i.ingestStatus) ==> m.ingestStatus == i.ingestStatus)
            && (!KnownStatus(i.ingestStatus) ==>
                  && (Is(m.ingestStatus, "resolving") <==> Truthy(i.legacy.isResolving))
                  && (Is(m.ingestStatus, "error") <==> !Truthy(i.legacy.isResolving) && Truthy(i.legacy.resolutionError)))
  {
  }

  /** The older text is lost exactly when the field has another value already; a repair reports the
      move exactly when it makes one. */
  lemma OlderTextIsLostIff(i: Item)
    requires i.legacy.resolutionError.Text?
    ensures Mended(i).ingestError != i.legacy.resolutionError <==> Truthy(i.ingestError) && i.ingestError != i.legacy.resolutionError
    ensures IngestErrorMigrated in ItemFindings(i) <==> !Truthy(i.ingestError)
  {
    hide Mended, KnownKind, KnownMode, KnownStatus, Is;
    MendingKeepsTheItem(i);
  }
}
