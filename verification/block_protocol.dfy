/** Byte-range requests for a local file: validation and reading on the provider's side, and
    the messages both transports put on their channel. */
module BlockProtocol {
  import opened Js

  type Byte = bv8
  /** A request id as it appears on the wire: ASCII characters, one byte each. */
  type Id = seq<Byte>

  const REQUEST_ID_LENGTH: nat := 36
  const MAX_BLOCK_BYTES: nat := 256 * 1024
  const MAX_FRAME_PAYLOAD: nat := 60 * 1024

  datatype ErrorCode = ProviderUnavailable | InvalidRange | RangeTooLarge | ReadFailed | TimedOut

  /** An inclusive range request. A bound that is missing or not a finite number is `None`. */
  datatype RangeRequest = RangeRequest(id: Option<Id>, start: Option<int>, end: Option<int>)

  datatype ServeResult = Served(bytes: seq<Byte>) | Refused(error: ErrorCode)

  /** How the read of the file ends, the environment's choice. */
  datatype ReadOutcome = Completes | Aborts | Fails

  /** `file.slice(start, end + 1)`: cut at the end of the file. */
  function Slice(file: seq<Byte>, start: nat, end: nat): seq<Byte>
    requires start <= end
  {
    file[MinInt(start, |file|)..MinInt(end + 1, |file|)]
  }

  function Serve(file: Option<seq<Byte>>, r: RangeRequest, requireIdLength: bool, abortedBefore: bool, read: ReadOutcome): ServeResult {
    if requireIdLength && (r.id.None? || |r.id.value| != REQUEST_ID_LENGTH) then Refused(ProviderUnavailable)
    else if file.None? then Refused(ProviderUnavailable)
    else if r.start.None? || r.end.None? || r.start.value < 0 || r.end.value < r.start.value then Refused(InvalidRange)
    else if r.end.value - r.start.value + 1 > MAX_BLOCK_BYTES then Refused(RangeTooLarge)
    else if abortedBefore then Refused(TimedOut)
    else match read
      case Completes => Served(Slice(file.value, r.start.value, r.end.value))
      case Aborts => Refused(TimedOut)
      case Fails => Refused(ReadFailed)
  }

  /** Bytes are served exactly for a well-formed range of a file at hand whose read completes;
      they are never more than a block, and they are the whole range exactly when it lies
      inside the file. */
  lemma ServeIsExact(file: Option<seq<Byte>>, r: RangeRequest, requireIdLength: bool, abortedBefore: bool, read: ReadOutcome)
    ensures var res := Serve(file, r, requireIdLength, abortedBefore, read);
            && (res.Served? <==>
                  && (requireIdLength ==> r.id.Some? && |r.id.value| == REQUEST_ID_LENGTH)
                  && file.Some? && r.start.Some? && r.end.Some? && 0 <= r.start.value <= r.end.value
                  && r.end.value - r.start.value < MAX_BLOCK_BYTES && !abortedBefore && read == Completes)
            && (res.Served? ==>
                  && |res.bytes| <= MAX_BLOCK_BYTES
                  && (forall i | 0 <= i < |res.bytes| ::
                        r.start.value + i < |file.value| && res.bytes[i] == file.value[r.start.value + i])
                  && (|res.bytes| == r.end.value + 1 - r.start.value <==> r.end.value < |file.value|))
  {
  }
}
