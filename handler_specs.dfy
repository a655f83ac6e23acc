/** What each IOCTL handler of the libusb translation layer does, stated as
    a relation between the caller's request (the input bytes and the two
    declared lengths), the transfers the handler issues with the results the
    device gave, and the handler's result. The handler methods in
    LibusbTranslation are proved to satisfy these relations. */
module HandlerSpecs {
  import opened Win32
  import opened Libusb
  import opened Ezusb
  import opened RequestType
  import opened AnchorChunks
  import opened IoctlResult

  // ---------------------------------------------------------------------
  // Vendor request

  /** The bytes `std::iota` with start 0 stores into a `uint8_t` vector of
      length n: its `int` counter 0, 1, ..., n - 1, each value converted to
      `uint8_t` on the store, so 0, 1, ..., 255, 0, 1, ... */
  function Ascending(n: nat): seq<Byte>
  {
    if n == 0 then [] else Ascending(n - 1) + [((n - 1) % 0x100) as Byte]
  }

  lemma {:induction false} AscendingBytes(n: nat)
    ensures |Ascending(n)| == n
    ensures forall i :: 0 <= i < n ==> Ascending(n)[i] as int == i % 0x100
  {
    if n > 0 {
      AscendingBytes(n - 1);
      assert forall i :: 0 <= i < n - 1 ==> Ascending(n)[i] == Ascending(n - 1)[i];
    }
  }

  /** The payload of a vendor write: the inline byte when one byte is asked
      for, the ascending bytes otherwise. */
  function WritePayload(wLength: Word, bData: Byte): seq<Byte>
  {
    if wLength == 1 then [bData] else Ascending(wLength as int)
  }

  /** A vendor write sends exactly wLength bytes: [bData] when wLength is 1,
      and byte i equal to i mod 256 otherwise. */
  lemma WritePayloadBytes(wLength: Word, bData: Byte)
    ensures |WritePayload(wLength, bData)| == wLength as int
    ensures wLength == 1 ==> WritePayload(wLength, bData) == [bData]
    ensures wLength != 1 ==>
              forall i :: 0 <= i < wLength as int ==> WritePayload(wLength, bData)[i] as int == i % 0x100
  {
    AscendingBytes(wLength as int);
  }

  /** The control transfer a VENDOR_REQUEST_IN asks for: a vendor request to
      the device, reading wLength bytes when `direction` is set, writing the
      payload otherwise. */
  function VendorRequestTransfer(req: VendorRequestIn): Transfer
  {
    if req.direction != 0 then
      ControlIn(LIBUSB_REQUEST_TYPE_VENDOR | LIBUSB_RECIPIENT_DEVICE, req.bRequest, req.wValue, req.wIndex, req.wLength)
    else
      ControlOut(LIBUSB_REQUEST_TYPE_VENDOR | LIBUSB_RECIPIENT_DEVICE, req.bRequest, req.wValue, req.wIndex,
                 WritePayload(req.wLength, req.bData))
  }

  /** The vendor request's result: a write's negative status is clamped to
      0, then a positive status is the byte count. Whatever the direction,
      the status is success and a count is reported exactly when the device
      returned a positive value, which it then equals; the clamp is never
      observable. */
  function VendorRequestResult(isRead: bool, status: Int32): (r: HandlerResult)
    ensures r.error == ERROR_SUCCESS
    ensures r.bytesReturned.Some? <==> status > 0
    ensures r.bytesReturned.Some? ==> r.bytesReturned.value as int == status as int
  {
    var s := if isRead then status else if status < 0 then 0 else status;
    if s > 0 then HandlerResult(ERROR_SUCCESS, Some(s as int as Dword)) else HandlerResult(ERROR_SUCCESS, None)
  }

  ghost predicate VendorRequestSpec(inBytes: seq<Byte>, inLen: Dword, calls: seq<Call>, r: HandlerResult)
    requires inLen as int <= |inBytes|
  {
    if inLen < VENDOR_REQUEST_IN_SIZE then
      calls == [] && r == InvalidParameter
    else
      var req := DecodeVendorRequestIn(inBytes);
      && |calls| == 1
      && calls[0].transfer == VendorRequestTransfer(req)
      && r == VendorRequestResult(req.direction != 0, calls[0].status)
  }

  /** How many leading bytes of the input buffer a vendor read may
      overwrite with the device's answer. */
  function VendorReadLength(inBytes: seq<Byte>, inLen: Dword): nat
    requires inLen as int <= |inBytes|
  {
    if inLen < VENDOR_REQUEST_IN_SIZE then 0
    else
      var req := DecodeVendorRequestIn(inBytes);
      if req.direction != 0 then req.wLength as int else 0
  }

  /** The answer of a vendor read fits in the input buffer the caller
      declared. The driver code does not check this. */
  predicate VendorReadFits(inBytes: seq<Byte>, inLen: Dword)
    requires inLen as int <= |inBytes|
  {
    VendorReadLength(inBytes, inLen) <= inLen as int
  }

  // ---------------------------------------------------------------------
  // Bulk read and bulk write

  /** How many leading bytes of the output buffer a bulk read may
      overwrite: none when the request is rejected, outLen otherwise. */
  function BulkReadLength(inLen: Dword, outLen: Dword): nat
  {
    if inLen < BULK_TRANSFER_CONTROL_SIZE then 0 else outLen as int
  }

  /** A bulk transfer's libusb code maps to success or general failure; no
      byte count is reported. */
  function BulkResult(err: Int32): (r: HandlerResult)
    ensures r.error == ERROR_SUCCESS <==> err == LIBUSB_SUCCESS
    ensures r.error == ERROR_GEN_FAILURE <==> err != LIBUSB_SUCCESS
    ensures r.bytesReturned == None
  {
    HandlerResult(if err == LIBUSB_SUCCESS then ERROR_SUCCESS else ERROR_GEN_FAILURE, None)
  }

  ghost predicate BulkReadSpec(inBytes: seq<Byte>, inLen: Dword, outLen: Dword, calls: seq<Call>, r: HandlerResult)
    requires inLen as int <= |inBytes|
  {
    if inLen < BULK_TRANSFER_CONTROL_SIZE then
      calls == [] && r == InvalidParameter
    else
      && |calls| == 1
      && calls[0].transfer == BulkIn(DecodeBulkTransferControl(inBytes).pipeNum, outLen)
      && r == BulkResult(calls[0].status)
  }

  ghost predicate BulkWriteSpec(inBytes: seq<Byte>, inLen: Dword, outBytes: seq<Byte>, outLen: Dword,
                                calls: seq<Call>, r: HandlerResult)
    requires inLen as int <= |inBytes| && outLen as int <= |outBytes|
  {
    if inLen < BULK_TRANSFER_CONTROL_SIZE then
      calls == [] && r == InvalidParameter
    else
      && |calls| == 1
      && calls[0].transfer == BulkOut(DecodeBulkTransferControl(inBytes).pipeNum, outBytes[..outLen])
      && r == BulkResult(calls[0].status)
  }

  // ---------------------------------------------------------------------
  // Anchor download

  /** Chunk i was acknowledged short: the device's count differs from the
      chunk's wLength. */
  predicate ChunkShort(len: nat, calls: seq<Call>, i: nat)
    requires i < |calls|
  {
    calls[i].status as int != ChunkLength(len, i)
  }

  /** The calls are chunks 0, 1, ... of the payload, in ascending order,
      each one acknowledged in full. */
  ghost predicate AnchorAcked(offset: Word, data: seq<Byte>, len: nat, calls: seq<Call>)
    requires len <= |data|
  {
    && |calls| <= ChunkCount(len)
    && forall i :: 0 <= i < |calls| ==>
         calls[i].transfer == ChunkTransfer(offset, data, len, i) && !ChunkShort(len, calls, i)
  }

  /** The calls of an anchor download: either every chunk, each acknowledged
      in full, or the chunks up to and including the first one acknowledged
      short, after which nothing more is sent. */
  ghost predicate AnchorTrace(offset: Word, data: seq<Byte>, len: nat, calls: seq<Call>)
    requires len <= |data|
  {
    || (|calls| == ChunkCount(len) && AnchorAcked(offset, data, len, calls))
    || (&& 0 < |calls| <= ChunkCount(len)
        && AnchorAcked(offset, data, len, calls[..|calls| - 1])
        && calls[|calls| - 1].transfer == ChunkTransfer(offset, data, len, |calls| - 1)
        && ChunkShort(len, calls, |calls| - 1))
  }

  /** One more chunk acknowledged in full extends an acknowledged prefix. */
  lemma AnchorAckedStep(offset: Word, data: seq<Byte>, len: nat, calls: seq<Call>, c: Call)
    requires len <= |data| && AnchorAcked(offset, data, len, calls) && |calls| < ChunkCount(len)
    requires c.transfer == ChunkTransfer(offset, data, len, |calls|)
    requires c.status as int == ChunkLength(len, |calls|)
    ensures AnchorAcked(offset, data, len, calls + [c])
  {
    var next := calls + [c];
    forall i | 0 <= i < |next|
      ensures next[i].transfer == ChunkTransfer(offset, data, len, i) && !ChunkShort(len, next, i)
    {
      if i < |calls| {
        assert next[i] == calls[i];
        assert !ChunkShort(len, calls, i);
      }
    }
  }

  /** A chunk acknowledged short after an acknowledged prefix ends the
      download's trace. */
  lemma AnchorShortEnds(offset: Word, data: seq<Byte>, len: nat, calls: seq<Call>, c: Call)
    requires len <= |data| && AnchorAcked(offset, data, len, calls) && |calls| < ChunkCount(len)
    requires c.transfer == ChunkTransfer(offset, data, len, |calls|)
    requires c.status as int != ChunkLength(len, |calls|)
    ensures AnchorTrace(offset, data, len, calls + [c])
    ensures AnchorOutcome(len, calls + [c]) == HandlerResult(ERROR_GEN_FAILURE, None)
  {
    assert (calls + [c])[..|calls|] == calls;
  }

  /** Every chunk acknowledged in full completes the trace of a successful
      download. */
  lemma AnchorAckedEnds(offset: Word, data: seq<Byte>, len: nat, calls: seq<Call>)
    requires len <= |data| && AnchorAcked(offset, data, len, calls) && |calls| == ChunkCount(len)
    ensures AnchorTrace(offset, data, len, calls)
    ensures AnchorOutcome(len, calls) == HandlerResult(ERROR_SUCCESS, None)
  {
    if |calls| > 0 {
      assert !ChunkShort(len, calls, |calls| - 1);
    }
  }

  /** Success unless the last chunk sent came back short. */
  function AnchorOutcome(len: nat, calls: seq<Call>): HandlerResult
    requires |calls| <= ChunkCount(len)
  {
    if |calls| > 0 && ChunkShort(len, calls, |calls| - 1)
    then HandlerResult(ERROR_GEN_FAILURE, None)
    else HandlerResult(ERROR_SUCCESS, None)
  }

  ghost predicate AnchorDownloadSpec(inBytes: seq<Byte>, inLen: Dword, outBytes: seq<Byte>, outLen: Dword,
                                     calls: seq<Call>, r: HandlerResult)
    requires inLen as int <= |inBytes| && outLen as int <= |outBytes|
  {
    if inLen < ANCHOR_DOWNLOAD_CONTROL_SIZE then
      calls == [] && r == InvalidParameter
    else
      && AnchorTrace(DecodeAnchorDownloadControl(inBytes).offset, outBytes, outLen as int, calls)
      && r == AnchorOutcome(outLen as int, calls)
  }

  /** The bytes a transfer carries to the device: a write's payload,
      nothing for a read. */
  function Outgoing(t: Transfer): seq<Byte>
  {
    match t
    case ControlOut(_, _, _, _, payload) => payload
    case BulkOut(_, payload) => payload
    case _ => []
  }

  /** The bytes the calls carried to the device, in order. */
  function SentBytes(calls: seq<Call>): seq<Byte>
  {
    if |calls| == 0 then [] else SentBytes(calls[..|calls| - 1]) + Outgoing(calls[|calls| - 1].transfer)
  }

  lemma {:induction false} SentBytesOfAnchorTrace(offset: Word, data: seq<Byte>, len: nat, calls: seq<Call>)
    requires len <= |data| && |calls| <= ChunkCount(len)
    requires forall i :: 0 <= i < |calls| ==> calls[i].transfer == ChunkTransfer(offset, data, len, i)
    ensures SentBytes(calls) == PayloadOfChunks(offset, data, len, |calls|)
  {
    if |calls| > 0 {
      var k := |calls| - 1;
      var init := calls[..k];
      forall i | 0 <= i < k
        ensures init[i].transfer == ChunkTransfer(offset, data, len, i)
      {
        assert init[i] == calls[i];
      }
      SentBytesOfAnchorTrace(offset, data, len, init);
      var last := ChunkTransfer(offset, data, len, k);
      assert calls[k].transfer == last;
      assert Outgoing(last) == last.payload;
    }
  }

  /** An anchor download never reports a byte count; it succeeds exactly
      when every chunk was sent and acknowledged in full, and then the device
      has received exactly the first len bytes of the output buffer; it
      fails with general failure exactly when it stopped at a chunk that came
      back short. */
  lemma AnchorDownloadOutcome(offset: Word, data: seq<Byte>, len: nat, calls: seq<Call>)
    requires len <= |data| && AnchorTrace(offset, data, len, calls)
    ensures AnchorOutcome(len, calls).bytesReturned == None
    ensures AnchorOutcome(len, calls).error == ERROR_SUCCESS <==>
              |calls| == ChunkCount(len) && forall i :: 0 <= i < |calls| ==> !ChunkShort(len, calls, i)
    ensures AnchorOutcome(len, calls).error == ERROR_GEN_FAILURE <==>
              |calls| > 0 && ChunkShort(len, calls, |calls| - 1)
    ensures AnchorOutcome(len, calls).error == ERROR_SUCCESS ==> SentBytes(calls) == data[..len]
  {
    if |calls| == ChunkCount(len) && AnchorAcked(offset, data, len, calls) {
      if |calls| > 0 {
        assert !ChunkShort(len, calls, |calls| - 1);
      }
      SentBytesOfAnchorTrace(offset, data, len, calls);
      DownloadSendsPayload(offset, data, len);
    } else {
      var init := calls[..|calls| - 1];
      if |calls| == ChunkCount(len) {
        assert forall i :: 0 <= i < |calls| - 1 ==> calls[i] == init[i] && !ChunkShort(len, init, i);
      }
    }
  }

  // ---------------------------------------------------------------------
  // Vendor or class request

  /** The control transfer a VENDOR_OR_CLASS_REQUEST_CONTROL asks for: the
      decoded bmRequestType, and the output buffer as data stage, its
      length cast to uint16_t. */
  function VendorOrClassTransfer(req: VendorOrClassRequestControl, outBytes: seq<Byte>, outLen: Dword): Transfer
    requires outLen as int <= |outBytes|
  {
    var length := (outLen as int % 0x1_0000) as Word;
    var requestType := BmRequestType(req.requestType, req.recepient);
    if req.direction != 0 then
      ControlIn(requestType, req.request, req.value, req.index, length)
    else
      ControlOut(requestType, req.request, req.value, req.index, outBytes[..length])
  }

  /** A vendor-or-class control transfer succeeds when libusb returns a
      byte count (a non-negative value) and fails with general failure on a
      negative error; no byte count is reported. */
  function ControlResult(status: Int32): (r: HandlerResult)
    ensures r.error == ERROR_SUCCESS <==> status >= 0
    ensures r.error == ERROR_GEN_FAILURE <==> status < 0
    ensures r.bytesReturned == None
  {
    HandlerResult(if status >= 0 then ERROR_SUCCESS else ERROR_GEN_FAILURE, None)
  }

  /** How many leading bytes of the output buffer a vendor-or-class request
      may overwrite: the `uint16_t` length for a device-to-host request,
      none for a host-to-device one or a rejected request. */
  function VendorOrClassReadLength(inBytes: seq<Byte>, inLen: Dword, outLen: Dword): nat
    requires inLen as int <= |inBytes|
  {
    if inLen < VENDOR_OR_CLASS_REQUEST_CONTROL_SIZE then 0
    else if DecodeVendorOrClassRequestControl(inBytes).direction != 0 then outLen as int % 0x1_0000
    else 0
  }

  ghost predicate VendorOrClassSpec(inBytes: seq<Byte>, inLen: Dword, outBytes: seq<Byte>, outLen: Dword,
                                    calls: seq<Call>, r: HandlerResult)
    requires inLen as int <= |inBytes| && outLen as int <= |outBytes|
  {
    if inLen < VENDOR_OR_CLASS_REQUEST_CONTROL_SIZE then
      calls == [] && r == InvalidParameter
    else
      && |calls| == 1
      && calls[0].transfer == VendorOrClassTransfer(DecodeVendorOrClassRequestControl(inBytes), outBytes, outLen)
      && r == ControlResult(calls[0].status)
  }

  // ---------------------------------------------------------------------
  // Driver version

  /** The version query fails with general failure (not invalid parameter)
      when the output buffer cannot hold an EZUSB_DRIVER_VERSION, and
      otherwise succeeds reporting the record's size. */
  function VersionQueryResult(outLen: Dword): (r: HandlerResult)
    ensures r.error == ERROR_SUCCESS <==> outLen >= EZUSB_DRIVER_VERSION_SIZE
    ensures r.error != ERROR_SUCCESS ==> r.error == ERROR_GEN_FAILURE && r.bytesReturned == None
    ensures r.error == ERROR_SUCCESS ==> r.bytesReturned == Some(EZUSB_DRIVER_VERSION_SIZE)
  {
    if outLen < EZUSB_DRIVER_VERSION_SIZE
    then HandlerResult(ERROR_GEN_FAILURE, None)
    else HandlerResult(ERROR_SUCCESS, Some(EZUSB_DRIVER_VERSION_SIZE))
  }

  // ---------------------------------------------------------------------
  // All handlers

  /** The input record size each length-checked handler validates. */
  function RequiredInputSize(code: Ioctl): Option<Dword>
  {
    match code
    case VendorRequest => Some(VENDOR_REQUEST_IN_SIZE)
    case BulkRead => Some(BULK_TRANSFER_CONTROL_SIZE)
    case BulkWrite => Some(BULK_TRANSFER_CONTROL_SIZE)
    case AnchorDownload => Some(ANCHOR_DOWNLOAD_CONTROL_SIZE)
    case VendorOrClassRequest => Some(VENDOR_OR_CLASS_REQUEST_CONTROL_SIZE)
    case _ => None
  }

  /** The handler registered for `code`, given the request, issued `calls`
      and returned `r`. Opcodes without a handler satisfy nothing. */
  ghost predicate Handled(code: Ioctl, inBytes: seq<Byte>, inLen: Dword, outBytes: seq<Byte>, outLen: Dword,
                          calls: seq<Call>, r: HandlerResult)
    requires inLen as int <= |inBytes| && outLen as int <= |outBytes|
  {
    match code
    case VendorRequest => VendorRequestSpec(inBytes, inLen, calls, r)
    case BulkRead => BulkReadSpec(inBytes, inLen, outLen, calls, r)
    case BulkWrite => BulkWriteSpec(inBytes, inLen, outBytes, outLen, calls, r)
    case ResetPipe => calls == [] && r == HandlerResult(ERROR_SUCCESS, None)
    case AbortPipe => calls == [] && r == HandlerResult(ERROR_SUCCESS, None)
    case AnchorDownload => AnchorDownloadSpec(inBytes, inLen, outBytes, outLen, calls, r)
    case VendorOrClassRequest => VendorOrClassSpec(inBytes, inLen, outBytes, outLen, calls, r)
    case GetDriverVersion => calls == [] && r == VersionQueryResult(outLen)
    case _ => false
  }

  /** Every length-checked handler rejects an input buffer shorter than its
      record with invalid parameter, before issuing any transfer. */
  lemma UndersizedInputRejected(code: Ioctl, inBytes: seq<Byte>, inLen: Dword, outBytes: seq<Byte>, outLen: Dword,
                                calls: seq<Call>, r: HandlerResult)
    requires inLen as int <= |inBytes| && outLen as int <= |outBytes|
    requires RequiredInputSize(code).Some? && inLen < RequiredInputSize(code).value
    requires Handled(code, inBytes, inLen, outBytes, outLen, calls, r)
    ensures calls == [] && r == HandlerResult(ERROR_INVALID_PARAMETER, None)
  {
  }

  /** What a dispatch must be able to rely on: a vendor read's answer fits
      in the input buffer, and an anchor download's length keeps
      `outBufferLen + 63` within a DWORD and every `i * 64` within an `int`
      (see ChunkArithmeticInRange). */
  predicate DispatchPrecondition(code: Ioctl, inBytes: seq<Byte>, inLen: Dword, outLen: Dword)
    requires inLen as int <= |inBytes|
  {
    match code
    case VendorRequest => VendorReadFits(inBytes, inLen)
    case AnchorDownload => outLen as int <= MAX_ANCHOR_DOWNLOAD_LENGTH
    case _ => true
  }
}
