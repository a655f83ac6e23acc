/** The libusb translation layer: one handler per IOCTL, each turning the
    caller's request into primitive transfers on the attached device, and
    the dispatcher that looks the handler up, runs it and passes its byte
    count back. An IOCTL without a handler is accepted as a silent success.

    The device is passed to every handler instead of being read from a
    process-wide optional, so "a device is attached" is the non-null
    `dev` argument. */
module LibusbTranslation {
  import opened Win32
  import opened Libusb
  import opened Ezusb
  import opened RequestType
  import opened AnchorChunks
  import opened IoctlResult
  import opened HandlerSpecs

  /** The declared lengths lie inside the buffers the caller passed. */
  predicate BuffersHold(inBuf: array<Byte>, inLen: Dword, outBuf: array<Byte>, outLen: Dword)
  {
    inLen as int <= inBuf.Length && outLen as int <= outBuf.Length
  }

  /** The IOCTLs with a handler: every one the layer names except
      GET_CURRENT_CONFIG. */
  const Registered: set<Ioctl> :=
    {VendorRequest, BulkRead, BulkWrite, ResetPipe, AbortPipe, AnchorDownload, VendorOrClassRequest, GetDriverVersion}

  /** Which of the caller's buffers a handler may write. */
  function Writes(code: Ioctl, inBuf: array<Byte>, outBuf: array<Byte>): set<array<Byte>>
  {
    match code
    case VendorRequest => {inBuf}
    case BulkRead => {outBuf}
    case VendorOrClassRequest => {outBuf}
    case GetDriverVersion => {outBuf}
    case _ => {}
  }

  // ---------------------------------------------------------------------
  // The vendor-write buffer

  /** `std::iota(first, last, 0)` over a `uint8_t` range: the counter has
      the type of the literal 0, `int`, and counts 0, 1, 2, ... without
      wrapping (a vector here holds at most 65535 bytes); each store converts
      it to `uint8_t`, which keeps it modulo 256. */
  method FillAscending(a: array<Byte>)
    modifies a
    ensures a[..] == Ascending(a.Length)
  {
    var value: int := 0;
    var i := 0;
    while i < a.Length
      invariant 0 <= i <= a.Length
      invariant value == i
      invariant a[..i] == Ascending(i)
    {
      a[i] := (value % 0x100) as Byte;
      assert a[..i + 1] == a[..i] + [(value % 0x100) as Byte];
      value := value + 1;
      i := i + 1;
    }
    assert a[..] == a[..a.Length];
  }

  /** The `std::vector<uint8_t>` a vendor write sends. */
  method NewWriteBuffer(wLength: Word, bData: Byte) returns (buffer: array<Byte>)
    ensures fresh(buffer) && buffer[..] == WritePayload(wLength, bData)
  {
    buffer := new Byte[wLength](_ => 0);
    if wLength == 1 {
      buffer[0] := bData;
      assert buffer[..] == [bData];
    } else {
      FillAscending(buffer);
    }
  }

  // ---------------------------------------------------------------------
  // The handlers

  /** IOCTL_Ezusb_VENDOR_REQUEST. A read stores the device's answer at the
      head of the input buffer. */
  method HandleVendorRequest(dev: Device, inBuf: array<Byte>, inLen: Dword, outBuf: array<Byte>, outLen: Dword)
    returns (r: HandlerResult)
    requires BuffersHold(inBuf, inLen, outBuf, outLen)
    requires VendorReadFits(inBuf[..], inLen)
    modifies dev, inBuf
    ensures Extends(old(dev.log), dev.log)
    ensures VendorRequestSpec(old(inBuf[..]), inLen, dev.log[|old(dev.log)|..], r)
    ensures inBuf[VendorReadLength(old(inBuf[..]), inLen)..] == old(inBuf[VendorReadLength(inBuf[..], inLen)..])
  {
    if inLen < VENDOR_REQUEST_IN_SIZE {
      return InvalidParameter;
    }
    var req := DecodeVendorRequestIn(inBuf[..]);
    var status: Int32;
    if req.direction != 0 {
      status := dev.ReadControlTransfer(LIBUSB_REQUEST_TYPE_VENDOR | LIBUSB_RECIPIENT_DEVICE,
                                        req.bRequest, req.wValue, req.wIndex, inBuf, req.wLength);
    } else {
      var writeBuffer := NewWriteBuffer(req.wLength, req.bData);
      WritePayloadBytes(req.wLength, req.bData);
      status := dev.WriteControlTransfer(LIBUSB_REQUEST_TYPE_VENDOR | LIBUSB_RECIPIENT_DEVICE,
                                         req.bRequest, req.wValue, req.wIndex, writeBuffer, 0, req.wLength);
      assert writeBuffer[0..req.wLength] == writeBuffer[..];
    }
    r := VendorRequestResult(req.direction != 0, status);
  }

  /** IOCTL_EZUSB_BULK_READ: a bulk read of outLen bytes into the output
      buffer; the count of bytes read is dropped. */
  method HandleBulkRead(dev: Device, inBuf: array<Byte>, inLen: Dword, outBuf: array<Byte>, outLen: Dword)
    returns (r: HandlerResult)
    requires BuffersHold(inBuf, inLen, outBuf, outLen)
    modifies dev, outBuf
    ensures Extends(old(dev.log), dev.log)
    ensures BulkReadSpec(old(inBuf[..]), inLen, outLen, dev.log[|old(dev.log)|..], r)
    ensures outBuf[BulkReadLength(inLen, outLen)..] == old(outBuf[BulkReadLength(inLen, outLen)..])
  {
    if inLen < BULK_TRANSFER_CONTROL_SIZE {
      return InvalidParameter;
    }
    var req := DecodeBulkTransferControl(inBuf[..]);
    var err, bytesRead := dev.ReadBulkTransfer(req.pipeNum, outBuf, outLen);
    r := BulkResult(err);
  }

  /** IOCTL_EZUSB_BULK_WRITE: a bulk write of the first outLen bytes of the
      output buffer; the count of bytes written is dropped. */
  method HandleBulkWrite(dev: Device, inBuf: array<Byte>, inLen: Dword, outBuf: array<Byte>, outLen: Dword)
    returns (r: HandlerResult)
    requires BuffersHold(inBuf, inLen, outBuf, outLen)
    modifies dev
    ensures Extends(old(dev.log), dev.log)
    ensures BulkWriteSpec(inBuf[..], inLen, outBuf[..], outLen, dev.log[|old(dev.log)|..], r)
  {
    if inLen < BULK_TRANSFER_CONTROL_SIZE {
      return InvalidParameter;
    }
    var req := DecodeBulkTransferControl(inBuf[..]);
    var err, bytesWritten := dev.WriteBulkTransfer(req.pipeNum, outBuf, outLen);
    r := BulkResult(err);
  }

  /** One pass of the anchor-download loop: chunk i of data[..len] sent to
      the EZ-USB's RAM; returns the device's acknowledged count. */
  method SendChunk(dev: Device, offset: Word, data: array<Byte>, len: nat, i: nat) returns (transferred: Int32)
    requires len <= data.Length && i < ChunkCount(len)
    modifies dev
    ensures dev.log == old(dev.log) + [Call(ChunkTransfer(offset, data[..], len, i), transferred)]
  {
    ChunkWithinPayload(len, i);
    var wLength := ChunkLength(len, i) as Word;
    transferred := dev.WriteControlTransfer(LIBUSB_REQUEST_TYPE_VENDOR | LIBUSB_RECIPIENT_DEVICE,
                                            ANCHOR_LOAD_INTERNAL, ChunkValue(offset, i), 0,
                                            data, ChunkStart(i), wLength);
  }

  /** The loop of the anchor download: chunk i of data[..len] goes to
      address offset + i * 64, until every chunk is acknowledged in full or
      one comes back short. */
  method SendChunks(dev: Device, offset: Word, data: array<Byte>, len: nat) returns (r: HandlerResult)
    requires len <= data.Length && len <= MAX_ANCHOR_DOWNLOAD_LENGTH
    modifies dev
    ensures Extends(old(dev.log), dev.log)
    ensures AnchorTrace(offset, data[..], len, dev.log[|old(dev.log)|..])
    ensures r == AnchorOutcome(len, dev.log[|old(dev.log)|..])
  {
    ghost var bytes := data[..];
    var chunkCount := ChunkCount(len);
    ghost var calls: seq<Call> := [];
    var i := 0;
    while i < chunkCount
      invariant 0 <= i <= chunkCount
      invariant dev.log == old(dev.log) + calls && |calls| == i
      invariant AnchorAcked(offset, bytes, len, calls)
    {
      var transferred := SendChunk(dev, offset, data, len, i);
      ghost var c := Call(ChunkTransfer(offset, bytes, len, i), transferred);
      if transferred as int != ChunkLength(len, i) {
        AnchorShortEnds(offset, bytes, len, calls, c);
        calls := calls + [c];
        assert dev.log[|old(dev.log)|..] == calls;
        return HandlerResult(ERROR_GEN_FAILURE, None);
      }
      AnchorAckedStep(offset, bytes, len, calls, c);
      calls := calls + [c];
      i := i + 1;
    }
    AnchorAckedEnds(offset, bytes, len, calls);
    assert dev.log[|old(dev.log)|..] == calls;
    r := HandlerResult(ERROR_SUCCESS, None);
  }

  /** IOCTL_EZUSB_ANCHOR_DOWNLOAD: the output buffer goes to the EZ-USB's
      RAM in 64-byte chunks, stopping at the first short acknowledgement. */
  method HandleAnchorDownload(dev: Device, inBuf: array<Byte>, inLen: Dword, outBuf: array<Byte>, outLen: Dword)
    returns (r: HandlerResult)
    requires BuffersHold(inBuf, inLen, outBuf, outLen)
    requires outLen as int <= MAX_ANCHOR_DOWNLOAD_LENGTH
    modifies dev
    ensures Extends(old(dev.log), dev.log)
    ensures AnchorDownloadSpec(inBuf[..], inLen, outBuf[..], outLen, dev.log[|old(dev.log)|..], r)
  {
    if inLen < ANCHOR_DOWNLOAD_CONTROL_SIZE {
      return InvalidParameter;
    }
    var req := DecodeAnchorDownloadControl(inBuf[..]);
    r := SendChunks(dev, req.offset, outBuf, outLen as int);
  }

  /** IOCTL_EZUSB_VENDOR_OR_CLASS_REQUEST: one control transfer with the
      decoded bmRequestType, the output buffer as its data stage. */
  method HandleVendorOrClassRequest(dev: Device, inBuf: array<Byte>, inLen: Dword, outBuf: array<Byte>, outLen: Dword)
    returns (r: HandlerResult)
    requires BuffersHold(inBuf, inLen, outBuf, outLen)
    modifies dev, outBuf
    ensures Extends(old(dev.log), dev.log)
    ensures VendorOrClassSpec(old(inBuf[..]), inLen, old(outBuf[..]), outLen, dev.log[|old(dev.log)|..], r)
    ensures outBuf[VendorOrClassReadLength(old(inBuf[..]), inLen, outLen)..]
         == old(outBuf[VendorOrClassReadLength(inBuf[..], inLen, outLen)..])
  {
    if inLen < VENDOR_OR_CLASS_REQUEST_CONTROL_SIZE {
      return InvalidParameter;
    }
    var req := DecodeVendorOrClassRequestControl(inBuf[..]);
    var requestType := BmRequestType(req.requestType, req.recepient);
    var length := (outLen as int % 0x1_0000) as Word;
    var status: Int32;
    if req.direction != 0 {
      status := dev.ReadControlTransfer(requestType, req.request, req.value, req.index, outBuf, length);
    } else {
      status := dev.WriteControlTransfer(requestType, req.request, req.value, req.index, outBuf, 0, length);
      assert outBuf[0..length] == outBuf[..length];
    }
    r := ControlResult(status);
  }

  /** Stores `w` little-endian at buf[at], buf[at + 1]. */
  method StoreWord(buf: array<Byte>, at: nat, w: Word)
    requires at + 2 <= buf.Length
    modifies buf
    ensures buf[..] == old(buf[..at]) + Le16(w) + old(buf[at + 2..])
  {
    buf[at] := (w as int % 0x100) as Byte;
    buf[at + 1] := (w as int / 0x100) as Byte;
    assert buf[..] == buf[..at] + [buf[at], buf[at + 1]] + buf[at + 2..];
  }

  /** IOCTL_EZUSB_GET_DRIVER_VERSION: writes the driver version into the
      output buffer when it has room for it. */
  method HandleGetDriverVersion(dev: Device, inBuf: array<Byte>, inLen: Dword, outBuf: array<Byte>, outLen: Dword)
    returns (r: HandlerResult)
    requires BuffersHold(inBuf, inLen, outBuf, outLen)
    modifies outBuf
    ensures r == VersionQueryResult(outLen)
    ensures r.error == ERROR_SUCCESS ==>
              outBuf[..] == EncodeDriverVersion(CurrentVersion) + old(outBuf[EZUSB_DRIVER_VERSION_SIZE..])
    ensures r.error != ERROR_SUCCESS ==> outBuf[..] == old(outBuf[..])
  {
    if outLen < EZUSB_DRIVER_VERSION_SIZE {
      return HandlerResult(ERROR_GEN_FAILURE, None);
    }
    ghost var rest := outBuf[EZUSB_DRIVER_VERSION_SIZE..];
    StoreWord(outBuf, 0, EZUSB_MAJOR_VERSION);
    StoreWord(outBuf, 2, EZUSB_MINOR_VERSION);
    StoreWord(outBuf, 4, EZUSB_BUILD_VERSION);
    assert outBuf[..] == Le16(EZUSB_MAJOR_VERSION) + Le16(EZUSB_MINOR_VERSION) + Le16(EZUSB_BUILD_VERSION) + rest;
    r := HandlerResult(ERROR_SUCCESS, Some(EZUSB_DRIVER_VERSION_SIZE));
  }

  // ---------------------------------------------------------------------
  // The dispatcher

  /** TL::TranslateIOTCL. `result` is the registered handler's result, None
      when the IOCTL has no handler. */
  method TranslateIoctl(dev: Device, code: Ioctl, inBuf: array<Byte>, inLen: Dword,
                        outBuf: array<Byte>, outLen: Dword, lpBytesReturned: DwordCell?)
    returns (error: Dword, ghost result: Option<HandlerResult>)
    requires BuffersHold(inBuf, inLen, outBuf, outLen)
    requires DispatchPrecondition(code, inBuf[..], inLen, outLen)
    modifies dev, inBuf, outBuf, lpBytesReturned
    ensures result.Some? <==> code in Registered
    ensures result.None? ==>
              && error == ERROR_SUCCESS
              && dev.log == old(dev.log)
              && unchanged(inBuf, outBuf)
              && (lpBytesReturned != null ==> lpBytesReturned.value == old(lpBytesReturned.value))
    ensures result.Some? ==>
              && Extends(old(dev.log), dev.log)
              && Handled(code, old(inBuf[..]), inLen, old(outBuf[..]), outLen, dev.log[|old(dev.log)|..], result.value)
              && error == result.value.error
              && (lpBytesReturned != null ==>
                    lpBytesReturned.value == BytesReturnedAfter(old(lpBytesReturned.value), result.value))
    ensures inBuf !in Writes(code, inBuf, outBuf) ==> unchanged(inBuf)
    ensures outBuf !in Writes(code, inBuf, outBuf) ==> unchanged(outBuf)
  {
    if code !in Registered {
      return ERROR_SUCCESS, None;
    }
    var r: HandlerResult;
    match code {
      case VendorRequest =>
        r := HandleVendorRequest(dev, inBuf, inLen, outBuf, outLen);
      case BulkRead =>
        r := HandleBulkRead(dev, inBuf, inLen, outBuf, outLen);
      case BulkWrite =>
        r := HandleBulkWrite(dev, inBuf, inLen, outBuf, outLen);
      case ResetPipe =>
        r := HandlerResult(ERROR_SUCCESS, None);
      case AbortPipe =>
        r := HandlerResult(ERROR_SUCCESS, None);
      case AnchorDownload =>
        r := HandleAnchorDownload(dev, inBuf, inLen, outBuf, outLen);
      case VendorOrClassRequest =>
        r := HandleVendorOrClassRequest(dev, inBuf, inLen, outBuf, outLen);
      case GetDriverVersion =>
        r := HandleGetDriverVersion(dev, inBuf, inLen, outBuf, outLen);
    }
    StoreBytesReturned(lpBytesReturned, r);
    return r.error, Some(r);
  }
}
