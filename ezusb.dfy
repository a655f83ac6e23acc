/** The legacy EZ-USB driver contract: its IOCTL codes, the fixed-size
    request and reply records exchanged through the caller's buffers, and
    how those records sit in the buffers' bytes.

    The records are laid out as in the Cypress EZ-USB driver header: fields
    in declaration order, little-endian, each 16-bit field at an even offset.
    The handlers only ever read a record through its decoder, so nothing
    else in the model depends on the offsets. */
module Ezusb {
  import opened Win32

  /** The IOCTL codes the translation layer knows by name. Any other DWORD
      code is `Unlisted`. */
  datatype Ioctl =
    | GetCurrentConfig
    | VendorRequest
    | BulkRead
    | BulkWrite
    | ResetPipe
    | AbortPipe
    | AnchorDownload
    | VendorOrClassRequest
    | GetDriverVersion
    | Unlisted(code: Dword)

  // sizeof of each record.
  const VENDOR_REQUEST_IN_SIZE: Dword := 10
  const BULK_TRANSFER_CONTROL_SIZE: Dword := 4
  const ANCHOR_DOWNLOAD_CONTROL_SIZE: Dword := 2
  const VENDOR_OR_CLASS_REQUEST_CONTROL_SIZE: Dword := 10
  const EZUSB_DRIVER_VERSION_SIZE: Dword := 6

  /** The vendor request that writes into the EZ-USB's internal RAM. */
  const ANCHOR_LOAD_INTERNAL: Byte := 0xA0

  /** VENDOR_REQUEST_IN. */
  datatype VendorRequestIn = VendorRequestIn(
    bRequest: Byte, wValue: Word, wIndex: Word, wLength: Word, direction: Byte, bData: Byte)

  /** BULK_TRANSFER_CONTROL. */
  datatype BulkTransferControl = BulkTransferControl(pipeNum: Dword)

  /** ANCHOR_DOWNLOAD_CONTROL. */
  datatype AnchorDownloadControl = AnchorDownloadControl(offset: Word)

  /** VENDOR_OR_CLASS_REQUEST_CONTROL. `requestType` is 1 for class and 2
      for vendor; `recepient` is 0 device, 1 interface, 2 endpoint, 3 other. */
  datatype VendorOrClassRequestControl = VendorOrClassRequestControl(
    direction: Byte, requestType: Byte, recepient: Byte, request: Byte, value: Word, index: Word)

  /** EZUSB_DRIVER_VERSION. */
  datatype DriverVersion = DriverVersion(major: Word, minor: Word, build: Word)

  /** The version the driver reports. The header that fixes these numbers is
      not part of this model; only their names matter to the proofs. */
  const EZUSB_MAJOR_VERSION: Word := 1
  const EZUSB_MINOR_VERSION: Word := 1
  const EZUSB_BUILD_VERSION: Word := 0
  const CurrentVersion := DriverVersion(EZUSB_MAJOR_VERSION, EZUSB_MINOR_VERSION, EZUSB_BUILD_VERSION)

  // ---- little-endian fields ----

  function U16At(b: seq<Byte>, k: nat): Word
    requires k + 2 <= |b|
  {
    (b[k] as int + 0x100 * b[k + 1] as int) as Word
  }

  function U32At(b: seq<Byte>, k: nat): Dword
    requires k + 4 <= |b|
  {
    (U16At(b, k) as int + 0x1_0000 * U16At(b, k + 2) as int) as Dword
  }

  function Le16(w: Word): (s: seq<Byte>)
  {
    [(w as int % 0x100) as Byte, (w as int / 0x100) as Byte]
  }

  function Le32(d: Dword): (s: seq<Byte>)
  {
    Le16((d as int % 0x1_0000) as Word) + Le16((d as int / 0x1_0000) as Word)
  }

  lemma Le16RoundTrip(w: Word, pre: seq<Byte>, post: seq<Byte>)
    ensures U16At(pre + Le16(w) + post, |pre|) == w
  {
    var b := pre + Le16(w) + post;
    assert b[|pre|] == Le16(w)[0] && b[|pre| + 1] == Le16(w)[1];
  }

  lemma Le32RoundTrip(d: Dword, pre: seq<Byte>, post: seq<Byte>)
    ensures U32At(pre + Le32(d) + post, |pre|) == d
  {
    var lo, hi := (d as int % 0x1_0000) as Word, (d as int / 0x1_0000) as Word;
    assert pre + Le32(d) + post == pre + Le16(lo) + (Le16(hi) + post);
    assert pre + Le32(d) + post == (pre + Le16(lo)) + Le16(hi) + post;
    Le16RoundTrip(lo, pre, Le16(hi) + post);
    Le16RoundTrip(hi, pre + Le16(lo), post);
  }

  // ---- the handlers' view of the input buffer ----

  function DecodeVendorRequestIn(b: seq<Byte>): VendorRequestIn
    requires VENDOR_REQUEST_IN_SIZE as int <= |b|
  {
    VendorRequestIn(b[0], U16At(b, 2), U16At(b, 4), U16At(b, 6), b[8], b[9])
  }

  function DecodeBulkTransferControl(b: seq<Byte>): BulkTransferControl
    requires BULK_TRANSFER_CONTROL_SIZE as int <= |b|
  {
    BulkTransferControl(U32At(b, 0))
  }

  function DecodeAnchorDownloadControl(b: seq<Byte>): AnchorDownloadControl
    requires ANCHOR_DOWNLOAD_CONTROL_SIZE as int <= |b|
  {
    AnchorDownloadControl(U16At(b, 0))
  }

  function DecodeVendorOrClassRequestControl(b: seq<Byte>): VendorOrClassRequestControl
    requires VENDOR_OR_CLASS_REQUEST_CONTROL_SIZE as int <= |b|
  {
    VendorOrClassRequestControl(b[0], b[1], b[2], b[4], U16At(b, 6), U16At(b, 8))
  }

  function DecodeDriverVersion(b: seq<Byte>): DriverVersion
    requires EZUSB_DRIVER_VERSION_SIZE as int <= |b|
  {
    DriverVersion(U16At(b, 0), U16At(b, 2), U16At(b, 4))
  }

  // ---- the application's side: laying a record out in a buffer ----

  function EncodeVendorRequestIn(r: VendorRequestIn): (b: seq<Byte>)
    ensures |b| == VENDOR_REQUEST_IN_SIZE as int
  {
    [r.bRequest, 0] + Le16(r.wValue) + Le16(r.wIndex) + Le16(r.wLength) + [r.direction, r.bData]
  }

  function EncodeBulkTransferControl(r: BulkTransferControl): (b: seq<Byte>)
    ensures |b| == BULK_TRANSFER_CONTROL_SIZE as int
  {
    Le32(r.pipeNum)
  }

  function EncodeAnchorDownloadControl(r: AnchorDownloadControl): (b: seq<Byte>)
    ensures |b| == ANCHOR_DOWNLOAD_CONTROL_SIZE as int
  {
    Le16(r.offset)
  }

  function EncodeVendorOrClassRequestControl(r: VendorOrClassRequestControl): (b: seq<Byte>)
    ensures |b| == VENDOR_OR_CLASS_REQUEST_CONTROL_SIZE as int
  {
    // The fourth byte is requestTypeReservedBits, which the handler ignores.
    [r.direction, r.requestType, r.recepient, 0, r.request, 0] + Le16(r.value) + Le16(r.index)
  }

  /** What the version handler stores into the output buffer. */
  function EncodeDriverVersion(v: DriverVersion): (b: seq<Byte>)
    ensures |b| == EZUSB_DRIVER_VERSION_SIZE as int
  {
    Le16(v.major) + Le16(v.minor) + Le16(v.build)
  }

  // ---- round trips: a record laid out at the head of a buffer reads back unchanged ----

  lemma VendorRequestInRoundTrip(r: VendorRequestIn, rest: seq<Byte>)
    ensures DecodeVendorRequestIn(EncodeVendorRequestIn(r) + rest) == r
  {
    var b := EncodeVendorRequestIn(r) + rest;
    assert b == [r.bRequest, 0] + Le16(r.wValue) + (Le16(r.wIndex) + Le16(r.wLength) + [r.direction, r.bData] + rest);
    Le16RoundTrip(r.wValue, [r.bRequest, 0], Le16(r.wIndex) + Le16(r.wLength) + [r.direction, r.bData] + rest);
    assert b == [r.bRequest, 0] + Le16(r.wValue) + Le16(r.wIndex) + (Le16(r.wLength) + [r.direction, r.bData] + rest);
    Le16RoundTrip(r.wIndex, [r.bRequest, 0] + Le16(r.wValue), Le16(r.wLength) + [r.direction, r.bData] + rest);
    assert b == [r.bRequest, 0] + Le16(r.wValue) + Le16(r.wIndex) + Le16(r.wLength) + ([r.direction, r.bData] + rest);
    Le16RoundTrip(r.wLength, [r.bRequest, 0] + Le16(r.wValue) + Le16(r.wIndex), [r.direction, r.bData] + rest);
  }

  lemma BulkTransferControlRoundTrip(r: BulkTransferControl, rest: seq<Byte>)
    ensures DecodeBulkTransferControl(EncodeBulkTransferControl(r) + rest) == r
  {
    Le32RoundTrip(r.pipeNum, [], rest);
    assert [] + Le32(r.pipeNum) + rest == EncodeBulkTransferControl(r) + rest;
  }

  lemma AnchorDownloadControlRoundTrip(r: AnchorDownloadControl, rest: seq<Byte>)
    ensures DecodeAnchorDownloadControl(EncodeAnchorDownloadControl(r) + rest) == r
  {
    Le16RoundTrip(r.offset, [], rest);
    assert [] + Le16(r.offset) + rest == EncodeAnchorDownloadControl(r) + rest;
  }

  lemma VendorOrClassRequestControlRoundTrip(r: VendorOrClassRequestControl, rest: seq<Byte>)
    ensures DecodeVendorOrClassRequestControl(EncodeVendorOrClassRequestControl(r) + rest) == r
  {
    var head: seq<Byte> := [r.direction, r.requestType, r.recepient, 0, r.request, 0];
    var b := EncodeVendorOrClassRequestControl(r) + rest;
    assert b == head + Le16(r.value) + (Le16(r.index) + rest);
    Le16RoundTrip(r.value, head, Le16(r.index) + rest);
    assert b == head + Le16(r.value) + Le16(r.index) + rest;
    Le16RoundTrip(r.index, head + Le16(r.value), rest);
  }

  lemma DriverVersionRoundTrip(v: DriverVersion, rest: seq<Byte>)
    ensures DecodeDriverVersion(EncodeDriverVersion(v) + rest) == v
  {
    var b := EncodeDriverVersion(v) + rest;
    assert b == [] + Le16(v.major) + (Le16(v.minor) + Le16(v.build) + rest);
    Le16RoundTrip(v.major, [], Le16(v.minor) + Le16(v.build) + rest);
    assert b == Le16(v.major) + Le16(v.minor) + (Le16(v.build) + rest);
    Le16RoundTrip(v.minor, Le16(v.major), Le16(v.build) + rest);
    assert b == Le16(v.major) + Le16(v.minor) + Le16(v.build) + rest;
    Le16RoundTrip(v.build, Le16(v.major) + Le16(v.minor), rest);
  }
}
