# EZ-USB IOCTL translation layer, modelled in Dafny

This project models the core of a compatibility shim that lets software
written for the legacy Cypress EZ-USB Windows driver talk to a device through
libusb. The shim intercepts the driver's IOCTL requests (an opcode plus an
input and an output buffer). It turns each request into zero or more libusb
control or bulk transfers. It then folds libusb's answer into a Win32 status
and an optional "bytes returned" count.

The model covers:

- **The dispatcher** `TL::TranslateIOTCL`, in both variants of the repository:
  - the libusb variant (`LibusbTranslation.TranslateIoctl`) accepts an IOCTL
    without a handler as a silent success;
  - the registry variant (`RegistryTranslation.TranslateIoctl`) rejects such
    an IOCTL with `ERROR_INVALID_PARAMETER`.
- **The eight handler lambdas** of the libusb variant: vendor request, bulk
  read, bulk write, reset pipe, abort pipe, anchor (firmware) download,
  vendor-or-class request and driver version query.
- **The anchor-download chunking arithmetic**: the chunk count, chunk
  lengths, buffer offsets and `wValue` target addresses.
- **The bmRequestType decoder**, checked against section 9.3.1 (Table 9-2)
  of the USB 2.0 specification.

The libusb device is an abstract collaborator. It is the class
`Libusb.Device`, and it keeps a ghost log of every transfer issued to it,
each with the status the device returned. That status is arbitrary. Every
handler is specified by a predicate in `HandlerSpecs`. The predicate relates
the request (input bytes and the two declared lengths) to the calls the
handler made and the result it returned. The handler methods are proved to
satisfy their predicates. The dispatcher is proved to run the registered
handler and to return its status unchanged.

Files:

| file | module | contents |
|---|---|---|
| `win32.dfy` | `Win32` | fixed-width C types, Win32 status codes, the `LPDWORD` target |
| `libusb.dfy` | `Libusb` | bmRequestType constants, transfers, the recording device |
| `ezusb.dfy` | `Ezusb` | IOCTLs, request and reply records, their byte layout |
| `request_type.dfy` | `RequestType` | the bmRequestType switch |
| `anchor_chunks.dfy` | `AnchorChunks` | chunk arithmetic of the anchor download |
| `ioctl_result.dfy` | `IoctlResult` | the handler result type and the byte-count write-back |
| `handler_specs.dfy` | `HandlerSpecs` | per-handler specifications and their lemmas |
| `libusb_translation.dfy` | `LibusbTranslation` | the handlers and the libusb dispatcher |
| `registry_translation.dfy` | `RegistryTranslation` | the registry dispatcher |
| `scenarios.dfy` | `Scenarios` | a client's view of one vendor write |

## Model

| member | source | states |
|---|---|---|
| `Ezusb.VendorRequestInRoundTrip` | EZUSBToLibusb/TranslationLayer.cpp:35 | a VENDOR_REQUEST_IN laid out at the head of the input buffer is read back field for field by the handler's view of the buffer |
| `Ezusb.BulkTransferControlRoundTrip` | EZUSBToLibusb/TranslationLayer.cpp:66 | the pipe number a caller lays out is the one the bulk handlers read |
| `Ezusb.AnchorDownloadControlRoundTrip` | EZUSBToLibusb/TranslationLayer.cpp:109 | the download Offset a caller lays out is the one the handler reads |
| `Ezusb.VendorOrClassRequestControlRoundTrip` | EZUSBToLibusb/TranslationLayer.cpp:141 | a VENDOR_OR_CLASS_REQUEST_CONTROL reads back field for field; the reserved byte is ignored |
| `Ezusb.DriverVersionRoundTrip` | EZUSBToLibusb/TranslationLayer.cpp:170-173 | the bytes the version handler stores read back as Major, Minor and Build |
| `RequestType.RequestTypeForKey` | EZUSBToLibusb/TranslationLayer.cpp:142-152 | keys 0x04..0x07 give CLASS with the low two bits as recipient; keys 0x08..0x0B give VENDOR with the recipient; every other key gives 0; the result is non-zero exactly for the eight mapped keys |
| `RequestType.RequestTypeInjective` | EZUSBToLibusb/TranslationLayer.cpp:144-151 | no two of the eight mapped keys give the same bmRequestType |
| `RequestType.LargeRecipientsStillMapped` | EZUSBToLibusb/TranslationLayer.cpp:143-152 | with a recepient above 3, OR-ed into the key unmasked, the result is non-zero exactly for type 0 with recepient up to 0x0B, type 1 with recepient up to 7, and type 2 with recepient 8..0x0B; such pairs are not turned away |
| `RequestType.LargeRecipientExamples` | EZUSBToLibusb/TranslationLayer.cpp:143-152 | (0, 5) is sent as class/interface, (1, 4) as class/device, (1, 7) as class/other and (0, 0x0B) as vendor/other |
| `RequestType.BmRequestTypeMatchesUsb` | EZUSBToLibusb/TranslationLayer.cpp:142-152 | for a class or vendor type with a recipient 0..3, the result has the type in bits 6..5, the recipient in bits 4..0 and a clear direction bit, as in USB 2.0 Table 9-2; a standard or reserved type gives 0 |
| `AnchorChunks.ChunkArithmeticInRange` | EZUSBToLibusb/TranslationLayer.cpp:111-121 | up to an outBufferLen of 0x8000_0000, `outBufferLen + 63` does not wrap as a DWORD and every chunk's `i * 64` fits in an `int`; the wValue sum `i * 64 + Offset` may pass INT_MAX, and after two's-complement wrap and the conversion to `uint16_t` it is still (i * 64 + Offset) mod 2^16 |
| `AnchorChunks.MaxAnchorDownloadLengthIsTight` | EZUSBToLibusb/TranslationLayer.cpp:111-121 | at an outBufferLen of 0x8000_0001 the last chunk's `i * 64` exceeds INT_MAX, so 0x8000_0000 is the largest length for which `outBufferLen + 63` stays in a DWORD and every `i * 64` stays in an `int` |
| `AnchorChunks.ChunkCountIsCeiling` | EZUSBToLibusb/TranslationLayer.cpp:111 | chunkCount is the ceiling of outBufferLen / 64: chunkCount * 64 covers the length, by less than one chunk; zero chunks exactly for an empty buffer |
| `AnchorChunks.ChunkWithinPayload` | EZUSBToLibusb/TranslationLayer.cpp:114-121 | every chunk is non-empty, at most 64 bytes and inside the buffer; all chunks but the last are full; the last ends exactly at outBufferLen |
| `AnchorChunks.LengthOfChunksPartitions` | EZUSBToLibusb/TranslationLayer.cpp:111-116 | the first k chunks cover exactly k * 64 bytes, and all chunks together cover exactly outBufferLen bytes |
| `AnchorChunks.PayloadOfChunksIsPrefix` | EZUSBToLibusb/TranslationLayer.cpp:121-124 | the payloads of the first k chunks, in ascending order, are the buffer's first bytes, with no gap and no overlap |
| `AnchorChunks.DownloadSendsPayload` | EZUSBToLibusb/TranslationLayer.cpp:112-129 | all the chunks together send exactly the first outBufferLen bytes of the output buffer |
| `HandlerSpecs.AscendingBytes` | EZUSBToLibusb/TranslationLayer.cpp:46 | `std::iota` from 0 into a `uint8_t` vector yields n bytes, byte i being its `int` counter i converted to `uint8_t`, that is i mod 256 |
| `HandlerSpecs.WritePayloadBytes` | EZUSBToLibusb/TranslationLayer.cpp:42-46 | the vendor-write payload has exactly wLength bytes; it is [bData] when wLength is 1, and byte i is i mod 256 otherwise |
| `HandlerSpecs.VendorRequestResult` | EZUSBToLibusb/TranslationLayer.cpp:50-56 | in both directions the status is success; a byte count is present iff the device returned a positive value, and then equals it; the write's clamp of a negative value to 0 is not observable |
| `HandlerSpecs.BulkResult` | EZUSBToLibusb/TranslationLayer.cpp:69-70 | bulk read and write succeed iff libusb returns LIBUSB_SUCCESS, fail with general failure otherwise, and never report a byte count |
| `HandlerSpecs.ControlResult` | EZUSBToLibusb/TranslationLayer.cpp:154-160 | a vendor-or-class request succeeds iff libusb's result is non-negative, fails with general failure iff it is negative, and never reports a byte count |
| `HandlerSpecs.VersionQueryResult` | EZUSBToLibusb/TranslationLayer.cpp:167-175 | the version query succeeds iff the output buffer holds an EZUSB_DRIVER_VERSION, reporting its size as byte count; otherwise it fails with general failure, not invalid parameter, and reports no count |
| `HandlerSpecs.AnchorAckedStep` | EZUSBToLibusb/TranslationLayer.cpp:112-129 | a chunk acknowledged in full extends a correctly ordered, fully acknowledged run of chunks |
| `HandlerSpecs.AnchorShortEnds` | EZUSBToLibusb/TranslationLayer.cpp:126-128 | a chunk acknowledged short after such a run completes the trace of a failed download, whose outcome is general failure |
| `HandlerSpecs.AnchorAckedEnds` | EZUSBToLibusb/TranslationLayer.cpp:129-131 | a run in which every chunk was acknowledged in full is the trace of a successful download, and its outcome is success without a byte count |
| `HandlerSpecs.SentBytesOfAnchorTrace` | EZUSBToLibusb/TranslationLayer.cpp:121-124 | the bytes carried by a run of chunk transfers are the concatenated chunk payloads |
| `HandlerSpecs.AnchorDownloadOutcome` | EZUSBToLibusb/TranslationLayer.cpp:112-131 | an anchor download never reports a byte count; it succeeds iff every chunk was sent and acknowledged in full, and then the device received exactly the buffer's first outBufferLen bytes; it fails with general failure iff it stopped at the first chunk acknowledged short |
| `HandlerSpecs.UndersizedInputRejected` | EZUSBToLibusb/TranslationLayer.cpp:32-33 | vendor request, bulk read, bulk write, anchor download and vendor-or-class (lines 32-33, 63-64, 77-78, 105-106, 138-139) return invalid parameter and issue no transfer when the input is shorter than their record |
| `IoctlResult.StoreBytesReturned` | EZUSBToLibusb/TranslationLayer.cpp:190-192 | `*lpBytesReturned` is assigned iff the pointer is non-null and the handler produced a count, and then holds that count; otherwise it keeps its value |
| `LibusbTranslation.FillAscending` | EZUSBToLibusb/TranslationLayer.cpp:46 | filling a buffer in place from an `int` counter that starts at 0, each store narrowed to `uint8_t`, leaves the ascending bytes in it |
| `LibusbTranslation.NewWriteBuffer` | EZUSBToLibusb/TranslationLayer.cpp:42-46 | the fresh write vector holds the vendor-write payload |
| `LibusbTranslation.HandleVendorRequest` | EZUSBToLibusb/TranslationLayer.cpp:28-57 | rejects a short input; otherwise issues exactly one vendor control transfer to the device, a read of wLength bytes into the input buffer or a write of the payload; the result follows `VendorRequestResult`; the input buffer beyond the read length is untouched |
| `LibusbTranslation.HandleBulkRead` | EZUSBToLibusb/TranslationLayer.cpp:59-71 | rejects a short input; otherwise issues one bulk read of outBufferLen bytes on the requested pipe and maps its code by `BulkResult`; a rejected request leaves the output buffer untouched, an issued one leaves the bytes beyond outBufferLen untouched |
| `LibusbTranslation.HandleBulkWrite` | EZUSBToLibusb/TranslationLayer.cpp:73-85 | rejects a short input; otherwise issues one bulk write of the first outBufferLen output bytes on the requested pipe and maps its code by `BulkResult` |
| `LibusbTranslation.SendChunk` | EZUSBToLibusb/TranslationLayer.cpp:114-124 | one pass of the loop sends exactly chunk i: a vendor control write with ANCHOR_LOAD_INTERNAL, wValue (i * 64 + Offset) mod 2^16, wIndex 0 and the chunk's bytes of the output buffer |
| `LibusbTranslation.SendChunks` | EZUSBToLibusb/TranslationLayer.cpp:111-131 | the loop issues the chunks in ascending order and stops at the first one acknowledged short; its calls form an anchor trace and its result is that trace's outcome |
| `LibusbTranslation.HandleAnchorDownload` | EZUSBToLibusb/TranslationLayer.cpp:101-132 | rejects a short input; otherwise sends chunk i with ANCHOR_LOAD_INTERNAL, wValue = (i * 64 + Offset) mod 2^16 and wIndex 0, in ascending i, stopping at the first chunk acknowledged short with general failure, and succeeding without byte count when all are acknowledged |
| `LibusbTranslation.HandleVendorOrClassRequest` | EZUSBToLibusb/TranslationLayer.cpp:134-161 | rejects a short input; otherwise issues one control transfer with the decoded bmRequestType and outBufferLen cast to `uint16_t` as length, reading into or writing from the output buffer, mapped by `ControlResult`; only a device-to-host request may change the output buffer, and only its first `uint16_t` length bytes |
| `LibusbTranslation.StoreWord` | EZUSBToLibusb/TranslationLayer.cpp:171-173 | storing a 16-bit version field changes exactly its two bytes |
| `LibusbTranslation.HandleGetDriverVersion` | EZUSBToLibusb/TranslationLayer.cpp:163-176 | the result is `VersionQueryResult`; on success the output buffer starts with Major, Minor and Build and is unchanged after them; on failure nothing is written |
| `LibusbTranslation.TranslateIoctl` | EZUSBToLibusb/TranslationLayer.cpp:180-194 | an IOCTL without a handler returns success and changes nothing: no transfer, no buffer, not `*lpBytesReturned`; a registered one satisfies its handler's specification, its status is returned verbatim and its count written back; reset pipe and abort pipe issue no transfer, touch no buffer, store no count and succeed |
| `RegistryTranslation.RegistryContents` | EZUSBToLibusb/TranslationLayer/TranslationLayer.cpp:22-31 | the registry holds exactly seven IOCTLs, GET_CURRENT_CONFIG among them, and neither reset pipe nor abort pipe |
| `RegistryTranslation.Handlers.Invoke` | EZUSBToLibusb/TranslationLayer/TranslationLayer.cpp:42 | a registered handler is called once, and the call is recorded with its arguments and result |
| `RegistryTranslation.TranslateIoctl` | EZUSBToLibusb/TranslationLayer/TranslationLayer.cpp:34-48 | an IOCTL outside the registry returns invalid parameter and changes nothing; a registered one calls its handler exactly once with the four buffer and length arguments unchanged, returns its status verbatim, and assigns `*lpBytesReturned` iff the pointer is non-null and a count is present |
| `Scenarios.VendorWriteOfThreeBytes` | EZUSBToLibusb/TranslationLayer.cpp:41-56 | dispatching a vendor write with request 0x01 and wLength 3 sends one vendor control write carrying [0, 1, 2] and succeeds; a count is stored iff the device reports a positive byte count |

## Left out

- The libusb transfer functions (`ReadControlTransfer`, `WriteControlTransfer`, `ReadBulkTransfer`, `WriteBulkTransfer`) are foreign code. `Libusb.Device` records each call and returns an arbitrary status. The bytes a read delivers are not modelled; the model only states which bytes a read may overwrite.
- The process-wide `GUSBDev` and `GHandleManager` (EZUSBToWinUSB/Globals.h:8-10) are not modelled. Each handler receives the device as an argument instead, so an attached device is a precondition. The dispatcher's unused handle argument is dropped. `.value()` on an empty optional throws in the code; that case is not modelled.
- EZUSBToWinUSB/Globals.h as a whole is not part of this model. It holds only declarations.
- The handler functions behind `Hdl_IOCTL_*`, including the one for GET_CURRENT_CONFIG, are not part of this model. The registry variant treats them as opaque (`RegistryTranslation.Handlers`).
- The numeric IOCTL codes are not modelled, because the header that defines them is not part of this model. `Ezusb.Ioctl` names each one, and `Unlisted` stands for every other code.
- The same header fixes the record layouts, their `sizeof` values and the version numbers. The model assumes the Cypress driver's natural layout: fields in order, little-endian, 16-bit fields at even offsets. The sizes 10/4/2/10/6 follow from that layout, and the record encoders and the version handler's contract rely on them. The version numbers are placeholders, and no proof depends on their values.
- Raw pointers become `array<Byte>` with a declared length that must fit the array. The two buffers may be the same array.
- `lpBytesReturned` becomes a separate `Win32.DwordCell`, which cannot alias either buffer. A C caller could pass a pointer into one of the buffers, so the count's store could overwrite buffer bytes; that is not modelled.
- LibusbTranslation.HandleVendorRequest: requires that a read's wLength fits the declared input length (`VendorReadFits`). The code writes wLength bytes into the input buffer without that check, and the model does not reproduce the overrun.
- LibusbTranslation.HandleAnchorDownload: requires outBufferLen <= 0x8000_0000. Beyond that, the last chunk's `i * 64` overflows `int`, and from 0xFFFF_FFC1 on `outBufferLen + 63` also wraps as a DWORD; that behaviour is not modelled.
- AnchorChunks.ChunkValue: the sum `i * 64 + Offset` is signed `int` arithmetic and can pass INT_MAX for lengths near the bound. The model takes the usual two's-complement wrap, under which the `uint16_t` result is the sum mod 2^16, and does not model the overflow as undefined.
- LibusbTranslation.TranslateIoctl: passes on the same two preconditions (`DispatchPrecondition`). Its contract says which buffers a handler may write. The handlers' own contracts say which bytes they write.
- The byte counts `bytesRead` and `bytesWritten` of the bulk transfers are discarded, as in the code.

Behaviour of the code that its names and comments do not suggest, which the model follows:

- A vendor write reports a byte count. The comment at TranslationLayer.cpp:50 says lpBytesReturned is 0 on these requests, but only a negative status is clamped to 0. A positive number of bytes written is reported as the count (TranslationLayer.cpp:53-54), and `VendorRequestResult` states that.
- With no device attached, every transfer-issuing handler calls `.value()` on an empty `std::optional`, which throws; no handler returns a Win32 error for it. See the line on `GUSBDev` above.
- The anchor download's comment at TranslationLayer.cpp:131 calls its "bytes returned" undefined, but the handler returns a result without a count, so the dispatcher stores none. `AnchorDownloadOutcome` states that no count is reported.
- The vendor-or-class decoder does not reject a recepient above 3. It ORs the whole byte into the switch key at TranslationLayer.cpp:143, so (0, 5) is sent as a class request to an interface, and (0, 0x0B) as a vendor request to "other". `LargeRecipientsStillMapped` and `LargeRecipientExamples` state which pairs get through.
