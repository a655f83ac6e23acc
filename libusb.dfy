/** The libusb side of the translation: the bmRequestType constants the
    handlers use and the device whose transfer primitives they call.
    The primitives themselves are foreign code; here the device only records
    every call it receives, with the result it chose, and the result is
    arbitrary. */
module Libusb {
  import opened Win32

  const LIBUSB_SUCCESS: Int32 := 0

  // Bits 6..5 of bmRequestType (section 9.3.1, Table 9-2 of the USB 2.0 specification).
  const LIBUSB_REQUEST_TYPE_STANDARD: bv8 := 0x00
  const LIBUSB_REQUEST_TYPE_CLASS: bv8 := 0x20
  const LIBUSB_REQUEST_TYPE_VENDOR: bv8 := 0x40

  // Bits 4..0 of bmRequestType.
  const LIBUSB_RECIPIENT_DEVICE: bv8 := 0x00
  const LIBUSB_RECIPIENT_INTERFACE: bv8 := 0x01
  const LIBUSB_RECIPIENT_ENDPOINT: bv8 := 0x02
  const LIBUSB_RECIPIENT_OTHER: bv8 := 0x03

  /** One primitive transfer as the device saw it. A write carries the bytes
      it sent; a read carries how many bytes it asked for. */
  datatype Transfer =
    | ControlIn(requestType: bv8, request: Byte, value: Word, index: Word, length: Word)
    | ControlOut(requestType: bv8, request: Byte, value: Word, index: Word, payload: seq<Byte>)
    | BulkIn(pipe: Dword, bulkLength: Dword)
    | BulkOut(pipe: Dword, payload: seq<Byte>)

  /** A transfer together with the status the primitive returned for it:
      the byte count or a negative error for control transfers, a libusb
      error code for bulk transfers. */
  datatype Call = Call(transfer: Transfer, status: Int32)

  /** `log` extends `before` by the calls made since. */
  ghost predicate Extends(before: seq<Call>, log: seq<Call>)
  {
    |before| <= |log| && log[..|before|] == before
  }

  /** The attached USB device. */
  class Device {
    /** Every transfer issued to the device so far, oldest first. */
    ghost var log: seq<Call>

    constructor ()
      ensures log == []
    {
      log := [];
    }

    /** Control transfer from the device into buffer[0..length). */
    method ReadControlTransfer(requestType: bv8, request: Byte, value: Word, index: Word,
                               buffer: array<Byte>, length: Word) returns (status: Int32)
      requires length as int <= buffer.Length
      modifies this, buffer
      ensures log == old(log) + [Call(ControlIn(requestType, request, value, index, length), status)]
      ensures buffer[length..] == old(buffer[length..])
    {
      // What the device sends, and how much of it, is not modelled.
      status := *;
      log := log + [Call(ControlIn(requestType, request, value, index, length), status)];
    }

    /** Control transfer of buffer[start..start + length) to the device. */
    method WriteControlTransfer(requestType: bv8, request: Byte, value: Word, index: Word,
                                buffer: array<Byte>, start: nat, length: Word) returns (status: Int32)
      requires start + length as int <= buffer.Length
      modifies this
      ensures log == old(log) + [Call(ControlOut(requestType, request, value, index,
                                                 buffer[start..start + length as int]), status)]
    {
      status := *;
      log := log + [Call(ControlOut(requestType, request, value, index,
                                    buffer[start..start + length as int]), status)];
    }

    /** Bulk transfer from `pipe` into buffer[0..length); returns the libusb
        error code and the number of bytes transferred. */
    method ReadBulkTransfer(pipe: Dword, buffer: array<Byte>, length: Dword)
      returns (err: Int32, transferred: Int32)
      requires length as int <= buffer.Length
      modifies this, buffer
      ensures log == old(log) + [Call(BulkIn(pipe, length), err)]
      ensures buffer[length..] == old(buffer[length..])
    {
      err := *;
      transferred := *;
      log := log + [Call(BulkIn(pipe, length), err)];
    }

    /** Bulk transfer of buffer[0..length) to `pipe`. */
    method WriteBulkTransfer(pipe: Dword, buffer: array<Byte>, length: Dword)
      returns (err: Int32, transferred: Int32)
      requires length as int <= buffer.Length
      modifies this
      ensures log == old(log) + [Call(BulkOut(pipe, buffer[..length]), err)]
    {
      err := *;
      transferred := *;
      log := log + [Call(BulkOut(pipe, buffer[..length]), err)];
    }
  }
}
