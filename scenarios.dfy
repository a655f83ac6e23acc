/** A caller's view of the libusb translation layer: what the dispatcher's
    contract lets a client conclude about one concrete request. */
module Scenarios {
  import opened Win32
  import opened Libusb
  import opened Ezusb
  import opened IoctlResult
  import opened HandlerSpecs
  import opened LibusbTranslation

  /** A vendor write of three bytes with request code 0x01: the device sees
      one vendor control write carrying 0, 1, 2, and the IOCTL succeeds.
      A byte count comes back exactly when the device reports a positive
      number of bytes written. */
  method VendorWriteOfThreeBytes() returns (dev: Device, error: Dword, lpBytesReturned: DwordCell)
    ensures |dev.log| == 1
    ensures dev.log[0].transfer == ControlOut(LIBUSB_REQUEST_TYPE_VENDOR, 0x01, 0, 0, [0, 1, 2])
    ensures error == ERROR_SUCCESS
    ensures dev.log[0].status > 0 ==> lpBytesReturned.value as int == dev.log[0].status as int
    ensures dev.log[0].status <= 0 ==> lpBytesReturned.value == 0
  {
    dev := new Device();
    var req := VendorRequestIn(0x01, 0, 0, 3, 0, 0);
    var bytes := EncodeVendorRequestIn(req);
    VendorRequestInRoundTrip(req, []);
    assert bytes + [] == bytes;
    var inBuf := new Byte[VENDOR_REQUEST_IN_SIZE](i requires 0 <= i < |bytes| => bytes[i]);
    assert inBuf[..] == bytes;
    var outBuf := new Byte[0];
    lpBytesReturned := new DwordCell(0);
    assert Ascending(3) == [0, 1, 2];
    ghost var result;
    error, result := TranslateIoctl(dev, VendorRequest, inBuf, VENDOR_REQUEST_IN_SIZE, outBuf, 0, lpBytesReturned);
    assert dev.log == dev.log[0..];
  }
}
