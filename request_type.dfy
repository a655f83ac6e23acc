/** The decoder that turns the legacy (requestType, recepient) pair of a
    VENDOR_OR_CLASS_REQUEST_CONTROL into a libusb bmRequestType. */
module RequestType {
  import opened Win32
  import opened Libusb

  /** The switch key `(requestType << 2) | recepient`, computed on the
      promoted `int` values of the two byte fields. */
  function SwitchKey(requestType: Byte, recepient: Byte): bv32
  {
    ((requestType as bv32) << 2) | (recepient as bv32)
  }

  /** The switch over the key: class keys 0x04..0x07, vendor keys
      0x08..0x0B, recipient in the low two bits; any other key keeps the
      initial value 0. */
  function RequestTypeForKey(key: bv32): (r: bv8)
    ensures 0x04 <= key <= 0x07 ==> r == LIBUSB_REQUEST_TYPE_CLASS | (key & 3) as bv8
    ensures 0x08 <= key <= 0x0B ==> r == LIBUSB_REQUEST_TYPE_VENDOR | (key & 3) as bv8
    ensures (key < 0x04 || 0x0B < key) ==> r == 0
    ensures (0x04 <= key <= 0x0B) == (r != 0)
  {
    if key == 0x04 then LIBUSB_REQUEST_TYPE_CLASS | LIBUSB_RECIPIENT_DEVICE
    else if key == 0x05 then LIBUSB_REQUEST_TYPE_CLASS | LIBUSB_RECIPIENT_INTERFACE
    else if key == 0x06 then LIBUSB_REQUEST_TYPE_CLASS | LIBUSB_RECIPIENT_ENDPOINT
    else if key == 0x07 then LIBUSB_REQUEST_TYPE_CLASS | LIBUSB_RECIPIENT_OTHER
    else if key == 0x08 then LIBUSB_REQUEST_TYPE_VENDOR | LIBUSB_RECIPIENT_DEVICE
    else if key == 0x09 then LIBUSB_REQUEST_TYPE_VENDOR | LIBUSB_RECIPIENT_INTERFACE
    else if key == 0x0A then LIBUSB_REQUEST_TYPE_VENDOR | LIBUSB_RECIPIENT_ENDPOINT
    else if key == 0x0B then LIBUSB_REQUEST_TYPE_VENDOR | LIBUSB_RECIPIENT_OTHER
    else 0
  }

  /** The bmRequestType a VENDOR_OR_CLASS_REQUEST_CONTROL is sent with. */
  function BmRequestType(requestType: Byte, recepient: Byte): bv8
  {
    RequestTypeForKey(SwitchKey(requestType, recepient))
  }

  /** No two of the eight mapped keys give the same bmRequestType. */
  lemma RequestTypeInjective(k1: bv32, k2: bv32)
    requires 0x04 <= k1 <= 0x0B && 0x04 <= k2 <= 0x0B
    requires RequestTypeForKey(k1) == RequestTypeForKey(k2)
    ensures k1 == k2
  {
  }

  /** For a class (1) or vendor (2) request to a device, interface, endpoint
      or other (0..3), the result is the bmRequestType of section 9.3.1 of
      the USB 2.0 specification: the type in bits 6..5, the recipient in bits
      4..0 and a host-to-device direction bit; a standard (0) or reserved (3)
      type with such a recipient yields 0. */
  lemma BmRequestTypeMatchesUsb(requestType: Byte, recepient: Byte)
    requires requestType <= 3 && recepient <= 3
    ensures var r := BmRequestType(requestType, recepient);
            if requestType == 1 || requestType == 2 then
              r >> 7 == 0 && (r >> 5) as int == requestType as int && (r & 0x1F) as int == recepient as int
            else
              r == 0
  {
    var key := SwitchKey(requestType, recepient);
    if requestType == 0 {
      if recepient == 0 { assert key == 0; } else if recepient == 1 { assert key == 1; }
      else if recepient == 2 { assert key == 2; } else { assert key == 3; }
    } else if requestType == 1 {
      if recepient == 0 { assert key == 4; } else if recepient == 1 { assert key == 5; }
      else if recepient == 2 { assert key == 6; } else { assert key == 7; }
    } else if requestType == 2 {
      if recepient == 0 { assert key == 8; } else if recepient == 1 { assert key == 9; }
      else if recepient == 2 { assert key == 0x0A; } else { assert key == 0x0B; }
    } else {
      if recepient == 0 { assert key == 0x0C; } else if recepient == 1 { assert key == 0x0D; }
      else if recepient == 2 { assert key == 0x0E; } else { assert key == 0x0F; }
    }
  }

  /** `recepient` is a whole byte and enters the key unmasked, so a
      recipient above 3 is not turned away: it is sent as whichever of the
      eight mapped keys the OR lands on. These are the pairs that do. */
  lemma LargeRecipientsStillMapped(requestType: Byte, recepient: Byte)
    requires recepient > 3
    ensures BmRequestType(requestType, recepient) != 0 <==>
              || (requestType == 0 && recepient <= 0x0B)
              || (requestType == 1 && recepient <= 0x07)
              || (requestType == 2 && 0x08 <= recepient <= 0x0B)
  {
    if requestType == 0 {
      StandardTypeKeys(recepient);
    } else if requestType == 1 {
      ClassTypeKeys(recepient);
    } else if requestType == 2 {
      VendorTypeKeys(recepient);
    } else {
      HigherTypeKeys(requestType, recepient);
    }
  }

  /** Type 0: the key is the recepient itself. */
  lemma StandardTypeKeys(recepient: Byte)
    ensures (BmRequestType(0, recepient) != 0) == (4 <= recepient <= 0x0B)
  {
    assert SwitchKey(0, recepient) == recepient as bv32;
  }

  /** Type 1: bit 2 is set, so recepients 4..7 give the class keys again. */
  lemma ClassTypeKeys(recepient: Byte)
    requires recepient > 3
    ensures (BmRequestType(1, recepient) != 0) == (recepient <= 7)
  {
    assert SwitchKey(1, recepient) == 4 | recepient as bv32;
  }

  /** Type 2: bit 3 is set, so recepients 8..0x0B give the vendor keys
      again. */
  lemma VendorTypeKeys(recepient: Byte)
    requires recepient > 3
    ensures (BmRequestType(2, recepient) != 0) == (8 <= recepient <= 0x0B)
  {
    assert SwitchKey(2, recepient) == 8 | recepient as bv32;
  }

  /** Types 3 and above: the key is at least 0x0C whatever the recepient. */
  lemma HigherTypeKeys(requestType: Byte, recepient: Byte)
    requires requestType > 2
    ensures BmRequestType(requestType, recepient) == 0
  {
    assert SwitchKey(requestType, recepient) >= 0x0C;
  }

  /** Four such pairs: a standard type with recipient 5 or 0x0B, a class
      type with recipient 4 or 7. */
  lemma LargeRecipientExamples()
    ensures BmRequestType(0, 0x05) == LIBUSB_REQUEST_TYPE_CLASS | LIBUSB_RECIPIENT_INTERFACE
    ensures BmRequestType(1, 0x04) == LIBUSB_REQUEST_TYPE_CLASS | LIBUSB_RECIPIENT_DEVICE
    ensures BmRequestType(1, 0x07) == LIBUSB_REQUEST_TYPE_CLASS | LIBUSB_RECIPIENT_OTHER
    ensures BmRequestType(0, 0x0B) == LIBUSB_REQUEST_TYPE_VENDOR | LIBUSB_RECIPIENT_OTHER
  {
    assert SwitchKey(0, 0x05) == 0x05;
    assert SwitchKey(1, 0x04) == 0x04;
    assert SwitchKey(1, 0x07) == 0x07;
    assert SwitchKey(0, 0x0B) == 0x0B;
  }
}
