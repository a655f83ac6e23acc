/** The Windows and C types the translation layer passes around.
    Integers are unbounded in Dafny, so each fixed-width C type is a newtype
    whose range is the C type's range; every narrowing cast in the source is
    written out where it happens. */
module Win32 {

  /** uint8_t / UCHAR / BYTE: one byte of a caller's buffer. */
  newtype Byte = x: int | 0 <= x < 0x100

  /** uint16_t / USHORT / WORD. */
  newtype Word = x: int | 0 <= x < 0x1_0000

  /** DWORD, the width of every length and status the IOCTL interface uses. */
  newtype Dword = x: int | 0 <= x < 0x1_0000_0000

  /** C `int`, the type libusb uses for transfer results and error codes. */
  newtype Int32 = x: int | -0x8000_0000 <= x < 0x8000_0000

  datatype Option<T> = None | Some(value: T)

  // Win32 error codes returned by DeviceIoControl.
  const ERROR_SUCCESS: Dword := 0
  const ERROR_GEN_FAILURE: Dword := 31
  const ERROR_INVALID_PARAMETER: Dword := 87

  /** The DWORD that an LPDWORD out-parameter points to. */
  class DwordCell {
    var value: Dword

    constructor (v: Dword)
      ensures value == v
    {
      value := v;
    }
  }
}
