/** What a handler hands back to the dispatcher, and how the dispatcher
    passes the byte count on to the caller. Both dispatchers share this. */
module IoctlResult {
  import opened Win32

  /** A Win32 status and, for the requests whose driver contract reports
      one, the number of bytes returned. */
  datatype HandlerResult = HandlerResult(error: Dword, bytesReturned: Option<Dword>)

  const InvalidParameter := HandlerResult(ERROR_INVALID_PARAMETER, None)

  /** The value `*lpBytesReturned` holds after the dispatcher has stored the
      handler's byte count, when there is one, over `previous`. */
  function BytesReturnedAfter(previous: Dword, r: HandlerResult): Dword
  {
    match r.bytesReturned
    case Some(n) => n
    case None => previous
  }

  /** Stores the byte count through `lpBytesReturned` when the pointer is
      not null and the handler produced a count; otherwise leaves the
      caller's DWORD alone. */
  method StoreBytesReturned(lpBytesReturned: DwordCell?, r: HandlerResult)
    modifies lpBytesReturned
    ensures lpBytesReturned != null ==>
              lpBytesReturned.value == BytesReturnedAfter(old(lpBytesReturned.value), r)
  {
    if lpBytesReturned != null && r.bytesReturned.Some? {
      lpBytesReturned.value := r.bytesReturned.value;
    }
  }
}
