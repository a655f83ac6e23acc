/** The second dispatcher: a fixed registry of seven handler functions, kept
    in a separate handler file whose bodies are not part of this model. An
    IOCTL outside the registry is rejected with invalid parameter. */
module RegistryTranslation {
  import opened Win32
  import opened Ezusb
  import opened IoctlResult

  /** The keys of the registry. Reset pipe and abort pipe have no entry. */
  const Registry: set<Ioctl> :=
    {GetCurrentConfig, VendorRequest, BulkRead, BulkWrite, AnchorDownload, VendorOrClassRequest, GetDriverVersion}

  /** The registry holds seven IOCTLs, GET_CURRENT_CONFIG among them, and
      neither reset pipe, abort pipe nor any unlisted code. */
  lemma RegistryContents()
    ensures |Registry| == 7
    ensures GetCurrentConfig in Registry
    ensures ResetPipe !in Registry && AbortPipe !in Registry
    ensures forall code: Dword :: Unlisted(code) !in Registry
  {
    assert GetDriverVersion !in {GetCurrentConfig, VendorRequest, BulkRead, BulkWrite, AnchorDownload, VendorOrClassRequest};
    assert VendorOrClassRequest !in {GetCurrentConfig, VendorRequest, BulkRead, BulkWrite, AnchorDownload};
    assert AnchorDownload !in {GetCurrentConfig, VendorRequest, BulkRead, BulkWrite};
    assert BulkWrite !in {GetCurrentConfig, VendorRequest, BulkRead};
    assert BulkRead !in {GetCurrentConfig, VendorRequest};
  }

  /** One call of a registered handler: which one, the arguments it got,
      and what it returned. */
  datatype Invocation = Invocation(code: Ioctl, inBuf: array<Byte>, inLen: Dword,
                                   outBuf: array<Byte>, outLen: Dword, result: HandlerResult)

  /** The registered handler functions. Their bodies are not part of this
      model: a handler may do anything to the two buffers and return any
      result, and every call is recorded. */
  class Handlers {
    ghost var invocations: seq<Invocation>

    constructor ()
      ensures invocations == []
    {
      invocations := [];
    }

    method Invoke(code: Ioctl, inBuf: array<Byte>, inLen: Dword, outBuf: array<Byte>, outLen: Dword)
      returns (r: HandlerResult)
      requires code in Registry
      modifies this, inBuf, outBuf
      ensures invocations == old(invocations) + [Invocation(code, inBuf, inLen, outBuf, outLen, r)]
    {
      r := *;
      invocations := invocations + [Invocation(code, inBuf, inLen, outBuf, outLen, r)];
    }
  }

  /** TL::TranslateIOTCL with the registry: an unregistered IOCTL fails with
      invalid parameter and touches nothing; a registered one runs its
      handler once on the caller's buffers and lengths, returns the
      handler's status as it is and stores its byte count, if any, through
      a non-null lpBytesReturned. */
  method TranslateIoctl(handlers: Handlers, code: Ioctl, inBuf: array<Byte>, inLen: Dword,
                        outBuf: array<Byte>, outLen: Dword, lpBytesReturned: DwordCell?)
    returns (error: Dword)
    modifies handlers, inBuf, outBuf, lpBytesReturned
    ensures code !in Registry ==>
              && error == ERROR_INVALID_PARAMETER
              && handlers.invocations == old(handlers.invocations)
              && unchanged(inBuf, outBuf)
              && (lpBytesReturned != null ==> lpBytesReturned.value == old(lpBytesReturned.value))
    ensures code in Registry ==>
              && |handlers.invocations| == |old(handlers.invocations)| + 1
              && handlers.invocations[..|old(handlers.invocations)|] == old(handlers.invocations)
              && var call := handlers.invocations[|old(handlers.invocations)|];
                 && call.code == code
                 && call.inBuf == inBuf && call.inLen == inLen
                 && call.outBuf == outBuf && call.outLen == outLen
                 && error == call.result.error
                 && (lpBytesReturned != null ==>
                       lpBytesReturned.value == BytesReturnedAfter(old(lpBytesReturned.value), call.result))
  {
    if code !in Registry {
      return ERROR_INVALID_PARAMETER;
    }
    var r := handlers.Invoke(code, inBuf, inLen, outBuf, outLen);
    StoreBytesReturned(lpBytesReturned, r);
    error := r.error;
  }
}
