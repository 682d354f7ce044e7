/**
 * Error values of the disk library and the sample's exception object
 * `VixDiskLibErrWrapper`, together with the `CHECK_AND_THROW` and
 * `THROW_ERROR` macros that raise it.
 */
module VixErrors {
  import opened Wrappers

  /**
   * The library's error codes the model distinguishes; any other code the
   * library may return is `Other(code)`. `Other` never carries 0 (that is
   * VIX_OK) nor the code of a named constructor: no member of the model
   * builds an `Other` value, which only stands for the codes the model does
   * not name.
   */
  datatype VixError =
    | VixOk
    | EFail
    | EBufferTooSmall
    | EFileNotFound
    | ESectorRange
    | EReadOnly
    | EIo
    | EKeyNotFound
    | EInvalidArg
    | Other(code: nat)

  /** VIX_FAILED: every code except VIX_OK. */
  predicate Failed(e: VixError)
  {
    !e.VixOk?
  }

  /** `__FILE__` in every throw of the sample. */
  const SampleFile: string := "vixDiskLibSample.cpp"

  /**
   * The wrapper's description: the library's text for a code (obtained with
   * VixDiskLib_GetErrorText and released at once), or a caller's own text.
   */
  datatype Description = LibraryText(code: VixError) | Text(text: string)

  datatype ErrWrapper = ErrWrapper(errCode: VixError, desc: Description, file: string, line: int)

  /** The constructor taking an error code. */
  function FromCode(errCode: VixError, line: int): (w: ErrWrapper)
    ensures w.errCode == errCode && w.line == line && w.file == SampleFile
    ensures w.desc.LibraryText? && w.desc.code == errCode
  {
    ErrWrapper(errCode, LibraryText(errCode), SampleFile, line)
  }

  /** THROW_ERROR at `line`. */
  function ThrowError(e: VixError, line: int): (o: Outcome<ErrWrapper>)
    ensures o.Fail? && o.error.errCode == e && o.error.line == line
  {
    Fail(FromCode(e, line))
  }

  /**
   * CHECK_AND_THROW at `line`: passes exactly when `e` is not a failure, and
   * otherwise raises a wrapper carrying `e`, its library text and `line`.
   */
  function CheckAndThrow(e: VixError, line: int): (o: Outcome<ErrWrapper>)
    ensures o.Pass? <==> !Failed(e)
    ensures o.Fail? ==> o.error == FromCode(e, line) && o.error.errCode == e
  {
    if Failed(e) then Fail(FromCode(e, line)) else Pass
  }

  /**
   * The size probes of the metadata calls accept VIX_OK and
   * VIX_E_BUFFER_TOOSMALL and raise on every other code.
   */
  function CheckProbe(e: VixError, line: int): (o: Outcome<ErrWrapper>)
    ensures o.Pass? <==> (e == VixOk || e == EBufferTooSmall)
    ensures o.Fail? ==> Failed(e) && o.error == FromCode(e, line)
  {
    if e != VixOk && e != EBufferTooSmall then ThrowError(e, line) else Pass
  }
}
