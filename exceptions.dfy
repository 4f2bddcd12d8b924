/** The backend's exception hierarchy (backend/src/exceptions.py): every error
    is a `VTSError` carrying a message and a machine-readable code; each subclass
    declares its own default code, and a non-empty code given to the
    constructor overrides it. */
module Exceptions {
  import opened Wrappers

  /** One constructor per exception class of the module. */
  datatype ErrorClass =
    | VTS
    | AudioDevice
    | AudioDeviceNotFound
    | AudioPermission
    | VLLMConnection
    | VLLMTimeout
    | VLLMProtocol
    | Database

  /** The class-level `code` attribute. */
  function DefaultCode(c: ErrorClass): string {
    match c
    case VTS => "unknown_error"
    case AudioDevice => "audio_device_error"
    case AudioDeviceNotFound => "audio_device_not_found"
    case AudioPermission => "audio_permission_denied"
    case VLLMConnection => "vllm_connection_error"
    case VLLMTimeout => "vllm_timeout"
    case VLLMProtocol => "vllm_protocol_error"
    case Database => "database_error"
  }

  /** The direct base class; `VTS` is the root. */
  function Parent(c: ErrorClass): Option<ErrorClass> {
    match c
    case VTS => None
    case AudioDeviceNotFound => Some(AudioDevice)
    case AudioPermission => Some(AudioDevice)
    case _ => Some(VTS)
  }

  /** `issubclass(c, ancestor)`: the chain of bases from `c` reaches `ancestor`
      (every class is a subclass of itself). The depth of the hierarchy is 2. */
  predicate IsSubclass(c: ErrorClass, ancestor: ErrorClass)
    decreases Depth(c)
  {
    c == ancestor || (Parent(c).Some? && IsSubclass(Parent(c).value, ancestor))
  }

  function Depth(c: ErrorClass): nat {
    match c
    case VTS => 0
    case AudioDeviceNotFound => 2
    case AudioPermission => 2
    case _ => 1
  }

  datatype VTSError = VTSError(cls: ErrorClass, message: string, code: string)

  /** `Cls(message, code)`: the code is the argument when it is truthy, that is
      present and non-empty, and the class default otherwise. */
  function Raise(cls: ErrorClass, message: string, code: Option<string>): (e: VTSError)
    ensures e.cls == cls && e.message == message
    ensures code.Some? && code.value != "" ==> e.code == code.value
    ensures code.None? || code == Some("") ==> e.code == DefaultCode(cls)
  {
    VTSError(cls, message, if code.Some? && code.value != "" then code.value else DefaultCode(cls))
  }

  /** An `except AncestorClass` handler catches the error. */
  predicate Catches(handler: ErrorClass, e: VTSError) {
    IsSubclass(e.cls, handler)
  }

  /** Every class is a `VTSError`, so `except VTSError` catches them all. */
  lemma {:induction false} EverythingIsVTSError(c: ErrorClass)
    ensures IsSubclass(c, VTS)
    decreases Depth(c)
  {
    if c != VTS {
      EverythingIsVTSError(Parent(c).value);
    }
  }

  /** A handler for `AudioDeviceError` catches exactly the generic audio error and
      its two subclasses. */
  lemma AudioHandlerCatches(c: ErrorClass, message: string, code: Option<string>)
    ensures Catches(AudioDevice, Raise(c, message, code))
            <==> c in {AudioDevice, AudioDeviceNotFound, AudioPermission}
  {
  }

  /** The default codes tell the classes apart. */
  lemma DefaultCodesDistinct(a: ErrorClass, b: ErrorClass)
    ensures DefaultCode(a) == DefaultCode(b) <==> a == b
  {
  }
}
