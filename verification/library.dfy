/** include/glfwpp/glfwpp.h: the error callback that turns GLFW error codes
    into exceptions, the hot-plug callbacks that forward to the global
    monitor and joystick events, and the `init()` / `~GLFWLibrary` pair that
    brackets the library's lifetime. */
module Library {
  import opened Calls
  import opened Multicast
  import opened Glfw
  import opened Joysticks

  /** The GLFW error codes `errorCallback` distinguishes. */
  const NOT_INITIALIZED: int := 0x0001_0001
  const NO_CURRENT_CONTEXT: int := 0x0001_0002
  const OUT_OF_MEMORY: int := 0x0001_0005
  const API_UNAVAILABLE: int := 0x0001_0006
  const VERSION_UNAVAILABLE: int := 0x0001_0007
  const PLATFORM_ERROR: int := 0x0001_0008
  const FORMAT_UNAVAILABLE: int := 0x0001_0009
  const NO_WINDOW_CONTEXT: int := 0x0001_000A

  const ListedCodes: set<int> := {
    NOT_INITIALIZED, NO_CURRENT_CONTEXT, OUT_OF_MEMORY, API_UNAVAILABLE,
    VERSION_UNAVAILABLE, PLATFORM_ERROR, FORMAT_UNAVAILABLE, NO_WINDOW_CONTEXT }

  /** `GLFW_JOYSTICK_HAT_BUTTONS`, the init hint `init()` turns off. */
  const JOYSTICK_HAT_BUTTONS: int := 0x0005_0001

  /** The exception classes `errorCallback` throws; `GenericError` is the
      base class `Error`. */
  datatype ErrorKind =
    | NotInitializedError | NoCurrentContextError | OutOfMemoryError
    | ApiUnavailableError | VersionUnavailableError | PlatformError
    | FormatUnavailableError | NoWindowContextError | GenericError

  /** A thrown exception: its class and its `what()` message. */
  datatype Error = Error(kind: ErrorKind, what: string)

  /** The GLFW code a specific error class stands for. */
  function CodeOf(kind: ErrorKind): (code: int)
    requires kind != GenericError
    ensures code in ListedCodes
  {
    match kind
    case NotInitializedError => NOT_INITIALIZED
    case NoCurrentContextError => NO_CURRENT_CONTEXT
    case OutOfMemoryError => OUT_OF_MEMORY
    case ApiUnavailableError => API_UNAVAILABLE
    case VersionUnavailableError => VERSION_UNAVAILABLE
    case PlatformError => PLATFORM_ERROR
    case FormatUnavailableError => FORMAT_UNAVAILABLE
    case NoWindowContextError => NO_WINDOW_CONTEXT
  }

  /** `_impl::errorCallback`: every call throws (the result is the exception),
      the message is passed on unchanged, each listed code gets its own
      class and every other code the generic one. */
  function ErrorCallback(errorCode: int, what: string): (e: Error)
    ensures e.what == what
    ensures e.kind == GenericError <==> errorCode !in ListedCodes
    ensures e.kind != GenericError ==> CodeOf(e.kind) == errorCode
  {
    var kind :=
      if errorCode == NOT_INITIALIZED then NotInitializedError
      else if errorCode == NO_CURRENT_CONTEXT then NoCurrentContextError
      else if errorCode == OUT_OF_MEMORY then OutOfMemoryError
      else if errorCode == API_UNAVAILABLE then ApiUnavailableError
      else if errorCode == VERSION_UNAVAILABLE then VersionUnavailableError
      else if errorCode == PLATFORM_ERROR then PlatformError
      else if errorCode == FORMAT_UNAVAILABLE then FormatUnavailableError
      else if errorCode == NO_WINDOW_CONTEXT then NoWindowContextError
      else GenericError;
    Error(kind, what)
  }

  /** Distinct listed codes are thrown as distinct classes, and every
      specific class is thrown for exactly its own code. */
  lemma ErrorKindsDistinct(a: int, b: int, kind: ErrorKind, what: string)
    requires a in ListedCodes && b in ListedCodes
    ensures ErrorCallback(a, what).kind == ErrorCallback(b, what).kind <==> a == b
    ensures kind != GenericError ==> ErrorCallback(CodeOf(kind), what).kind == kind
  {
    if kind != GenericError {
      var e := ErrorCallback(CodeOf(kind), what);
      assert e.kind != GenericError;
      CodeOfInjective(e.kind, kind);
    }
  }

  /** Each specific class has its own code. */
  lemma CodeOfInjective(k1: ErrorKind, k2: ErrorKind)
    requires k1 != GenericError && k2 != GenericError
    ensures CodeOf(k1) == CodeOf(k2) <==> k1 == k2
  {
  }

  /** What `monitorEvent` handlers receive. */
  datatype MonitorNotice = MonitorNotice(monitor: Handle, eventType: int)

  /** What `joystickEvent` handlers receive. */
  datatype JoystickNotice = JoystickNotice(joystick: Joystick, eventType: int)

  /** `_impl::monitorCallback`: dispatches the global monitor event once,
      with the monitor and event type GLFW reported. */
  method MonitorCallback(monitorEvent: MulticastEvent<MonitorNotice>, monitor: Handle, eventType: int)
    returns (calls: seq<Call<MonitorNotice>>)
    ensures calls == Trace(monitorEvent.handlers, MonitorNotice(monitor, eventType))
    ensures |calls| == |monitorEvent.handlers|
    ensures forall c :: c in calls ==> c.args.monitor == monitor && c.args.eventType == eventType
  {
    calls := monitorEvent.Dispatch(MonitorNotice(monitor, eventType));
  }

  /** `_impl::joystickCallback`: dispatches the global joystick event once,
      with a `Joystick` for the reported id and the reported event type. */
  method JoystickCallback(joystickEvent: MulticastEvent<JoystickNotice>, jid: int, eventType: int)
    returns (calls: seq<Call<JoystickNotice>>)
    ensures calls == Trace(joystickEvent.handlers, JoystickNotice(FromId(jid), eventType))
    ensures |calls| == |joystickEvent.handlers|
    ensures forall c :: c in calls ==> ToId(c.args.joystick) == jid && c.args.eventType == eventType
  {
    calls := joystickEvent.Dispatch(JoystickNotice(FromId(jid), eventType));
    forall c | c in calls
      ensures ToId(c.args.joystick) == jid && c.args.eventType == eventType
    {
      var k :| 0 <= k < |calls| && calls[k] == c;
    }
  }

  /** The library-wide native calls the wrapper makes. */
  datatype LibCall =
    | SetErrorCallback
    | InitHint(hint: int, value: bool)
    | Initialize
    | SetMonitorCallback
    | SetJoystickCallback
    | Terminate

  /** The native library, as the sequence of library-wide calls made on it. */
  class NativeLibrary {
    var log: seq<LibCall>

    constructor ()
      ensures log == []
    {
      log := [];
    }

    /** Records one call. */
    method Perform(c: LibCall)
      modifies this
      ensures log == old(log) + [c]
    {
      log := log + [c];
    }
  }

  /** The calls of a successful `init()`, in order. */
  const InitCalls: seq<LibCall> := [
    SetErrorCallback, InitHint(JOYSTICK_HAT_BUTTONS, false), Initialize,
    SetMonitorCallback, SetJoystickCallback ]

  /** The error callback is installed before `glfwInit` (so errors raised by
      initialisation itself are thrown), the hot-plug callbacks after it, and
      terminate is not among them. */
  lemma InitOrder()
    ensures InitCalls[0] == SetErrorCallback && InitCalls[2] == Initialize
    ensures forall i :: 0 <= i < |InitCalls| && InitCalls[i] == Initialize ==> i == 2
    ensures forall i :: 0 <= i < |InitCalls| && InitCalls[i] == SetErrorCallback ==> i < 2
    ensures forall i :: 0 <= i < |InitCalls| && (InitCalls[i] == SetMonitorCallback || InitCalls[i] == SetJoystickCallback) ==> i > 2
    ensures Terminate !in InitCalls
  {
  }

  /** How many times `c` occurs in `log`. */
  function Count(log: seq<LibCall>, c: LibCall): (n: nat)
    ensures n <= |log|
    ensures n == 0 <==> c !in log
  {
    if log == [] then 0 else (if log[0] == c then 1 else 0) + Count(log[1..], c)
  }

  lemma {:induction false} CountConcat(a: seq<LibCall>, b: seq<LibCall>, c: LibCall)
    ensures Count(a + b, c) == Count(a, c) + Count(b, c)
  {
    if a == [] {
      assert a + b == b;
    } else {
      assert (a + b)[1..] == a[1..] + b;
      CountConcat(a[1..], b, c);
    }
  }

  /** The value `init()` returns; destroying it terminates GLFW. */
  class GlfwLibrary {
    const native: NativeLibrary
    /** Whether the destructor has run. */
    ghost var destroyed: bool

    constructor (native: NativeLibrary)
      ensures this.native == native && !destroyed
    {
      this.native := native;
      destroyed := false;
    }

    /** `~GLFWLibrary`: `glfwTerminate`, once. */
    method Dispose()
      requires !destroyed
      modifies this, native
      ensures destroyed
      ensures native.log == old(native.log) + [Terminate]
    {
      native.Perform(Terminate);
      destroyed := true;
    }
  }

  /** The outcome of `init()`: the library value, or the exception thrown. */
  datatype InitResult = Initialized(library: GlfwLibrary) | Threw(error: Error)

  /** `init()`. `initError` is the error `glfwInit` reports through the error
      callback, if any: the callback is already installed, so `init()` throws
      it and makes no further call. */
  method Init(native: NativeLibrary, initError: Option<(int, string)>) returns (r: InitResult)
    modifies native
    ensures initError.None? ==> r.Initialized? && native.log == old(native.log) + InitCalls
    ensures initError.None? ==> r.library.native == native && !r.library.destroyed
    ensures initError.Some? ==> r == Threw(ErrorCallback(initError.value.0, initError.value.1))
    ensures initError.Some? ==> native.log == old(native.log) + InitCalls[..3]
  {
    native.Perform(SetErrorCallback);
    native.Perform(InitHint(JOYSTICK_HAT_BUTTONS, false));
    native.Perform(Initialize);
    if initError.Some? {
      return Threw(ErrorCallback(initError.value.0, initError.value.1));
    }
    native.Perform(SetMonitorCallback);
    native.Perform(SetJoystickCallback);
    var library := new GlfwLibrary(native);
    r := Initialized(library);
  }

  /** A program that calls `init()` and lets the value go out of scope makes
      the five init calls and then terminates GLFW exactly once. */
  method Lifetime() returns (log: seq<LibCall>)
    ensures log == InitCalls + [Terminate]
    ensures Count(log, Terminate) == 1 && Count(log, Initialize) == 1
  {
    var native := new NativeLibrary();
    var r := Init(native, None);
    r.library.Dispose();
    log := native.log;
    CountConcat(InitCalls, [Terminate], Terminate);
    CountConcat(InitCalls, [Terminate], Initialize);
    InitializeOnce();
  }

  /** `init()` calls `glfwInit` exactly once. */
  lemma InitializeOnce()
    ensures Count(InitCalls, Initialize) == 1
  {
    var before, after := InitCalls[..2], InitCalls[3..];
    assert InitCalls == before + [Initialize] + after;
    CountConcat(before + [Initialize], after, Initialize);
    CountConcat(before, [Initialize], Initialize);
    assert Initialize !in before && Initialize !in after;
  }
}
