/** The arguments of GLFW's native input and window callbacks and how the
    wrapper converts them before dispatching: flags become `bool`, key and
    button states become "is down", dropped paths become a vector. */
module Input {
  import opened Glfw

  /** Bit patterns of C `float` and `double` values: the callbacks forward
      them unchanged and never compute with them. */
  type Float32 = bv32
  type Float64 = bv64

  /** A C `unsigned int`. */
  type UInt32 = x: int | 0 <= x < 0x1_0000_0000

  /** `getKey`/`getMouseButton` (and the joystick button queries): a key or
      button is down unless GLFW reports it as RELEASE. */
  function IsDown(state: int): (down: bool)
    ensures state == RELEASE ==> !down
    ensures state == PRESS || state == REPEAT ==> down
    ensures down <==> state != RELEASE
  {
    state != RELEASE
  }

  /** The arguments GLFW passes to each native window callback (after the
      window handle). */
  datatype RawEvent =
    | RawPos(x: int, y: int)
    | RawSize(width: int, height: int)
    | RawClose
    | RawRefresh
    | RawFocus(focused: int)
    | RawIconify(iconified: int)
    | RawMaximize(maximized: int)
    | RawFramebufferSize(width: int, height: int)
    | RawContentScale(xScale: Float32, yScale: Float32)
    | RawKey(key: int, scanCode: int, state: int, mods: int)
    | RawChar(codePoint: UInt32)
    | RawMouseButton(button: int, state: int, mods: int)
    | RawCursorPos(xPos: Float64, yPos: Float64)
    | RawCursorEnter(entered: int)
    | RawScroll(xOffset: Float64, yOffset: Float64)
    | RawDrop(count: nat, pPaths: seq<string>)

  /** The arguments each window event is dispatched with (after the
      wrapper). Enum-typed arguments keep the native integer, as a
      `static_cast` to an enum does. */
  datatype Payload =
    | Pos(x: int, y: int)
    | Size(width: int, height: int)
    | Close
    | Refresh
    | Focus(focused: bool)
    | Iconify(iconified: bool)
    | Maximize(maximized: bool)
    | FramebufferSize(width: int, height: int)
    | ContentScale(xScale: Float32, yScale: Float32)
    | Key(key: int, scanCode: int, state: int, mods: int)
    | Char(codePoint: UInt32)
    | MouseButton(button: int, state: int, mods: int)
    | CursorPos(xPos: Float64, yPos: Float64)
    | CursorEnter(entered: bool)
    | Scroll(xOffset: Float64, yOffset: Float64)
    | Drop(paths: seq<string>)

  /** Which native callback delivers a raw event. */
  function RawKind(raw: RawEvent): EventKind
  {
    match raw
    case RawPos(_, _) => PosKind
    case RawSize(_, _) => SizeKind
    case RawClose => CloseKind
    case RawRefresh => RefreshKind
    case RawFocus(_) => FocusKind
    case RawIconify(_) => IconifyKind
    case RawMaximize(_) => MaximizeKind
    case RawFramebufferSize(_, _) => FramebufferSizeKind
    case RawContentScale(_, _) => ContentScaleKind
    case RawKey(_, _, _, _) => KeyKind
    case RawChar(_) => CharKind
    case RawMouseButton(_, _, _) => MouseButtonKind
    case RawCursorPos(_, _) => CursorPosKind
    case RawCursorEnter(_) => CursorEnterKind
    case RawScroll(_, _) => ScrollKind
    case RawDrop(_, _) => DropKind
  }

  /** Which window event a payload belongs to. */
  function PayloadKind(p: Payload): EventKind
  {
    match p
    case Pos(_, _) => PosKind
    case Size(_, _) => SizeKind
    case Close => CloseKind
    case Refresh => RefreshKind
    case Focus(_) => FocusKind
    case Iconify(_) => IconifyKind
    case Maximize(_) => MaximizeKind
    case FramebufferSize(_, _) => FramebufferSizeKind
    case ContentScale(_, _) => ContentScaleKind
    case Key(_, _, _, _) => KeyKind
    case Char(_) => CharKind
    case MouseButton(_, _, _) => MouseButtonKind
    case CursorPos(_, _) => CursorPosKind
    case CursorEnter(_) => CursorEnterKind
    case Scroll(_, _) => ScrollKind
    case Drop(_) => DropKind
  }

  /** What each native callback hands to its event: integers and floats
      unchanged, an `int` flag as `bool` (nonzero is true), and the dropped
      paths as a vector of the first `count` entries. */
  function Translate(raw: RawEvent): (p: Payload)
    requires raw.RawDrop? ==> raw.count <= |raw.pPaths|
    ensures PayloadKind(p) == RawKind(raw)
  {
    match raw
    case RawPos(x, y) => Pos(x, y)
    case RawSize(w, h) => Size(w, h)
    case RawClose => Close
    case RawRefresh => Refresh
    case RawFocus(v) => Focus(v != 0)
    case RawIconify(v) => Iconify(v != 0)
    case RawMaximize(v) => Maximize(v != 0)
    case RawFramebufferSize(w, h) => FramebufferSize(w, h)
    case RawContentScale(x, y) => ContentScale(x, y)
    case RawKey(k, sc, st, m) => Key(k, sc, st, m)
    case RawChar(c) => Char(c)
    case RawMouseButton(b, st, m) => MouseButton(b, st, m)
    case RawCursorPos(x, y) => CursorPos(x, y)
    case RawCursorEnter(v) => CursorEnter(v != 0)
    case RawScroll(x, y) => Scroll(x, y)
    case RawDrop(n, ps) => Drop(ps[..n])
  }

  /** A native `int` flag as GLFW reports it: `GLFW_TRUE` or `GLFW_FALSE`. */
  predicate IsFlag(v: int)
  {
    v == 0 || v == 1
  }

  /** A raw event GLFW can actually deliver: flags are 0 or 1, and the path
      array holds exactly `count` entries. */
  predicate WellFormedRaw(raw: RawEvent)
  {
    match raw
    case RawFocus(v) => IsFlag(v)
    case RawIconify(v) => IsFlag(v)
    case RawMaximize(v) => IsFlag(v)
    case RawCursorEnter(v) => IsFlag(v)
    case RawDrop(n, ps) => n == |ps|
    case _ => true
  }

  function FlagOf(b: bool): int
  {
    if b then 1 else 0
  }

  /** The native callback arguments a payload was translated from. */
  function Restore(p: Payload): (raw: RawEvent)
    ensures WellFormedRaw(raw)
  {
    match p
    case Pos(x, y) => RawPos(x, y)
    case Size(w, h) => RawSize(w, h)
    case Close => RawClose
    case Refresh => RawRefresh
    case Focus(b) => RawFocus(FlagOf(b))
    case Iconify(b) => RawIconify(FlagOf(b))
    case Maximize(b) => RawMaximize(FlagOf(b))
    case FramebufferSize(w, h) => RawFramebufferSize(w, h)
    case ContentScale(x, y) => RawContentScale(x, y)
    case Key(k, sc, st, m) => RawKey(k, sc, st, m)
    case Char(c) => RawChar(c)
    case MouseButton(b, st, m) => RawMouseButton(b, st, m)
    case CursorPos(x, y) => RawCursorPos(x, y)
    case CursorEnter(b) => RawCursorEnter(FlagOf(b))
    case Scroll(x, y) => RawScroll(x, y)
    case Drop(ps) => RawDrop(|ps|, ps)
  }

  /** Translation loses nothing GLFW can deliver: every well-formed raw
      event is recovered from its payload ... */
  lemma TranslateLossless(raw: RawEvent)
    requires WellFormedRaw(raw)
    ensures Restore(Translate(raw)) == raw
  {
    if RawKind(raw) in WindowStateKinds {
      StateLossless(raw);
    } else {
      InputLossless(raw);
    }
  }

  lemma StateLossless(raw: RawEvent)
    requires RawKind(raw) in WindowStateKinds
    requires WellFormedRaw(raw)
    ensures Restore(Translate(raw)) == raw
  {
  }

  lemma InputLossless(raw: RawEvent)
    requires RawKind(raw) in InputKinds
    requires WellFormedRaw(raw)
    ensures Restore(Translate(raw)) == raw
  {
    if raw.RawDrop? {
      assert raw.pPaths[..raw.count] == raw.pPaths;
    }
  }

  /** ... and every payload is the translation of some raw event. */
  lemma TranslateOnto(p: Payload)
    ensures Translate(Restore(p)) == p
  {
    if PayloadKind(p) in WindowStateKinds {
      StateOnto(p);
    } else {
      InputOnto(p);
    }
  }

  lemma StateOnto(p: Payload)
    requires PayloadKind(p) in WindowStateKinds
    ensures Translate(Restore(p)) == p
  {
  }

  lemma InputOnto(p: Payload)
    requires PayloadKind(p) in InputKinds
    ensures Translate(Restore(p)) == p
  {
    if p.Drop? {
      assert p.paths[..|p.paths|] == p.paths;
    }
  }

  /** A flag is true exactly when the native value is nonzero; the drop
      event carries the first `count` paths. */
  lemma TranslateFlagsAndPaths(raw: RawEvent)
    requires raw.RawDrop? ==> raw.count <= |raw.pPaths|
    ensures raw.RawFocus? ==> (Translate(raw).focused <==> raw.focused != 0)
    ensures raw.RawIconify? ==> (Translate(raw).iconified <==> raw.iconified != 0)
    ensures raw.RawMaximize? ==> (Translate(raw).maximized <==> raw.maximized != 0)
    ensures raw.RawCursorEnter? ==> (Translate(raw).entered <==> raw.entered != 0)
    ensures raw.RawDrop? ==> Translate(raw).paths == raw.pPaths[..raw.count]
  {
  }

  /** The loop of `_dropCallback`: copies the first `count` paths of the
      native array into a vector. */
  method CollectPaths(count: nat, pPaths: seq<string>) returns (paths: seq<string>)
    requires count <= |pPaths|
    ensures |paths| == count
    ensures forall i :: 0 <= i < count ==> paths[i] == pPaths[i]
  {
    paths := [];
    var i := 0;
    while i < count
      invariant 0 <= i <= count
      invariant paths == pPaths[..i]
    {
      paths := paths + [pPaths[i]];
      i := i + 1;
    }
  }
}
