/** The owned-handle classes and the native-callback glue of
    include/glfwpp/window.h: `Cursor` and `Window` each own one native handle
    (moved-from or default-constructed wrappers hold null), a `Window` points
    GLFW's per-window user pointer at itself, and every native window callback
    finds its wrapper through that pointer and dispatches the matching event. */
module Windows {
  import opened Calls
  import opened Multicast
  import opened Glfw
  import opened Input

  /** `Window::getKey`, given the state `glfwGetKey` reports for the key:
      down unless released. */
  function GetKey(nativeState: int): (down: bool)
    ensures down <==> nativeState != RELEASE
  {
    IsDown(nativeState)
  }

  /** `Window::getMouseButton`, given the state `glfwGetMouseButton`
      reports: down unless released. */
  function GetMouseButton(nativeState: int): (down: bool)
    ensures down <==> nativeState != RELEASE
  {
    IsDown(nativeState)
  }

  /** For the states GLFW reports, a key is down when pressed or repeating
      and up when released; a mouse button is down exactly when pressed. */
  lemma KeyAndButtonStates(s: int)
    requires s in {RELEASE, PRESS, REPEAT}
    ensures GetKey(s) <==> s == PRESS || s == REPEAT
    ensures s != REPEAT ==> (GetMouseButton(s) <==> s == PRESS)
  {
  }

  /** What a window event's handlers receive: the wrapper and the payload. */
  datatype Notice = Notice(window: Window, payload: Payload)

  /** The position of each callback kind among a window's event members. */
  function Ordinal(k: EventKind): (n: nat)
    ensures n < 16
  {
    match k
    case PosKind => 0
    case SizeKind => 1
    case CloseKind => 2
    case RefreshKind => 3
    case FocusKind => 4
    case IconifyKind => 5
    case MaximizeKind => 6
    case FramebufferSizeKind => 7
    case ContentScaleKind => 8
    case KeyKind => 9
    case CharKind => 10
    case MouseButtonKind => 11
    case CursorPosKind => 12
    case CursorEnterKind => 13
    case ScrollKind => 14
    case DropKind => 15
  }

  /** The event members of one `Window`, one per native callback kind. */
  class WindowEvents {
    const pos: MulticastEvent<Notice>
    const size: MulticastEvent<Notice>
    const close: MulticastEvent<Notice>
    const refresh: MulticastEvent<Notice>
    const focus: MulticastEvent<Notice>
    const iconify: MulticastEvent<Notice>
    const maximize: MulticastEvent<Notice>
    const framebufferSize: MulticastEvent<Notice>
    const contentScale: MulticastEvent<Notice>
    const key: MulticastEvent<Notice>
    const charEvent: MulticastEvent<Notice>
    const mouseButton: MulticastEvent<Notice>
    const cursorPos: MulticastEvent<Notice>
    const cursorEnter: MulticastEvent<Notice>
    const scroll: MulticastEvent<Notice>
    const drop: MulticastEvent<Notice>

    /** The event member a native callback of kind `k` dispatches. */
    function Get(k: EventKind): MulticastEvent<Notice>
    {
      match k
      case PosKind => pos
      case SizeKind => size
      case CloseKind => close
      case RefreshKind => refresh
      case FocusKind => focus
      case IconifyKind => iconify
      case MaximizeKind => maximize
      case FramebufferSizeKind => framebufferSize
      case ContentScaleKind => contentScale
      case KeyKind => key
      case CharKind => charEvent
      case MouseButtonKind => mouseButton
      case CursorPosKind => cursorPos
      case CursorEnterKind => cursorEnter
      case ScrollKind => scroll
      case DropKind => drop
    }

    /** No two callback kinds share an event member, so subscribing to one
        event leaves every other event as it was: member `k` carries the
        tag `Ordinal(k)`. */
    ghost predicate Distinct()
    {
      forall k :: Get(k).tag == Ordinal(k)
    }

    /** Distinct kinds have distinct members. */
    lemma MembersDistinct(k1: EventKind, k2: EventKind)
      requires Distinct()
      ensures Get(k1) == Get(k2) <==> k1 == k2
    {
      assert Get(k1).tag == Ordinal(k1) && Get(k2).tag == Ordinal(k2);
    }

    /** The tags written out member by member, as the constructor gives them. */
    ghost predicate Tagged()
    {
      && pos.tag == 0 && size.tag == 1 && close.tag == 2 && refresh.tag == 3
      && focus.tag == 4 && iconify.tag == 5 && maximize.tag == 6
      && framebufferSize.tag == 7 && contentScale.tag == 8 && key.tag == 9
      && charEvent.tag == 10 && mouseButton.tag == 11 && cursorPos.tag == 12
      && cursorEnter.tag == 13 && scroll.tag == 14 && drop.tag == 15
    }

    lemma TaggedDistinct()
      requires Tagged()
      ensures Distinct()
    {
      forall k ensures Get(k).tag == Ordinal(k) {
        match k
        case PosKind =>
        case SizeKind =>
        case CloseKind =>
        case RefreshKind =>
        case FocusKind =>
        case IconifyKind =>
        case MaximizeKind =>
        case FramebufferSizeKind =>
        case ContentScaleKind =>
        case KeyKind =>
        case CharKind =>
        case MouseButtonKind =>
        case CursorPosKind =>
        case CursorEnterKind =>
        case ScrollKind =>
        case DropKind =>
      }
    }

    /** All event members. */
    ghost function Members(): set<MulticastEvent<Notice>>
      reads this
    {
      {pos, size, close, refresh, focus, iconify, maximize, framebufferSize,
       contentScale, key, charEvent, mouseButton, cursorPos, cursorEnter, scroll, drop}
    }

    /** Every event member holds no handler. */
    ghost predicate Empty()
      reads this, Members()
    {
      && pos.handlers == [] && size.handlers == [] && close.handlers == []
      && refresh.handlers == [] && focus.handlers == [] && iconify.handlers == []
      && maximize.handlers == [] && framebufferSize.handlers == []
      && contentScale.handlers == [] && key.handlers == [] && charEvent.handlers == []
      && mouseButton.handlers == [] && cursorPos.handlers == []
      && cursorEnter.handlers == [] && scroll.handlers == [] && drop.handlers == []
    }

    /** Default-constructed event members: all empty. */
    constructor ()
      ensures Empty() && Distinct()
      ensures fresh(pos) && fresh(size) && fresh(close) && fresh(refresh) && fresh(focus)
      ensures fresh(iconify) && fresh(maximize) && fresh(framebufferSize) && fresh(contentScale)
      ensures fresh(key) && fresh(charEvent) && fresh(mouseButton) && fresh(cursorPos)
      ensures fresh(cursorEnter) && fresh(scroll) && fresh(drop)
    {
      pos := new MulticastEvent<Notice>(0);
      size := new MulticastEvent<Notice>(1);
      close := new MulticastEvent<Notice>(2);
      refresh := new MulticastEvent<Notice>(3);
      focus := new MulticastEvent<Notice>(4);
      iconify := new MulticastEvent<Notice>(5);
      maximize := new MulticastEvent<Notice>(6);
      framebufferSize := new MulticastEvent<Notice>(7);
      contentScale := new MulticastEvent<Notice>(8);
      key := new MulticastEvent<Notice>(9);
      charEvent := new MulticastEvent<Notice>(10);
      mouseButton := new MulticastEvent<Notice>(11);
      cursorPos := new MulticastEvent<Notice>(12);
      cursorEnter := new MulticastEvent<Notice>(13);
      scroll := new MulticastEvent<Notice>(14);
      drop := new MulticastEvent<Notice>(15);
      new;
      TaggedDistinct();
    }
  }

  /** A default-constructed set of event members, every one of them new. */
  method NewEvents() returns (t: WindowEvents)
    ensures fresh(t) && fresh(t.Members()) && t.Empty() && t.Distinct()
  {
    t := new WindowEvents();
  }

  /** The user-pointer map after a wrapper adopts `h`: re-pointed at `w`
      when `h` is non-null, untouched otherwise. */
  function Repoint(m: map<Handle, Window>, h: Handle, w: Window): (r: map<Handle, Window>)
    ensures h == Null ==> r == m
    ensures h != Null ==> r.Keys == m.Keys + {h} && r[h] == w
    ensures forall g :: g in m && g != h ==> g in r && r[g] == m[g]
  {
    if h == Null then m else m[h := w]
  }

  class Cursor {
    const lib: NativeCursors
    /** The `GLFWcursor*` held by the `OwningPtr` base; null when empty. */
    var handle: Handle

    /** A non-null handle is live and this cursor is its only owner. */
    ghost predicate Valid()
      reads this, lib
    {
      lib.Valid() && (handle != Null ==> handle in lib.owner && lib.owner[handle] == this)
    }

    /** `Cursor()`: the partially-formed empty state. */
    constructor Empty(lib: NativeCursors)
      requires lib.Valid()
      ensures Valid() && this.lib == lib && handle == Null
    {
      this.lib := lib;
      handle := Null;
    }

    /** The inherited `OwningPtr` constructor: takes ownership of `h`, which
        no other wrapper owns. */
    constructor Adopt(lib: NativeCursors, h: Handle)
      requires lib.Valid()
      requires h == Null || (h in lib.live && h !in lib.owner)
      modifies lib`owner
      ensures Valid() && this.lib == lib && handle == h
      ensures h != Null ==> lib.owner == old(lib.owner)[h := this]
      ensures h == Null ==> lib.owner == old(lib.owner)
    {
      this.lib := lib;
      handle := h;
      new;
      if h != Null {
        lib.owner := lib.owner[h := this];
      }
    }

    /** `createCursor` and the `createStandardCursor...` factories: a native
        create call whose result, possibly null, the new cursor owns. */
    constructor Create(lib: NativeCursors, succeeds: bool)
      requires lib.Valid()
      modifies lib`nextHandle, lib`live, lib`owner
      ensures Valid() && this.lib == lib
      ensures succeeds <==> handle != Null
      ensures handle != Null ==> handle !in old(lib.live) && lib.live == old(lib.live) + {handle}
      ensures handle == Null ==> lib.live == old(lib.live)
      ensures handle != Null ==> lib.owner == old(lib.owner)[handle := this]
      ensures handle == Null ==> lib.owner == old(lib.owner)
    {
      var h := lib.Create(succeeds);
      this.lib := lib;
      handle := h;
      new;
      if h != Null {
        lib.owner := lib.owner[h := this];
      }
    }

    /** `Cursor(Cursor&&)`: takes over the other cursor's handle and leaves it
        null; nothing is released. */
    constructor MoveFrom(other: Cursor)
      requires other.Valid()
      modifies other, other.lib`owner
      ensures Valid() && other.Valid()
      ensures lib == other.lib && handle == old(other.handle) && other.handle == Null
      ensures handle != Null ==> lib.owner == old(other.lib.owner)[handle := this]
      ensures handle == Null ==> lib.owner == old(other.lib.owner)
    {
      lib := other.lib;
      handle := other.handle;
      new;
      other.handle := Null;
      if handle != Null {
        lib.owner := lib.owner[handle := this];
      }
    }

    /** `operator=(Cursor&&)`: releases the cursor held now, then takes over
        the other's handle and leaves the other null. Self-move is not a
        supported use. */
    method MoveAssign(other: Cursor)
      requires Valid() && other.Valid() && other.lib == lib && other != this
      modifies this, other, lib`live, lib`owner, lib`destroyed
      ensures Valid() && other.Valid()
      ensures handle == old(other.handle) && other.handle == Null
      ensures lib.destroyed == old(lib.destroyed) + Released(old(handle))
      ensures lib.live == old(lib.live) - {old(handle)}
      ensures handle != Null ==> lib.owner == (old(lib.owner) - {old(handle)})[handle := this]
      ensures handle == Null ==> lib.owner == old(lib.owner) - {old(handle)}
    {
      lib.Destroy(handle);
      handle := other.handle;
      other.handle := Null;
      if handle != Null {
        lib.owner := lib.owner[handle := this];
      }
    }

    /** `~Cursor`: releases the held cursor; a null cursor releases nothing. */
    method Dispose()
      requires Valid()
      modifies lib`live, lib`owner, lib`destroyed
      ensures lib.Valid()
      ensures lib.destroyed == old(lib.destroyed) + Released(handle)
      ensures lib.live == old(lib.live) - {handle}
      ensures lib.owner == old(lib.owner) - {handle}
    {
      lib.Destroy(handle);
    }
  }

  /** Two valid cursors on one library never own the same non-null handle. */
  lemma CursorOwnerUnique(a: Cursor, b: Cursor)
    requires a.Valid() && b.Valid() && a.lib == b.lib
    requires a.handle == b.handle != Null
    ensures a == b
  {
  }

  /** A cursor created, moved through two more cursors and destroyed together
      with the moved-from ones is released exactly once. */
  method CursorMoveChain(lib: NativeCursors) returns (h: Handle)
    requires lib.Valid()
    modifies lib
    ensures lib.Valid()
    ensures h != Null && lib.destroyed == old(lib.destroyed) + [h]
  {
    var a := new Cursor.Create(lib, true);
    h := a.handle;
    var b := new Cursor.MoveFrom(a);
    var c := new Cursor.Empty(lib);
    c.MoveAssign(b);
    a.Dispose();
    b.Dispose();
    c.Dispose();
  }

  class Window {
    const lib: NativeWindows<Window>
    /** `_handle`, the `HandleContainer`; null when empty. */
    var handle: Handle
    /** The public event members. */
    var events: WindowEvents

    /** A non-null handle is live and GLFW's user pointer for it names this
        wrapper. */
    ghost predicate Valid()
      reads this, lib
    {
      && lib.Valid()
      && (handle != Null ==> handle in lib.userPointer && lib.userPointer[handle] == this)
      && events.Distinct()
    }

    /** `Window()` and `Window(nullptr)`: no handle, nothing registered. */
    constructor Empty(lib: NativeWindows<Window>)
      requires lib.Valid()
      ensures Valid() && this.lib == lib && handle == Null
      ensures fresh(events) && fresh(events.Members()) && events.Empty()
    {
      var t := NewEvents();
      this.lib := lib;
      handle := Null;
      events := t;
    }

    /** `Window(GLFWwindow*)`: takes ownership of `h`; only when `h` is
        non-null does it set the user pointer and register every callback. */
    constructor Adopt(lib: NativeWindows<Window>, h: Handle)
      requires lib.Valid()
      requires h == Null || (h in lib.live && h !in lib.userPointer)
      modifies lib`userPointer, lib`callbacks
      ensures Valid() && this.lib == lib && handle == h
      ensures fresh(events) && fresh(events.Members()) && events.Empty()
      ensures lib.userPointer == Repoint(old(lib.userPointer), h, this)
      ensures h != Null ==> lib.callbacks == old(lib.callbacks)[h := AllKinds]
      ensures h == Null ==> lib.callbacks == old(lib.callbacks)
    {
      var t := NewEvents();
      this.lib := lib;
      handle := h;
      events := t;
      new;
      if h != Null {
        Register();
      }
    }

    /** `Window(width, height, title, ...)`: `glfwCreateWindow`, whose result,
        possibly null, is adopted as above. */
    constructor Create(lib: NativeWindows<Window>, succeeds: bool)
      requires lib.Valid()
      modifies lib`nextHandle, lib`live, lib`userPointer, lib`callbacks
      ensures Valid() && this.lib == lib
      ensures succeeds <==> handle != Null
      ensures handle != Null ==> handle !in old(lib.live) && lib.live == old(lib.live) + {handle}
      ensures handle == Null ==> lib.live == old(lib.live)
      ensures fresh(events) && fresh(events.Members()) && events.Empty()
      ensures lib.userPointer == Repoint(old(lib.userPointer), handle, this)
      ensures handle != Null ==> lib.callbacks == old(lib.callbacks)[handle := AllKinds]
      ensures handle == Null ==> lib.callbacks == old(lib.callbacks)
    {
      var h := lib.Create(succeeds);
      var t := NewEvents();
      this.lib := lib;
      handle := h;
      events := t;
      new;
      if h != Null {
        Register();
      }
    }

    /** The body of `Window(GLFWwindow*)` for a non-null handle: point the
        user pointer here, then register each native callback. */
    method Register()
      requires lib.Valid()
      requires handle != Null && handle in lib.live
      requires handle !in lib.callbacks
      requires events.Distinct()
      modifies lib`userPointer, lib`callbacks
      ensures Valid()
      ensures lib.userPointer == old(lib.userPointer)[handle := this]
      ensures lib.callbacks == old(lib.callbacks)[handle := AllKinds]
    {
      lib.SetUserPointer(handle, this);
      RegisterWindowCallbacks();
      RegisterInputCallbacks();
      assert {} + WindowStateKinds + InputKinds == AllKinds;
    }

    /** The window-state callbacks of `Window(GLFWwindow*)`. */
    method RegisterWindowCallbacks()
      requires lib.Valid()
      requires handle in lib.userPointer
      modifies lib`callbacks
      ensures lib.Valid()
      ensures lib.callbacks == old(lib.callbacks)[handle := old(lib.CallbacksOf(handle)) + WindowStateKinds]
    {
      ghost var before := lib.CallbacksOf(handle);
      RegisterThree(PosKind, SizeKind, CloseKind);
      RegisterThree(RefreshKind, FocusKind, IconifyKind);
      RegisterThree(MaximizeKind, FramebufferSizeKind, ContentScaleKind);
      assert before + {PosKind, SizeKind, CloseKind} + {RefreshKind, FocusKind, IconifyKind}
        + {MaximizeKind, FramebufferSizeKind, ContentScaleKind} == before + WindowStateKinds;
    }

    /** The input callbacks of `Window(GLFWwindow*)`. */
    method RegisterInputCallbacks()
      requires lib.Valid()
      requires handle in lib.userPointer
      modifies lib`callbacks
      ensures lib.Valid()
      ensures lib.callbacks == old(lib.callbacks)[handle := old(lib.CallbacksOf(handle)) + InputKinds]
    {
      ghost var before := lib.CallbacksOf(handle);
      RegisterThree(KeyKind, CharKind, MouseButtonKind);
      RegisterThree(CursorPosKind, CursorEnterKind, ScrollKind);
      lib.SetCallback(handle, DropKind);
      assert before + {KeyKind, CharKind, MouseButtonKind} + {CursorPosKind, CursorEnterKind, ScrollKind}
        + {DropKind} == before + InputKinds;
    }

    /** Three consecutive `glfwSet...Callback` calls on this window. */
    method RegisterThree(k1: EventKind, k2: EventKind, k3: EventKind)
      requires lib.Valid()
      requires handle in lib.userPointer
      modifies lib`callbacks
      ensures lib.Valid()
      ensures lib.callbacks == old(lib.callbacks)[handle := old(lib.CallbacksOf(handle)) + {k1, k2, k3}]
    {
      ghost var before := lib.CallbacksOf(handle);
      lib.SetCallback(handle, k1);
      lib.SetCallback(handle, k2);
      lib.SetCallback(handle, k3);
      assert before + {k1} + {k2} + {k3} == before + {k1, k2, k3};
    }

    /** `Window(Window&&)`: the `HandleContainer` move takes over the handle,
        leaves the source null and, for a non-null handle, re-points the
        user pointer here; the event members move along with it. */
    constructor MoveFrom(other: Window)
      requires other.Valid()
      modifies other, other.lib`userPointer
      ensures Valid() && other.Valid()
      ensures lib == other.lib && handle == old(other.handle) && other.handle == Null
      ensures lib.userPointer == Repoint(old(other.lib.userPointer), handle, this)
      ensures events == old(other.events)
      ensures fresh(other.events) && fresh(other.events.Members()) && other.events.Empty()
    {
      lib := other.lib;
      handle := other.handle;
      events := other.events;
      new;
      other.handle := Null;
      if handle != Null {
        lib.SetUserPointer(handle, this);
      }
      var t := NewEvents();
      other.events := t;
    }

    /** `operator=(Window&&)`: the `HandleContainer` assignment destroys the
        window held now, takes over the other's handle and, when it is
        non-null, re-points the user pointer here; the event members move
        along with it. Self-move is not a supported use. */
    method MoveAssign(other: Window)
      requires Valid() && other.Valid() && other.lib == lib && other != this
      modifies this, other, lib`live, lib`userPointer, lib`callbacks, lib`destroyed
      ensures Valid() && other.Valid()
      ensures handle == old(other.handle) && other.handle == Null
      ensures lib.destroyed == old(lib.destroyed) + Released(old(handle))
      ensures lib.live == old(lib.live) - {old(handle)}
      ensures lib.callbacks == old(lib.callbacks) - {old(handle)}
      ensures lib.userPointer == Repoint(old(lib.userPointer) - {old(handle)}, handle, this)
      ensures events == old(other.events)
      ensures fresh(other.events) && fresh(other.events.Members()) && other.events.Empty()
    {
      lib.Destroy(handle);
      TakeHandle(other);
      MoveEvents(other);
    }

    /** The handle moves: this window takes the other's and, when it is
        non-null, the user pointer is re-pointed here; the other is left
        null. */
    method TakeHandle(other: Window)
      requires lib.Valid() && other.Valid() && other.lib == lib && other != this
      modifies this`handle, other`handle, lib`userPointer
      ensures lib.Valid()
      ensures handle == old(other.handle) && other.handle == Null
      ensures lib.userPointer == Repoint(old(lib.userPointer), handle, this)
    {
      handle := other.handle;
      other.handle := Null;
      if handle != Null {
        lib.SetUserPointer(handle, this);
      }
    }

    /** The event members move along with the handle: this window takes the
        other's, and the other is left with new, empty ones. */
    method MoveEvents(other: Window)
      requires other != this && other.events.Distinct()
      modifies this`events, other`events
      ensures events == old(other.events) && events.Distinct()
      ensures fresh(other.events) && fresh(other.events.Members()) && other.events.Empty()
      ensures other.events.Distinct()
    {
      events := other.events;
      var t := NewEvents();
      other.events := t;
    }

    /** `~Window`: the `HandleContainer` destructor destroys the held window
        (nothing for null), which also drops its user pointer and callbacks. */
    method Dispose()
      requires Valid()
      modifies lib`live, lib`userPointer, lib`callbacks, lib`destroyed
      ensures lib.Valid()
      ensures lib.destroyed == old(lib.destroyed) + Released(handle)
      ensures lib.live == old(lib.live) - {handle}
      ensures lib.userPointer == old(lib.userPointer) - {handle}
      ensures lib.callbacks == old(lib.callbacks) - {handle}
    {
      lib.Destroy(handle);
    }
  }

  /** Two valid windows on one library never own the same non-null handle. */
  lemma WindowOwnerUnique(a: Window, b: Window)
    requires a.Valid() && b.Valid() && a.lib == b.lib
    requires a.handle == b.handle != Null
    ensures a == b
    ensures WrapperOf(a.lib, a.handle) == a
  {
  }

  /** `_getWrapperFromHandle`: the wrapper GLFW's user pointer names. */
  function WrapperOf(lib: NativeWindows<Window>, h: Handle): (w: Window)
    reads lib
    requires h in lib.userPointer
    ensures lib.Valid() ==> h in lib.live
  {
    lib.userPointer[h]
  }

  /** What a by-value payload is left holding once `std::forward` has moved
      it into a handler's parameter: the `std::vector` of drop paths is
      emptied; every other payload is made of scalars and enums, which a move
      copies. */
  function MovedFrom(p: Payload): (q: Payload)
    ensures PayloadKind(q) == PayloadKind(p)
    ensures !p.Drop? ==> q == p
    ensures p.Drop? ==> q.paths == []
  {
    if p.Drop? then Drop([]) else p
  }

  /** The `_...Callback` functions: GLFW calls the callback registered for
      the event's kind on window `h`; it finds the wrapper through the user
      pointer and dispatches that wrapper's event of the same kind once, with
      the wrapper first and the translated arguments after it. The dispatch
      forwards the arguments, so for a drop only the first handler receives
      the paths and every later one an empty vector. */
  method HandleNative(lib: NativeWindows<Window>, h: Handle, raw: RawEvent)
    returns (calls: seq<Call<Notice>>)
    requires lib.Valid()
    requires h in lib.callbacks && RawKind(raw) in lib.callbacks[h]
    requires WrapperOf(lib, h).lib == lib && WrapperOf(lib, h).Valid()
    requires WrapperOf(lib, h).handle == h
    requires raw.RawDrop? ==> raw.count <= |raw.pPaths|
    ensures var w := WrapperOf(lib, h); var p := Translate(raw);
      calls == ForwardTrace(w.events.Get(RawKind(raw)).handlers, Notice(w, p), Notice(w, MovedFrom(p)))
    ensures var w := WrapperOf(lib, h);
      !raw.RawDrop? ==> calls == Trace(w.events.Get(RawKind(raw)).handlers, Notice(w, Translate(raw)))
    ensures |calls| > 0 ==> calls[0].args == Notice(WrapperOf(lib, h), Translate(raw))
    ensures raw.RawDrop? ==> forall k :: 1 <= k < |calls| ==> calls[k].args == Notice(WrapperOf(lib, h), Drop([]))
  {
    var payload: Payload;
    if raw.RawDrop? {
      var paths := CollectPaths(raw.count, raw.pPaths);
      assert paths == raw.pPaths[..raw.count];
      payload := Drop(paths);
    } else {
      payload := Translate(raw);
    }
    var wrapper := WrapperOf(lib, h);
    var event := wrapper.events.Get(RawKind(raw));
    calls := event.DispatchForwarding(Notice(wrapper, payload), Notice(wrapper, MovedFrom(payload)));
    ForwardTraceCopies(event.handlers, Notice(wrapper, payload));
  }

  /** A new window with handlers 1 and 2 subscribed to its drop event, in
      that order. */
  method WindowWithTwoDropHandlers() returns (lib: NativeWindows<Window>, w: Window)
    ensures lib.Valid() && w.lib == lib && w.Valid() && w.handle != Null
    ensures w.handle in lib.callbacks && DropKind in lib.callbacks[w.handle]
    ensures WrapperOf(lib, w.handle) == w
    ensures |w.events.drop.handlers| == 2
    ensures w.events.drop.handlers[0].handler == 1 && w.events.drop.handlers[1].handler == 2
  {
    lib := new NativeWindows<Window>();
    w := new Window.Create(lib, true);
    var _ := w.events.drop.Subscribe(1);
    var _ := w.events.drop.Subscribe(2);
  }

  /** A window with two drop handlers receives a drop of one path: the first
      handler is called with that path, the second with no paths at all. */
  method DropToTwoHandlers(path: string) returns (w: Window, calls: seq<Call<Notice>>)
    ensures calls == [Call(1, Notice(w, Drop([path]))), Call(2, Notice(w, Drop([])))]
  {
    var lib;
    lib, w := WindowWithTwoDropHandlers();
    var raw := RawDrop(1, [path]);
    TranslateFlagsAndPaths(raw);
    assert [path][..1] == [path];
    calls := HandleNative(lib, w.handle, raw);
    ForwardTraceMoves(w.events.drop.handlers, Notice(w, Drop([path])), Notice(w, Drop([])));
  }

  /** Erasing from a `std::vector<Window>`: the last window is move-assigned
      into the erased slot and then destroyed. The erased window is released
      once, the moved window keeps its handle, and its user pointer now names
      the slot it moved into. */
  method EraseByShift(slot: Window, last: Window)
    requires slot.Valid() && last.Valid() && slot.lib == last.lib && slot != last
    modifies slot, last, slot.lib
    ensures slot.Valid() && slot.handle == old(last.handle)
    ensures slot.lib.destroyed == old(slot.lib.destroyed) + Released(old(slot.handle))
    ensures slot.lib.live == old(slot.lib.live) - {old(slot.handle)}
    ensures slot.handle != Null ==> slot.lib.userPointer[slot.handle] == slot
  {
    slot.MoveAssign(last);
    last.Dispose();
  }

  /** Two windows created on one library, then the first erased by the
      shift: the survivor holds the second window's handle, is valid and is
      the wrapper GLFW names for it, and the release log holds exactly the
      erased window's handle. */
  method EraseFirstOfTwo() returns (lib: NativeWindows<Window>, slot: Window, erased: Handle, kept: Handle)
    ensures lib.Valid() && slot.lib == lib && slot.Valid()
    ensures erased != Null && kept != Null && erased != kept
    ensures slot.handle == kept && WrapperOf(lib, kept) == slot
    ensures lib.destroyed == [erased]
    ensures lib.live == {kept}
  {
    lib := new NativeWindows<Window>();
    slot := new Window.Create(lib, true);
    var last := new Window.Create(lib, true);
    erased, kept := slot.handle, last.handle;
    EraseByShift(slot, last);
  }

  /** Subscribing to one event member of a window leaves every other event
      member of that window without handlers. */
  method SubscribeOneEvent() returns (w: Window)
    ensures w.Valid() && w.handle != Null
    ensures |w.events.pos.handlers| == 1 && w.events.pos.handlers[0].handler == 1
    ensures forall k :: k != PosKind ==> w.events.Get(k).handlers == []
  {
    var lib := new NativeWindows<Window>();
    w := new Window.Create(lib, true);
    SubscribeOnly(w.events);
  }

  /** Handler 1 subscribed to the position event of empty, distinct event
      members: only that member changes. */
  method SubscribeOnly(t: WindowEvents)
    requires t.Distinct() && t.Empty() && t.pos.Valid()
    modifies t.pos
    ensures |t.pos.handlers| == 1 && t.pos.handlers[0].handler == 1
    ensures forall k :: k != PosKind ==> t.Get(k).handlers == []
  {
    label Before:
    var _ := t.pos.Subscribe(1);
    forall k | k != PosKind
      ensures t.Get(k).handlers == []
    {
      t.MembersDistinct(k, PosKind);
      assert old@Before(t.Get(k).handlers) == [];
    }
  }
}
