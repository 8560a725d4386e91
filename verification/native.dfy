/** The slice of the native GLFW library that the wrapper relies on, as
    state: which handles are live, the per-window user pointer, which window
    callbacks are registered, every release performed, and the order of the
    library-wide calls. GLFW itself is not part of this model; these classes
    state only what the wrapper assumes of it. */
module Glfw {

  /** An opaque native pointer (`GLFWwindow*`, `GLFWcursor*`, ...); 0 is null. */
  type Handle = nat
  const Null: Handle := 0

  /** Key, mouse-button and joystick-button states reported by GLFW. */
  const RELEASE: int := 0
  const PRESS: int := 1
  const REPEAT: int := 2

  /** The per-window native callbacks the wrapper can register. */
  datatype EventKind =
    | PosKind | SizeKind | CloseKind | RefreshKind | FocusKind | IconifyKind
    | MaximizeKind | FramebufferSizeKind | ContentScaleKind | KeyKind | CharKind
    | MouseButtonKind | CursorPosKind | CursorEnterKind | ScrollKind | DropKind

  const WindowStateKinds: set<EventKind> := {
    PosKind, SizeKind, CloseKind, RefreshKind, FocusKind, IconifyKind,
    MaximizeKind, FramebufferSizeKind, ContentScaleKind }
  const InputKinds: set<EventKind> := {
    KeyKind, CharKind, MouseButtonKind, CursorPosKind, CursorEnterKind, ScrollKind, DropKind }
  const AllKinds: set<EventKind> := WindowStateKinds + InputKinds

  /** No handle is released twice. */
  ghost predicate NoDuplicates(s: seq<Handle>)
  {
    forall i, j :: 0 <= i < j < |s| ==> s[i] != s[j]
  }

  /** What a destroy call adds to the release log: GLFW ignores null. */
  function Released(h: Handle): (log: seq<Handle>)
    ensures h == Null <==> log == []
    ensures h != Null ==> log == [h]
  {
    if h == Null then [] else [h]
  }

  /** Native window state; `W` is the type the user pointer points to. */
  class NativeWindows<W> {
    var nextHandle: nat
    var live: set<Handle>
    /** `glfwSetWindowUserPointer` / `glfwGetWindowUserPointer`. */
    var userPointer: map<Handle, W>
    /** The callbacks registered on each window. */
    var callbacks: map<Handle, set<EventKind>>
    /** Every non-null `glfwDestroyWindow`, in order. */
    var destroyed: seq<Handle>

    ghost predicate Valid()
      reads this
    {
      && nextHandle > 0
      && (forall h :: h in live ==> Null < h < nextHandle)
      && (forall i :: 0 <= i < |destroyed| ==> Null < destroyed[i] < nextHandle && destroyed[i] !in live)
      && NoDuplicates(destroyed)
      && userPointer.Keys <= live
      && callbacks.Keys <= userPointer.Keys
    }

    constructor ()
      ensures Valid()
      ensures live == {} && userPointer == map[] && callbacks == map[] && destroyed == []
    {
      nextHandle, live, userPointer, callbacks, destroyed := 1, {}, map[], map[], [];
    }

    /** `glfwCreateWindow`: a new live handle, or null when creation fails. */
    method Create(succeeds: bool) returns (h: Handle)
      requires Valid()
      modifies this`nextHandle, this`live
      ensures Valid()
      ensures succeeds <==> h != Null
      ensures h != Null ==> h !in old(live) && h !in destroyed && live == old(live) + {h}
      ensures h == Null ==> live == old(live)
    {
      if succeeds {
        h := nextHandle;
        live := live + {h};
        nextHandle := nextHandle + 1;
      } else {
        h := Null;
      }
    }

    /** `glfwDestroyWindow`: a no-op on null; otherwise the window, its user
        pointer and its callbacks are gone and the release is logged. */
    method Destroy(h: Handle)
      requires Valid()
      requires h == Null || h in live
      modifies this`live, this`userPointer, this`callbacks, this`destroyed
      ensures Valid()
      ensures live == old(live) - {h}
      ensures userPointer == old(userPointer) - {h}
      ensures callbacks == old(callbacks) - {h}
      ensures destroyed == old(destroyed) + Released(h)
    {
      if h != Null {
        live := live - {h};
        userPointer := userPointer - {h};
        callbacks := callbacks - {h};
        destroyed := destroyed + [h];
      }
    }

    /** `glfwSetWindowUserPointer`. */
    method SetUserPointer(h: Handle, w: W)
      requires Valid()
      requires h in live
      modifies this`userPointer
      ensures Valid()
      ensures userPointer == old(userPointer)[h := w]
    {
      userPointer := userPointer[h := w];
    }

    /** One of the `glfwSet...Callback` calls for window `h`. */
    method SetCallback(h: Handle, k: EventKind)
      requires Valid()
      requires h in userPointer
      modifies this`callbacks
      ensures Valid()
      ensures callbacks == old(callbacks)[h := old(CallbacksOf(h)) + {k}]
    {
      callbacks := callbacks[h := CallbacksOf(h) + {k}];
    }

    /** The callbacks registered on `h` so far. */
    function CallbacksOf(h: Handle): (ks: set<EventKind>)
      reads this
      ensures h !in callbacks ==> ks == {}
      ensures h in callbacks ==> ks == callbacks[h]
    {
      if h in callbacks then callbacks[h] else {}
    }
  }

  /** Native cursor state. GLFW keeps no back-pointer for cursors, so the
      wrapper that owns each live cursor is recorded as ghost state. */
  class NativeCursors {
    var nextHandle: nat
    var live: set<Handle>
    /** Every non-null `glfwDestroyCursor`, in order. */
    var destroyed: seq<Handle>
    ghost var owner: map<Handle, object>

    ghost predicate Valid()
      reads this
    {
      && nextHandle > 0
      && (forall h :: h in live ==> Null < h < nextHandle)
      && (forall i :: 0 <= i < |destroyed| ==> Null < destroyed[i] < nextHandle && destroyed[i] !in live)
      && NoDuplicates(destroyed)
      && owner.Keys <= live
    }

    constructor ()
      ensures Valid()
      ensures live == {} && destroyed == [] && owner == map[]
    {
      nextHandle, live, destroyed := 1, {}, [];
      owner := map[];
    }

    /** `glfwCreateCursor` / `glfwCreateStandardCursor`. */
    method Create(succeeds: bool) returns (h: Handle)
      requires Valid()
      modifies this`nextHandle, this`live
      ensures Valid()
      ensures succeeds <==> h != Null
      ensures h != Null ==> h !in old(live) && h !in destroyed && live == old(live) + {h}
      ensures h == Null ==> live == old(live)
    {
      if succeeds {
        h := nextHandle;
        live := live + {h};
        nextHandle := nextHandle + 1;
      } else {
        h := Null;
      }
    }

    /** `glfwDestroyCursor`: a no-op on null. */
    method Destroy(h: Handle)
      requires Valid()
      requires h == Null || h in live
      modifies this`live, this`owner, this`destroyed
      ensures Valid()
      ensures live == old(live) - {h}
      ensures owner == old(owner) - {h}
      ensures destroyed == old(destroyed) + Released(h)
    {
      if h != Null {
        live := live - {h};
        owner := owner - {h};
        destroyed := destroyed + [h];
      }
    }
  }
}
