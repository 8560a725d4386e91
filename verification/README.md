# glfwpp core, modelled in Dafny

glfwpp is a header-only C++ wrapper over the GLFW windowing library. Almost
every public call forwards to GLFW. This project models the part with logic
of its own, and proves what that logic promises:

- **Multicast events** (`include/glfwpp/helper.h`). `Event<Args...>` keeps a
  `std::list` of handlers.
  - `+=` appends a handler and returns an iterator, which is the unsubscribe
    token.
  - `-=` erases the node that token names.
  - `operator()` calls every handler in list order. It forwards its
    by-value arguments into each call, so an argument that a move empties
    (the drop event's path vector) reaches only the first handler intact.
- **Single-slot events** (`include/glfwpp/event.h`). An older `Event` that
  holds one `std::function`. `setCallback` overwrites it (an empty callable
  clears it), and calling the event invokes it when it is set.
- **Owned handles** (`include/glfwpp/window.h`).
  - `Cursor` and `Window` each own one native handle.
  - Move operations release the old handle and adopt the new one.
  - A `Window` points GLFW's per-window user pointer at itself and registers
    every native callback, but only for a non-null handle.
  - Each native callback finds the wrapper through that pointer and
    dispatches the matching event.
  - `getKey` / `getMouseButton` are also modelled.
- **Library lifetime** (`include/glfwpp/glfwpp.h`).
  - The error callback maps GLFW error codes to exception classes.
  - The monitor and joystick hot-plug callbacks forward to the global events.
  - `init()` installs callbacks around `glfwInit`.
  - `~GLFWLibrary` terminates GLFW.
- **Joystick state** (`include/glfwpp/joystick.h`).
  - `Joystick` wraps a native id.
  - `getButtons`, `getHats` and `getGamepadState` turn GLFW's raw arrays
    into wrapper values.

## How the model is put together

The modules follow the header files:

| file | module | models |
|---|---|---|
| calls.dfy | `Calls` | handler ids, a call record `Call(handler, args)`, `Option` |
| multicast.dfy | `Multicast` | `MulticastEvent`, the list of `(token, handler)` nodes |
| single_slot.dfy | `SingleSlot` | `SingleSlotEvent` |
| native.dfy | `Glfw` | the GLFW state the wrapper relies on |
| input.dfy | `Input` | native callback arguments and their conversion |
| windows.dfy | `Windows` | `Cursor`, `Window`, `WindowEvents`, the native callbacks |
| joysticks.dfy | `Joysticks` | `Joystick`, button, hat and gamepad conversions |
| library.dfy | `Library` | error callback, hot-plug callbacks, `init()`, `~GLFWLibrary` |

**Handlers and dispatch.** A handler is an opaque id. Dispatching an event
returns the sequence of calls it performs, which states "each handler once,
in order, with these arguments" directly.

**Unsubscribe tokens.** A token is a number from a per-event counter. A live
token names exactly one node. `-=` with a token that is not live is
undefined in C++, so `Unsubscribe` requires a live token.

**Window event members.** In C++ the sixteen event members of a `Window`
are separate data members, so they are distinct objects. In the model each
`MulticastEvent` has a ghost tag, and the members of a `WindowEvents` carry
tags 0 to 15 in declaration order. `Window.Valid()` includes this, so every
constructor and move keeps the members pairwise distinct.

**Native state.** GLFW is modelled as state (`Glfw.NativeWindows`,
`Glfw.NativeCursors`, `Library.NativeLibrary`):

- the live handles;
- the user pointer of each window;
- the callbacks registered on each window;
- a log of every release;
- the order of the library-wide calls.

Handles are natural numbers, and 0 is the null pointer. The release log
never holds a handle twice, which makes "released exactly once" a checked
invariant.

**Object lifetime.** C++ destructors are the explicit `Dispose` methods. A
move constructor is a constructor `MoveFrom(other)`. GLFW's result in a
create call is a parameter (`succeeds`).

**Values read from GLFW.** Values GLFW reports are parameters:

- key and button states;
- raw button and hat arrays and their counts;
- gamepad state;
- the error raised during `glfwInit`.

Floats that the wrapper only forwards are kept as their bit patterns (`bv32`
/ `bv64`). Examples are content scale, cursor position, scroll offsets and
axes.

**Constants** come from GLFW's public header, which is not part of this
model:

- `GLFW_RELEASE/PRESS/REPEAT` = 0/1/2;
- the error codes `0x00010001`…`0x0001000A`;
- `GLFW_JOYSTICK_HAT_BUTTONS` = `0x00050001`;
- the hat bits 0/1/2/4/8 and their diagonals 3/6/9/12;
- 15 gamepad buttons and 6 gamepad axes.

**Which `Event`.** `helper.h` and `event.h` both define `glfw::Event`, under
different include guards. `glfwpp.h` and `joystick.h` include `helper.h`,
`monitor.h` includes only `event.h`, and `window.h` includes both. The two
headers therefore conflict: a translation unit that includes `window.h`
sees two definitions of the same class template. The two definitions are
modelled as two classes, and it is this model's choice that every event
member uses the multicast one:

- the window events,
- `monitorEvent`,
- `joystickEvent`.

`SingleSlotEvent` is modelled and proved on its own. The bundled examples
still call the single-slot `setCallback`.

**Error classes.** `GLFW_OUT_OF_MEMORY` throws `OutOfMemoryError(what)`
like every other listed code; it gets no treatment of its own.
`include/glfwpp/error.h` does not declare four of the classes that
`errorCallback` throws:

- `NotInitializedError`
- `NoCurrentContextError`
- `OutOfMemoryError`
- `NoWindowContextError`

The error classes are therefore a datatype of their own (`Library.ErrorKind`).

**Assumptions.** `detail::OwningPtr` is defined outside the headers
modelled here. It is assumed that:

- a default-constructed `OwningPtr` is null (`Cursor() = default`,
  window.h:177);
- moving out of an `OwningPtr` leaves it null;
- move-assigning an `OwningPtr` does not release anything itself;
- `~OwningPtr` releases nothing, so the only release is the explicit
  `glfwDestroyCursor` / `glfwDestroyWindow` in the wrapper's destructor
  (window.h:187-190, 468-471);
- GLFW's destroy functions ignore null.

The model assumes GLFW 3.3 or later. `maximizeEvent`, `contentScaleEvent`,
their callbacks, `getHats` and `getGamepadState` exist only under
`GLFW_VERSION_MAJOR >= 3 && GLFW_VERSION_MINOR >= 3` (window.h:482-488,
531-549, 627-633; joystick.h:10-16, 144, 200). With an older GLFW a window
has 14 events and registers 14 callbacks, not sixteen.

A factory that yields a null handle stands for creation without the
throwing error callback that `init()` installs. With that callback
installed, GLFW reports a failed creation through it, so the wrapper's
constructor throws before it sees the null result.

Self-move is not a supported use and is excluded by a precondition.

## Model

| member | source | states |
|---|---|---|
| `Multicast.MulticastEvent.constructor` | include/glfwpp/helper.h:17 | a new event holds no handler |
| `Multicast.MulticastEvent.Subscribe` | include/glfwpp/helper.h:20-24 | `+=` appends exactly one node at the end, with the given handler. Its token was not live before, so it names exactly that node. Every earlier node is kept, in order. The live tokens are the old ones plus the new one. |
| `Multicast.MulticastEvent.Unsubscribe` | include/glfwpp/helper.h:25-28 | `-=` with a live token removes exactly the node it names, and the others keep their order. Every other token stays live, and only the erased one is gone. A stale token is a precondition violation. |
| `Multicast.Erase` | include/glfwpp/helper.h:25-28 | `std::list::erase` removes at most one node, and every node left was in the list |
| `Multicast.Trace` | include/glfwpp/helper.h:29-35 | one dispatch makes exactly one call per handler |
| `Multicast.MulticastEvent.Dispatch` | include/glfwpp/helper.h:29-35 | dispatch as intended, and as the source behaves whenever a move leaves the arguments intact: exactly one call per handler, in list order, each with the same arguments, and no calls for an empty list. The handler list is unchanged. |
| `Multicast.MulticastEvent.DispatchForwarding` | include/glfwpp/helper.h:29-35 | dispatch as written: one call per handler, in list order; the first handler receives the arguments, and every later handler receives what moving them into the first call left behind |
| `Multicast.ForwardTrace` | include/glfwpp/helper.h:29-35 | the forwarding loop makes as many calls as there are handlers |
| `Multicast.ForwardTraceCopies` | include/glfwpp/helper.h:29-35 | when a move leaves the arguments as they were, the forwarding loop makes exactly the calls of the intended dispatch |
| `Multicast.ForwardTraceMoves` | include/glfwpp/helper.h:29-35 | when a move changes the arguments and there are two or more handlers, only the first handler receives the arguments, every later one the moved-from value, so the calls differ from the intended dispatch |
| `Multicast.ForwardTraceAppend` | include/glfwpp/helper.h:20-35 | a handler appended to the list is called last, with the arguments if it is the only handler and with the moved-from value otherwise |
| `Multicast.EraseAt` | include/glfwpp/helper.h:25-28 | erasing the node of a live token leaves the nodes before it followed by the nodes after it |
| `Multicast.EraseTokens` | include/glfwpp/helper.h:25-28 | after an erase, the live tokens are the old ones minus the erased one, and still pairwise distinct |
| `Multicast.TraceAt` | include/glfwpp/helper.h:29-35 | call number k is a call of handler k, and there are as many calls as handlers |
| `Multicast.TraceAppend` | include/glfwpp/helper.h:20-35 | after `+=`, dispatch calls the earlier handlers first and the new one last |
| `Multicast.TraceConcat` | include/glfwpp/helper.h:29-35 | dispatching a concatenated list runs the first part, then the second |
| `Multicast.TraceSplit` | include/glfwpp/helper.h:29-35 | dispatch calls the nodes before position i, then node i, then the nodes after it |
| `Multicast.TraceAfterErase` | include/glfwpp/helper.h:25-35 | dispatch after `-=` makes every call it made before, in the same order, except the call of the erased node |
| `Multicast.UnsubscribeMiddle` | include/glfwpp/helper.h:20-35 | three subscribed handlers are called in subscription order. After the middle one is unsubscribed, the first and last are still called, in order. |
| `Multicast.ResizeLog` | include/glfwpp/helper.h:29-35 | two dispatches call one subscribed handler once each, with each dispatch's arguments, in dispatch order |
| `SingleSlot.SlotTrace` | include/glfwpp/event.h:22-28 | at most one call; none exactly when the slot is empty; otherwise a call of the stored handler with the given arguments |
| `SingleSlot.SlotAsList` | include/glfwpp/event.h:22-28 | invoking a slot makes the same calls as dispatching a multicast list holding at most that handler |
| `SingleSlot.SingleSlotEvent.constructor` | include/glfwpp/event.h:14 | a new event holds no handler |
| `SingleSlot.SingleSlotEvent.SetCallback` | include/glfwpp/event.h:17-21 | the new callable replaces whatever was stored; an empty callable (`nullptr`, an empty `std::function`) leaves the slot empty |
| `SingleSlot.SingleSlotEvent.Invoke` | include/glfwpp/event.h:22-28 | it calls nothing when the slot is empty, and calls the stored handler once with the arguments otherwise. The slot is unchanged. |
| `SingleSlot.FreshInvoke` | include/glfwpp/event.h:14-28 | invoking a new event performs no call |
| `SingleSlot.SetThenInvokeTwice` | include/glfwpp/event.h:17-28 | after `setCallback(f)`, every invocation calls `f` exactly once with its arguments, and invoking does not consume the handler |
| `SingleSlot.ReplaceCallback` | include/glfwpp/event.h:17-28 | after `setCallback(f)` then `setCallback(g)`, invoking calls `g` once and never `f` |
| `SingleSlot.SetThenClear` | include/glfwpp/event.h:17-28 | after `setCallback(f)` then `setCallback(nullptr)`, invoking calls nothing |
| `Glfw.Released` | include/glfwpp/window.h:187-190 | a destroy call releases nothing for null and exactly the handle otherwise |
| `Input.IsDown` | include/glfwpp/window.h:1025-1032 | a state is "down" exactly when it is not RELEASE, so RELEASE is up and PRESS and REPEAT are down |
| `Input.Translate` | include/glfwpp/window.h:501-589 | every native callback dispatches the event of its own kind |
| `Input.TranslateLossless` | include/glfwpp/window.h:501-603 | every raw event GLFW can deliver can be recovered from the arguments its event is dispatched with, so no argument is lost |
| `Input.TranslateOnto` | include/glfwpp/window.h:501-603 | every payload of a window event is the translation of some native callback's arguments |
| `Input.TranslateFlagsAndPaths` | include/glfwpp/window.h:521-603 | focus, iconify, maximize and cursor-enter flags are true exactly when the native `int` is nonzero. The drop event carries the first `count` paths. |
| `Input.CollectPaths` | include/glfwpp/window.h:591-603 | the loop of `_dropCallback` yields exactly `count` paths, the first `count` of the native array, in order |
| `Windows.GetKey` | include/glfwpp/window.h:1025-1028 | a key is down exactly when GLFW does not report it as RELEASE |
| `Windows.GetMouseButton` | include/glfwpp/window.h:1029-1032 | a mouse button is down exactly when GLFW does not report it as RELEASE |
| `Windows.KeyAndButtonStates` | include/glfwpp/window.h:1025-1032 | `getKey` is true exactly for PRESS and REPEAT, and `getMouseButton` exactly for PRESS, among the states GLFW reports |
| `Windows.WindowEvents.constructor` | include/glfwpp/window.h:476-558 | the sixteen event members (GLFW 3.3 or later) are new objects, all empty, and pairwise distinct: member `k` carries the ghost tag `Ordinal(k)` |
| `Windows.WindowEvents.MembersDistinct` | include/glfwpp/window.h:476-558 | two callback kinds share an event member exactly when they are the same kind, so subscribing to one event never changes another |
| `Windows.Repoint` | include/glfwpp/window.h:445-455 | after adopting a non-null handle, the user pointer of that handle names the new owner, and every other user pointer is untouched. A null handle changes nothing. |
| `Windows.Cursor.Empty` | include/glfwpp/window.h:177 | a default cursor holds null |
| `Windows.Cursor.Adopt` | include/glfwpp/window.h:175 | the cursor owns exactly the handle it was given |
| `Windows.Cursor.Create` | include/glfwpp/window.h:193-220 | a factory returns a cursor owning a new handle, one that was not live before and is the only handle added to the live set, or null when GLFW fails without the throwing error callback installed, in which case the live set is unchanged |
| `Windows.Cursor.MoveFrom` | include/glfwpp/window.h:178 | the new cursor takes over the handle, the source becomes null, and nothing is released |
| `Windows.Cursor.MoveAssign` | include/glfwpp/window.h:180-185 | it releases the cursor held now (nothing if null), then takes over the other's handle and leaves the other null |
| `Windows.Cursor.Dispose` | include/glfwpp/window.h:187-190 | the destructor releases the held cursor, and a null cursor releases nothing |
| `Windows.CursorOwnerUnique` | include/glfwpp/window.h:172-190 | no two cursors own the same non-null handle |
| `Windows.CursorMoveChain` | include/glfwpp/window.h:178-190 | a cursor created, moved through two more cursors and destroyed along with the moved-from ones is released exactly once |
| `Windows.Window.Empty` | include/glfwpp/window.h:606-610 | `Window()` / `Window(nullptr)` holds null, registers nothing and has empty events, every one a new object that handlers can subscribe to |
| `Windows.Window.Adopt` | include/glfwpp/window.h:613-643 | `Window(GLFWwindow*)` owns the handle and has new, empty events. For a non-null handle it points the user pointer at itself and registers all sixteen callbacks (GLFW 3.3 or later). For null it touches neither. |
| `Windows.Window.Create` | include/glfwpp/window.h:645-656 | `Window(width, height, ...)` adopts the result of the create call and has new, empty events. The result is non-null exactly when creation succeeds (a failure stands for creation without the throwing error callback), and only then are the user pointer and callbacks set. A non-null handle was not live before and is the only handle added to the live set; a null result leaves the live set unchanged. The event members are pairwise distinct. |
| `Windows.Window.Register` | include/glfwpp/window.h:617-641 | it sets the user pointer to this wrapper and registers exactly all sixteen callback kinds (GLFW 3.3 or later) on the handle. No other window is affected. |
| `Windows.Window.RegisterWindowCallbacks` | include/glfwpp/window.h:620-632 | it adds the nine window-state callbacks to the handle's registrations |
| `Windows.Window.RegisterInputCallbacks` | include/glfwpp/window.h:634-640 | it adds the seven input callbacks to the handle's registrations |
| `Windows.Window.RegisterThree` | include/glfwpp/window.h:620-640 | three consecutive registrations add exactly those three kinds |
| `Windows.Window.MoveFrom` | include/glfwpp/window.h:445-455 | the new window takes over the handle and the source becomes null. A non-null handle's user pointer now names the new window. The events move along, and the source is left with fresh empty events. Both windows' event members stay pairwise distinct. |
| `Windows.Window.MoveAssign` | include/glfwpp/window.h:457-466 | it first destroys the window held now (nothing if null), with its user pointer and callbacks. It then takes over the other's handle and leaves the other null, re-points a non-null handle's user pointer here, and moves the events. Both windows' event members stay pairwise distinct. |
| `Windows.Window.TakeHandle` | include/glfwpp/window.h:445-455 | the handle moves to this window and the other is left null. A non-null handle's user pointer is re-pointed here, and no other user pointer changes. |
| `Windows.Window.MoveEvents` | include/glfwpp/window.h:457-466 | the event members move to this window and keep their distinctness. The other window gets new, empty, pairwise distinct members. |
| `Windows.Window.Dispose` | include/glfwpp/window.h:468-471 | the destructor destroys the held window (nothing if null) with its user pointer and callbacks |
| `Windows.WindowOwnerUnique` | include/glfwpp/window.h:491-498 | the user pointer resolves each non-null handle to the one wrapper that owns it, and `_getWrapperFromHandle` returns that wrapper |
| `Windows.WrapperOf` | include/glfwpp/window.h:491-494 | `_getWrapperFromHandle` only resolves handles of live windows |
| `Windows.MovedFrom` | include/glfwpp/window.h:476-558 | what a dispatched payload is left holding after a move: a drop's path vector is empty, and every other payload, made of scalars and enums, is unchanged |
| `Windows.HandleNative` | include/glfwpp/window.h:501-603 | a native callback dispatches the event of its own kind on the wrapper named by the user pointer, forwarding the translated arguments. Every call receives that wrapper. For every kind but drop, each call receives the translated arguments. For a drop, the first call receives the paths and every later one an empty vector. |
| `Windows.WindowWithTwoDropHandlers` | include/glfwpp/helper.h:20-24 | a new window with two drop handlers subscribed holds them in subscription order, with its callbacks registered |
| `Windows.DropToTwoHandlers` | include/glfwpp/window.h:591-603 | a one-path drop on a window with two drop handlers calls the first with the path and the second with no paths |
| `Windows.EraseByShift` | examples/multiple_windows.cpp:31-35 | erasing from a `std::vector<Window>` by shifting releases the erased window once. The moved window keeps its handle, and its user pointer names its new slot. Only the erased handle leaves the live set. |
| `Windows.EraseFirstOfTwo` | examples/multiple_windows.cpp:17-35 | of two windows created on one library, erasing the first by the shift leaves a valid survivor holding the second handle, which GLFW's user pointer resolves to it. The release log holds exactly the erased handle, and only the second handle stays live. |
| `Windows.SubscribeOnly` | include/glfwpp/helper.h:20-24 | subscribing a handler to the position event of distinct, empty event members adds it there and leaves every other member without handlers |
| `Windows.SubscribeOneEvent` | include/glfwpp/window.h:476-558 | on a newly created window, subscribing to the position event leaves the other fifteen events without handlers |
| `Joysticks.FromId` | include/glfwpp/joystick.h:105-108 | a joystick made from an id holds that id |
| `Joysticks.ToId` | include/glfwpp/joystick.h:104-113 | converting a joystick to its id and back gives the same joystick |
| `Joysticks.JoystickIdRoundTrip` | include/glfwpp/joystick.h:104-113 | id → joystick → id is the identity, and two joysticks are equal exactly when their ids are |
| `Joysticks.DownStates` | include/glfwpp/joystick.h:136-139 | one flag per raw state, in order, true exactly when the state is not RELEASE |
| `Joysticks.GetButtons` | include/glfwpp/joystick.h:129-142 | exactly `count` flags, flag i true exactly when raw button i is not RELEASE |
| `Joysticks.DownStatesPressed` | include/glfwpp/joystick.h:136-139 | for the states GLFW reports, a button is down exactly when it is pressed |
| `Joysticks.HatOf` | include/glfwpp/joystick.h:154 | the cast keeps the raw value, so the hat state includes exactly the directions whose bits GLFW set |
| `Joysticks.GetHats` | include/glfwpp/joystick.h:145-157 | exactly `count` hat states, in order, each the cast of the raw value at the same position |
| `Joysticks.DiagonalHats` | include/glfwpp/joystick.h:145-157 | a diagonal position that `getHats` reads includes both of its directions and neither of the others, and the centered position no direction |
| `Joysticks.GamepadState.constructor` | include/glfwpp/joystick.h:206 | `GamepadState result{}` has 15 buttons all up and 6 zero axes |
| `Joysticks.GetGamepadState` | include/glfwpp/joystick.h:201-222 | all 15 button slots are filled, slot i true exactly when native button i is not RELEASE. All 6 axes are copied. |
| `Joysticks.AbsentGamepadAllUp` | include/glfwpp/joystick.h:201-213 | for an absent joystick, which GLFW reports as all zero, every gamepad button reads as up |
| `Library.CodeOf` | include/glfwpp/glfwpp.h:20-37 | each specific error class stands for one of the eight listed codes |
| `Library.ErrorCallback` | include/glfwpp/glfwpp.h:18-41 | every call throws. The message is passed on unchanged. Each listed code throws its own class, and every other code throws the generic `Error`. |
| `Library.ErrorKindsDistinct` | include/glfwpp/glfwpp.h:20-37 | distinct listed codes throw distinct classes, and each specific class is thrown for exactly its own code |
| `Library.CodeOfInjective` | include/glfwpp/glfwpp.h:20-37 | no two specific classes share a code |
| `Library.MonitorCallback` | include/glfwpp/glfwpp.h:43-46 | it dispatches `monitorEvent` once, which calls each handler once, with the reported monitor and event type |
| `Library.JoystickCallback` | include/glfwpp/glfwpp.h:48-51 | it dispatches `joystickEvent` once, which calls each handler once, with a joystick of the reported id and the reported event type |
| `Library.InitOrder` | include/glfwpp/glfwpp.h:77-88 | the error callback is installed before `glfwInit`, and the monitor and joystick callbacks after it. Init never terminates. |
| `Library.Init` | include/glfwpp/glfwpp.h:77-88 | a successful `init()` makes the five calls in order and returns a live library value. If `glfwInit` reports an error, `init()` throws that error's exception and makes no call after `glfwInit`. |
| `Library.InitializeOnce` | include/glfwpp/glfwpp.h:77-88 | `init()` calls `glfwInit` exactly once |
| `Library.GlfwLibrary.constructor` | include/glfwpp/glfwpp.h:69 | a new library value is live and has not terminated anything |
| `Library.GlfwLibrary.Dispose` | include/glfwpp/glfwpp.h:72-75 | destroying the library value calls `glfwTerminate` once |
| `Library.Lifetime` | include/glfwpp/glfwpp.h:72-88 | `init()` followed by destruction makes the five init calls and then exactly one terminate |

## Left out

- `include/glfwpp/native.h`, `include/glfwpp/vulkan.h`, `include/glfwpp/monitor.h`, `include/glfwpp/version.h` and `include/glfwpp/error.h` are not part of this model. They are one-line forwarders to GLFW or Vulkan, constants, and a macro-generated exception hierarchy.
- `detail::OwningPtr` and `GLFWPP_ENUM_FLAGS_OPERATORS` are not part of this model. The behaviour assumed of `OwningPtr` is stated above. Hat states are modelled as plain bit sets.
- `InitHints::apply`, `WindowHints::apply` and every getter or setter that only forwards to GLFW are left out. They contain no logic of the wrapper's own. This covers window attributes, the clipboard, the timer, `pollEvents`/`waitEvents`, `isPresent`, the joystick and gamepad names, and `updateGamepadMappings`.
- Floating-point values are not computed with, only carried as bit patterns.
- The `reinterpret_cast` that turns the `HandleContainer`'s address into its `Window`'s address (window.h:448-454) is not modelled as memory layout. The model states its intended effect: the user pointer names the owning `Window`.
- The `_userPtr` member of `Window` and its accessors `setUserPointer` / `getUserPointer` (window.h:949-957) are left out. They store and return a pointer for the application and take no part in the wrapper's own logic.
- An exception thrown by a handler, which would stop a dispatch part-way, is not modelled. This includes `std::bad_function_call`: `+=` accepts an empty `std::function`, and a dispatch reaching that node at helper.h:33 throws. A handler id always stands for a callable one. An error raised by any GLFW call other than `glfwInit` is not modelled either.
- `Input.TranslateLossless`: together with `Input.TranslateOnto` it shows that translation is one-to-one and onto, so no argument is lost. It does not by itself state that each argument lands in the field of the same name; that is how `Input.Translate` is written, field by field, and is not stated as a separate contract.
- A handler id stands for a `std::function`, and calling it is recorded, not executed. Handlers that subscribe or unsubscribe during dispatch are not modelled.
- `Multicast.MulticastEvent.Subscribe`: tokens come from a counter and are never reused. That is stronger than `std::list` iterators, whose node addresses can be reused after an erase. A stale iterator is excluded by `Unsubscribe`'s precondition in both.
- `GLFWLibrary` is implicitly copyable. A copy would terminate GLFW a second time. The model has no copy of the library value.
- `Joystick() = default` leaves the id uninitialised, and reading it is undefined. The model's `Joystick` always holds an id.
- `Windows.HandleNative` assumes that the wrapper its user pointer names holds that handle. Every constructor and move in the model keeps this true, but it is stated as a precondition rather than as a global invariant.
- The order of the sixteen `glfwSet...Callback` calls is not modelled. The model records which callbacks are registered, not the order in which they were installed.

## Findings

| source | as written | input that shows it | evidently intended | confidence | as-written member | corrected member |
|---|---|---|---|---|---|---|
| include/glfwpp/helper.h:29-35, include/glfwpp/window.h:558, 591-603 | `operator()` passes `std::forward<Args>(args)...` to every handler inside the loop. For `dropEvent`, whose second argument is a `std::vector<const char*>` taken by value, the first handler's `std::function` parameter is move-constructed from it, and every later handler receives the moved-from, empty vector. | a window with two drop handlers, and GLFW calls `_dropCallback(w, 1, {"a"})`: handler 1 receives `{"a"}`, handler 2 receives `{}` | every handler of one dispatch receives the same arguments (pass `args...` without forwarding) | high, not executed | `Multicast.MulticastEvent.DispatchForwarding`, with `Multicast.ForwardTraceMoves` and `Windows.DropToTwoHandlers` | `Multicast.MulticastEvent.Dispatch`, with `Multicast.ForwardTraceCopies` |

`Windows.HandleNative` follows the code as written, so its drop case shows
the finding. The monitor and joystick callbacks, and every window event
other than drop, pass only values that a move leaves intact (scalars, enums,
`Window&`, `Monitor` with its user-declared copy constructor, `Joystick`);
for them the two dispatches make the same calls (`Multicast.ForwardTraceCopies`,
stated for those kinds in `Windows.HandleNative`'s contract), and the monitor
and joystick callbacks use the intended `Dispatch`.
