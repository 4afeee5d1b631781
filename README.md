# Windows hotkey listener, modelled in Dafny

This project models the Windows back end of a Rust library for global hotkeys. The modelled part is `Listener` in `src/windows.rs`. A listener keeps two pieces of state. The first is a counter, `last_id`. The second is a registry, `handlers`, that maps `i32` identifiers to callbacks. It has three operations:

- `new` creates an empty listener.
- `register_hotkey` increments the counter and asks the operating system (`RegisterHotKey`) to claim the combination under the new identifier, with no target window. It stores the callback only when the claim succeeds. Otherwise it returns `Err("Failed to register hotkey")`.
- `listen` pumps `GetMessageW`. For every retrieved message whose `wParam` is not invalid, it looks up `wParam as i32` and runs the matching callback, if there is one.

Everything is in one module, `Windows` (`windows.dfy`).

- `Listener` is a class. Its fields are `lastId` and `handlers: map<ListenerId, H>`.
- Callbacks are opaque labels of the type parameter `H`.
- A ghost field, `history`, records the result of every registration call. It is bookkeeping for the proofs and does not exist in the source.
- The invariant `Valid()` ties the fields together:
  - `lastId == |history|`;
  - call `k` returned either `Ok(k + 1)` or the error;
  - the registry holds exactly the identifiers of the successful calls;
  - so every key lies in `1..lastId`.
- The `RegisterHotKey` call is an oracle `os: Claim -> bool`. Its argument is the full claim: window, identifier, modifiers and key. The result of `RegisterHotkey` and its new registry are decided by the OS's answer to the claim `(HWND 0, id, modifiers, key)`. Because `os` is a pure function, the contract does not say that exactly one claim is issued.
- The message queue is a finite sequence of pump results. Each result is a retrieved `Message` or `Stop`, which stands for `GetMessageW` returning zero. `Listen` keeps the source's two nested loops. The inner loop runs while messages arrive. After a `Stop`, the outer loop starts it again.
- `Listen` returns the callbacks it ran, in order. Its contract equates that log with the specification function `Dispatched`, and the dispatch lemmas are proved about `Dispatched`.
- Identifiers (`ListenerId`) are `i32` values, a subset type of `int`. `wParam` is a 64-bit `usize`. The cast `wParam as i32` is written out as `AsI32`: keep the low 32 bits and read them as two's complement.

## Model

| member | source | states |
|---|---|---|
| Windows.Listener.constructor | src/windows.rs:47-52 | a new listener has `lastId == 0`, an empty handler map and no calls yet; the invariant holds |
| Windows.Listener.RegisterHotkey | src/windows.rs:54-72 | `lastId` goes up by exactly one whether or not the claim succeeds. The claim sent to the OS is `(HWND 0, new id, modifiers, key)`. If it is refused, the call returns `Err("Failed to register hotkey")` and the registry is unchanged. If it is accepted, the call returns `Ok(id)` and the registry gains exactly `id -> handler`. The new id was not already a key, so nothing is overwritten. The invariant (keys in `1..lastId`, registry = successful calls) is kept |
| Windows.SuccessfulIdsIncreasing | src/windows.rs:61-70 | across the calls on one listener, successful registrations return strictly increasing (so pairwise distinct) identifiers, each between 1 and the number of calls |
| Windows.FailedIdNeverReturned | src/windows.rs:61-67 | the identifier used by a refused claim is never returned by any call, earlier or later |
| Windows.RegisteredAreReturned | src/windows.rs:42-43 | on a consistent listener, an identifier has a handler exactly when some call returned it |
| Windows.SuccessfulIds | src/windows.rs:69-70 | the list of returned identifiers is no longer than the list of calls, and contains exactly the ids of the `Ok` results |
| Windows.AsI32 | src/windows.rs:80 | `wParam.0 as i32` is an `i32` (by its result type) congruent to `wParam` modulo 2^32, so the high bits are dropped. It is the identity on `0..i32::MAX` |
| Windows.Target | src/windows.rs:79-80 | a message yields a lookup key exactly when its `wParam` is not flagged invalid. The key is an `i32` congruent to `wParam` modulo 2^32, which is the value of `wParam.0 as i32` |
| Windows.Handle | src/windows.rs:79-83 | one message runs at most one callback. It runs one exactly when the message is usable and its key is registered, and that callback is the one stored under the key |
| Windows.Dispatched | src/windows.rs:78-84 | a stream runs no more callbacks than it has messages, and every callback run is one from the registry |
| Windows.Listener.Listen | src/windows.rs:74-87 | the nested pump loops run exactly `Dispatched(handlers, pump)`. Notifications are handled one at a time, in order, and a `Stop` restarts the pump |
| Windows.DispatchedAppend | src/windows.rs:78-84 | messages are handled in order: dispatching `a + b` is dispatching `a`, then `b` |
| Windows.DispatchedEmptyIff | src/windows.rs:79-83 | no callback runs if and only if no message of the stream is usable and targets a registered identifier. Unknown identifiers are silently ignored |
| Windows.DispatchedIgnoresKind | src/windows.rs:79-80 | the message kind plays no part in dispatch: streams that agree on `wParam` and its validity run the same callbacks |
| Windows.Triggers | src/windows.rs:79-80 | counts the retrieved, usable messages whose `wParam as i32` equals the id (the counting side of `DispatchedCount`); the count is at most the stream length |
| Windows.TriggersAppend | src/windows.rs:78-84 | the count over `a + b` is the count over `a` plus the count over `b`: each message is judged on its own |
| Windows.DispatchedCount | src/windows.rs:80-82 | when callbacks are distinct, the callback of a registered id runs exactly once per usable message whose `wParam as i32` is that id |
| Windows.SecondClaimRefused | src/windows.rs:61-70 | with an OS that refuses the second claim, three registrations return `Ok(1)`, the error, then `Ok(3)` |
| Windows.DispatchedExample | src/windows.rs:79-82 | with A under 1 and B under 2, dispatching the notifications 1, 2, 1, 99 gives exactly A, B, A |
| Windows.DispatchInOrder | src/windows.rs:74-87 | with A under 1 and B under 2, notifications 1, 2, 1, 99 run A, B, A, and 99 is ignored |

## Left out

- The `modifiers` and `keys` constant modules (src/windows.rs:8-37) re-export constants of the `windows` crate and hold no logic. The scenarios use two literal values (`MOD_CONTROL`, `WM_HOTKEY`) only as sample inputs.
- `RegisterHotKey` is a foreign call. It is the oracle parameter `os`. What makes the OS accept or refuse a claim, and the global claim itself, are not modelled.
- `GetMessageW` is a foreign call. Its results are the input sequence `pump`. A `-1` error result converts to `true` through `as_bool`, so it counts as a retrieved message. What `WPARAM::is_invalid` checks is not modelled: it is the flag `wParamInvalid` on each message.
- `listen` never returns: its outer `loop` restarts the pump forever. The model runs the same loops over a finite stream and returns the log of callbacks run.
- `listen` takes `self` by value, so no registration can follow it. Dafny has no move semantics. `Listen` only reads the listener, and the model does not rule out a later `RegisterHotkey`.
- What callbacks do is not modelled. They are labels, and running one only appends it to the log.
- The uninitialised `MSG` buffer (`MaybeUninit`, src/windows.rs:77) is memory plumbing and is not modelled.
- Windows.Listener.RegisterHotkey: requires `lastId < i32::MAX`. In the source, `last_id += 1` at `i32::MAX` panics in a debug build and wraps to `i32::MIN` in a release build. Neither is modelled.
- `usize` is taken to be 64 bits wide, as on a 64-bit target.
- src/lib.rs only selects the platform module with `cfg` and re-exports it. The Linux module it names is not part of this model.
