# Mocksi extension state machines in Dafny

This project models the two pieces of the Mocksi browser extension that are
state machines rather than rendering or browser plumbing.

- **The popup/content-script view-state reducer** (`AppStateContext`): the
  closed sets of application states and events, the reducer that maps the
  current state and a dispatched action to the next state, the hook's
  sequence of dispatches (`DispatchAll`), the mount that starts from the
  initial state `Init` and first restores the stored state, and the
  middleware that writes every new state to the extension's local storage.
  The reducer is the function `Reduce`. The storage entry is the field
  `persisted` of `LocalStorageMiddleware`.
- **The recorder's background script** (`Background`): the module-level
  `recordingState` flag, the `buffer` of recorded events, the runtime message
  listener (`Recorder.HandleMessage`, whose reply is what the source passes to
  `sendResponse`), the start-up read of the stored flag
  (`Recorder.LoadRecordingState`), and the periodic send (`Recorder.Flush`,
  which returns the emitted batch). The class keeps a ghost log of every input
  since the last flush that cleared the buffer. Its invariant `Valid()` says
  that the buffer is exactly the data of the `wrapperToBackground` messages
  received while recording since that flush, in arrival order (`Accepted`),
  and that the flag is what those inputs leave it at (`FlagAfter`).

The source's `default: return state` branch of the reducer cannot be reached,
because `AppEvent` is a closed enumeration. So `Reduce` never reads its
`state` argument, and every event except `SetInitialState` leads to one fixed
state.

## Model

| member | source | states |
|---|---|---|
| `AppStateContext.Reduce` | apps/mocksi-lite/content/AppStateContext.tsx:48-75 | `SET_INITIAL_STATE` yields its payload, or `CREATE` without one; only a stored payload can yield `INIT`, `UNAUTHORIZED` or `HIDDEN`; `STOP_ANALYZING`, `CANCEL_EDITING`, `SAVE_MODIFICATIONS` and `STOP_PLAYING` yield `CREATE`; `START_RECORDING` yields `RECORDING`, `STOP_RECORDING` `ANALYZING`, `START_EDITING` `EDITING`, `START_PLAYING` `PLAY`, `START_CHAT` `CHAT` and `CREATE_DEMO` `READY` |
| `AppStateContext.ReduceIgnoresState` | apps/mocksi-lite/content/AppStateContext.tsx:52-71 | every action gives the same next state from any two current states |
| `AppStateContext.ReduceIdempotent` | apps/mocksi-lite/content/AppStateContext.tsx:48-74 | dispatching an action twice gives the state that dispatching it once gives |
| `AppStateContext.RecordingLifecycle` | apps/mocksi-lite/content/AppStateContext.tsx:52-57 | start, stop recording and stop analyzing go `RECORDING`, `ANALYZING`, `CREATE` from any starting state |
| `AppStateContext.LeavingEditOrPlayReturnsToCreate` | apps/mocksi-lite/content/AppStateContext.tsx:60-67 | cancelling an edit, saving modifications and stopping playback all land in `CREATE`, whatever the payload |
| `AppStateContext.DispatchAll` | apps/mocksi-lite/content/AppStateContext.tsx:98 | after a non-empty sequence of dispatches the state is the last action's target, from any start; a restore-only state different from the start is reached only through a `SET_INITIAL_STATE` carrying it |
| `AppStateContext.MountRestores` | apps/mocksi-lite/content/AppStateContext.tsx:98-108 | starting from `INIT`, the mount's `SET_INITIAL_STATE` gives the stored state or `CREATE`, and the session continues from that state |
| `AppStateContext.NoRestoreNoRestoredState` | apps/mocksi-lite/content/AppStateContext.tsx:48-74 | a non-empty session without `SET_INITIAL_STATE` never ends in `INIT`, `UNAUTHORIZED` or `HIDDEN` |
| `AppStateContext.LocalStorageMiddleware.Apply` | apps/mocksi-lite/content/AppStateContext.tsx:82-91 | returns exactly the reducer's result and stores that same value in the storage entry |
| `Background.Respond` | apps/owlserver-chrome/src/background.ts:25-43 | start and stop messages, and only they, get status `"success"` echoing the message; a `wrapperToBackground` message while recording, and only it, gets `{backgroundToPopup, ok}`; everything else gets `"pending"` echoing the message |
| `Background.FlagAfterSnoc` | apps/owlserver-chrome/src/background.ts:14-36 | the flag after one more input is that input's effect on the flag before it |
| `Background.AcceptedSnoc` | apps/owlserver-chrome/src/background.ts:38-39 | one more input appends its data at the end of the accepted sequence exactly when it is a `wrapperToBackground` message arriving while recording, and appends nothing otherwise |
| `Background.AcceptedWhileRecording` | apps/owlserver-chrome/src/background.ts:38-40 | from recording, with no stop message and no load of a false flag, every `wrapperToBackground` message's data is buffered, in order, and recording stays on |
| `Background.NothingAcceptedWhileIdle` | apps/owlserver-chrome/src/background.ts:38-43 | from not recording, with no start message and no load of a true flag, nothing is buffered and recording stays off |
| `Background.AcceptedComeFromWrapperMessages` | apps/owlserver-chrome/src/background.ts:38-39 | every buffered entry is the data of some `wrapperToBackground` message received |
| `Background.Recorder.constructor` | apps/owlserver-chrome/src/background.ts:10-11 | the script starts with an empty buffer and recording off, and the invariant holds |
| `Background.Recorder.LoadRecordingState` | apps/owlserver-chrome/src/background.ts:14-16 | the flag becomes the stored value, or false when absent; buffer and storage are unchanged; the invariant is kept |
| `Background.Recorder.HandleMessage` | apps/owlserver-chrome/src/background.ts:18-45 | reply as `Respond` gives it; start and stop set the flag and persist it and leave the buffer alone; an accepted message appends its data at the end; anything else changes nothing; the invariant is kept |
| `Background.Recorder.Flush` | apps/owlserver-chrome/src/background.ts:47-62 | a non-empty buffer is emitted whole and in order as one batch, which is exactly the data accepted since the last clearing flush; the buffer is then left empty if every entry decodes, and kept unchanged (to be emitted again) if one does not; an empty buffer emits nothing and changes nothing |

## Left out

- `console.log` calls, in the middleware and in the flush, are output only and are not modelled.
- `AppStateProvider` (React hooks, the context object and the asynchronous storage read on mount) is not modelled. The initial state `INIT` is the constant `InitialState`. `DispatchAll` stands for the hook's sequence of dispatches.
- The storage writes of both scripts are modelled as assignments to a field. The asynchrony and possible failure of the browser storage API are not modelled.
- `Recorder.LoadRecordingState` takes the value the storage read returned as a parameter, because the read completes at a time the script does not control, before or after any message. The stored value is modelled as an optional boolean. The source's `|| false` would pass through any other truthy stored value unchanged.
- `Request.data` is always a string. The source would push `undefined` for a `wrapperToBackground` message without data.
- `Recorder.Flush` returns the batch as a sequence of strings. Its JSON text and the commented-out beacon send are not modelled. The per-entry `JSON.parse`/`atob` decode-and-log loop is reduced to the parameter `decodes`, which says whether every entry decoded: when one throws, the clear at background.ts:60 is skipped and the buffer is kept, so the same entries are emitted again on the next tick.
- `Action.payload` is an `AppState` when present. The mount passes whatever storage holds without checking it, so a stored value outside the enumeration would become the state through `??`; the model cannot represent such a value.
- The five-second `setInterval` schedule of the flush is host scheduling. Any interleaving of flushes and messages is covered, because each is a separate method call.
- React presentational components and the build configuration are not part of this model.
