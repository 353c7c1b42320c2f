/**
 * The view-state machine of the popup and content script: the closed sets of
 * application states and events, the reducer that maps a state and an action
 * to the next state, and the middleware that persists every new state to the
 * extension's local storage.
 */
module AppStateContext {
  import opened Wrappers

  /** The views the extension can be in. */
  datatype AppState =
    | Init
    | Unauthorized
    | Ready
    | Recording
    | Analyzing
    | Create
    | Editing
    | Play
    | Hidden
    | Chat

  /** What the user or the storage loader can ask the view-state machine to do. */
  datatype AppEvent =
    | SetInitialState
    | StartRecording
    | StopRecording
    | StopAnalyzing
    | StartEditing
    | CancelEditing
    | SaveModifications
    | StartPlaying
    | StopPlaying
    | StartChat
    | CreateDemo

  /** A dispatched action: an event and, for SetInitialState, the state read from storage, if any. */
  datatype Action = Action(event: AppEvent, payload: Option<AppState>)

  /** The state the hook starts in before storage has been read. */
  const InitialState: AppState := Init

  /** States that only a stored payload can bring back. */
  predicate RestoredOnly(s: AppState) {
    s == Init || s == Unauthorized || s == Hidden
  }

  /**
   * The reducer. The source's `default` branch returns the current state; it
   * cannot be reached because AppEvent is closed, so `state` is read only by
   * that branch and the result never depends on it.
   */
  function Reduce(state: AppState, action: Action): (next: AppState)
    ensures action.event == SetInitialState && action.payload.Some? ==> next == action.payload.value
    ensures action.event == SetInitialState && action.payload.None? ==> next == Create
    ensures RestoredOnly(next) ==> action.event == SetInitialState && action.payload == Some(next)
    ensures action.event in {StopAnalyzing, CancelEditing, SaveModifications, StopPlaying} ==> next == Create
    ensures action.event == StartRecording ==> next == Recording
    ensures action.event == StopRecording ==> next == Analyzing
    ensures action.event == StartEditing ==> next == Editing
    ensures action.event == StartPlaying ==> next == Play
    ensures action.event == StartChat ==> next == Chat
    ensures action.event == CreateDemo ==> next == Ready
  {
    match action.event
    case SetInitialState => action.payload.GetOr(Create)
    case StartRecording => Recording
    case StopRecording => Analyzing
    case StopAnalyzing => Create
    case StartEditing => Editing
    case CancelEditing => Create
    case SaveModifications => Create
    case StartPlaying => Play
    case StopPlaying => Create
    case StartChat => Chat
    case CreateDemo => Ready
  }

  /** Every action leads to the same state from every state. */
  lemma ReduceIgnoresState(s: AppState, t: AppState, action: Action)
    ensures Reduce(s, action) == Reduce(t, action)
  {
  }

  /** Dispatching the same action twice lands where dispatching it once does. */
  lemma ReduceIdempotent(s: AppState, action: Action)
    ensures Reduce(Reduce(s, action), action) == Reduce(s, action)
  {
  }

  /** Starting a recording, stopping it and finishing the analysis goes Recording, Analyzing, Create from anywhere. */
  lemma RecordingLifecycle(s: AppState)
    ensures Reduce(s, Action(StartRecording, None)) == Recording
    ensures Reduce(Recording, Action(StopRecording, None)) == Analyzing
    ensures Reduce(Analyzing, Action(StopAnalyzing, None)) == Create
    ensures DispatchAll(s, [Action(StartRecording, None), Action(StopRecording, None), Action(StopAnalyzing, None)]) == Create
  {
  }

  /** Cancelling an edit, saving it and stopping playback all return to Create, whatever the payload. */
  lemma LeavingEditOrPlayReturnsToCreate(s: AppState, payload: Option<AppState>)
    ensures Reduce(s, Action(CancelEditing, payload)) == Create
    ensures Reduce(s, Action(SaveModifications, payload)) == Create
    ensures Reduce(s, Action(StopPlaying, payload)) == Create
  {
  }

  /**
   * The state after the hook has applied `actions` in order, starting from `state`.
   * Only the last action matters, and a state that only storage can restore is
   * reached only by restoring it.
   */
  function DispatchAll(state: AppState, actions: seq<Action>): (final: AppState)
    ensures actions != [] ==> final == Reduce(state, actions[|actions| - 1])
    ensures RestoredOnly(final) && final != state ==>
      exists i :: 0 <= i < |actions| && actions[i] == Action(SetInitialState, Some(final))
    decreases |actions|
  {
    if actions == [] then state
    else DispatchAll(Reduce(state, actions[0]), actions[1..])
  }

  /**
   * A session that never restores from storage, once anything was dispatched,
   * cannot be back in Init, Unauthorized or Hidden.
   */
  lemma NoRestoreNoRestoredState(state: AppState, actions: seq<Action>)
    requires actions != []
    requires forall i :: 0 <= i < |actions| ==> actions[i].event != SetInitialState
    ensures !RestoredOnly(DispatchAll(state, actions))
  {
    var last := actions[|actions| - 1];
    assert last.event != SetInitialState;
  }

  /**
   * The provider's mount: starting from InitialState, the storage read is
   * dispatched first, giving the stored state or Create, and the session goes
   * on from there.
   */
  lemma MountRestores(stored: Option<AppState>, rest: seq<Action>)
    ensures DispatchAll(InitialState, [Action(SetInitialState, stored)]) == stored.GetOr(Create)
    ensures DispatchAll(InitialState, [Action(SetInitialState, stored)] + rest) == DispatchAll(stored.GetOr(Create), rest)
  {
    assert ([Action(SetInitialState, stored)] + rest)[1..] == rest;
  }

  /**
   * The reducer wrapped so that each new state is also written to the
   * extension's local storage under the recording-state key; `persisted` is
   * that storage entry.
   */
  class LocalStorageMiddleware {
    var persisted: Option<AppState>

    constructor (stored: Option<AppState>)
      ensures persisted == stored
    {
      persisted := stored;
    }

    /** Computes the next state, stores it, and returns it. */
    method Apply(state: AppState, action: Action) returns (newState: AppState)
      modifies this
      ensures newState == Reduce(state, action)
      ensures persisted == Some(newState)
    {
      newState := Reduce(state, action);
      persisted := Some(newState);
    }
  }
}
