/**
 * The recorder's background script: a recording flag, persisted to the
 * extension's local storage, and a buffer of recorded events that the message
 * handler fills while recording and a periodic flush hands on as one batch.
 */
module Background {
  import opened Wrappers

  const StartRecordingMessage: string := "startRecording"
  const StopRecordingMessage: string := "stopRecording"
  const WrapperToBackgroundMessage: string := "wrapperToBackground"
  const BackgroundToPopupMessage: string := "backgroundToPopup"

  /** A runtime message sent to the background script. */
  datatype Request = Request(message: string, data: string)

  /** The answer passed to the sender's response callback. */
  datatype Reply = Reply(message: string, status: string)

  /** One thing that acts on the script's state between flushes. */
  datatype Input =
    | Received(request: Request)      // a runtime message
    | Loaded(stored: Option<bool>)    // the storage read at start-up completed

  predicate IsStart(request: Request) { request.message == StartRecordingMessage }
  predicate IsStop(request: Request) { request.message == StopRecordingMessage }
  predicate IsWrapper(request: Request) { request.message == WrapperToBackgroundMessage }

  /** A message whose data the handler appends to the buffer. */
  predicate Buffers(recording: bool, request: Request) {
    recording && IsWrapper(request)
  }

  /** The reply the handler sends, given the flag when the message arrives. */
  function Respond(recording: bool, request: Request): (reply: Reply)
    ensures IsStart(request) || IsStop(request) <==> reply.status == "success"
    ensures reply.status == "success" ==> reply.message == request.message
    ensures Buffers(recording, request) <==> reply == Reply(BackgroundToPopupMessage, "ok")
    ensures reply.status == "pending" <==> !IsStart(request) && !IsStop(request) && !Buffers(recording, request)
    ensures reply.status == "pending" ==> reply.message == request.message
  {
    if IsStart(request) then Reply(request.message, "success")
    else if IsStop(request) then Reply(request.message, "success")
    else if Buffers(recording, request) then Reply(BackgroundToPopupMessage, "ok")
    else Reply(request.message, "pending")
  }

  /** The flag a completed storage read sets: the stored value, or false when absent. */
  function StoredFlag(stored: Option<bool>): bool {
    stored.GetOr(false)
  }

  /** The recording flag after one input. */
  function NextFlag(recording: bool, input: Input): bool {
    match input
    case Received(request) =>
      if IsStart(request) then true
      else if IsStop(request) then false
      else recording
    case Loaded(stored) => StoredFlag(stored)
  }

  /** The recording flag after `inputs`, in order, starting from `recording`. */
  function FlagAfter(recording: bool, inputs: seq<Input>): bool
    decreases |inputs|
  {
    if inputs == [] then recording
    else FlagAfter(NextFlag(recording, inputs[0]), inputs[1..])
  }

  /** The data of the messages accepted while recording, in arrival order. */
  function Accepted(recording: bool, inputs: seq<Input>): seq<string>
    decreases |inputs|
  {
    if inputs == [] then []
    else
      var head := inputs[0];
      (if head.Received? && Buffers(recording, head.request) then [head.request.data] else [])
        + Accepted(NextFlag(recording, head), inputs[1..])
  }

  /** The data of every wrapperToBackground message in `inputs`, recording or not. */
  function WrapperData(inputs: seq<Input>): seq<string>
    decreases |inputs|
  {
    if inputs == [] then []
    else
      (if inputs[0].Received? && IsWrapper(inputs[0].request) then [inputs[0].request.data] else [])
        + WrapperData(inputs[1..])
  }

  /** An input after which the flag is true whatever it was before. */
  predicate TurnsOn(input: Input) {
    (input.Received? && IsStart(input.request)) || (input.Loaded? && StoredFlag(input.stored))
  }

  /** An input after which the flag is false whatever it was before. */
  predicate TurnsOff(input: Input) {
    (input.Received? && IsStop(input.request)) || (input.Loaded? && !StoredFlag(input.stored))
  }

  lemma {:induction false} FlagAfterSnoc(recording: bool, inputs: seq<Input>, input: Input)
    ensures FlagAfter(recording, inputs + [input]) == NextFlag(FlagAfter(recording, inputs), input)
    decreases |inputs|
  {
    if inputs != [] {
      assert (inputs + [input])[1..] == inputs[1..] + [input];
      FlagAfterSnoc(NextFlag(recording, inputs[0]), inputs[1..], input);
    }
  }

  /** One more input adds at most its own data, at the end of what was accepted. */
  lemma {:induction false} AcceptedSnoc(recording: bool, inputs: seq<Input>, input: Input)
    ensures Accepted(recording, inputs + [input]) ==
      Accepted(recording, inputs)
        + (if input.Received? && Buffers(FlagAfter(recording, inputs), input.request) then [input.request.data] else [])
    decreases |inputs|
  {
    if inputs == [] {
      assert inputs + [input] == [input];
    } else {
      assert (inputs + [input])[1..] == inputs[1..] + [input];
      AcceptedSnoc(NextFlag(recording, inputs[0]), inputs[1..], input);
    }
  }

  /** While nothing stops the recording, every wrapperToBackground message is buffered. */
  lemma {:induction false} AcceptedWhileRecording(inputs: seq<Input>)
    requires forall i :: 0 <= i < |inputs| ==> !TurnsOff(inputs[i])
    ensures Accepted(true, inputs) == WrapperData(inputs)
    ensures FlagAfter(true, inputs)
    decreases |inputs|
  {
    if inputs != [] {
      assert !TurnsOff(inputs[0]);
      AcceptedWhileRecording(inputs[1..]);
    }
  }

  /** While nothing starts the recording, nothing is buffered. */
  lemma {:induction false} NothingAcceptedWhileIdle(inputs: seq<Input>)
    requires forall i :: 0 <= i < |inputs| ==> !TurnsOn(inputs[i])
    ensures Accepted(false, inputs) == []
    ensures !FlagAfter(false, inputs)
    decreases |inputs|
  {
    if inputs != [] {
      assert !TurnsOn(inputs[0]);
      NothingAcceptedWhileIdle(inputs[1..]);
    }
  }

  /** Every buffered entry is the data of some wrapperToBackground message received. */
  lemma {:induction false} AcceptedComeFromWrapperMessages(recording: bool, inputs: seq<Input>, d: string)
    requires d in Accepted(recording, inputs)
    ensures exists i :: 0 <= i < |inputs| && inputs[i].Received? && IsWrapper(inputs[i].request) && inputs[i].request.data == d
    decreases |inputs|
  {
    var head := inputs[0];
    if head.Received? && Buffers(recording, head.request) && d == head.request.data {
      assert inputs[0].Received? && IsWrapper(inputs[0].request) && inputs[0].request.data == d;
    } else {
      AcceptedComeFromWrapperMessages(NextFlag(recording, head), inputs[1..], d);
      var i :| 0 <= i < |inputs[1..]| && inputs[1..][i].Received? && IsWrapper(inputs[1..][i].request) && inputs[1..][i].request.data == d;
      assert inputs[i + 1] == inputs[1..][i];
    }
  }

  /**
   * The module state of the background script. The ghost fields record the
   * flag at the last flush that cleared the buffer and every input since, so
   * that Valid() can say what the buffer holds.
   */
  class Recorder {
    var recording: bool
    var buffer: seq<string>
    /** The "recordingState" entry of the extension's local storage. */
    var persisted: Option<bool>

    ghost var flagAtFlush: bool
    ghost var sinceFlush: seq<Input>

    /** The buffer holds exactly the data accepted while recording since the last flush. */
    ghost predicate Valid()
      reads this
    {
      recording == FlagAfter(flagAtFlush, sinceFlush) &&
      buffer == Accepted(flagAtFlush, sinceFlush)
    }

    /** Script start: empty buffer, not recording; storage is as it was left. */
    constructor (stored: Option<bool>)
      ensures Valid()
      ensures !recording && buffer == [] && persisted == stored
      ensures sinceFlush == []
    {
      recording := false;
      buffer := [];
      persisted := stored;
      flagAtFlush := false;
      sinceFlush := [];
    }

    /** The start-up storage read completes with `stored` as the "recordingState" entry. */
    method LoadRecordingState(stored: Option<bool>)
      requires Valid()
      modifies this
      ensures Valid()
      ensures recording == StoredFlag(stored)
      ensures buffer == old(buffer) && persisted == old(persisted)
      ensures flagAtFlush == old(flagAtFlush) && sinceFlush == old(sinceFlush) + [Loaded(stored)]
    {
      FlagAfterSnoc(flagAtFlush, sinceFlush, Loaded(stored));
      AcceptedSnoc(flagAtFlush, sinceFlush, Loaded(stored));
      recording := StoredFlag(stored);
      sinceFlush := sinceFlush + [Loaded(stored)];
    }

    /** The runtime message listener; the reply is what it passes to the response callback. */
    method HandleMessage(request: Request) returns (reply: Reply)
      requires Valid()
      modifies this
      ensures Valid()
      ensures reply == Respond(old(recording), request)
      ensures recording == NextFlag(old(recording), Received(request))
      ensures buffer == old(buffer) + (if Buffers(old(recording), request) then [request.data] else [])
      ensures persisted == if IsStart(request) || IsStop(request) then Some(recording) else old(persisted)
      ensures flagAtFlush == old(flagAtFlush) && sinceFlush == old(sinceFlush) + [Received(request)]
    {
      FlagAfterSnoc(flagAtFlush, sinceFlush, Received(request));
      AcceptedSnoc(flagAtFlush, sinceFlush, Received(request));
      sinceFlush := sinceFlush + [Received(request)];
      if IsStart(request) {
        recording := true;
        persisted := Some(recording);
        reply := Reply(request.message, "success");
        return;
      }
      if IsStop(request) {
        recording := false;
        persisted := Some(recording);
        reply := Reply(request.message, "success");
        return;
      }
      if recording && IsWrapper(request) {
        buffer := buffer + [request.data];
        reply := Reply(BackgroundToPopupMessage, "ok");
      } else {
        reply := Reply(request.message, "pending");
      }
    }

    /**
     * The periodic send: a non-empty buffer is emitted whole, in order, as one
     * batch; an empty buffer emits nothing and changes nothing. The emitted
     * entries are then decoded one by one; `decodes` says whether every entry
     * got through. Only then is the buffer cleared: a failed decode throws
     * before the clear, so the same entries are emitted again next time.
     */
    method Flush(decodes: bool) returns (batch: Option<seq<string>>)
      requires Valid()
      modifies this
      ensures Valid()
      ensures batch == if old(buffer) == [] then None else Some(old(buffer))
      ensures batch.Some? ==> batch.value == Accepted(old(flagAtFlush), old(sinceFlush))
      ensures recording == old(recording) && persisted == old(persisted)
      ensures buffer == if decodes then [] else old(buffer)
      ensures old(buffer) == [] || !decodes ==> flagAtFlush == old(flagAtFlush) && sinceFlush == old(sinceFlush)
      ensures old(buffer) != [] && decodes ==> flagAtFlush == recording && sinceFlush == []
    {
      if |buffer| > 0 {
        batch := Some(buffer);
        if decodes {
          buffer := [];
          flagAtFlush := recording;
          sinceFlush := [];
        }
      } else {
        batch := None;
      }
    }
  }
}
