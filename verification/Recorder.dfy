/** The recorder state machine of the server (mrcp_recorder_state_machine.c), after
    section 10.1 of RFC 6787: requests from the client, responses and events from
    the recorder engine, and deactivation.  What the machine sends is kept in a
    log, and nothing else is. */
module Recorder {

  datatype Option<T> = None | Some(value: T)

  datatype Method = SetParams | GetParams | Record | Stop | StartTimers | UnknownMethod

  datatype EventKind = StartOfInput | RecordComplete | UnknownEvent

  datatype State = Idle | Recording

  datatype Request = Request(id: nat, verb: Method)

  /** What a response says: the last one lists the record it stopped. */
  datatype Outcome = NotValid | Complete | InProgress | Stopped(listed: nat)

  datatype Entry =
    | Forwarded(id: nat, verb: Method)                      // request to the engine
    | Responded(id: nat, verb: Method, outcome: Outcome)    // response to the client
    | Raised(kind: EventKind, id: nat)                      // event to the client
    | Deactivated

  datatype Machine = Machine(
    state: State,
    active: Option<Request>,      // waiting for the engine's response
    record: Option<Request>,      // in progress
    on: bool,                     // not being deactivated
    log: seq<Entry>)

  const CREATED := Machine(Idle, None, None, true, [])

  datatype Input =
    | ClientRequest(id: nat, verb: Method)
    | EngineResponse(id: nat, verb: Method, inProgress: bool)
    | EngineEvent(kind: EventKind, id: nat)
    | Deactivate

  // ---------- dispatching ----------

  function Log(m: Machine, e: Entry): Machine {
    m.(log := m.log + [e])
  }

  function DispatchRequest(m: Machine, id: nat, verb: Method): Machine {
    Log(m.(active := Some(Request(id, verb))), Forwarded(id, verb))
  }

  function DispatchResponse(m: Machine, id: nat, verb: Method, outcome: Outcome): Machine {
    Log(m.(active := None), if m.on then Responded(id, verb, outcome) else Deactivated)
  }

  function DispatchEvent(m: Machine, kind: EventKind, id: nat): Machine {
    if m.on then Log(m, Raised(kind, id)) else m
  }

  function EndRecord(m: Machine): Machine {
    m.(state := Idle, record := None)
  }

  // ---------- inputs ----------

  function OnRequest(m: Machine, id: nat, verb: Method): Machine {
    match verb
    case UnknownMethod => m
    case Record => if m.state == Recording then DispatchResponse(m, id, verb, NotValid) else DispatchRequest(m, id, verb)
    case Stop => if m.state == Recording then DispatchRequest(m, id, verb) else DispatchResponse(m, id, verb, Complete)
    case StartTimers => if m.state == Recording then DispatchRequest(m, id, verb) else DispatchResponse(m, id, verb, NotValid)
    case _ => DispatchRequest(m, id, verb)
  }

  /** Whether a response is the one the machine waits for. */
  predicate Awaited(m: Machine, id: nat) {
    m.active.Some? && m.active.value.id == id
  }

  /** A STOP response reports the record in progress; there has to be one. */
  predicate Safe(m: Machine, input: Input) {
    input.EngineResponse? && Awaited(m, input.id) && input.verb == Stop ==> m.record.Some?
  }

  function OnResponse(m: Machine, id: nat, verb: Method, inProgress: bool): Machine
    requires Safe(m, EngineResponse(id, verb, inProgress))
  {
    if !Awaited(m, id) || verb == UnknownMethod then m
    else match verb
      case Record =>
        if inProgress then DispatchResponse(m.(state := Recording, record := m.active), id, verb, InProgress)
        else DispatchResponse(m, id, verb, Complete)
      case Stop => DispatchResponse(EndRecord(m), id, verb, Stopped(m.record.value.id))
      case _ => DispatchResponse(m, id, verb, Complete)
  }

  predicate OfRecord(m: Machine, id: nat) {
    m.record.Some? && m.record.value.id == id
  }

  predicate Stopping(m: Machine) {
    m.active.Some? && m.active.value.verb == Stop
  }

  function OnEvent(m: Machine, kind: EventKind, id: nat): Machine {
    match kind
    case StartOfInput => if OfRecord(m, id) then DispatchEvent(m, kind, id) else m
    case RecordComplete => if OfRecord(m, id) && !Stopping(m) then DispatchEvent(EndRecord(m), kind, id) else m
    case UnknownEvent => m
  }

  /** Deactivation stops the record in progress by an internal request. */
  function OnDeactivate(m: Machine): Machine {
    var m1 := m.(on := false);
    if m.state != Recording || m.record.None? then m1 else DispatchRequest(m1, m.record.value.id + 1, Stop)
  }

  function Step(m: Machine, input: Input): Machine
    requires Safe(m, input)
  {
    match input
    case ClientRequest(id, verb) => OnRequest(m, id, verb)
    case EngineResponse(id, verb, inProgress) => OnResponse(m, id, verb, inProgress)
    case EngineEvent(kind, id) => OnEvent(m, kind, id)
    case Deactivate => OnDeactivate(m)
  }

  // ---------- what the client is told ----------

  /** The record that a message to the client begins. */
  function Begins(e: Entry): Option<nat> {
    if e.Responded? && e.verb == Record && e.outcome == InProgress then Some(e.id) else None
  }

  /** The record that a message to the client ends: RECORD-COMPLETE, or the response
      to a STOP that lists it. */
  function Ends(e: Entry): Option<nat> {
    if e.Raised? && e.kind == RecordComplete then Some(e.id)
    else if e.Responded? && e.verb == Stop && e.outcome.Stopped? then Some(e.outcome.listed)
    else None
  }

  datatype Told = Nothing | Open(id: nat) | Wrong

  function Hear(told: Told, e: Entry): Told {
    if Begins(e).Some? then (if told == Nothing then Open(Begins(e).value) else Wrong)
    else if Ends(e).Some? then (if told == Open(Ends(e).value) then Nothing else Wrong)
    else told
  }

  /** The record in progress as the messages tell it; wrong for good once a record
      begins while one is open, or one ends that is not the open one. */
  function Heard(log: seq<Entry>): Told {
    if log == [] then Nothing
    else
      var before := Heard(log[..|log| - 1]);
      if before == Wrong then Wrong else Hear(before, log[|log| - 1])
  }

  lemma HeardAppend(log: seq<Entry>, e: Entry)
    ensures Heard(log + [e]) == if Heard(log) == Wrong then Wrong else Hear(Heard(log), e)
  {
    assert (log + [e])[..|log|] == log;
  }

  ghost predicate Silent(log: seq<Entry>, from: nat, to: nat) {
    forall i :: from <= i < to && i < |log| ==> Begins(log[i]).None? && Ends(log[i]).None?
  }

  lemma {:induction false} OpenSince(log: seq<Entry>) returns (j: nat)
    requires Heard(log).Open?
    ensures j < |log| && Begins(log[j]) == Some(Heard(log).id) && Silent(log, j + 1, |log|)
  {
    var n := |log| - 1;
    if Begins(log[n]).Some? {
      j := n;
    } else {
      j := OpenSince(log[..n]);
      assert log[..n][j] == log[j];
      assert forall i :: j < i < n ==> log[..n][i] == log[i];
    }
  }

  lemma {:induction false} PrefixIsRight(log: seq<Entry>, k: nat)
    requires k <= |log| && Heard(log) != Wrong
    ensures Heard(log[..k]) != Wrong
  {
    if k == |log| {
      assert log[..k] == log;
    } else {
      PrefixIsRight(log[..|log| - 1], k);
      assert log[..|log| - 1][..k] == log[..k];
    }
  }

  /** Each message that ends a record ends the last one that began, and no message in
      between ended that one: a record is ended by at most one message. */
  lemma EveryEndHasItsBegin(log: seq<Entry>, k: nat) returns (j: nat)
    requires Heard(log) != Wrong && k < |log| && Ends(log[k]).Some?
    ensures j < k && Begins(log[j]) == Ends(log[k]) && Silent(log, j + 1, k)
  {
    PrefixIsRight(log, k);
    PrefixIsRight(log, k + 1);
    HeardAppend(log[..k], log[k]);
    assert log[..k + 1] == log[..k] + [log[k]];
    assert Heard(log[..k]) == Open(Ends(log[k]).value);
    j := OpenSince(log[..k]);
    assert forall i :: 0 <= i < k ==> log[..k][i] == log[i];
  }

  /** When no record is open, each one that began was ended by the next such message. */
  lemma {:induction false} EveryBeginHasItsEnd(log: seq<Entry>, j: nat) returns (k: nat)
    requires Heard(log) == Nothing && j < |log| && Begins(log[j]).Some?
    ensures j < k < |log| && Ends(log[k]) == Begins(log[j]) && Silent(log, j + 1, k)
  {
    PrefixIsRight(log, j);
    PrefixIsRight(log, j + 1);
    HeardAppend(log[..j], log[j]);
    assert log[..j + 1] == log[..j] + [log[j]];
    k := ClosedLater(log, j + 1, Begins(log[j]).value);
  }

  lemma {:induction false} ClosedLater(log: seq<Entry>, from: nat, id: nat) returns (k: nat)
    requires Heard(log) == Nothing && from <= |log| && Heard(log[..from]) == Open(id)
    ensures from <= k < |log| && Ends(log[k]) == Some(id) && Silent(log, from, k)
    decreases |log| - from
  {
    assert log[..|log|] == log;
    assert from < |log|;
    PrefixIsRight(log, from + 1);
    HeardAppend(log[..from], log[from]);
    assert log[..from + 1] == log[..from] + [log[from]];
    if Ends(log[from]).Some? {
      k := from;
    } else {
      k := ClosedLater(log, from + 1, id);
    }
  }

  // ---------- invariant ----------

  /** While active, the client knows exactly the record in progress. */
  ghost predicate Inv(m: Machine) {
    && (m.state == Recording <==> m.record.Some?)
    && (Stopping(m) ==> m.state == Recording)
    && (m.active.Some? && m.active.value.verb == Record ==> m.state == Idle)
    && (m.active.Some? ==> m.active.value.verb != UnknownMethod)
    && Heard(m.log) != Wrong
    && (m.on ==> Heard(m.log) == (if m.record.Some? then Open(m.record.value.id) else Nothing))
  }

  /** A response under the id of the pending request carries the method of that request. */
  predicate Honest(m: Machine, input: Input) {
    input.EngineResponse? && Awaited(m, input.id) ==> input.verb == m.active.value.verb
  }

  lemma HonestIsSafe(m: Machine, input: Input)
    requires Inv(m) && Honest(m, input)
    ensures Safe(m, input)
  {
  }

  lemma ResponseInv(m: Machine, id: nat, verb: Method, inProgress: bool)
    requires Inv(m) && Honest(m, EngineResponse(id, verb, inProgress))
    ensures Safe(m, EngineResponse(id, verb, inProgress)) && Inv(OnResponse(m, id, verb, inProgress))
  {
    hide Heard;
    if Awaited(m, id) && verb != UnknownMethod {
      var r := OnResponse(m, id, verb, inProgress);
      HeardAppend(m.log, r.log[|m.log|]);
    }
  }

  lemma EventInv(m: Machine, kind: EventKind, id: nat)
    requires Inv(m)
    ensures Inv(OnEvent(m, kind, id))
  {
    hide Heard;
    HeardAppend(m.log, Raised(kind, id));
  }

  lemma RequestInv(m: Machine, id: nat, verb: Method)
    requires Inv(m)
    ensures Inv(OnRequest(m, id, verb))
  {
    hide Heard;
    if verb != UnknownMethod {
      var r := OnRequest(m, id, verb);
      HeardAppend(m.log, r.log[|m.log|]);
    }
  }

  lemma StepInv(m: Machine, input: Input)
    requires Inv(m) && Honest(m, input)
    ensures Safe(m, input) && Inv(Step(m, input))
  {
    hide Heard, OnRequest, OnResponse, OnEvent;
    HonestIsSafe(m, input);
    match input
    case ClientRequest(id, verb) => RequestInv(m, id, verb);
    case EngineResponse(id, verb, inProgress) => ResponseInv(m, id, verb, inProgress);
    case EngineEvent(kind, id) => EventInv(m, kind, id);
    case Deactivate =>
      if m.record.Some? {
        HeardAppend(m.log, Forwarded(m.record.value.id + 1, Stop));
      }
  }

  // ---------- runs ----------

  ghost predicate HonestRun(m: Machine, inputs: seq<Input>)
    decreases |inputs|
  {
    inputs == [] ||
    (Honest(m, inputs[0]) && Safe(m, inputs[0]) && HonestRun(Step(m, inputs[0]), inputs[1..]))
  }

  ghost function After(m: Machine, inputs: seq<Input>): Machine
    requires HonestRun(m, inputs)
    decreases |inputs|
  {
    if inputs == [] then m else After(Step(m, inputs[0]), inputs[1..])
  }

  lemma {:induction false} RunInv(m: Machine, inputs: seq<Input>)
    requires Inv(m) && HonestRun(m, inputs)
    ensures Inv(After(m, inputs))
    decreases |inputs|
  {
    hide Inv, Step;
    if inputs != [] {
      StepInv(m, inputs[0]);
      RunInv(Step(m, inputs[0]), inputs[1..]);
    }
  }

  /** In every run with honest responses: RECORDING means a record is in progress, a
      pending STOP means RECORDING, so its response has a record to report. */
  lemma EveryRun(inputs: seq<Input>, next: Input)
    requires HonestRun(CREATED, inputs)
    ensures var m := After(CREATED, inputs);
      && (m.state == Recording <==> m.record.Some?)
      && (Stopping(m) ==> m.state == Recording)
      && (m.on ==> Heard(m.log) == if m.record.Some? then Open(m.record.value.id) else Nothing)
      && (Honest(m, next) ==> Safe(m, next))
  {
    RunInv(CREATED, inputs);
    var m := After(CREATED, inputs);
    if Honest(m, next) {
      HonestIsSafe(m, next);
    }
  }

  /** In every such run a RECORD-COMPLETE, or a STOP response that lists a record, ends
      the record whose in-progress response was the last message of this kind. */
  lemma RecordsEndAtMostOnce(inputs: seq<Input>, k: nat) returns (j: nat)
    requires HonestRun(CREATED, inputs)
    requires var log := After(CREATED, inputs).log; k < |log| && Ends(log[k]).Some?
    ensures var log := After(CREATED, inputs).log;
      j < k && Begins(log[j]) == Ends(log[k]) && Silent(log, j + 1, k)
  {
    RunInv(CREATED, inputs);
    j := EveryEndHasItsBegin(After(CREATED, inputs).log, k);
  }

  /** While the machine is active, each record that began and is not in progress any
      more was ended by exactly one such message, the next one. */
  lemma RecordsEndOnceWhileActive(inputs: seq<Input>, j: nat) returns (k: nat)
    requires HonestRun(CREATED, inputs)
    requires var m := After(CREATED, inputs); m.on && m.record.None? && j < |m.log| && Begins(m.log[j]).Some?
    ensures var log := After(CREATED, inputs).log;
      j < k < |log| && Ends(log[k]) == Begins(log[j]) && Silent(log, j + 1, k)
  {
    RunInv(CREATED, inputs);
    k := EveryBeginHasItsEnd(After(CREATED, inputs).log, j);
  }

  // ---------- engines that answer what they were asked ----------

  /** The response is one to some request that was forwarded, pending or not. */
  predicate Answers(m: Machine, input: Input) {
    input.EngineResponse? ==> Forwarded(input.id, input.verb) in m.log
  }

  /** No two forwarded requests share an id, those made for a deactivation included. */
  ghost predicate DistinctIds(log: seq<Entry>) {
    forall i, j :: 0 <= i < j < |log| && log[i].Forwarded? && log[j].Forwarded? ==> log[i].id != log[j].id
  }

  ghost predicate PendingForwarded(m: Machine) {
    m.active.Some? ==> Forwarded(m.active.value.id, m.active.value.verb) in m.log
  }

  lemma AnsweringIsHonest(m: Machine, input: Input)
    requires PendingForwarded(m) && DistinctIds(m.log) && Answers(m, input)
    ensures Honest(m, input)
  {
    if input.EngineResponse? && Awaited(m, input.id) {
      var i :| 0 <= i < |m.log| && m.log[i] == Forwarded(input.id, input.verb);
      var j :| 0 <= j < |m.log| && m.log[j] == Forwarded(input.id, m.active.value.verb);
      assert i == j;
    }
  }

  lemma StepForwards(m: Machine, input: Input)
    requires PendingForwarded(m) && Safe(m, input)
    ensures PendingForwarded(Step(m, input))
  {
    var r := Step(m, input);
    assert r.active.Some? && r.active != m.active ==> r.log[|m.log|] == Forwarded(r.active.value.id, r.active.value.verb);
  }

  /** A run whose responses answer forwarded requests, whose ids are distinct. */
  ghost predicate AnsweringRun(m: Machine, inputs: seq<Input>)
    decreases |inputs|
  {
    inputs == [] ||
    (Answers(m, inputs[0]) &&
     (Safe(m, inputs[0]) ==> DistinctIds(Step(m, inputs[0]).log) && AnsweringRun(Step(m, inputs[0]), inputs[1..])))
  }

  lemma {:induction false} AnsweringRunIsHonest(m: Machine, inputs: seq<Input>)
    requires Inv(m) && PendingForwarded(m) && DistinctIds(m.log) && AnsweringRun(m, inputs)
    ensures HonestRun(m, inputs)
    decreases |inputs|
  {
    hide Inv, Step, PendingForwarded, DistinctIds, Answers, Safe, Honest;
    if inputs != [] {
      AnsweringIsHonest(m, inputs[0]);
      StepInv(m, inputs[0]);
      StepForwards(m, inputs[0]);
      AnsweringRunIsHonest(Step(m, inputs[0]), inputs[1..]);
    }
  }

  /** Every run of an engine that answers forwarded requests, each with an id of its
      own, is one of those above. */
  lemma EveryAnsweringRunIsHonest(inputs: seq<Input>)
    requires AnsweringRun(CREATED, inputs)
    ensures HonestRun(CREATED, inputs)
  {
    AnsweringRunIsHonest(CREATED, inputs);
  }

  /** With a shared id it need not be: a GET-PARAMS takes over the id of a pending STOP,
      the record completes, and the response to the STOP finds none. */
  lemma SharedIdIsNotSafe(record: nat, id: nat) returns (inputs: seq<Input>)
    requires record != id
    ensures HonestRun(CREATED, inputs)
    ensures var m, late := After(CREATED, inputs), EngineResponse(id, Stop, false);
      Answers(m, late) && !Safe(m, late) && !DistinctIds(m.log)
  {
    hide HonestRun, After;
    var m1 := OnRequest(CREATED, record, Record);
    var m2 := OnResponse(m1, record, Record, true);
    var m3 := OnRequest(m2, id, Stop);
    var m4 := OnRequest(m3, id, GetParams);
    var m5 := OnEvent(m4, RecordComplete, record);
    assert m5.log[2] == Forwarded(id, Stop) && m5.log[3] == Forwarded(id, GetParams);
    inputs := [];
    RunEnds(m5);
    RunStarts(m4, EngineEvent(RecordComplete, record), inputs);
    inputs := [EngineEvent(RecordComplete, record)] + inputs;
    RunStarts(m3, ClientRequest(id, GetParams), inputs);
    inputs := [ClientRequest(id, GetParams)] + inputs;
    RunStarts(m2, ClientRequest(id, Stop), inputs);
    inputs := [ClientRequest(id, Stop)] + inputs;
    RunStarts(m1, EngineResponse(record, Record, true), inputs);
    inputs := [EngineResponse(record, Record, true)] + inputs;
    RunStarts(CREATED, ClientRequest(record, Record), inputs);
    inputs := [ClientRequest(record, Record)] + inputs;
  }

  lemma RunStarts(m: Machine, input: Input, inputs: seq<Input>)
    requires Honest(m, input) && Safe(m, input) && HonestRun(Step(m, input), inputs)
    ensures HonestRun(m, [input] + inputs) && After(m, [input] + inputs) == After(Step(m, input), inputs)
  {
    assert ([input] + inputs)[1..] == inputs;
  }

  lemma RunEnds(m: Machine)
    ensures HonestRun(m, []) && After(m, []) == m
  {
  }

  /** A response with the method of another request is not safe: here a STOP response to
      a pending SET-PARAMS finds no record. */
  lemma DishonestResponseIsNotSafe()
    ensures var m := Step(CREATED, ClientRequest(1, SetParams));
      !Honest(m, EngineResponse(1, Stop, false)) && !Safe(m, EngineResponse(1, Stop, false))
  {
  }

  /** Whether a request goes on to the engine. */
  predicate Forwards(m: Machine, verb: Method) {
    match verb
    case UnknownMethod => false
    case Record => m.state == Idle
    case Stop => m.state == Recording
    case StartTimers => m.state == Recording
    case _ => true
  }

  /** Once another request came, the engine's response to the pending one gets through
      if and only if that request was ignored, or took its place under the same id. */
  lemma PendingGetsThroughIff(m: Machine, id: nat, verb: Method, inProgress: bool)
    requires Inv(m) && m.active.Some?
    ensures var p, m1 := m.active.value, OnRequest(m, id, verb);
      && (Awaited(m1, p.id) <==> verb == UnknownMethod || (Forwards(m, verb) && id == p.id))
      && (!Awaited(m1, p.id) ==>
            Safe(m1, EngineResponse(p.id, p.verb, inProgress)) && OnResponse(m1, p.id, p.verb, inProgress) == m1)
    ensures var p := m.active.value;
      && Safe(m, EngineResponse(p.id, p.verb, inProgress))
      && |OnResponse(m, p.id, p.verb, inProgress).log| > |m.log|
  {
  }

  // ---------- the code ----------

  class RecorderMachine {
    var state: State
    var active: Option<Request>
    var record: Option<Request>
    var on: bool
    var log: seq<Entry>

    ghost function View(): Machine
      reads this
    {
      Machine(state, active, record, on, log)
    }

    constructor ()
      ensures View() == CREATED && Inv(View())
    {
      state, active, record, on, log := Idle, None, None, true, [];
    }

    method SendRequest(id: nat, verb: Method)
      modifies this`active, this`log
      ensures View() == DispatchRequest(old(View()), id, verb)
    {
      active := Some(Request(id, verb));
      log := log + [Forwarded(id, verb)];
    }

    method SendResponse(id: nat, verb: Method, outcome: Outcome)
      modifies this`active, this`log
      ensures View() == DispatchResponse(old(View()), id, verb, outcome)
    {
      active := None;
      if !on {
        log := log + [Deactivated];
      } else {
        log := log + [Responded(id, verb, outcome)];
      }
    }

    method SendEvent(kind: EventKind, id: nat)
      modifies this`log
      ensures View() == DispatchEvent(old(View()), kind, id)
    {
      if on {
        log := log + [Raised(kind, id)];
      }
    }

    method ChangeToIdle()
      modifies this`state, this`record
      ensures View() == EndRecord(old(View()))
    {
      state := Idle;
      record := None;
    }

    method RequestUpdate(id: nat, verb: Method)
      modifies this`active, this`log
      ensures View() == OnRequest(old(View()), id, verb)
    {
      match verb
      case UnknownMethod =>
      case Record =>
        if state == Recording {
          SendResponse(id, verb, NotValid);
          return;
        }
        SendRequest(id, verb);
      case Stop =>
        if state == Recording {
          SendRequest(id, verb);
          return;
        }
        SendResponse(id, verb, Complete);
      case StartTimers =>
        if state == Recording {
          SendRequest(id, verb);
          return;
        }
        SendResponse(id, verb, NotValid);
      case SetParams => SendRequest(id, verb);
      case GetParams => SendRequest(id, verb);
    }

    method ResponseUpdate(id: nat, verb: Method, inProgress: bool)
      requires Safe(View(), EngineResponse(id, verb, inProgress))
      modifies this
      ensures View() == OnResponse(old(View()), id, verb, inProgress)
    {
      if active.None? || active.value.id != id || verb == UnknownMethod {
        return;
      }
      var outcome := Complete;
      if verb == Record {
        if inProgress {
          record := active;
          state := Recording;
          outcome := InProgress;
        }
      } else if verb == Stop {
        outcome := Stopped(record.value.id);
        ChangeToIdle();
      }
      SendResponse(id, verb, outcome);
    }

    method EventUpdate(kind: EventKind, id: nat)
      modifies this
      ensures View() == OnEvent(old(View()), kind, id)
    {
      if kind == UnknownEvent || record.None? || record.value.id != id {
        return;
      }
      if kind == RecordComplete {
        if active.Some? && active.value.verb == Stop {
          return;
        }
        ChangeToIdle();
      }
      SendEvent(kind, id);
    }

    method Shutdown()
      modifies this
      ensures View() == OnDeactivate(old(View()))
    {
      on := false;
      if state != Recording || record.None? {
        return;
      }
      SendRequest(record.value.id + 1, Stop);
    }
  }
}
