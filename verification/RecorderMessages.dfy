/** Everything the recorder machine sends, in terms of what its client was told before. */
module RecorderMessages {
  import opened Recorder

  /** A record is in progress as far as the client was told. */
  function Known(log: seq<Entry>): bool {
    Heard(log).Open?
  }

  // ---------- while active ----------

  /** What a request makes an active machine send. */
  function ToRequest(log: seq<Entry>, id: nat, verb: Method): seq<Entry> {
    match verb
    case UnknownMethod => []
    case SetParams => [Forwarded(id, verb)]
    case GetParams => [Forwarded(id, verb)]
    case Record => if Known(log) then [Responded(id, verb, NotValid)] else [Forwarded(id, verb)]
    case Stop => if Known(log) then [Forwarded(id, verb)] else [Responded(id, verb, Complete)]
    case StartTimers => if Known(log) then [Forwarded(id, verb)] else [Responded(id, verb, NotValid)]
  }

  /** In every run a request is forwarded or answered at once, exactly one of them and
      once, as the client's knowledge of a record demands. */
  lemma EveryRequest(inputs: seq<Input>, id: nat, verb: Method)
    requires HonestRun(CREATED, inputs) && After(CREATED, inputs).on
    ensures var m := After(CREATED, inputs); var r := Step(m, ClientRequest(id, verb));
      && r.log == m.log + ToRequest(m.log, id, verb)
      && r.record == m.record && r.state == m.state && r.on
      && (r.active == if verb == UnknownMethod then m.active
                      else if r.log[|m.log|].Forwarded? then Some(Request(id, verb)) else None)
  {
    RunInv(CREATED, inputs);
    var m := After(CREATED, inputs);
    assert m.log + [] == m.log;
  }

  /** What the response to the pending request makes an active machine tell the client. */
  function ToResponse(log: seq<Entry>, p: Request, inProgress: bool): Outcome {
    match p.verb
    case Record => if inProgress then InProgress else Complete
    case Stop => if Known(log) then Stopped(Heard(log).id) else Complete
    case _ => Complete
  }

  /** In every run the response to the pending request is passed on once; a STOP response
      lists the record the client knows, which is over then. */
  lemma EveryResponse(inputs: seq<Input>, inProgress: bool)
    requires HonestRun(CREATED, inputs) && After(CREATED, inputs).on && After(CREATED, inputs).active.Some?
    ensures var m := After(CREATED, inputs); var p := m.active.value;
      Safe(m, EngineResponse(p.id, p.verb, inProgress))
    ensures var m := After(CREATED, inputs); var p := m.active.value;
      var r := Step(m, EngineResponse(p.id, p.verb, inProgress));
      && r.log == m.log + [Responded(p.id, p.verb, ToResponse(m.log, p, inProgress))]
      && r.active.None? && r.on
      && (Known(r.log) <==> if p.verb == Record then inProgress else Known(m.log) && p.verb != Stop)
  {
    RunInv(CREATED, inputs);
    var m := After(CREATED, inputs);
    var p := m.active.value;
    HonestIsSafe(m, EngineResponse(p.id, p.verb, inProgress));
    HeardAppend(m.log, Responded(p.id, p.verb, ToResponse(m.log, p, inProgress)));
  }

  /** A response to anything else changes nothing. */
  lemma StrayResponse(inputs: seq<Input>, id: nat, verb: Method, inProgress: bool)
    requires HonestRun(CREATED, inputs)
    requires var m := After(CREATED, inputs); m.active.None? || m.active.value.id != id
    ensures var m := After(CREATED, inputs);
      Safe(m, EngineResponse(id, verb, inProgress)) && Step(m, EngineResponse(id, verb, inProgress)) == m
  {
  }

  /** In every run the start of input is passed on exactly when it is about the record the
      client knows, and the completion exactly when, besides, no STOP is pending. */
  lemma EveryEvent(inputs: seq<Input>, kind: EventKind, id: nat)
    requires HonestRun(CREATED, inputs) && After(CREATED, inputs).on
    ensures var m := After(CREATED, inputs); var r := Step(m, EngineEvent(kind, id));
      var known := Heard(m.log) == Open(id);
      && r.active == m.active && r.on
      && r.log == m.log + (if known && (kind == StartOfInput || (kind == RecordComplete && !Stopping(m)))
                           then [Raised(kind, id)] else [])
      && (Known(r.log) <==> Known(m.log) && !(known && kind == RecordComplete && !Stopping(m)))
  {
    RunInv(CREATED, inputs);
    var m := After(CREATED, inputs);
    HeardAppend(m.log, Raised(kind, id));
    assert m.log + [] == m.log;
  }

  // ---------- deactivation ----------

  /** In every run a deactivation asks the engine to stop the record in progress, under
      the record's id plus one, and asks nothing when there is none. */
  lemma DeactivationStops(inputs: seq<Input>)
    requires HonestRun(CREATED, inputs)
    ensures var m := After(CREATED, inputs); var r := Step(m, Deactivate);
      && !r.on && r.record == m.record && r.state == m.state
      && if m.record.Some? then
           r.log == m.log + [Forwarded(m.record.value.id + 1, Stop)] && r.active == Some(Request(m.record.value.id + 1, Stop))
         else r.log == m.log && r.active == m.active
  {
    RunInv(CREATED, inputs);
  }

  /** The engine's response to that request ends the record and completes the
      deactivation; the client is told nothing. */
  lemma DeactivationCompletes(inputs: seq<Input>, inProgress: bool)
    requires HonestRun(CREATED, inputs) && After(CREATED, inputs).record.Some?
    ensures var m := After(CREATED, inputs);
      var id, r := m.record.value.id + 1, Step(m, Deactivate);
      Safe(r, EngineResponse(id, Stop, inProgress))
    ensures var m := After(CREATED, inputs);
      var id, r := m.record.value.id + 1, Step(m, Deactivate);
      Step(r, EngineResponse(id, Stop, inProgress)) == Machine(Idle, None, None, false, r.log + [Deactivated])
  {
    RunInv(CREATED, inputs);
  }

  /** An entry that is a message to the client. */
  predicate ToClient(e: Entry) {
    e.Responded? || e.Raised?
  }

  ghost predicate NothingTold(from: seq<Entry>, log: seq<Entry>) {
    from <= log && forall k :: |from| <= k < |log| ==> !ToClient(log[k])
  }

  lemma QuietStep(m: Machine, input: Input)
    requires !m.on && Safe(m, input)
    ensures !Step(m, input).on && NothingTold(m.log, Step(m, input).log)
  {
  }

  /** Once deactivated the machine stays so, and sends the client nothing, whatever the
      client and the engine do. */
  lemma {:induction false} NothingAfterDeactivation(m: Machine, inputs: seq<Input>)
    requires !m.on && HonestRun(m, inputs)
    ensures !After(m, inputs).on && NothingTold(m.log, After(m, inputs).log)
    decreases |inputs|
  {
    hide Step, Safe, Honest;
    if inputs != [] {
      QuietStep(m, inputs[0]);
      NothingAfterDeactivation(Step(m, inputs[0]), inputs[1..]);
    }
  }
}
