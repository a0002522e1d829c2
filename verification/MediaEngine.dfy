/** The request path of the media engine (mpf_engine.c): sessions fill message
    containers of five, full containers send themselves, sent containers wait
    in a growing ring, and the engine's main loop executes them.

    Several sessions feed one engine, each through a container of its own. */
module MediaEngine {
  import opened CyclicQueue

  const MAX_MPF_MESSAGE_COUNT: nat := 5
  const CYCLIC_QUEUE_DEFAULT_SIZE: nat := 100

  type Client = nat

  /** A command of a client; `id` stands for the command, its terminations and its descriptor. */
  datatype Command = Command(client: Client, id: int)

  type Container = seq<Command>

  /** What the request path holds at one moment. */
  datatype Path = Path(
    open: map<Client, Container>,   // containers under construction, one per client
    queue: seq<Container>,          // containers sent and not executed yet
    executed: seq<Command>,         // commands executed so far
    replies: seq<Container>)        // response containers signalled to the parent task

  datatype Op =
    | Add(client: Client, id: int)
    | Send(client: Client)
    | Process

  const EmptyPath: Path := Path(map[], [], [], [])

  function SendStep(p: Path, c: Client): Path {
    if c in p.open then p.(open := p.open - {c}, queue := p.queue + [p.open[c]]) else p
  }

  function AddStep(p: Path, c: Client, id: int): Path {
    var p1 := if c in p.open && |p.open[c]| >= MAX_MPF_MESSAGE_COUNT then SendStep(p, c) else p;
    var container := if c in p1.open then p1.open[c] else [];
    p1.(open := p1.open[c := container + [Command(c, id)]])
  }

  /** One round of the main loop: the oldest container is executed and answered as a whole. */
  function ProcessStep(p: Path): Path {
    if p.queue == [] then p
    else Path(p.open, p.queue[1..], p.executed + p.queue[0], p.replies + [p.queue[0]])
  }

  function Step(p: Path, op: Op): Path {
    match op
    case Add(c, id) => AddStep(p, c, id)
    case Send(c) => SendStep(p, c)
    case Process => ProcessStep(p)
  }

  function Run(p: Path, ops: seq<Op>): Path {
    if ops == [] then p else Step(Run(p, ops[..|ops| - 1]), ops[|ops| - 1])
  }

  /** The main loop drains the ring. */
  function Drained(p: Path): (r: Path)
    ensures r.queue == []
    decreases |p.queue|
  {
    if p.queue == [] then p else Drained(ProcessStep(p))
  }

  /** Draining is nothing but a run of Process steps. */
  lemma {:induction false} DrainingIsARun(p: Path, ops: seq<Op>)
    requires |ops| == |p.queue| && (forall k :: 0 <= k < |ops| ==> ops[k] == Process)
    ensures Run(p, ops) == Drained(p)
    decreases |p.queue|
  {
    if ops != [] {
      RunFirst(p, ops);
      DrainingIsARun(ProcessStep(p), ops[1..]);
    }
  }

  lemma {:induction false} RunFirst(p: Path, ops: seq<Op>)
    requires ops != []
    ensures Run(p, ops) == Run(Step(p, ops[0]), ops[1..])
  {
    if |ops| > 1 {
      RunFirst(p, ops[..|ops| - 1]);
      assert ops[..|ops| - 1][1..] == ops[1..][..|ops| - 2];
    }
  }

  /** The commands of client `c` among `s`, in order. */
  function Of(c: Client, s: seq<Command>): seq<Command> {
    if s == [] then []
    else (if s[0].client == c then [s[0]] else []) + Of(c, s[1..])
  }

  function Flatten(q: seq<Container>): seq<Command> {
    if q == [] then [] else q[0] + Flatten(q[1..])
  }

  /** The commands client `c` asked for during a run, in the order of asking. */
  function Asked(c: Client, ops: seq<Op>): seq<Command> {
    if ops == [] then []
    else
      var last := ops[|ops| - 1];
      Asked(c, ops[..|ops| - 1]) + (if last.Add? && last.client == c then [Command(c, last.id)] else [])
  }

  ghost predicate OwnContainers(p: Path) {
    forall c, i :: c in p.open && 0 <= i < |p.open[c]| ==> p.open[c][i].client == c
  }

  /** Executed, sent and collected commands of one client, laid end to end. */
  ghost function Pipeline(p: Path, c: Client): seq<Command> {
    Of(c, p.executed) + Of(c, Flatten(p.queue)) + (if c in p.open then p.open[c] else [])
  }

  lemma {:induction false} OfConcat(c: Client, a: seq<Command>, b: seq<Command>)
    ensures Of(c, a + b) == Of(c, a) + Of(c, b)
  {
    if a == [] {
      assert a + b == b;
    } else {
      OfConcat(c, a[1..], b);
      assert (a + b)[0] == a[0] && (a + b)[1..] == a[1..] + b;
      var first := if a[0].client == c then [a[0]] else [];
      assert first + (Of(c, a[1..]) + Of(c, b)) == (first + Of(c, a[1..])) + Of(c, b);
    }
  }

  lemma {:induction false} FlattenConcat(a: seq<Container>, b: seq<Container>)
    ensures Flatten(a + b) == Flatten(a) + Flatten(b)
  {
    if a == [] {
      assert a + b == b;
    } else {
      FlattenConcat(a[1..], b);
      assert (a + b)[0] == a[0] && (a + b)[1..] == a[1..] + b;
      assert a[0] + (Flatten(a[1..]) + Flatten(b)) == (a[0] + Flatten(a[1..])) + Flatten(b);
    }
  }

  lemma {:induction false} OfOwn(c: Client, d: Client, s: seq<Command>)
    requires forall i :: 0 <= i < |s| ==> s[i].client == d
    ensures Of(c, s) == if c == d then s else []
  {
    if s != [] {
      OfOwn(c, d, s[1..]);
    }
  }

  lemma SendKeepsPipeline(p: Path, d: Client, c: Client)
    requires OwnContainers(p)
    ensures OwnContainers(SendStep(p, d))
    ensures Pipeline(SendStep(p, d), c) == Pipeline(p, c)
  {
    if d in p.open {
      FlattenConcat(p.queue, [p.open[d]]);
      assert Flatten([p.open[d]]) == p.open[d];
      OfConcat(c, Flatten(p.queue), p.open[d]);
      OfOwn(c, d, p.open[d]);
    }
  }

  lemma ProcessKeepsPipeline(p: Path, c: Client)
    ensures Pipeline(ProcessStep(p), c) == Pipeline(p, c)
  {
    if p.queue != [] {
      OfConcat(c, p.executed, p.queue[0]);
      OfConcat(c, p.queue[0], Flatten(p.queue[1..]));
    }
  }

  lemma AddExtendsPipeline(p: Path, d: Client, id: int, c: Client)
    requires OwnContainers(p)
    ensures OwnContainers(AddStep(p, d, id))
    ensures Pipeline(AddStep(p, d, id), c) == Pipeline(p, c) + (if c == d then [Command(d, id)] else [])
  {
    var p1 := if d in p.open && |p.open[d]| >= MAX_MPF_MESSAGE_COUNT then SendStep(p, d) else p;
    if p1 != p {
      SendKeepsPipeline(p, d, c);
    }
    var done := Of(c, p1.executed) + Of(c, Flatten(p1.queue));
    if c == d {
      var container := if d in p1.open then p1.open[d] else [];
      assert done + (container + [Command(d, id)]) == (done + container) + [Command(d, id)];
    }
  }

  /** In every run and for every client: what was executed, what waits in the
      ring and what is still being collected make up exactly the commands the
      client asked for, in that order, none lost and none repeated. */
  lemma {:induction false} CommandsKeepTheirOrder(ops: seq<Op>, c: Client)
    ensures OwnContainers(Run(EmptyPath, ops))
    ensures Pipeline(Run(EmptyPath, ops), c) == Asked(c, ops)
  {
    if ops != [] {
      var before := Run(EmptyPath, ops[..|ops| - 1]);
      CommandsKeepTheirOrder(ops[..|ops| - 1], c);
      match ops[|ops| - 1] {
        case Add(d, id) => AddExtendsPipeline(before, d, id, c);
        case Send(d) => SendKeepsPipeline(before, d, c);
        case Process => ProcessKeepsPipeline(before, c);
      }
    }
  }

  /** Once a client's container has been sent and the ring is drained, the
      engine has executed all its commands in the order they were asked for. */
  lemma DrainedMeansExecuted(ops: seq<Op>, c: Client)
    requires Run(EmptyPath, ops).queue == [] && c !in Run(EmptyPath, ops).open
    ensures Of(c, Run(EmptyPath, ops).executed) == Asked(c, ops)
  {
    CommandsKeepTheirOrder(ops, c);
  }

  /** No container ever exceeds the five messages it has room for, and the
      responses repeat the executed commands in order: replies come in order. */
  lemma {:induction false} ContainersFitAndRepliesFollow(ops: seq<Op>)
    ensures var p := Run(EmptyPath, ops);
      && (forall c :: c in p.open ==> 0 < |p.open[c]| <= MAX_MPF_MESSAGE_COUNT)
      && (forall k :: 0 <= k < |p.queue| ==> 0 < |p.queue[k]| <= MAX_MPF_MESSAGE_COUNT)
      && Flatten(p.replies) == p.executed
  {
    if ops != [] {
      var before := Run(EmptyPath, ops[..|ops| - 1]);
      ContainersFitAndRepliesFollow(ops[..|ops| - 1]);
      if ops[|ops| - 1].Process? && before.queue != [] {
        FlattenConcat(before.replies, [before.queue[0]]);
        assert Flatten([before.queue[0]]) == before.queue[0];
      }
    }
  }

  /** The engine itself, with the ring of CyclicQueue as its request queue. */
  class Engine {
    var open: map<Client, Container>
    const requestQueue: Queue<Container>
    var executed: seq<Command>
    var replies: seq<Container>

    ghost predicate Valid()
      reads this, requestQueue, requestQueue.data
    {
      requestQueue.Valid() && requestQueue.maxSize >= 2
    }

    ghost function View(): Path
      requires Valid()
      reads this, requestQueue, requestQueue.data
    {
      Path(open, requestQueue.Contents(), executed, replies)
    }

    constructor ()
      ensures Valid() && fresh(requestQueue) && fresh(requestQueue.data)
      ensures View() == EmptyPath
    {
      open := map[];
      requestQueue := new Queue<Container>(CYCLIC_QUEUE_DEFAULT_SIZE);
      executed, replies := [], [];
    }

    method MessageSend(c: Client)
      requires Valid()
      modifies this`open, requestQueue, requestQueue.data
      ensures Valid() && (requestQueue.data == old(requestQueue.data) || fresh(requestQueue.data))
      ensures View() == SendStep(old(View()), c)
    {
      if c in open {
        var _ := requestQueue.Push(open[c]);
        open := open - {c};
      }
    }

    method MessageAdd(c: Client, id: int)
      requires Valid()
      modifies this`open, requestQueue, requestQueue.data
      ensures Valid() && (requestQueue.data == old(requestQueue.data) || fresh(requestQueue.data))
      ensures View() == AddStep(old(View()), c, id)
    {
      if c in open && |open[c]| >= MAX_MPF_MESSAGE_COUNT {
        MessageSend(c);
      }
      if c !in open {
        open := open[c := []];
      }
      open := open[c := open[c] + [Command(c, id)]];
    }

    /** Executes one container message by message and answers it with a copy. */
    method MsgProcess(request: Container)
      modifies this`executed, this`replies
      ensures executed == old(executed) + request
      ensures replies == old(replies) + [request]
    {
      var response: Container := [];
      for i := 0 to |request|
        invariant executed == old(executed) + request[..i]
        invariant response == request[..i]
        invariant replies == old(replies)
      {
        executed := executed + [request[i]];
        response := response + [request[i]];
      }
      assert request[..|request|] == request;
      replies := replies + [response];
    }

    /** Drains the ring.  Each round is one Process step. */
    method MainLoop()
      requires Valid()
      modifies this`executed, this`replies, requestQueue
      ensures Valid() && requestQueue.data == old(requestQueue.data)
      ensures View() == Drained(old(View()))
    {
      var msg, found := requestQueue.Pop();
      while found
        invariant Valid() && requestQueue.data == old(requestQueue.data)
        invariant !found ==> requestQueue.Contents() == []
        invariant Drained(Path(open, (if found then [msg] else []) + requestQueue.Contents(), executed, replies))
               == Drained(old(View()))
        decreases |requestQueue.Contents()|, found
      {
        ghost var waiting := requestQueue.Contents();
        assert ([msg] + waiting)[1..] == waiting;
        MsgProcess(msg);
        msg, found := requestQueue.Pop();
        assert (if found then [msg] else []) + requestQueue.Contents() == waiting;
      }
    }
  }
}
