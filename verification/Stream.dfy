/** internal/httpserver/sse.go: streamResult as a step relation over every interleaving.

    Producers emit progress into a bounded channel from inside one run; when the run returns, its goroutine sends
    the terminal message; one consumer receives, writes, and cancels the stream context when it leaves. */
module Stream {
  import opened Common

  /** Message `index` of producer `producer`, or the one result or error. */
  datatype Message = Progress(producer: nat, index: nat) | Terminal

  const BUFFER_SIZE: nat := 64

  /** A producer has `total` messages to emit one after another; `emitted` of them are sent or dropped, and
      `blocked` says that it is inside the select for the next one. `expired`: its own context is done. */
  datatype Producer = Producer(total: nat, emitted: nat, blocked: bool, expired: bool)

  datatype Runner = Working | Sending | Ended

  datatype Consumer = Reading | Writing(message: Message) | Exited

  datatype State = State(
    producers: seq<Producer>, runner: Runner, consumer: Consumer,
    queue: seq<Message>,
    clientGone: bool,        // the request context is done
    streamDone: bool,        // the derived stream context is done
    writeFailed: bool,
    entered: seq<Message>,   // everything ever put into the channel, in order
    delivered: seq<Message>, // everything written to the client, in order
    dropped: set<(nat, nat)>)

  predicate Init(s: State) {
    && s.runner == Working && s.consumer == Reading && s.queue == [] && !s.clientGone && !s.streamDone
    && !s.writeFailed && s.entered == [] && s.delivered == [] && s.dropped == {}
    && forall p | p in s.producers :: p.emitted == 0 && !p.blocked && !p.expired
  }

  datatype Step =
    | ClientLeaves | ClientDoneSpreads | Expire(p: nat)
    | Begin(p: nat) | Send(p: nat) | Drop(p: nat)
    | RunReturns | SendTerminal | DropTerminal
    | Receive | Quit | WriteOk | WriteFails

  predicate AllEmitted(producers: seq<Producer>) {
    forall i | 0 <= i < |producers| :: producers[i].emitted >= producers[i].total && !producers[i].blocked
  }

  predicate Enabled(s: State, step: Step) {
    match step
    case ClientLeaves => !s.clientGone
    case ClientDoneSpreads => s.clientGone && !s.streamDone
    case Expire(p) => p < |s.producers| && !s.producers[p].expired
    case Begin(p) => p < |s.producers| && s.runner == Working
        && !s.producers[p].blocked && s.producers[p].emitted < s.producers[p].total
    case Send(p) => p < |s.producers| && s.producers[p].blocked && |s.queue| < BUFFER_SIZE
    case Drop(p) => p < |s.producers| && s.producers[p].blocked && (s.producers[p].expired || s.streamDone)
    case RunReturns => s.runner == Working && AllEmitted(s.producers)
    case SendTerminal => s.runner == Sending && |s.queue| < BUFFER_SIZE
    case DropTerminal => s.runner == Sending && s.streamDone
    case Receive => s.consumer == Reading && s.queue != []
    case Quit => s.consumer == Reading && s.clientGone
    case WriteOk => s.consumer.Writing?
    case WriteFails => s.consumer.Writing?
  }

  function Apply(s: State, step: Step): State
    requires Enabled(s, step)
  {
    match step
    case ClientLeaves => s.(clientGone := true)
    case ClientDoneSpreads => s.(streamDone := true)
    case Expire(p) => s.(producers := s.producers[p := s.producers[p].(expired := true)])
    case Begin(p) => s.(producers := s.producers[p := s.producers[p].(blocked := true)])
    case Send(p) =>
      var m := Progress(p, s.producers[p].emitted);
      s.(queue := s.queue + [m], entered := s.entered + [m], producers := Advanced(s.producers, p))
    case Drop(p) =>
      s.(dropped := s.dropped + {(p, s.producers[p].emitted)}, producers := Advanced(s.producers, p))
    case RunReturns => s.(runner := Sending)
    case SendTerminal => s.(queue := s.queue + [Terminal], entered := s.entered + [Terminal], runner := Ended)
    case DropTerminal => s.(runner := Ended)
    case Receive => s.(consumer := Writing(s.queue[0]), queue := s.queue[1..])
    case Quit => s.(consumer := Exited, streamDone := true)
    case WriteOk =>
      var written := s.(delivered := s.delivered + [s.consumer.message]);
      if s.consumer.message == Terminal then written.(consumer := Exited, streamDone := true)
      else written.(consumer := Reading)
    case WriteFails => s.(consumer := Exited, streamDone := true, writeFailed := true)
  }

  function Advanced(producers: seq<Producer>, p: nat): seq<Producer>
    requires p < |producers|
  {
    producers[p := producers[p].(emitted := producers[p].emitted + 1, blocked := false)]
  }

  // ---------------------------------------------------------------- the invariant

  /** The message being written, if any. */
  function InHand(s: State): seq<Message> {
    if s.consumer.Writing? then [s.consumer.message] else []
  }

  predicate ProducerOrder(s: State, k: nat, l: nat)
    requires k < |s.entered| && l < |s.entered|
  {
    s.entered[k].Progress? && s.entered[l].Progress? && s.entered[k].producer == s.entered[l].producer ==>
      s.entered[k].index < s.entered[l].index
  }

  predicate InRange(s: State, m: Message) {
    m.Progress? ==> m.producer < |s.producers| && m.index < s.producers[m.producer].emitted
  }

  /** The channel is a FIFO: what was written, is being written and is queued are, in this order, what went in;
      only a failed write takes a message out of that account. */
  predicate Fifo(s: State) {
    && s.delivered <= s.entered
    && (!s.writeFailed ==> s.entered == s.delivered + InHand(s) + s.queue)
  }

  /** What went into the channel: messages already emitted, in producer order, the terminal one last. */
  predicate Ordered(s: State) {
    && (forall m | m in s.entered :: InRange(s, m))
    && (forall k, l | 0 <= k < l < |s.entered| :: ProducerOrder(s, k, l))
    && (forall k | 0 <= k < |s.entered| - 1 :: s.entered[k] != Terminal)
    && (Terminal in s.entered ==> s.runner == Ended)
  }

  predicate Channel(s: State) {
    Fifo(s) && Ordered(s)
  }

  predicate Control(s: State) {
    && (s.runner != Working ==> AllEmitted(s.producers))
    && (forall i | 0 <= i < |s.producers| ::
          s.producers[i].emitted + (if s.producers[i].blocked then 1 else 0) <= s.producers[i].total)
    && (s.writeFailed ==> s.consumer == Exited)
    && (s.consumer == Exited ==> s.streamDone)
    && (s.consumer == Exited ==> s.clientGone || s.writeFailed || Terminal in s.delivered)
    && (s.streamDone ==> s.clientGone || s.consumer == Exited)
    && (Terminal in s.delivered ==> s.consumer == Exited)
    && (s.runner == Ended ==> Terminal in s.entered || s.streamDone)
    && (s.runner == Ended && Terminal !in s.entered ==> s.clientGone || s.writeFailed)
  }

  /** Message `i` of producer `p`, once emitted, was either put into the channel or dropped. */
  predicate Accounted(s: State, p: int, i: int) {
    (p, i) in s.dropped || (p >= 0 && i >= 0 && Progress(p, i) in s.entered)
  }

  predicate Drops(s: State) {
    && (forall p, i | 0 <= p < |s.producers| && 0 <= i < s.producers[p].emitted :: Accounted(s, p, i))
    && (forall d | d in s.dropped :: d.0 < |s.producers| && (s.producers[d.0].expired || s.clientGone || s.writeFailed))
  }

  predicate Inv(s: State) {
    Channel(s) && Control(s) && Drops(s)
  }

  lemma InitInv(s: State)
    requires Init(s)
    ensures Inv(s)
  {
    forall i | 0 <= i < |s.producers| ensures s.producers[i].emitted == 0 && !s.producers[i].blocked {
      assert s.producers[i] in s.producers;
    }
  }

  /** Nobody can still be emitting once the terminal message is in the channel. */
  lemma NoTerminalWhileBlocked(s: State, p: nat)
    requires Control(s) && Channel(s) && p < |s.producers| && s.producers[p].blocked
    ensures s.runner == Working && Terminal !in s.entered
    ensures s.streamDone ==> s.clientGone || s.writeFailed
  {
    assert Terminal in s.delivered ==> Terminal in s.entered by {
      assert forall k | 0 <= k < |s.delivered| :: s.delivered[k] == s.entered[k];
    }
  }

  lemma ReceiveFifo(s: State)
    requires Fifo(s) && Enabled(s, Receive)
    ensures Fifo(Apply(s, Receive))
  {
    assert s.queue == [s.queue[0]] + s.queue[1..];
    assert s.delivered + [] + s.queue == s.delivered + [s.queue[0]] + s.queue[1..];
  }

  lemma WriteFifo(s: State)
    requires Fifo(s) && !s.writeFailed && Enabled(s, WriteOk)
    ensures Fifo(Apply(s, WriteOk))
  {
    var s' := Apply(s, WriteOk);
    assert s.delivered + [s.consumer.message] + s.queue == s'.delivered + [] + s'.queue;
  }

  lemma EnterFifo(s: State, step: Step)
    requires Fifo(s) && Enabled(s, step) && (step.Send? || step.SendTerminal?)
    ensures Fifo(Apply(s, step))
  {
    var m := if step.Send? then Progress(step.p, s.producers[step.p].emitted) else Terminal;
    assert s.delivered + InHand(s) + s.queue + [m] == s.delivered + InHand(s) + (s.queue + [m]);
  }

  lemma StepFifo(s: State, step: Step)
    requires Fifo(s) && Control(s) && Enabled(s, step)
    ensures Fifo(Apply(s, step))
  {
    match step
    case Receive => ReceiveFifo(s);
    case WriteOk => WriteFifo(s);
    case Send(_) => EnterFifo(s, step);
    case SendTerminal => EnterFifo(s, step);
    case _ =>
  }

  lemma StepRange(s: State, step: Step)
    requires Inv(s) && Enabled(s, step)
    ensures forall m | m in Apply(s, step).entered :: InRange(Apply(s, step), m)
  {
    var s' := Apply(s, step);
    forall m | m in s'.entered ensures InRange(s', m) {
      if m in s.entered {
        assert InRange(s, m);
      }
    }
  }

  lemma StepOrdered(s: State, step: Step)
    requires Inv(s) && Enabled(s, step)
    ensures Ordered(Apply(s, step))
  {
    var s', n := Apply(s, step), |s.entered|;
    StepRange(s, step);
    if step.Send? {
      NoTerminalWhileBlocked(s, step.p);
    }
    forall k, l | 0 <= k < l < |s'.entered| ensures ProducerOrder(s', k, l) {
      if l < n {
        assert ProducerOrder(s, k, l);
      } else {
        assert InRange(s, s.entered[k]);
      }
    }
    forall k | 0 <= k < |s'.entered| - 1 ensures s'.entered[k] != Terminal {
      assert s.entered[k] in s.entered;
    }
  }

  lemma DeliveredEntered(s: State)
    requires Fifo(s)
    ensures Terminal in s.delivered ==> Terminal in s.entered
  {
    assert forall k | 0 <= k < |s.delivered| :: s.delivered[k] == s.entered[k];
  }

  lemma ProducerControl(s: State, step: Step)
    requires Inv(s) && Enabled(s, step) && (step.Expire? || step.Begin? || step.Send? || step.Drop?)
    ensures Control(Apply(s, step))
  {
    if step.Send? || step.Drop? {
      NoTerminalWhileBlocked(s, step.p);
    }
  }

  lemma ConsumerControl(s: State, step: Step)
    requires Inv(s) && Enabled(s, step) && (step.Receive? || step.Quit? || step.WriteOk? || step.WriteFails?)
    ensures Control(Apply(s, step))
  {
    if step.WriteOk? {
      assert Apply(s, step).delivered[|s.delivered|] == s.consumer.message;
    }
  }

  lemma StepControl(s: State, step: Step)
    requires Inv(s) && Enabled(s, step)
    ensures Control(Apply(s, step))
  {
    if step.Expire? || step.Begin? || step.Send? || step.Drop? {
      ProducerControl(s, step);
    } else if step.Receive? || step.Quit? || step.WriteOk? || step.WriteFails? {
      ConsumerControl(s, step);
    } else if step.SendTerminal? {
      assert Apply(s, step).entered[|s.entered|] == Terminal;
    } else if step.DropTerminal? {
      DeliveredEntered(s);
    }
  }

  lemma StillAccounted(s: State, step: Step, p: nat, i: nat)
    requires Inv(s) && Enabled(s, step)
    requires p < |s.producers| && i < Apply(s, step).producers[p].emitted
    ensures Accounted(Apply(s, step), p, i)
  {
    var s' := Apply(s, step);
    if i < s.producers[p].emitted {
      assert Accounted(s, p, i);
      if (p, i) !in s.dropped {
        var k :| 0 <= k < |s.entered| && s.entered[k] == Progress(p, i);
        assert s'.entered[k] == Progress(p, i);
      }
    } else if step.Send? {
      assert s'.entered[|s.entered|] == Progress(step.p, s.producers[step.p].emitted);
    }
  }

  lemma StepDrops(s: State, step: Step)
    requires Inv(s) && Enabled(s, step)
    ensures Drops(Apply(s, step))
  {
    var s' := Apply(s, step);
    if step.Drop? || step.Send? {
      NoTerminalWhileBlocked(s, step.p);
    }
    forall p, i | 0 <= p < |s'.producers| && 0 <= i < s'.producers[p].emitted ensures Accounted(s', p, i) {
      StillAccounted(s, step, p, i);
    }
  }

  lemma StepInv(s: State, step: Step)
    requires Inv(s) && Enabled(s, step)
    ensures Inv(Apply(s, step))
  {
    StepFifo(s, step);
    StepOrdered(s, step);
    StepControl(s, step);
    StepDrops(s, step);
  }

  // ---------------------------------------------------------------- whole runs

  ghost predicate Run(states: seq<State>, steps: seq<Step>) {
    && |states| == |steps| + 1
    && Init(states[0])
    && forall k | 0 <= k < |steps| :: Enabled(states[k], steps[k]) && states[k + 1] == Apply(states[k], steps[k])
  }

  /** The channel never holds more than its 64 places. */
  lemma {:induction false} QueueBounded(states: seq<State>, steps: seq<Step>, k: nat)
    requires Run(states, steps) && k < |states|
    ensures |states[k].queue| <= 64
  {
    if k > 0 {
      QueueBounded(states, steps, k - 1);
      var before, step := states[k - 1], steps[k - 1];
      assert Enabled(before, step) && states[k] == Apply(before, step);
    }
  }

  lemma {:induction false} RunInv(states: seq<State>, steps: seq<Step>, k: nat)
    requires Run(states, steps) && k < |states|
    ensures Inv(states[k])
  {
    if k == 0 {
      InitInv(states[0]);
    } else {
      RunInv(states, steps, k - 1);
      StepInv(states[k - 1], steps[k - 1]);
    }
  }

  /** What the client sees, in every state of every run: each producer's messages in the order it emitted them,
      at most one terminal message, and nothing after it. */
  lemma DeliveredInOrder(states: seq<State>, steps: seq<Step>, k: nat)
    requires Run(states, steps) && k < |states|
    ensures var d := states[k].delivered;
      && (forall i, j | 0 <= i < j < |d| && d[i].Progress? && d[j].Progress? && d[i].producer == d[j].producer ::
            d[i].index < d[j].index)
      && (forall i | 0 <= i < |d| && d[i].Progress? ::
            d[i].producer < |states[k].producers| && d[i].index < states[k].producers[d[i].producer].total)
      && (forall i | 0 <= i < |d| - 1 :: d[i] != Terminal)
  {
    RunInv(states, steps, k);
    var s := states[k];
    assert forall i | 0 <= i < |s.delivered| :: s.delivered[i] == s.entered[i];
    forall i | 0 <= i < |s.delivered| && s.delivered[i].Progress?
      ensures s.delivered[i].producer < |s.producers| && s.delivered[i].index < s.producers[s.delivered[i].producer].total
    {
      assert s.entered[i] in s.entered;
      assert InRange(s, s.entered[i]);
    }
    forall i, j | 0 <= i < j < |s.delivered| && s.delivered[i].Progress? && s.delivered[j].Progress?
      && s.delivered[i].producer == s.delivered[j].producer
      ensures s.delivered[i].index < s.delivered[j].index
    {
      assert ProducerOrder(s, i, j);
    }
  }

  /** A message is lost on the way into the channel only if the emitter's own context, the client or the
      connection was gone. */
  lemma DropsHaveCause(states: seq<State>, steps: seq<Step>, k: nat, p: nat, i: nat)
    requires Run(states, steps) && k < |states|
    requires p < |states[k].producers| && i < states[k].producers[p].emitted
    requires !states[k].producers[p].expired && !states[k].clientGone && !states[k].writeFailed
    ensures Progress(p, i) in states[k].entered
  {
    RunInv(states, steps, k);
    assert Accounted(states[k], p, i);
  }

  // ---------------------------------------------------------------- progress

  /** Steps nobody inside the stream decides on. */
  predicate External(step: Step) {
    step.ClientLeaves? || step.ClientDoneSpreads? || step.Expire? || step.WriteFails?
  }

  /** Nothing the stream itself could still do. */
  ghost predicate Quiet(s: State) {
    forall step | !External(step) :: !Enabled(s, step)
  }

  predicate Final(s: State) {
    s.consumer == Exited && s.runner == Ended && AllEmitted(s.producers)
  }

  /** After the consumer has left no sender is stuck: each one blocked can drop its message and go on. */
  lemma NoSenderBlockedAfterExit(states: seq<State>, steps: seq<Step>, k: nat)
    requires Run(states, steps) && k < |states| && states[k].consumer == Exited
    ensures forall p | 0 <= p < |states[k].producers| && states[k].producers[p].blocked :: Enabled(states[k], Drop(p))
    ensures states[k].runner == Sending ==> Enabled(states[k], DropTerminal)
  {
    RunInv(states, steps, k);
  }

  /** Short of the final state the stream can always take a step of its own. */
  lemma NeverStuck(s: State) returns (step: Step)
    requires Inv(s) && !Final(s)
    ensures !External(step) && Enabled(s, step)
  {
    if s.consumer.Writing? {
      step := WriteOk;
    } else if s.consumer == Reading && s.queue != [] {
      step := Receive;
    } else if s.runner == Working {
      if AllEmitted(s.producers) {
        step := RunReturns;
      } else {
        var i :| 0 <= i < |s.producers| && !(s.producers[i].emitted >= s.producers[i].total && !s.producers[i].blocked);
        step := if !s.producers[i].blocked then Begin(i) else if s.consumer == Exited then Drop(i) else Send(i);
      }
    } else if s.runner == Sending {
      step := if s.consumer == Exited then DropTerminal else SendTerminal;
    } else {
      assert s.consumer == Reading && s.queue == [];
      assert !s.clientGone ==> s.delivered + [] + [] == s.delivered;
      step := Quit;
    }
  }

  /** With the client connected to the end and every write succeeding, a stream that has come to rest has delivered
      exactly one terminal message, as its last, after every progress message whose emitter had not given up. */
  lemma ConnectedStreamCompletes(states: seq<State>, steps: seq<Step>)
    requires Run(states, steps) && Quiet(states[|steps|])
    requires !states[|steps|].clientGone && !states[|steps|].writeFailed
    ensures var s := states[|steps|];
      && Final(s) && s.delivered != [] && s.delivered[|s.delivered| - 1] == Terminal
      && (forall p, i | 0 <= p < |s.producers| && 0 <= i < s.producers[p].total && !s.producers[p].expired ::
            Progress(p, i) in s.delivered)
  {
    var s := states[|steps|];
    RunInv(states, steps, |steps|);
    if !Final(s) {
      var step := NeverStuck(s);
      assert false;
    }
    assert Terminal in s.delivered;
    var k :| 0 <= k < |s.delivered| && s.delivered[k] == Terminal;
    assert s.entered[k] == s.delivered[k];
    assert k == |s.entered| - 1 && s.delivered == s.entered;
    forall p, i | 0 <= p < |s.producers| && 0 <= i < s.producers[p].total && !s.producers[p].expired
      ensures Progress(p, i) in s.delivered
    {
      assert s.producers[p].emitted >= s.producers[p].total;
      assert Accounted(s, p, i);
    }
  }

  // ---------------------------------------------------------------- every run ends

  function ProducerLeft(p: Producer): int {
    6 * (p.total - p.emitted) - (if p.blocked then 1 else 0) + (if p.expired then 0 else 1)
  }

  function AllLeft(producers: seq<Producer>): int {
    if producers == [] then 0 else AllLeft(producers[..|producers| - 1]) + ProducerLeft(producers[|producers| - 1])
  }

  lemma {:induction false} AllLeftUpdate(producers: seq<Producer>, i: nat, p: Producer)
    requires i < |producers|
    ensures AllLeft(producers[i := p]) == AllLeft(producers) - ProducerLeft(producers[i]) + ProducerLeft(p)
  {
    var n := |producers| - 1;
    if i < n {
      assert producers[i := p][..n] == producers[..n][i := p];
      AllLeftUpdate(producers[..n], i, p);
    } else {
      assert producers[i := p][..n] == producers[..n];
    }
  }

  /** A bound on the steps still to come, external ones included. */
  function StepsLeft(s: State): int {
    AllLeft(s.producers)
    + (match s.runner case Working => 6 case Sending => 5 case Ended => 0)
    + 3 * |s.queue|
    + (match s.consumer case Reading => 1 case Writing(_) => 2 case Exited => 0)
    + (if s.clientGone then 0 else 1) + (if s.streamDone then 0 else 1)
  }

  lemma StepUsesOne(s: State, step: Step)
    requires Inv(s) && Enabled(s, step)
    ensures StepsLeft(Apply(s, step)) < StepsLeft(s)
  {
    var s' := Apply(s, step);
    if step.Expire? || step.Begin? || step.Send? || step.Drop? {
      AllLeftUpdate(s.producers, step.p, s'.producers[step.p]);
    }
  }

  lemma {:induction false} AllLeftNonNegative(producers: seq<Producer>)
    requires forall i | 0 <= i < |producers| ::
      producers[i].emitted + (if producers[i].blocked then 1 else 0) <= producers[i].total
    ensures AllLeft(producers) >= 0
  {
    if producers != [] {
      AllLeftNonNegative(producers[..|producers| - 1]);
    }
  }

  /** No run goes on forever: the messages to emit bound its length, whatever the interleaving. */
  lemma {:induction false} RunsAreBounded(states: seq<State>, steps: seq<Step>, k: nat)
    requires Run(states, steps) && k < |states|
    ensures 0 <= StepsLeft(states[k]) && k + StepsLeft(states[k]) <= StepsLeft(states[0])
  {
    RunInv(states, steps, k);
    AllLeftNonNegative(states[k].producers);
    if k > 0 {
      RunsAreBounded(states, steps, k - 1);
      RunInv(states, steps, k - 1);
      StepUsesOne(states[k - 1], steps[k - 1]);
    }
  }
}
