/**
 The interface agent's loop: one batch is answered at a time; batches that come in meanwhile are
 handed to the running agent of the same channel (a steer) or put on a deferred stack.  The loop
 is cut at the points where it waits, and `Phase` says where it stands.  The outcome of answering
 and the success of a steer are given by the environment.
 */
module InterfaceDispatch {
  import opened Wrappers
  import SessionDebounce

  type Batch = SessionDebounce.Batch

  datatype Phase =
    | Idle
    | Processing(batch: Batch)
    | Draining(batch: Batch, result: Result<string, string>)
    | Exited

  datatype Answer = Answer(batch: Batch, result: Result<string, string>)

  datatype Steer = Steer(batch: Batch, into: Batch)

  datatype Delivery = Delivery(adapter: nat, channel: string, text: string)

  /** `arrived`, `answered`, `steered`, `replies` and `outbox` are the history. */
  datatype State = State(
    queue: seq<Batch>, closed: bool, deferred: seq<Batch>, phase: Phase,
    arrived: seq<Batch>, answered: seq<Answer>, steered: seq<Steer>,
    replies: seq<Answer>, outbox: seq<Delivery>)

  datatype Step =
    | Arrive(batch: Batch)
    | Close
    | Next
    | Receive(agentActive: bool)
    | Finish(result: Result<string, string>)
    | Drain
    | Respond

  const INIT := State([], false, [], Idle, [], [], [], [], [])

  const APOLOGY := "Sorry, I ran into an issue. Want me to try again?"

  function Text(a: Answer): string { if a.result.Ok? then a.result.value else APOLOGY }

  /** One delivery through every adapter that carries the answer's interface name. */
  function Deliveries(adapters: seq<string>, a: Answer): seq<Delivery> {
    if adapters == [] then []
    else
      var last := |adapters| - 1;
      Deliveries(adapters[..last], a)
      + if adapters[last] == a.batch.interface then [Delivery(last, a.batch.channel, Text(a))] else []
  }

  predicate SameChannel(a: Batch, b: Batch) { a.channel == b.channel && a.interface == b.interface }

  predicate Enabled(s: State, step: Step) {
    match step
    case Arrive(_) => !s.closed
    case Close => !s.closed
    case Next => s.phase.Idle? && (s.deferred != [] || s.queue != [] || s.closed)
    case Receive(_) => s.phase.Processing? && s.queue != []
    case Finish(_) => s.phase.Processing?
    case Drain => s.phase.Draining? && s.queue != []
    case Respond => s.phase.Draining? && s.queue == []
  }

  function Apply(adapters: seq<string>, s: State, step: Step): State
    requires Enabled(s, step)
  {
    match step
    case Arrive(b) => s.(queue := s.queue + [b], arrived := s.arrived + [b])
    case Close => s.(closed := true)
    case Next =>
      var n := |s.deferred|;
      if n > 0 then s.(deferred := s.deferred[..n - 1], phase := Processing(s.deferred[n - 1]))
      else if s.queue != [] then s.(queue := s.queue[1..], phase := Processing(s.queue[0]))
      else s.(phase := Exited)
    case Receive(agentActive) =>
      var b, s' := s.queue[0], s.(queue := s.queue[1..]);
      if SameChannel(b, s.phase.batch) && agentActive then s'.(steered := s.steered + [Steer(b, s.phase.batch)])
      else s'.(deferred := s.deferred + [b])
    case Finish(result) => s.(phase := Draining(s.phase.batch, result))
    case Drain => s.(queue := s.queue[1..], deferred := s.deferred + [s.queue[0]])
    case Respond =>
      var a := Answer(s.phase.batch, s.phase.result);
      s.(phase := Idle, answered := s.answered + [a],
         replies := if a.result.Ok? then s.replies + [a] else s.replies,
         outbox := s.outbox + Deliveries(adapters, a))
  }

  ghost predicate IsRun(adapters: seq<string>, s: State, steps: seq<Step>)
    decreases |steps|
  {
    steps == [] || (Enabled(s, steps[0]) && IsRun(adapters, Apply(adapters, s, steps[0]), steps[1..]))
  }

  ghost function Run(adapters: seq<string>, s: State, steps: seq<Step>): State
    requires IsRun(adapters, s, steps)
    decreases |steps|
  {
    if steps == [] then s else Run(adapters, Apply(adapters, s, steps[0]), steps[1..])
  }

  /** The loop's variables, updated in place. */
  class InterfaceLoop {
    const adapters: seq<string>
    var queue: seq<Batch>
    var closed: bool
    var deferred: seq<Batch>
    var phase: Phase
    ghost var arrived: seq<Batch>
    ghost var answered: seq<Answer>
    ghost var steered: seq<Steer>
    var replies: seq<Answer>
    var outbox: seq<Delivery>

    ghost function View(): State
      reads this
    {
      State(queue, closed, deferred, phase, arrived, answered, steered, replies, outbox)
    }

    constructor (adapters: seq<string>)
      ensures this.adapters == adapters && View() == INIT
    {
      this.adapters := adapters;
      queue, closed, deferred, phase := [], false, [], Idle;
      arrived, answered, steered, replies, outbox := [], [], [], [], [];
    }

    method Arrive(batch: Batch)
      requires !closed
      modifies this
      ensures View() == Apply(adapters, old(View()), Step.Arrive(batch))
    {
      queue := queue + [batch];
      arrived := arrived + [batch];
    }

    method Close()
      requires !closed
      modifies this
      ensures View() == Apply(adapters, old(View()), Step.Close)
    {
      closed := true;
    }

    /** Serve deferred batches first, last one in first, then new input; stop when the queue has closed. */
    method Next()
      requires Enabled(View(), Step.Next)
      modifies this
      ensures View() == Apply(adapters, old(View()), Step.Next)
    {
      if |deferred| > 0 {
        var batch := deferred[|deferred| - 1];
        deferred := deferred[..|deferred| - 1];
        phase := Processing(batch);
      } else if |queue| > 0 {
        var batch := queue[0];
        queue := queue[1..];
        phase := Processing(batch);
      } else {
        phase := Exited;
      }
    }

    /** A batch arrives while another one is being answered. */
    method Receive(agentActive: bool)
      requires Enabled(View(), Step.Receive(agentActive))
      modifies this
      ensures View() == Apply(adapters, old(View()), Step.Receive(agentActive))
    {
      var additional := queue[0];
      queue := queue[1..];
      if additional.channel == phase.batch.channel && additional.interface == phase.batch.interface {
        if agentActive {
          steered := steered + [Steer(additional, phase.batch)];
        } else {
          deferred := deferred + [additional];
        }
      } else {
        deferred := deferred + [additional];
      }
    }

    method Finish(result: Result<string, string>)
      requires Enabled(View(), Step.Finish(result))
      modifies this
      ensures View() == Apply(adapters, old(View()), Step.Finish(result))
    {
      phase := Draining(phase.batch, result);
    }

    method Drain()
      requires Enabled(View(), Step.Drain)
      modifies this
      ensures View() == Apply(adapters, old(View()), Step.Drain)
    {
      deferred := deferred + [queue[0]];
      queue := queue[1..];
    }

    method Respond()
      requires Enabled(View(), Step.Respond)
      modifies this
      ensures View() == Apply(adapters, old(View()), Step.Respond)
    {
      ghost var answer := Answer(phase.batch, phase.result);
      var text;
      match phase.result {
        case Ok(response) =>
          replies := replies + [Answer(phase.batch, phase.result)];
          text := response;
        case Err(_) => text := APOLOGY;
      }
      ghost var sent := outbox;
      for i := 0 to |adapters|
        invariant unchanged(`queue, `closed, `deferred, `phase, `arrived, `answered, `steered)
        invariant replies == if answer.result.Ok? then old(replies) + [answer] else old(replies)
        invariant sent == old(outbox) && outbox == sent + Deliveries(adapters[..i], answer)
      {
        assert adapters[..i + 1][..i] == adapters[..i];
        if adapters[i] == phase.batch.interface {
          outbox := outbox + [Delivery(i, phase.batch.channel, text)];
        }
      }
      assert adapters[..|adapters|] == adapters;
      answered := answered + [answer];
      phase := Idle;
    }
  }

  // --- What every run keeps ---

  ghost function Times(batches: seq<Batch>, b: Batch): nat {
    if batches == [] then 0
    else Times(batches[..|batches| - 1], b) + if batches[|batches| - 1] == b then 1 else 0
  }

  ghost function Answered(answers: seq<Answer>, b: Batch): nat {
    if answers == [] then 0
    else Answered(answers[..|answers| - 1], b) + if answers[|answers| - 1].batch == b then 1 else 0
  }

  ghost function Steered(steers: seq<Steer>, b: Batch): nat {
    if steers == [] then 0
    else Steered(steers[..|steers| - 1], b) + if steers[|steers| - 1].batch == b then 1 else 0
  }

  ghost function InProgress(phase: Phase, b: Batch): nat {
    if (phase.Processing? || phase.Draining?) && phase.batch == b then 1 else 0
  }

  /** How often `b` is in the loop's hands or already dealt with. */
  ghost function Held(s: State, b: Batch): nat {
    Times(s.queue, b) + Times(s.deferred, b) + InProgress(s.phase, b) + Answered(s.answered, b) + Steered(s.steered, b)
  }

  /** No batch is lost or duplicated. */
  ghost predicate Conserved(s: State) {
    forall b :: Times(s.arrived, b) == Held(s, b)
  }

  /** The successful answers, in order. */
  ghost function Successes(answers: seq<Answer>): seq<Answer> {
    if answers == [] then []
    else
      Successes(answers[..|answers| - 1])
      + if answers[|answers| - 1].result.Ok? then [answers[|answers| - 1]] else []
  }

  /** What adapter `i` was asked to send. */
  ghost function SentBy(outbox: seq<Delivery>, i: nat): seq<Delivery> {
    if outbox == [] then []
    else SentBy(outbox[..|outbox| - 1], i) + if outbox[|outbox| - 1].adapter == i then [outbox[|outbox| - 1]] else []
  }

  /** What the user is told. */
  ghost function Words(result: Result<string, string>): string {
    match result
    case Ok(text) => text
    case Err(_) => "Sorry, I ran into an issue. Want me to try again?"
  }

  /** One delivery for each answer on the adapter's interface, in the order of the answers. */
  ghost function Owed(answers: seq<Answer>, i: nat, name: string): seq<Delivery> {
    if answers == [] then []
    else
      var a := answers[|answers| - 1];
      Owed(answers[..|answers| - 1], i, name)
      + if a.batch.interface == name then [Delivery(i, a.batch.channel, Words(a.result))] else []
  }

  ghost predicate Delivered(adapters: seq<string>, s: State) {
    forall i | 0 <= i < |adapters| :: SentBy(s.outbox, i) == Owed(s.answered, i, adapters[i])
  }

  ghost predicate Good(adapters: seq<string>, s: State) {
    && Conserved(s)
    && (forall steer | steer in s.steered :: SameChannel(steer.batch, steer.into))
    && s.replies == Successes(s.answered)
    && Delivered(adapters, s)
    && (s.phase.Exited? ==> s.closed && s.queue == [] && s.deferred == [])
  }

  lemma {:induction false} SentByAppend(first: seq<Delivery>, second: seq<Delivery>, i: nat)
    ensures SentBy(first + second, i) == SentBy(first, i) + SentBy(second, i)
  {
    if second == [] {
      assert first + second == first;
    } else {
      var n := |second| - 1;
      SentByAppend(first, second[..n], i);
      assert (first + second)[..|first + second| - 1] == first + second[..n];
    }
  }

  lemma {:induction false} DeliveriesBy(adapters: seq<string>, a: Answer, i: nat)
    ensures SentBy(Deliveries(adapters, a), i)
         == if i < |adapters| && adapters[i] == a.batch.interface then [Delivery(i, a.batch.channel, Words(a.result))]
            else []
  {
    if adapters != [] {
      var last := |adapters| - 1;
      DeliveriesBy(adapters[..last], a, i);
      SentBySnoc(Deliveries(adapters[..last], a), Delivery(last, a.batch.channel, Text(a)), i);
    }
  }

  lemma SentBySnoc(outbox: seq<Delivery>, d: Delivery, i: nat)
    ensures SentBy(outbox + [d], i) == SentBy(outbox, i) + if d.adapter == i then [d] else []
    ensures outbox + [] == outbox
  {
    assert (outbox + [d])[..|outbox|] == outbox;
  }

  lemma RespondDelivers(adapters: seq<string>, s: State)
    requires Delivered(adapters, s) && Enabled(s, Respond)
    ensures Delivered(adapters, Apply(adapters, s, Respond))
  {
    var a := Answer(s.phase.batch, s.phase.result);
    var s' := Apply(adapters, s, Respond);
    assert s'.answered[..|s'.answered| - 1] == s.answered;
    forall i | 0 <= i < |adapters|
      ensures SentBy(s'.outbox, i) == Owed(s'.answered, i, adapters[i])
    {
      SentByAppend(s.outbox, Deliveries(adapters, a), i);
      DeliveriesBy(adapters, a, i);
    }
  }

  lemma {:induction false} HeadAndTail(batches: seq<Batch>, b: Batch)
    requires batches != []
    ensures Times(batches, b) == Times(batches[1..], b) + if batches[0] == b then 1 else 0
  {
    var front := batches[..|batches| - 1];
    if front != [] {
      HeadAndTail(front, b);
      assert batches[1..][..|batches| - 2] == front[1..];
    }
  }

  lemma FrontAndLast(front: seq<Batch>, last: Batch, b: Batch)
    ensures Times(front + [last], b) == Times(front, b) + if last == b then 1 else 0
  {
    assert (front + [last])[..|front|] == front;
  }

  lemma NextHolds(adapters: seq<string>, s: State, b: Batch)
    requires Enabled(s, Next)
    ensures Held(Apply(adapters, s, Next), b) == Held(s, b)
  {
    var n := |s.deferred|;
    if n > 0 {
      FrontAndLast(s.deferred[..n - 1], s.deferred[n - 1], b);
      assert s.deferred == s.deferred[..n - 1] + [s.deferred[n - 1]];
    } else if s.queue != [] {
      HeadAndTail(s.queue, b);
    }
  }

  lemma ReceiveHolds(adapters: seq<string>, s: State, agentActive: bool, b: Batch)
    requires Enabled(s, Receive(agentActive))
    ensures Held(Apply(adapters, s, Receive(agentActive)), b) == Held(s, b)
  {
    HeadAndTail(s.queue, b);
    FrontAndLast(s.deferred, s.queue[0], b);
    assert (s.steered + [Steer(s.queue[0], s.phase.batch)])[..|s.steered|] == s.steered;
  }

  lemma DrainHolds(adapters: seq<string>, s: State, b: Batch)
    requires Enabled(s, Drain)
    ensures Held(Apply(adapters, s, Drain), b) == Held(s, b)
  {
    HeadAndTail(s.queue, b);
    FrontAndLast(s.deferred, s.queue[0], b);
  }

  lemma RespondHolds(adapters: seq<string>, s: State, b: Batch)
    requires Enabled(s, Respond)
    ensures Held(Apply(adapters, s, Respond), b) == Held(s, b)
  {
    assert (s.answered + [Answer(s.phase.batch, s.phase.result)])[..|s.answered|] == s.answered;
  }

  /** No step loses or duplicates a batch; an arrival adds its own. */
  lemma StepHolds(adapters: seq<string>, s: State, step: Step, b: Batch)
    requires Enabled(s, step)
    ensures Held(Apply(adapters, s, step), b) == Held(s, b) + if step == Arrive(b) then 1 else 0
  {
    match step
    case Arrive(arriving) => FrontAndLast(s.queue, arriving, b);
    case Close =>
    case Next => NextHolds(adapters, s, b);
    case Receive(agentActive) => ReceiveHolds(adapters, s, agentActive, b);
    case Finish(_) =>
    case Drain => DrainHolds(adapters, s, b);
    case Respond => RespondHolds(adapters, s, b);
  }

  lemma StepConserves(adapters: seq<string>, s: State, step: Step)
    requires Conserved(s) && Enabled(s, step)
    ensures Conserved(Apply(adapters, s, step))
  {
    var s' := Apply(adapters, s, step);
    forall b
      ensures Times(s'.arrived, b) == Held(s', b)
    {
      StepHolds(adapters, s, step, b);
      if step.Arrive? { FrontAndLast(s.arrived, step.batch, b); }
    }
  }

  lemma StepKeepsGood(adapters: seq<string>, s: State, step: Step)
    requires Good(adapters, s) && Enabled(s, step)
    ensures Good(adapters, Apply(adapters, s, step))
  {
    StepConserves(adapters, s, step);
    StepDelivers(adapters, s, step);
    StepSteersOnChannel(adapters, s, step);
  }

  lemma StepDelivers(adapters: seq<string>, s: State, step: Step)
    requires Delivered(adapters, s) && s.replies == Successes(s.answered) && Enabled(s, step)
    ensures var s' := Apply(adapters, s, step); Delivered(adapters, s') && s'.replies == Successes(s'.answered)
  {
    if step.Respond? {
      RespondDelivers(adapters, s);
      var s' := Apply(adapters, s, step);
      assert s'.answered[..|s'.answered| - 1] == s.answered;
    }
  }

  lemma StepSteersOnChannel(adapters: seq<string>, s: State, step: Step)
    requires Enabled(s, step) && forall steer | steer in s.steered :: SameChannel(steer.batch, steer.into)
    requires !s.phase.Exited? || (s.closed && s.queue == [] && s.deferred == [])
    ensures var s' := Apply(adapters, s, step);
            && (forall steer | steer in s'.steered :: SameChannel(steer.batch, steer.into))
            && (s'.phase.Exited? ==> s'.closed && s'.queue == [] && s'.deferred == [])
  {
  }

  lemma {:induction false} RunKeepsGood(adapters: seq<string>, s: State, steps: seq<Step>)
    requires Good(adapters, s) && IsRun(adapters, s, steps)
    ensures Good(adapters, Run(adapters, s, steps))
    decreases |steps|
  {
    if steps != [] {
      StepKeepsGood(adapters, s, steps[0]);
      RunKeepsGood(adapters, Apply(adapters, s, steps[0]), steps[1..]);
    }
  }

  /** At every point of every run no batch is lost or duplicated, a steer stays on its channel, and
      every answer made exactly one reply or one apology on each adapter of its interface; when
      the loop has exited, every batch that ever arrived was answered or handed to a steer. */
  lemma DispatchIsExact(adapters: seq<string>, steps: seq<Step>)
    requires IsRun(adapters, INIT, steps)
    ensures var s := Run(adapters, INIT, steps);
            && Good(adapters, s)
            && (s.phase.Exited? ==> forall b :: Times(s.arrived, b) == Answered(s.answered, b) + Steered(s.steered, b))
  {
    RunKeepsGood(adapters, INIT, steps);
    var s := Run(adapters, INIT, steps);
    assert forall b :: Times(s.arrived, b) == Held(s, b);
  }

  // --- The loop ends once its input has closed ---

  /** An upper bound on the steps left when nothing more arrives. */
  function Work(s: State): nat {
    4 * |s.queue| + 3 * |s.deferred|
    + match s.phase case Processing(_) => 3 case Draining(_, _) => 2 case Idle => 1 case Exited => 0
  }

  /** After the input has closed every run is at most `Work` steps long, and where it can go no
      further the loop has exited. */
  lemma {:induction false} ClosedRunEnds(adapters: seq<string>, s: State, steps: seq<Step>)
    requires s.closed && IsRun(adapters, s, steps)
    ensures var s' := Run(adapters, s, steps);
            && s'.closed
            && |steps| + Work(s') <= Work(s)
            && (s'.phase.Exited? || exists step :: Enabled(s', step))
    decreases |steps|
  {
    if steps == [] {
      match s.phase
      case Idle => assert Enabled(s, Next);
      case Processing(_) => assert Enabled(s, Finish(Ok("")));
      case Draining(_, _) => assert Enabled(s, Drain) || Enabled(s, Respond);
      case Exited =>
    } else {
      ClosedRunEnds(adapters, Apply(adapters, s, steps[0]), steps[1..]);
    }
  }

  // --- The history, told from the steps ---

  ghost function ArrivedBy(steps: seq<Step>): seq<Batch> {
    if steps == [] then []
    else (if steps[0].Arrive? then [steps[0].batch] else []) + ArrivedBy(steps[1..])
  }

  ghost function FinishedWith(steps: seq<Step>): seq<Result<string, string>> {
    if steps == [] then []
    else (if steps[0].Finish? then [steps[0].result] else []) + FinishedWith(steps[1..])
  }

  /** The step takes the batch at the head of the queue. */
  ghost predicate Takes(s: State, step: Step) {
    s.queue != [] && (step.Receive? || step.Drain? || (step.Next? && s.deferred == []))
  }

  ghost function TakenBy(adapters: seq<string>, s: State, steps: seq<Step>): seq<Batch>
    requires IsRun(adapters, s, steps)
    decreases |steps|
  {
    if steps == [] then []
    else
      (if Takes(s, steps[0]) then [s.queue[0]] else [])
      + TakenBy(adapters, Apply(adapters, s, steps[0]), steps[1..])
  }

  /** The batch that the step begins to answer: the one deferred last, or else the head of the queue. */
  ghost function Served(s: State, step: Step): seq<Batch> {
    if !step.Next? then []
    else if s.deferred != [] then [s.deferred[|s.deferred| - 1]]
    else if s.queue != [] then [s.queue[0]]
    else []
  }

  ghost function ServedBy(adapters: seq<string>, s: State, steps: seq<Step>): seq<Batch>
    requires IsRun(adapters, s, steps)
    decreases |steps|
  {
    if steps == [] then []
    else Served(s, steps[0]) + ServedBy(adapters, Apply(adapters, s, steps[0]), steps[1..])
  }

  /** A batch arrives for the channel that is being answered, and its agent takes it. */
  ghost predicate IsSteer(s: State, step: Step) {
    && step == Receive(true) && s.queue != [] && s.phase.Processing?
    && s.queue[0].interface == s.phase.batch.interface && s.queue[0].channel == s.phase.batch.channel
  }

  ghost function SteersBy(adapters: seq<string>, s: State, steps: seq<Step>): seq<Steer>
    requires IsRun(adapters, s, steps)
    decreases |steps|
  {
    if steps == [] then []
    else
      (if IsSteer(s, steps[0]) then [Steer(s.queue[0], s.phase.batch)] else [])
      + SteersBy(adapters, Apply(adapters, s, steps[0]), steps[1..])
  }

  /** The deferred stack grows by each batch that is taken and neither answered at once nor steered,
      and loses its last one when that is served. */
  lemma StackStep(adapters: seq<string>, s: State, step: Step)
    requires Enabled(s, step)
    ensures var s' := Apply(adapters, s, step);
            s'.deferred == if Takes(s, step) && !step.Next? && !IsSteer(s, step) then s.deferred + [s.queue[0]]
                           else if step.Next? && s.deferred != [] then s.deferred[..|s.deferred| - 1]
                           else s.deferred
  {
  }

  /** Batches leave the queue in the order in which they arrived. */
  lemma {:induction false} QueueInOrder(adapters: seq<string>, s: State, steps: seq<Step>)
    requires IsRun(adapters, s, steps)
    ensures Run(adapters, s, steps).arrived == s.arrived + ArrivedBy(steps)
    ensures s.queue + ArrivedBy(steps) == TakenBy(adapters, s, steps) + Run(adapters, s, steps).queue
    decreases |steps|
  {
    if steps == [] {
      assert s.arrived + [] == s.arrived && s.queue + [] == s.queue == [] + s.queue;
    } else {
      var s', more := Apply(adapters, s, steps[0]), ArrivedBy(steps[1..]);
      var taken, left := TakenBy(adapters, s', steps[1..]), Run(adapters, s, steps).queue;
      QueueInOrder(adapters, s', steps[1..]);
      var came := if steps[0].Arrive? then [steps[0].batch] else [];
      var went := if Takes(s, steps[0]) then [s.queue[0]] else [];
      assert s'.arrived == s.arrived + came && s.queue + came == went + s'.queue;
      Shift(s.arrived, came, more);
      Shift(s.queue, came, more);
      Shift(went, s'.queue, more);
      Shift(went, taken, left);
    }
  }

  /** A reply goes out only when every batch that has arrived has been taken from the queue. */
  lemma NothingWaitsAtReply(adapters: seq<string>, steps: seq<Step>)
    requires IsRun(adapters, INIT, steps) && Enabled(Run(adapters, INIT, steps), Respond)
    ensures TakenBy(adapters, INIT, steps) == ArrivedBy(steps)
  {
    QueueInOrder(adapters, INIT, steps);
    assert [] + ArrivedBy(steps) == ArrivedBy(steps);
    assert TakenBy(adapters, INIT, steps) + [] == TakenBy(adapters, INIT, steps);
  }

  lemma Shift<T>(a: seq<T>, b: seq<T>, c: seq<T>)
    ensures a + (b + c) == a + b + c
  {
  }

  /** Over every run the steers are, in order, exactly the batches at the head of the queue when an
      agent took them, each for the channel that was being answered; a batch no agent took is never
      among them. */
  lemma {:induction false} SteersExactly(adapters: seq<string>, s: State, steps: seq<Step>)
    requires IsRun(adapters, s, steps)
    ensures Run(adapters, s, steps).steered == s.steered + SteersBy(adapters, s, steps)
    decreases |steps|
  {
    if steps == [] {
      assert s.steered + [] == s.steered;
    } else {
      var s' := Apply(adapters, s, steps[0]);
      SteersExactly(adapters, s', steps[1..]);
      var here := if IsSteer(s, steps[0]) then [Steer(s.queue[0], s.phase.batch)] else [];
      assert s'.steered == s.steered + here;
      Shift(s.steered, here, SteersBy(adapters, s', steps[1..]));
    }
  }

  /** The input counts as closed from the Close step on. */
  lemma {:induction false} ClosedExactly(adapters: seq<string>, s: State, steps: seq<Step>)
    requires IsRun(adapters, s, steps)
    ensures Run(adapters, s, steps).closed <==> s.closed || Close in steps
    decreases |steps|
  {
    if steps != [] {
      ClosedExactly(adapters, Apply(adapters, s, steps[0]), steps[1..]);
      assert steps == [steps[0]] + steps[1..];
    }
  }

  /** The answers pair the served batches with the results, in order; the last batch served is the one
      in progress until it is answered. */
  ghost predicate AnswersTell(s: State, served: seq<Batch>, results: seq<Result<string, string>>) {
    var n := |s.answered|;
    && |served| == n + (if s.phase.Processing? || s.phase.Draining? then 1 else 0)
    && |results| == n + (if s.phase.Draining? then 1 else 0)
    && (forall i | 0 <= i < n :: s.answered[i] == Answer(served[i], results[i]))
    && (s.phase.Processing? || s.phase.Draining? ==> served[n] == s.phase.batch)
    && (s.phase.Draining? ==> results[n] == s.phase.result)
  }

  lemma AnswersTellStep(
      adapters: seq<string>, s: State, step: Step, served: seq<Batch>, results: seq<Result<string, string>>)
    requires Enabled(s, step) && AnswersTell(s, served, results)
    ensures AnswersTell(Apply(adapters, s, step), served + Served(s, step),
                        results + if step.Finish? then [step.result] else [])
  {
  }

  lemma {:induction false} AnswersInOrder(
      adapters: seq<string>, s: State, steps: seq<Step>, served: seq<Batch>, results: seq<Result<string, string>>)
    requires IsRun(adapters, s, steps) && AnswersTell(s, served, results)
    ensures AnswersTell(Run(adapters, s, steps), served + ServedBy(adapters, s, steps), results + FinishedWith(steps))
    decreases |steps|
  {
    if steps == [] {
      assert served + [] == served && results + [] == results;
    } else {
      var s', step := Apply(adapters, s, steps[0]), steps[0];
      var ended := if step.Finish? then [step.result] else [];
      AnswersTellStep(adapters, s, step, served, results);
      AnswersInOrder(adapters, s', steps[1..], served + Served(s, step), results + ended);
      Shift(served, Served(s, step), ServedBy(adapters, s', steps[1..]));
      Shift(results, ended, FinishedWith(steps[1..]));
    }
  }

  /** Every run answers the batches it served, in order, each with the result its answering ended in. */
  lemma AnswersExactly(adapters: seq<string>, steps: seq<Step>)
    requires IsRun(adapters, INIT, steps)
    ensures AnswersTell(Run(adapters, INIT, steps), ServedBy(adapters, INIT, steps), FinishedWith(steps))
  {
    AnswersInOrder(adapters, INIT, steps, [], []);
    assert [] + ServedBy(adapters, INIT, steps) == ServedBy(adapters, INIT, steps);
    assert [] + FinishedWith(steps) == FinishedWith(steps);
  }
}
