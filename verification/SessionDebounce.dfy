/**
 Smart batching: messages of one session are collected until the session has been quiet for the
 debounce time, then flushed as one batch.  Each open session is watched by a timer task that
 sleeps, checks under the session lock, and either flushes or sleeps again.  Taking the lock,
 looking, and sending the batch is one atomic step; a timer wakes exactly when its sleep is over.
 */
module SessionDebounce {
  datatype Message = Message(author: string, content: string, receivedAt: int)

  datatype Session = Session(pending: seq<Message>, lastReceived: int)

  /** A spawned timer task: what it captured, and when its current sleep ends. */
  datatype Timer = Timer(key: string, interface: string, channel: string, due: int)

  datatype Batch = Batch(interface: string, channel: string, messages: seq<Message>)

  datatype Flush = Flush(batch: Batch, at: int)

  datatype Arrival = Arrival(interface: string, channel: string, message: Message)

  /** `arrivals` and `sent` are the history; the rest is what the manager holds. */
  datatype State = State(
    now: int, sessions: map<string, Session>, timers: map<nat, Timer>, nextTask: nat,
    arrivals: seq<Arrival>, sent: seq<Flush>)

  datatype Step =
    | Add(interface: string, channel: string, author: string, content: string)
    | Wake(task: nat)
    | Advance(to: int)

  function Key(interface: string, channel: string): string { interface + ":" + channel }

  function Init(now: int): State { State(now, map[], map[], 0, [], []) }

  predicate Enabled(s: State, step: Step) {
    match step
    case Add(_, _, _, _) => true
    case Wake(task) => task in s.timers && s.timers[task].due == s.now
    case Advance(to) => s.now <= to && forall task | task in s.timers :: to <= s.timers[task].due
  }

  function Apply(debounce: nat, s: State, step: Step): State
    requires Enabled(s, step)
  {
    match step
    case Add(interface, channel, author, content) =>
      AddMessage(debounce, s, interface, channel, Message(author, content, s.now))
    case Wake(task) => WakeTimer(debounce, s, task)
    case Advance(to) => s.(now := to)
  }

  function AddMessage(debounce: nat, s: State, interface: string, channel: string, m: Message): State {
    var key := Key(interface, channel);
    var earlier := if key in s.sessions then s.sessions[key].pending else [];
    var s' := s.(sessions := s.sessions[key := Session(earlier + [m], s.now)],
                 arrivals := s.arrivals + [Arrival(interface, channel, m)]);
    if |earlier| == 0 then
      s'.(timers := s.timers[s.nextTask := Timer(key, interface, channel, s.now + debounce)],
          nextTask := s.nextTask + 1)
    else s'
  }

  function WakeTimer(debounce: nat, s: State, task: nat): State
    requires task in s.timers
  {
    var t := s.timers[task];
    if t.key !in s.sessions then s.(timers := s.timers - {task})
    else if s.now - s.sessions[t.key].lastReceived >= debounce then
      s.(sessions := s.sessions - {t.key}, timers := s.timers - {task},
         sent := s.sent + [Flush(Batch(t.interface, t.channel, s.sessions[t.key].pending), s.now)])
    else s.(timers := s.timers[task := t.(due := s.now + debounce)])
  }

  ghost predicate IsRun(debounce: nat, s: State, steps: seq<Step>)
    decreases |steps|
  {
    steps == [] || (Enabled(s, steps[0]) && IsRun(debounce, Apply(debounce, s, steps[0]), steps[1..]))
  }

  ghost function Run(debounce: nat, s: State, steps: seq<Step>): State
    requires IsRun(debounce, s, steps)
    decreases |steps|
  {
    if steps == [] then s else Run(debounce, Apply(debounce, s, steps[0]), steps[1..])
  }

  /** The session manager and its timer tasks, updated in place. */
  class SessionManager {
    const debounce: nat
    var now: int
    var sessions: map<string, Session>
    var timers: map<nat, Timer>
    var nextTask: nat
    ghost var arrivals: seq<Arrival>
    var sent: seq<Flush>

    ghost function View(): State
      reads this
    {
      State(now, sessions, timers, nextTask, arrivals, sent)
    }

    constructor (debounce: nat, now: int)
      ensures this.debounce == debounce && View() == Init(now)
    {
      this.debounce, this.now := debounce, now;
      sessions, timers, nextTask, arrivals, sent := map[], map[], 0, [], [];
    }

    method AddMessage(interface: string, channel: string, author: string, content: string)
      modifies this
      ensures View() == Apply(debounce, old(View()), Add(interface, channel, author, content))
    {
      var key := Key(interface, channel);
      var msg := Message(author, content, now);
      if key !in sessions {
        sessions := sessions[key := Session([], now)];
      }
      var session := sessions[key];
      session := session.(pending := session.pending + [msg]);
      session := session.(lastReceived := now);
      sessions := sessions[key := session];
      arrivals := arrivals + [Arrival(interface, channel, msg)];
      if |session.pending| == 1 {
        timers := timers[nextTask := Timer(key, interface, channel, now + debounce)];
        nextTask := nextTask + 1;
      }
    }

    /** One turn of a timer task's loop, after its sleep. */
    method WakeTimer(task: nat)
      requires Enabled(View(), Wake(task))
      modifies this
      ensures View() == Apply(debounce, old(View()), Wake(task))
    {
      var t := timers[task];
      if t.key in sessions {
        var session := sessions[t.key];
        if now - session.lastReceived >= debounce {
          sessions := sessions - {t.key};
          sent := sent + [Flush(Batch(t.interface, t.channel, session.pending), now)];
          timers := timers - {task};
        } else {
          timers := timers[task := t.(due := now + debounce)];
        }
      } else {
        timers := timers - {task};
      }
    }

    method Advance(to: int)
      requires Enabled(View(), Step.Advance(to))
      modifies this
      ensures View() == Apply(debounce, old(View()), Step.Advance(to))
    {
      now := to;
    }
  }

  // --- What every run keeps ---

  /** Two neighbouring messages are less than two debounce times apart (at debounce 0: together). */
  ghost predicate Close(debounce: nat, earlier: int, later: int) {
    earlier <= later && (if debounce == 0 then earlier == later else later - earlier < 2 * debounce)
  }

  ghost predicate CloseTogether(debounce: nat, messages: seq<Message>) {
    forall i | 0 < i < |messages| :: Close(debounce, messages[i - 1].receivedAt, messages[i].receivedAt)
  }

  /** One timer for every open session and one open session for every timer. */
  ghost predicate OneTimerEach(s: State) {
    && (forall task | task in s.timers :: OwnTimer(s, task))
    && (forall key | key in s.sessions :: Watched(s, key))
    && (forall a, b | a in s.timers && b in s.timers && s.timers[a].key == s.timers[b].key :: a == b)
  }

  ghost predicate OwnTimer(s: State, task: nat)
    requires task in s.timers
  {
    var t := s.timers[task];
    task < s.nextTask && t.key in s.sessions && t.key == Key(t.interface, t.channel)
  }

  ghost predicate Watched(s: State, key: string) {
    exists task | task in s.timers :: s.timers[task].key == key
  }

  ghost predicate SessionGood(debounce: nat, now: int, session: Session) {
    && session.pending != []
    && session.lastReceived == LastReceived(session.pending)
    && session.lastReceived <= now
    && CloseTogether(debounce, session.pending)
  }

  ghost predicate TimerGood(debounce: nat, s: State, t: Timer)
    requires t.key in s.sessions
  {
    s.now <= t.due <= s.now + debounce && Close(debounce, s.sessions[t.key].lastReceived, t.due)
  }

  ghost predicate FlushGood(debounce: nat, f: Flush) {
    && f.batch.messages != []
    && debounce <= f.at - LastReceived(f.batch.messages)
    && Close(debounce, LastReceived(f.batch.messages), f.at)
    && CloseTogether(debounce, f.batch.messages)
  }

  ghost function LastReceived(messages: seq<Message>): int
    requires messages != []
  {
    messages[|messages| - 1].receivedAt
  }

  /** The messages of one session key, as sent, pending and arrived. */
  ghost function Sent(sent: seq<Flush>, key: string): seq<Message> {
    if sent == [] then []
    else
      var batch := sent[|sent| - 1].batch;
      Sent(sent[..|sent| - 1], key) + if Key(batch.interface, batch.channel) == key then batch.messages else []
  }

  ghost function Pending(s: State, key: string): seq<Message> {
    if key in s.sessions then s.sessions[key].pending else []
  }

  ghost function Arrived(arrivals: seq<Arrival>, key: string): seq<Message> {
    if arrivals == [] then []
    else
      var a := arrivals[|arrivals| - 1];
      Arrived(arrivals[..|arrivals| - 1], key) + if Key(a.interface, a.channel) == key then [a.message] else []
  }

  ghost predicate Conserved(s: State) {
    forall key :: Sent(s.sent, key) + Pending(s, key) == Arrived(s.arrivals, key)
  }

  ghost predicate SessionsGood(debounce: nat, s: State) {
    forall key | key in s.sessions :: SessionGood(debounce, s.now, s.sessions[key])
  }

  ghost predicate TimersGood(debounce: nat, s: State)
    requires OneTimerEach(s)
  {
    forall task | task in s.timers :: TimerGood(debounce, s, s.timers[task])
  }

  ghost predicate Good(debounce: nat, s: State) {
    && OneTimerEach(s)
    && SessionsGood(debounce, s)
    && TimersGood(debounce, s)
    && (forall f | f in s.sent :: FlushGood(debounce, f))
    && Conserved(s)
  }

  lemma AddKeepsWatched(debounce: nat, s: State, interface: string, channel: string, m: Message, key: string)
    requires OneTimerEach(s) && SessionsGood(debounce, s)
    requires key in AddMessage(debounce, s, interface, channel, m).sessions
    ensures Watched(AddMessage(debounce, s, interface, channel, m), key)
  {
    var s' := AddMessage(debounce, s, interface, channel, m);
    if key in s.sessions {
      assert Watched(s, key);
      var task :| task in s.timers && s.timers[task].key == key;
      assert OwnTimer(s, task);
      assert task in s'.timers && s'.timers[task].key == key;
    } else {
      assert s.nextTask in s'.timers && s'.timers[s.nextTask].key == key;
    }
  }

  lemma AddKeepsTimers(debounce: nat, s: State, interface: string, channel: string, m: Message)
    requires OneTimerEach(s) && SessionsGood(debounce, s)
    ensures OneTimerEach(AddMessage(debounce, s, interface, channel, m))
  {
    var s' := AddMessage(debounce, s, interface, channel, m);
    var key := Key(interface, channel);
    forall other | other in s'.sessions
      ensures Watched(s', other)
    {
      AddKeepsWatched(debounce, s, interface, channel, m, other);
    }
    if key in s.sessions { assert SessionGood(debounce, s.now, s.sessions[key]); }
    forall task | task in s'.timers
      ensures OwnTimer(s', task)
    {
      if task in s.timers { assert OwnTimer(s, task); }
    }
  }

  /** While a session is open its timer has not yet been due, so the next message comes soon enough
      after the last one. */
  lemma NextIsClose(debounce: nat, s: State, key: string)
    requires OneTimerEach(s) && SessionsGood(debounce, s) && TimersGood(debounce, s)
    requires key in s.sessions
    ensures Close(debounce, LastReceived(s.sessions[key].pending), s.now)
  {
    assert Watched(s, key);
    var task :| task in s.timers && s.timers[task].key == key;
    assert TimerGood(debounce, s, s.timers[task]);
    assert SessionGood(debounce, s.now, s.sessions[key]);
  }

  lemma AddKeepsSessions(debounce: nat, s: State, interface: string, channel: string, m: Message)
    requires OneTimerEach(s) && SessionsGood(debounce, s) && TimersGood(debounce, s)
    requires m.receivedAt == s.now
    ensures SessionsGood(debounce, AddMessage(debounce, s, interface, channel, m))
  {
    var s' := AddMessage(debounce, s, interface, channel, m);
    var key := Key(interface, channel);
    if key in s.sessions {
      NextIsClose(debounce, s, key);
      assert SessionGood(debounce, s.now, s.sessions[key]);
    }
    forall other | other in s'.sessions
      ensures SessionGood(debounce, s'.now, s'.sessions[other])
    {
      if other != key { assert SessionGood(debounce, s.now, s.sessions[other]); }
    }
  }

  lemma AddKeepsTiming(debounce: nat, s: State, interface: string, channel: string, m: Message)
    requires OneTimerEach(s) && SessionsGood(debounce, s) && TimersGood(debounce, s)
    ensures OneTimerEach(AddMessage(debounce, s, interface, channel, m))
    ensures TimersGood(debounce, AddMessage(debounce, s, interface, channel, m))
  {
    AddKeepsTimers(debounce, s, interface, channel, m);
    var s' := AddMessage(debounce, s, interface, channel, m);
    forall task | task in s'.timers
      ensures TimerGood(debounce, s', s'.timers[task])
    {
      if task in s.timers { TimerStaysGood(debounce, s, s.timers[task], interface, channel, m); }
    }
  }

  lemma TimerStaysGood(debounce: nat, s: State, t: Timer, interface: string, channel: string, m: Message)
    requires t.key in s.sessions && TimerGood(debounce, s, t)
    ensures TimerGood(debounce, AddMessage(debounce, s, interface, channel, m), t)
  {
  }

  lemma SentSnoc(sent: seq<Flush>, f: Flush, key: string)
    ensures Sent(sent + [f], key)
         == Sent(sent, key) + if Key(f.batch.interface, f.batch.channel) == key then f.batch.messages else []
  {
    assert (sent + [f])[..|sent|] == sent;
  }

  lemma ArrivedSnoc(arrivals: seq<Arrival>, a: Arrival, key: string)
    ensures Arrived(arrivals + [a], key)
         == Arrived(arrivals, key) + if Key(a.interface, a.channel) == key then [a.message] else []
  {
    assert (arrivals + [a])[..|arrivals|] == arrivals;
  }

  lemma AddConserves(debounce: nat, s: State, interface: string, channel: string, m: Message, key: string)
    requires Sent(s.sent, key) + Pending(s, key) == Arrived(s.arrivals, key)
    ensures var s' := AddMessage(debounce, s, interface, channel, m);
            Sent(s'.sent, key) + Pending(s', key) == Arrived(s'.arrivals, key)
  {
    var s' := AddMessage(debounce, s, interface, channel, m);
    ArrivedSnoc(s.arrivals, Arrival(interface, channel, m), key);
    if key == Key(interface, channel) {
      assert Pending(s', key) == Pending(s, key) + [m];
      SnocRight(Sent(s.sent, key), Pending(s, key), m);
    } else {
      assert Pending(s', key) == Pending(s, key);
    }
  }

  lemma SnocRight(sent: seq<Message>, pending: seq<Message>, m: Message)
    ensures sent + (pending + [m]) == sent + pending + [m]
  {
  }

  /** A flush takes a session away together with its timer. */
  lemma FlushKeepsTimers(s: State, task: nat, s': State)
    requires OneTimerEach(s) && task in s.timers
    requires s'.sessions == s.sessions - {s.timers[task].key} && s'.timers == s.timers - {task}
    requires s'.nextTask == s.nextTask
    ensures OneTimerEach(s')
  {
    forall key | key in s'.sessions
      ensures Watched(s', key)
    {
      assert Watched(s, key);
      var other :| other in s.timers && s.timers[other].key == key;
      assert other in s'.timers && s'.timers[other].key == key;
    }
    forall other | other in s'.timers
      ensures OwnTimer(s', other)
    {
      assert OwnTimer(s, other);
    }
  }

  lemma RearmKeepsTimers(s: State, task: nat, due: int, s': State)
    requires OneTimerEach(s) && task in s.timers
    requires s'.sessions == s.sessions && s'.timers == s.timers[task := s.timers[task].(due := due)]
    requires s'.nextTask == s.nextTask
    ensures OneTimerEach(s')
  {
    forall key | key in s'.sessions
      ensures Watched(s', key)
    {
      assert Watched(s, key);
      var other :| other in s.timers && s.timers[other].key == key;
      assert other in s'.timers && s'.timers[other].key == key;
    }
    forall other | other in s'.timers
      ensures OwnTimer(s', other)
    {
      assert OwnTimer(s, other);
    }
  }

  lemma WakeKeepsTimers(debounce: nat, s: State, task: nat)
    requires OneTimerEach(s) && task in s.timers
    ensures OneTimerEach(WakeTimer(debounce, s, task))
  {
    assert OwnTimer(s, task);
    var s' := WakeTimer(debounce, s, task);
    if s.now - s.sessions[s.timers[task].key].lastReceived >= debounce {
      FlushKeepsTimers(s, task, s');
    } else {
      RearmKeepsTimers(s, task, s.now + debounce, s');
    }
  }

  lemma WakeKeepsTiming(debounce: nat, s: State, task: nat)
    requires OneTimerEach(s) && SessionsGood(debounce, s) && TimersGood(debounce, s)
    requires task in s.timers && s.timers[task].due == s.now
    ensures OneTimerEach(WakeTimer(debounce, s, task))
    ensures SessionsGood(debounce, WakeTimer(debounce, s, task))
    ensures TimersGood(debounce, WakeTimer(debounce, s, task))
    ensures forall f | f in WakeTimer(debounce, s, task).sent :: f in s.sent || FlushGood(debounce, f)
  {
    WakeKeepsTimers(debounce, s, task);
    var s' := WakeTimer(debounce, s, task);
    assert TimerGood(debounce, s, s.timers[task]);
    assert SessionGood(debounce, s.now, s.sessions[s.timers[task].key]);
    forall other | other in s'.timers
      ensures TimerGood(debounce, s', s'.timers[other])
    {
      if other != task { assert TimerGood(debounce, s, s.timers[other]); }
    }
  }

  /** A flush moves the pending messages of its session to what was sent. */
  lemma FlushConserves(s: State, f: Flush, key: string)
    requires var home := Key(f.batch.interface, f.batch.channel);
             home in s.sessions && s.sessions[home].pending == f.batch.messages
    ensures var s' := s.(sessions := s.sessions - {Key(f.batch.interface, f.batch.channel)}, sent := s.sent + [f]);
            Sent(s'.sent, key) + Pending(s', key) == Sent(s.sent, key) + Pending(s, key)
  {
    SentSnoc(s.sent, f, key);
  }

  lemma WakeConserves(debounce: nat, s: State, task: nat, key: string)
    requires task in s.timers && s.timers[task].key == Key(s.timers[task].interface, s.timers[task].channel)
    ensures var s' := WakeTimer(debounce, s, task);
            Sent(s'.sent, key) + Pending(s', key) == Sent(s.sent, key) + Pending(s, key)
  {
    var t := s.timers[task];
    if t.key in s.sessions && s.now - s.sessions[t.key].lastReceived >= debounce {
      FlushConserves(s, Flush(Batch(t.interface, t.channel, s.sessions[t.key].pending), s.now), key);
    }
  }

  lemma StepConserves(debounce: nat, s: State, step: Step)
    requires OneTimerEach(s) && Conserved(s) && Enabled(s, step)
    ensures Conserved(Apply(debounce, s, step))
  {
    var s' := Apply(debounce, s, step);
    forall key
      ensures Sent(s'.sent, key) + Pending(s', key) == Arrived(s'.arrivals, key)
    {
      assert Sent(s.sent, key) + Pending(s, key) == Arrived(s.arrivals, key);
      match step
      case Add(interface, channel, author, content) =>
        AddConserves(debounce, s, interface, channel, Message(author, content, s.now), key);
      case Wake(task) => WakeConserves(debounce, s, task, key);
      case Advance(_) =>
    }
  }

  lemma StepKeepsGood(debounce: nat, s: State, step: Step)
    requires Good(debounce, s) && Enabled(s, step)
    ensures Good(debounce, Apply(debounce, s, step))
  {
    StepConserves(debounce, s, step);
    match step
    case Add(interface, channel, author, content) =>
      var m := Message(author, content, s.now);
      AddKeepsSessions(debounce, s, interface, channel, m);
      AddKeepsTiming(debounce, s, interface, channel, m);
    case Wake(task) =>
      WakeKeepsTiming(debounce, s, task);
    case Advance(to) =>
      var s' := Apply(debounce, s, step);
      forall key | key in s'.sessions ensures Watched(s', key) { assert Watched(s, key); }
      forall task | task in s'.timers ensures TimerGood(debounce, s', s'.timers[task]) {
        assert TimerGood(debounce, s, s.timers[task]);
      }
      forall key | key in s'.sessions ensures SessionGood(debounce, s'.now, s'.sessions[key]) {
        assert SessionGood(debounce, s.now, s.sessions[key]);
      }
  }

  lemma {:induction false} RunKeepsGood(debounce: nat, s: State, steps: seq<Step>)
    requires Good(debounce, s) && IsRun(debounce, s, steps)
    ensures Good(debounce, Run(debounce, s, steps))
    decreases |steps|
  {
    if steps != [] {
      StepKeepsGood(debounce, s, steps[0]);
      RunKeepsGood(debounce, Apply(debounce, s, steps[0]), steps[1..]);
    }
  }

  /** The reachable states of a manager started at any time. */
  ghost predicate Reachable(debounce: nat, s: State) {
    exists start, steps :: IsRun(debounce, Init(start), steps) && Run(debounce, Init(start), steps) == s
  }

  lemma ReachableIsGood(debounce: nat, s: State)
    requires Reachable(debounce, s)
    ensures Good(debounce, s)
  {
    var start, steps :| IsRun(debounce, Init(start), steps) && Run(debounce, Init(start), steps) == s;
    RunKeepsGood(debounce, Init(start), steps);
  }

  /** Every open session has messages and exactly one timer, every timer's session is open (so a
      timer never finds its session missing), and per key what was sent followed by what is pending
      is what arrived, in order. */
  lemma SessionsAreWatched(debounce: nat, s: State, key: string)
    requires Reachable(debounce, s)
    ensures Sent(s.sent, key) + Pending(s, key) == Arrived(s.arrivals, key)
    ensures key in s.sessions ==> s.sessions[key].pending != []
    ensures |TimersOf(s, key)| == if key in s.sessions then 1 else 0
  {
    ReachableIsGood(debounce, s);
    CountTimers(s, key);
    if key in s.sessions { assert SessionGood(debounce, s.now, s.sessions[key]); }
  }

  ghost function TimersOf(s: State, key: string): set<nat> { set task | task in s.timers && s.timers[task].key == key }

  lemma CountTimers(s: State, key: string)
    requires OneTimerEach(s)
    ensures |TimersOf(s, key)| == if key in s.sessions then 1 else 0
  {
    if key in s.sessions {
      assert Watched(s, key);
      var task :| task in s.timers && s.timers[task].key == key;
      assert TimersOf(s, key) == {task};
    } else {
      assert TimersOf(s, key) == {};
    }
  }

  // --- Timers look once every debounce time, counted from the first message ---

  function Ticks(n: nat, debounce: nat): nat { n * debounce }

  /** A whole number of debounce times after `first`. */
  ghost predicate OnTick(debounce: nat, first: int, at: int) {
    exists n: nat :: at == first + Ticks(n, debounce)
  }

  ghost predicate FirstIs(messages: seq<Message>, debounce: nat, at: int) {
    messages != [] && OnTick(debounce, messages[0].receivedAt, at)
  }

  ghost predicate Ticking(debounce: nat, s: State) {
    && (forall task | task in s.timers :: FirstIs(Pending(s, s.timers[task].key), debounce, s.timers[task].due))
    && (forall f | f in s.sent :: FirstIs(f.batch.messages, debounce, f.at))
  }

  lemma NextTick(debounce: nat, first: int, at: int)
    requires OnTick(debounce, first, at)
    ensures OnTick(debounce, first, at + debounce)
  {
    var n: nat :| at == first + Ticks(n, debounce);
    assert at + debounce == first + Ticks(n + 1, debounce);
  }

  lemma FirstTick(debounce: nat, first: int)
    ensures OnTick(debounce, first, first + debounce)
  {
    assert first + debounce == first + Ticks(1, debounce);
  }

  /** The pending list of an open session grows at its end; a new one begins with the message. */
  lemma AddKeepsFirst(debounce: nat, s: State, interface: string, channel: string, m: Message, key: string)
    requires SessionsGood(debounce, s)
    ensures var pending := Pending(AddMessage(debounce, s, interface, channel, m), key);
            if key in s.sessions then Pending(s, key) != [] && pending != [] && pending[0] == Pending(s, key)[0]
            else pending == if key == Key(interface, channel) then [m] else []
  {
    if key in s.sessions { assert SessionGood(debounce, s.now, s.sessions[key]); }
  }

  lemma AddKeepsTicking(debounce: nat, s: State, interface: string, channel: string, m: Message)
    requires OneTimerEach(s) && SessionsGood(debounce, s) && Ticking(debounce, s) && m.receivedAt == s.now
    ensures Ticking(debounce, AddMessage(debounce, s, interface, channel, m))
  {
    var s' := AddMessage(debounce, s, interface, channel, m);
    FirstTick(debounce, s.now);
    forall task | task in s'.timers
      ensures FirstIs(Pending(s', s'.timers[task].key), debounce, s'.timers[task].due)
    {
      AddKeepsFirst(debounce, s, interface, channel, m, s'.timers[task].key);
      if task in s.timers {
        assert OwnTimer(s, task);
        assert FirstIs(Pending(s, s.timers[task].key), debounce, s.timers[task].due);
      } else {
        NewTimer(debounce, s, interface, channel, m, task);
      }
    }
  }

  lemma NewTimer(debounce: nat, s: State, interface: string, channel: string, m: Message, task: nat)
    requires SessionsGood(debounce, s) && task !in s.timers
    requires task in AddMessage(debounce, s, interface, channel, m).timers
    ensures var t := AddMessage(debounce, s, interface, channel, m).timers[task];
            t.key == Key(interface, channel) && t.key !in s.sessions && t.due == s.now + debounce
  {
    var key := Key(interface, channel);
    assert key in s.sessions ==> SessionGood(debounce, s.now, s.sessions[key]);
  }

  lemma WakeKeepsTicking(debounce: nat, s: State, task: nat)
    requires OneTimerEach(s) && Ticking(debounce, s)
    requires task in s.timers && s.timers[task].due == s.now
    ensures Ticking(debounce, WakeTimer(debounce, s, task))
  {
    var s', t := WakeTimer(debounce, s, task), s.timers[task];
    var pending := Pending(s, t.key);
    assert OwnTimer(s, task) && FirstIs(pending, debounce, t.due);
    NextTick(debounce, pending[0].receivedAt, t.due);
    forall other | other in s'.timers
      ensures FirstIs(Pending(s', s'.timers[other].key), debounce, s'.timers[other].due)
    {
      assert FirstIs(Pending(s, s.timers[other].key), debounce, s.timers[other].due);
    }
    forall f | f in s'.sent
      ensures FirstIs(f.batch.messages, debounce, f.at)
    {
      if f !in s.sent { assert f.batch.messages == pending && f.at == t.due; }
    }
  }

  lemma StepKeepsTicking(debounce: nat, s: State, step: Step)
    requires OneTimerEach(s) && SessionsGood(debounce, s) && Ticking(debounce, s) && Enabled(s, step)
    ensures Ticking(debounce, Apply(debounce, s, step))
  {
    match step
    case Add(interface, channel, author, content) =>
      AddKeepsTicking(debounce, s, interface, channel, Message(author, content, s.now));
    case Wake(task) => WakeKeepsTicking(debounce, s, task);
    case Advance(to) => AdvanceKeepsTicking(debounce, s, to);
  }

  lemma AdvanceKeepsTicking(debounce: nat, s: State, to: int)
    requires Ticking(debounce, s)
    ensures Ticking(debounce, s.(now := to))
  {
    var s' := s.(now := to);
    forall task | task in s'.timers
      ensures FirstIs(Pending(s', s'.timers[task].key), debounce, s'.timers[task].due)
    {
      assert FirstIs(Pending(s, s.timers[task].key), debounce, s.timers[task].due);
    }
  }

  lemma {:induction false} RunKeepsTicking(debounce: nat, s: State, steps: seq<Step>)
    requires Good(debounce, s) && Ticking(debounce, s) && IsRun(debounce, s, steps)
    ensures Ticking(debounce, Run(debounce, s, steps))
    decreases |steps|
  {
    if steps != [] {
      var s' := Apply(debounce, s, steps[0]);
      StepKeepsGood(debounce, s, steps[0]);
      StepKeepsTicking(debounce, s, steps[0]);
      RunKeepsTicking(debounce, s', steps[1..]);
    }
  }

  /** Every batch is flushed at the first whole number of debounce times after its first message at
      which the debounce time has passed since its last one: at least the debounce time and less than
      twice that after its last message.  Its messages are less than twice the debounce time apart.
      With a debounce time of 0 a batch is flushed at the instant at which all of them arrived. */
  lemma FlushTiming(debounce: nat, s: State, f: Flush)
    requires Reachable(debounce, s) && f in s.sent
    ensures var messages, limit := f.batch.messages, if debounce == 0 then 1 else 2 * debounce;
            && messages != []
            && (exists n: nat :: f.at == messages[0].receivedAt + Ticks(n, debounce))
            && debounce <= f.at - LastReceived(messages) < limit
            && forall i | 0 < i < |messages| :: 0 <= messages[i].receivedAt - messages[i - 1].receivedAt < limit
  {
    ReachableIsGood(debounce, s);
    assert FlushGood(debounce, f);
    assert forall i | 0 < i < |f.batch.messages| ::
        Close(debounce, f.batch.messages[i - 1].receivedAt, f.batch.messages[i].receivedAt);
    var start, steps :| IsRun(debounce, Init(start), steps) && Run(debounce, Init(start), steps) == s;
    RunKeepsTicking(debounce, Init(start), steps);
    assert FirstIs(f.batch.messages, debounce, f.at);
  }

  // --- The arrivals, told from the steps ---

  ghost function ArrivalsBy(now: int, steps: seq<Step>): seq<Arrival>
    decreases |steps|
  {
    if steps == [] then []
    else
      match steps[0]
      case Add(interface, channel, author, content) =>
        [Arrival(interface, channel, Message(author, content, now))] + ArrivalsBy(now, steps[1..])
      case Wake(_) => ArrivalsBy(now, steps[1..])
      case Advance(to) => ArrivalsBy(to, steps[1..])
  }

  /** The arrivals of a run are its Add steps, in order, with author, content and the time of each. */
  lemma {:induction false} ArrivalsExactly(debounce: nat, s: State, steps: seq<Step>)
    requires IsRun(debounce, s, steps)
    ensures Run(debounce, s, steps).arrivals == s.arrivals + ArrivalsBy(s.now, steps)
    decreases |steps|
  {
    if steps == [] {
      assert s.arrivals + [] == s.arrivals;
    } else {
      var s' := Apply(debounce, s, steps[0]);
      ArrivalsExactly(debounce, s', steps[1..]);
      if steps[0].Add? {
        var a := s'.arrivals[|s.arrivals|];
        assert s.arrivals + [a] + ArrivalsBy(s.now, steps[1..]) == s.arrivals + ([a] + ArrivalsBy(s.now, steps[1..]));
      }
    }
  }

  /** No session stays open for twice the debounce time after its last message. */
  lemma OpenSessionsAreRecent(debounce: nat, s: State, key: string)
    requires Reachable(debounce, s) && key in s.sessions
    ensures var session, limit := s.sessions[key], if debounce == 0 then 1 else 2 * debounce;
            && session.pending != []
            && session.lastReceived == LastReceived(session.pending)
            && 0 <= s.now - session.lastReceived < limit
  {
    ReachableIsGood(debounce, s);
    NextIsClose(debounce, s, key);
    assert SessionGood(debounce, s.now, s.sessions[key]);
  }

  // --- Channels rather than keys ---

  ghost function SentTo(sent: seq<Flush>, interface: string, channel: string): seq<Message> {
    if sent == [] then []
    else
      var batch := sent[|sent| - 1].batch;
      SentTo(sent[..|sent| - 1], interface, channel)
      + if batch.interface == interface && batch.channel == channel then batch.messages else []
  }

  ghost function ArrivedOn(arrivals: seq<Arrival>, interface: string, channel: string): seq<Message> {
    if arrivals == [] then []
    else
      var a := arrivals[|arrivals| - 1];
      ArrivedOn(arrivals[..|arrivals| - 1], interface, channel)
      + if a.interface == interface && a.channel == channel then [a.message] else []
  }

  /** The name of a channel as an adapter reports it; a session is found under `KeyOf` it. */
  datatype Name = Name(interface: string, channel: string)

  function KeyOf(name: Name): string { Key(name.interface, name.channel) }

  /** What was sent on a channel, followed by what its session holds, is what arrived on it. */
  ghost predicate ChannelConserved(s: State, name: Name) {
    SentTo(s.sent, name.interface, name.channel) + Pending(s, KeyOf(name))
    == ArrivedOn(s.arrivals, name.interface, name.channel)
  }

  ghost predicate KeysDiffer(names: iset<Name>) {
    forall p, q | p in names && q in names && KeyOf(p) == KeyOf(q) :: p == q
  }

  ghost predicate ArrivalsUse(s: State, names: iset<Name>) {
    forall a | a in s.arrivals :: Name(a.interface, a.channel) in names
  }

  ghost predicate AllUse(s: State, names: iset<Name>) {
    && ArrivalsUse(s, names)
    && (forall task | task in s.timers :: Name(s.timers[task].interface, s.timers[task].channel) in names)
    && (forall f | f in s.sent :: Name(f.batch.interface, f.batch.channel) in names)
  }

  lemma StepKeepsNames(debounce: nat, s: State, step: Step, names: iset<Name>)
    requires AllUse(s, names) && Enabled(s, step)
    requires step.Add? ==> Name(step.interface, step.channel) in names
    ensures AllUse(Apply(debounce, s, step), names)
  {
  }

  lemma {:induction false} RunKeepsNames(debounce: nat, s: State, steps: seq<Step>, names: iset<Name>)
    requires AllUse(s, names) && IsRun(debounce, s, steps)
    requires ArrivalsUse(Run(debounce, s, steps), names)
    ensures AllUse(Run(debounce, s, steps), names)
    decreases |steps|
  {
    if steps != [] {
      var s' := Apply(debounce, s, steps[0]);
      ArrivalsGrow(debounce, s', steps[1..]);
      if steps[0].Add? {
        var a := s'.arrivals[|s.arrivals|];
        assert a == Run(debounce, s', steps[1..]).arrivals[|s.arrivals|];
        assert Name(a.interface, a.channel) in names;
      }
      StepKeepsNames(debounce, s, steps[0], names);
      RunKeepsNames(debounce, s', steps[1..], names);
    }
  }

  lemma {:induction false} ArrivalsGrow(debounce: nat, s: State, steps: seq<Step>)
    requires IsRun(debounce, s, steps)
    ensures s.arrivals <= Run(debounce, s, steps).arrivals
    decreases |steps|
  {
    if steps != [] { ArrivalsGrow(debounce, Apply(debounce, s, steps[0]), steps[1..]); }
  }

  lemma {:induction false} SentByChannel(sent: seq<Flush>, name: Name, names: iset<Name>)
    requires KeysDiffer(names) && name in names
    requires forall f | f in sent :: Name(f.batch.interface, f.batch.channel) in names
    ensures Sent(sent, KeyOf(name)) == SentTo(sent, name.interface, name.channel)
  {
    if sent != [] {
      var f := sent[|sent| - 1];
      assert f in sent;
      SentByChannel(sent[..|sent| - 1], name, names);
      assert KeyOf(Name(f.batch.interface, f.batch.channel)) == KeyOf(name)
        ==> Name(f.batch.interface, f.batch.channel) == name;
    }
  }

  lemma {:induction false} ArrivedByChannel(arrivals: seq<Arrival>, name: Name, names: iset<Name>)
    requires KeysDiffer(names) && name in names
    requires forall a | a in arrivals :: Name(a.interface, a.channel) in names
    ensures Arrived(arrivals, KeyOf(name)) == ArrivedOn(arrivals, name.interface, name.channel)
  {
    if arrivals != [] {
      var a := arrivals[|arrivals| - 1];
      assert a in arrivals;
      ArrivedByChannel(arrivals[..|arrivals| - 1], name, names);
      assert KeyOf(Name(a.interface, a.channel)) == KeyOf(name) ==> Name(a.interface, a.channel) == name;
    }
  }

  lemma DifferentKeysKeepApart(debounce: nat, s: State, name: Name, names: iset<Name>)
    requires KeysDiffer(names) && name in names
    requires Reachable(debounce, s) && ArrivalsUse(s, names)
    ensures ChannelConserved(s, name)
  {
    var start, steps :| IsRun(debounce, Init(start), steps) && Run(debounce, Init(start), steps) == s;
    RunKeepsNames(debounce, Init(start), steps, names);
    SessionsAreWatched(debounce, s, KeyOf(name));
    SentByChannel(s.sent, name, names);
    ArrivedByChannel(s.arrivals, name, names);
  }

  /** One message on the first of two channels that share a key already breaks the law for the
      second: its session holds a message that never arrived on it. */
  lemma SharedKeyBreaks(debounce: nat, p: Name, q: Name, m: Message) returns (s: State)
    requires p != q && KeyOf(p) == KeyOf(q) && m.receivedAt == 0
    ensures Reachable(debounce, s) && s.arrivals == [Arrival(p.interface, p.channel, m)]
    ensures !ChannelConserved(s, q)
  {
    s := AddMessage(debounce, Init(0), p.interface, p.channel, m);
    OneStep(debounce, Init(0), Add(p.interface, p.channel, m.author, m.content), []);
    var a := Arrival(p.interface, p.channel, m);
    assert s.arrivals == [a];
    assert [a][..0] == [];
    assert ArrivedOn([a], q.interface, q.channel) == [];
    assert Pending(s, KeyOf(q)) == [m];
  }

  /** The law of channels holds in every run over a set of channels exactly when no two of them
      share a key: then what was sent on a channel, followed by what its session holds, is what
      arrived on it, in order. */
  lemma ChannelsApartExactly(debounce: nat, names: iset<Name>)
    ensures KeysDiffer(names)
       <==> forall s | Reachable(debounce, s) && ArrivalsUse(s, names) ::
              forall name | name in names :: ChannelConserved(s, name)
  {
    if KeysDiffer(names) {
      forall s, name | Reachable(debounce, s) && ArrivalsUse(s, names) && name in names
        ensures ChannelConserved(s, name)
      {
        DifferentKeysKeepApart(debounce, s, name, names);
      }
    } else {
      var p, q :| p in names && q in names && KeyOf(p) == KeyOf(q) && p != q;
      var s := SharedKeyBreaks(debounce, p, q, Message("", "", 0));
      assert Reachable(debounce, s) && ArrivalsUse(s, names) && !ChannelConserved(s, q);
    }
  }

  /** `q` cuts the key of `p` at a later colon. */
  ghost predicate CutsLater(p: Name, q: Name) {
    exists middle :: q.interface == p.interface + ":" + middle && p.channel == middle + ":" + q.channel
  }

  lemma CutLater(p: Name, q: Name)
    requires KeyOf(p) == KeyOf(q) && |p.interface| < |q.interface|
    ensures CutsLater(p, q)
  {
    var key, n, k := KeyOf(p), |p.interface|, |q.interface|;
    assert key[..n] == p.interface && key[n] == ':' && key[n + 1..] == p.channel;
    assert KeyOf(q)[..k] == q.interface && KeyOf(q)[k] == ':' && KeyOf(q)[k + 1..] == q.channel;
    var middle := key[n + 1..k];
    assert key[..k] == key[..n] + [key[n]] + middle;
    assert key[n + 1..] == middle + [key[k]] + key[k + 1..];
  }

  lemma CutsShareKey(p: Name, q: Name, middle: string)
    requires q.interface == p.interface + ":" + middle && p.channel == middle + ":" + q.channel
    ensures p != q && KeyOf(p) == KeyOf(q)
  {
    assert KeyOf(p) == p.interface + ":" + middle + ":" + q.channel;
    assert |p.interface| < |q.interface|;
  }

  /** Two channels share a key exactly when one key can be cut at two of its colons, so a colon is
      needed both in an interface name and in a channel name. */
  lemma SharedKeyShape(p: Name, q: Name)
    ensures p != q && KeyOf(p) == KeyOf(q) <==> CutsLater(p, q) || CutsLater(q, p)
  {
    if KeyOf(p) == KeyOf(q) {
      if |p.interface| < |q.interface| {
        CutLater(p, q);
      } else if |q.interface| < |p.interface| {
        CutLater(q, p);
      } else {
        assert KeyOf(p)[..|p.interface|] == p.interface && KeyOf(q)[..|q.interface|] == q.interface;
        assert KeyOf(p)[|p.interface| + 1..] == p.channel && KeyOf(q)[|q.interface| + 1..] == q.channel;
      }
    }
    forall middle | q.interface == p.interface + ":" + middle && p.channel == middle + ":" + q.channel
      ensures p != q && KeyOf(p) == KeyOf(q)
    {
      CutsShareKey(p, q, middle);
    }
    forall middle | p.interface == q.interface + ":" + middle && q.channel == middle + ":" + p.channel
      ensures p != q && KeyOf(p) == KeyOf(q)
    {
      CutsShareKey(q, p, middle);
    }
  }

  lemma CutNeedsColons(p: Name, q: Name)
    requires CutsLater(p, q)
    ensures ':' in q.interface && ':' in p.channel
  {
    var middle :| q.interface == p.interface + ":" + middle && p.channel == middle + ":" + q.channel;
    assert q.interface[|p.interface|] == ':' && p.channel[|middle|] == ':';
  }

  /** Colon-free channel names, or colon-free interface names, give different channels different keys. */
  lemma KeyInjective(p: Name, q: Name)
    requires (':' !in p.channel && ':' !in q.channel) || (':' !in p.interface && ':' !in q.interface)
    ensures KeyOf(p) == KeyOf(q) <==> p == q
  {
    SharedKeyShape(p, q);
    if CutsLater(p, q) { CutNeedsColons(p, q); }
    if CutsLater(q, p) { CutNeedsColons(q, p); }
  }

  ghost predicate IsUsed(s: State, name: Name) {
    exists a | a in s.arrivals :: Name(a.interface, a.channel) == name
  }

  /** Colon-free channel names, or colon-free interface names, keep all channels apart. */
  lemma ChannelsStayApart(debounce: nat, s: State, name: Name)
    requires Reachable(debounce, s)
    requires || (':' !in name.channel && forall a | a in s.arrivals :: ':' !in a.channel)
             || (':' !in name.interface && forall a | a in s.arrivals :: ':' !in a.interface)
    ensures ChannelConserved(s, name)
  {
    var names := iset n: Name | n == name || IsUsed(s, n);
    forall a | a in s.arrivals ensures IsUsed(s, Name(a.interface, a.channel)) {}
    forall p, q | p in names && q in names && KeyOf(p) == KeyOf(q)
      ensures p == q
    {
      KeyInjective(p, q);
    }
    ChannelsApartExactly(debounce, names);
  }

  /** Two channels that share a key: both messages go to the first of them, whatever the debounce
      time, and the second neither gets its message nor holds it. */
  lemma SharedKeyMisdelivers(debounce: nat, p: Name, q: Name, m1: Message, m2: Message) returns (s: State)
    requires p != q && KeyOf(p) == KeyOf(q) && m1.receivedAt == m2.receivedAt == 0
    ensures Reachable(debounce, s)
    ensures SentTo(s.sent, p.interface, p.channel) == [m1, m2]
    ensures SentTo(s.sent, q.interface, q.channel) + Pending(s, KeyOf(q)) == []
    ensures ArrivedOn(s.arrivals, q.interface, q.channel) == [m2]
  {
    var add1 := Add(p.interface, p.channel, m1.author, m1.content);
    var add2 := Add(q.interface, q.channel, m2.author, m2.content);
    var s1 := AddMessage(debounce, Init(0), p.interface, p.channel, m1);
    var s2 := AddMessage(debounce, s1, q.interface, q.channel, m2);
    var s3 := s2.(now := debounce);
    SharedKeyFlush(debounce, p, q, m1, m2);
    s := WakeTimer(debounce, s3, 0);
    SharedKeyTotals(debounce, p, q, m1, m2);
    OneStep(debounce, s3, Wake(0), []);
    OneStep(debounce, s2, Advance(debounce), [Wake(0)]);
    OneStep(debounce, s1, add2, [Advance(debounce), Wake(0)]);
    OneStep(debounce, Init(0), add1, [add2, Advance(debounce), Wake(0)]);
  }

  lemma SharedKeyTotals(debounce: nat, p: Name, q: Name, m1: Message, m2: Message)
    requires p != q
    ensures var sent := [Flush(Batch(p.interface, p.channel, [m1, m2]), debounce)];
            && SentTo(sent, q.interface, q.channel) == []
            && SentTo(sent, p.interface, p.channel) == [m1, m2]
    ensures var arrivals := [Arrival(p.interface, p.channel, m1), Arrival(q.interface, q.channel, m2)];
            ArrivedOn(arrivals, q.interface, q.channel) == [m2]
  {
    var f := Flush(Batch(p.interface, p.channel, [m1, m2]), debounce);
    var a1, a2 := Arrival(p.interface, p.channel, m1), Arrival(q.interface, q.channel, m2);
    assert [f][..0] == [] && [a1, a2][..1] == [a1] && [a1][..0] == [];
    assert ArrivedOn([a1], q.interface, q.channel) == [];
  }

  lemma SharedKeyFlush(debounce: nat, p: Name, q: Name, m1: Message, m2: Message)
    requires KeyOf(p) == KeyOf(q) && m1.receivedAt == m2.receivedAt == 0
    ensures var s1 := AddMessage(debounce, Init(0), p.interface, p.channel, m1);
            var s2 := AddMessage(debounce, s1, q.interface, q.channel, m2);
            && s2.now == 0
            && s2.timers == map[0 := Timer(KeyOf(p), p.interface, p.channel, debounce)]
            && s2.arrivals == [Arrival(p.interface, p.channel, m1), Arrival(q.interface, q.channel, m2)]
            && WakeTimer(debounce, s2.(now := debounce), 0)
               == State(debounce, map[], map[], 1, s2.arrivals,
                        [Flush(Batch(p.interface, p.channel, [m1, m2]), debounce)])
  {
    var key := KeyOf(p);
    assert [m1] + [m2] == [m1, m2] && [] + [m1] == [m1];
    var s1 := AddMessage(debounce, Init(0), p.interface, p.channel, m1);
    assert s1.sessions == map[key := Session([m1], 0)];
    var s2 := AddMessage(debounce, s1, q.interface, q.channel, m2);
    assert s2.sessions == map[key := Session([m1, m2], 0)];
  }

  lemma OneStep(debounce: nat, s: State, step: Step, rest: seq<Step>)
    requires Enabled(s, step) && IsRun(debounce, Apply(debounce, s, step), rest)
    ensures IsRun(debounce, s, [step] + rest)
    ensures Run(debounce, s, [step] + rest) == Run(debounce, Apply(debounce, s, step), rest)
  {
    assert ([step] + rest)[1..] == rest;
  }
}
