/**
 The run of an operator or a synapse: prompts with retries, and steering rounds around them.  The
 language model and everyone who sends signals are one oracle, given round by round: what happens
 at each hook of each attempt, and how the attempt would end.  A prompt never makes more model
 calls than its budget.
 */
module AgentRun {
  import opened Wrappers
  import opened AgentSignals

  /** One hook of a prompt: the signals sent since the last hook, and whether it is a model call
      (rather than a tool call). */
  datatype Hook = Hook(sent: seq<Signal>, modelCall: bool)

  datatype End = Reply(text: string) | TurnLimit | Error(message: string)

  /** One attempt of a prompt; `history` is what a cancellation at its last hook hands back. */
  datatype Attempt = Attempt(hooks: seq<Hook>, end: End, history: seq<Message>)

  /** One round of the outer loop: its attempts, and the signals sent between a cancellation and
      the reset of the signal, which nobody sees. */
  datatype Round = Round(attempt: nat -> Attempt, unseen: seq<Signal>)

  type Oracle = nat -> Round

  datatype Config = Config(kind: Kind, task: string, maxTurns: nat, limitText: string)

  datatype Event =
    | Started
    | AgentSteered(message: string)
    | Completed(result: string)
    | Failed(error: string)
    | Interrupted(partial: string)

  const MAX_RETRIES: nat := 2

  // --- One prompt ---

  datatype Outcome = Ended(end: End) | Cancelled(history: seq<Message>, reason: string)

  /** The effect of a prompt, or of several: the signal cell, the model calls made, the signals sent
      meanwhile. */
  datatype Effect = Effect(cell: Signal, calls: nat, sent: seq<Signal>)

  function Latest(cell: Signal, sent: seq<Signal>): Signal {
    if sent == [] then cell else sent[|sent| - 1]
  }

  function Prompt(cell: Signal, budget: nat, a: Attempt): (Effect, Outcome)
    decreases |a.hooks|
  {
    if a.hooks == [] then (Effect(cell, 0, []), Ended(a.end))
    else
      var hook := a.hooks[0];
      var cell' := Latest(cell, hook.sent);
      if hook.modelCall && budget == 0 then (Effect(cell', 0, hook.sent), Ended(TurnLimit))
      else
        var call := if hook.modelCall then 1 else 0;
        match Reason(cell')
        case Some(reason) => (Effect(cell', call, hook.sent), Cancelled(a.history, reason))
        case None =>
          var (e, outcome) := Prompt(cell', budget - call, a.(hooks := a.hooks[1..]));
          (Effect(e.cell, call + e.calls, hook.sent + e.sent), outcome)
  }

  predicate Contains(text: string, word: string) {
    word <= text || (text != "" && Contains(text[1..], word))
  }

  predicate Transient(outcome: Outcome) {
    outcome.Ended? && outcome.end.Error?
    && (Contains(outcome.end.message, "JsonError") || Contains(outcome.end.message, "ApiResponse"))
  }

  /** Attempts `k` to `MAX_RETRIES`: the first outcome that is not transient, or the last one. */
  function Attempts(cell: Signal, budget: nat, round: Round, k: nat): (Effect, Outcome)
    requires k <= MAX_RETRIES
    decreases MAX_RETRIES - k
  {
    var a := round.attempt(k);
    var (e, outcome) := Prompt(cell, budget, a);
    if !Transient(outcome) || k == MAX_RETRIES then (e, outcome)
    else
      After(e, Attempts(e.cell, budget, round, k + 1))
  }

  function After(first: Effect, rest: (Effect, Outcome)): (Effect, Outcome) {
    (Effect(rest.0.cell, first.calls + rest.0.calls, first.sent + rest.0.sent), rest.1)
  }

  // --- The run ---

  /** What the outer loop holds between rounds; `events`, `sent` and `asked` are the history. */
  datatype State = State(
    cell: Signal, calls: nat, remaining: nat, chat: seq<Message>, prompt: string,
    events: seq<Event>, sent: seq<Signal>, asked: seq<Asked>)

  datatype Asked = Asked(prompt: string, chat: seq<Message>, budget: nat)

  datatype Next = Again(state: State) | Finished(state: State, result: Result<string, string>)

  function Initial(c: Config): State { State(NoSignal, 0, c.maxTurns, [], c.task, [], [], []) }

  function Partial(history: seq<Message>, default: string): string {
    if LastText(history) == "" then default else LastText(history)
  }

  const NOTHING_YET := "Agent was wrapped up before producing output."

  function CancelText(c: Config, reason: string): string {
    (if c.kind == Operator then "Operator" else "Synapse") + " cancelled: " + reason
  }

  /** `max_turns` less the calls made, but never 0. */
  function Remaining(maxTurns: nat, calls: nat): nat { if calls < maxTurns then maxTurns - calls else 1 }

  function DoRound(c: Config, s: State, round: Round): Next {
    var (e, outcome) := Attempts(s.cell, s.remaining, round, 0);
    var s' := s.(cell := e.cell, calls := s.calls + e.calls, sent := s.sent + e.sent,
                 asked := s.asked + [Asked(s.prompt, s.chat, s.remaining)]);
    match outcome
    case Ended(Reply(text)) => Finished(s'.(events := s.events + [Completed(text)]), Ok(text))
    case Ended(TurnLimit) => Finished(s'.(events := s.events + [Completed(c.limitText)]), Ok(c.limitText))
    case Ended(Error(message)) => Finished(s'.(events := s.events + [Failed(message)]), Err(message))
    case Cancelled(history, reason) =>
      match Read(reason)
      case Wrapped =>
        var text := Partial(history, NOTHING_YET);
        Finished(s'.(events := s.events + [Interrupted(text)]), Ok(text))
      case Steered(message) =>
        Again(s'.(events := s.events + [AgentSteered(message)], sent := s'.sent + round.unseen, cell := NoSignal,
                  remaining := Remaining(c.maxTurns, s'.calls), chat := history, prompt := message))
      case Unknown =>
        Finished(s'.(events := s.events + [Failed(reason)]), Ok(Partial(history, CancelText(c, reason))))
  }

  ghost predicate SentIn(round: Round, signal: Signal) {
    exists k: nat, i | k <= MAX_RETRIES && 0 <= i < |round.attempt(k).hooks| :: signal in round.attempt(k).hooks[i].sent
  }

  /** No Steer signal is sent during the round's prompts. */
  ghost predicate Quiet(round: Round) {
    forall signal | SentIn(round, signal) :: !signal.Steer?
  }

  /** Finitely many Steer signals are sent: none from round `quiet` on. */
  ghost predicate QuietFrom(oracle: Oracle, quiet: nat) {
    forall r: nat | quiet <= r :: Quiet(oracle(r))
  }

  ghost function RunFrom(c: Config, oracle: Oracle, quiet: nat, s: State, r: nat): (State, Result<string, string>)
    requires QuietFrom(oracle, quiet) && s.cell == NoSignal && r <= quiet
    decreases quiet - r
  {
    QuietRoundEnds(c, s, oracle(r));
    match DoRound(c, s, oracle(r))
    case Finished(s', result) => (s', result)
    case Again(s') => RunFrom(c, oracle, quiet, s', r + 1)
  }

  /** The retry loop: transient errors are tried again, at most `MAX_RETRIES` times. */
  method PromptWithRetries(cell: Signal, budget: nat, round: Round) returns (effect: Effect, outcome: Outcome)
    ensures (effect, outcome) == Attempts(cell, budget, round, 0)
  {
    effect, outcome := Effect(cell, 0, []), Ended(Error("unknown error"));
    ghost var whole := Attempts(cell, budget, round, 0);
    assert [] + whole.0.sent == whole.0.sent;
    for attempt := 0 to MAX_RETRIES + 1
      invariant if attempt <= MAX_RETRIES then whole == After(effect, Attempts(effect.cell, budget, round, attempt))
                else whole == (effect, outcome)
    {
      var a := round.attempt(attempt);
      var (e, end) := Prompt(effect.cell, budget, a);
      AfterAfter(effect, e, round, budget, attempt);
      effect, outcome := Effect(e.cell, effect.calls + e.calls, effect.sent + e.sent), end;
      if !Transient(outcome) {
        break;
      }
    }
  }

  /** The body of the outer loop. */
  method RunRound(c: Config, s: State, round: Round) returns (next: Next)
    ensures next == DoRound(c, s, round)
  {
    var effect, outcome := PromptWithRetries(s.cell, s.remaining, round);
    var s' := s.(cell := effect.cell, calls := s.calls + effect.calls, sent := s.sent + effect.sent,
                 asked := s.asked + [Asked(s.prompt, s.chat, s.remaining)]);
    match outcome {
      case Ended(Reply(text)) =>
        next := Finished(s'.(events := s'.events + [Completed(text)]), Ok(text));
      case Ended(TurnLimit) =>
        next := Finished(s'.(events := s'.events + [Completed(c.limitText)]), Ok(c.limitText));
      case Ended(Error(message)) =>
        next := Finished(s'.(events := s'.events + [Failed(message)]), Err(message));
      case Cancelled(history, reason) =>
        match Read(reason) {
          case Wrapped =>
            var partial := ExtractLastAssistantText(history);
            var text := if partial == "" then NOTHING_YET else partial;
            next := Finished(s'.(events := s'.events + [Interrupted(text)]), Ok(text));
          case Steered(message) =>
            s' := s'.(events := s'.events + [AgentSteered(message)], sent := s'.sent + round.unseen, cell := NoSignal);
            var remainingTurns := if s'.calls < c.maxTurns then c.maxTurns - s'.calls else 0;
            if remainingTurns == 0 {
              remainingTurns := 1;
            }
            next := Again(s'.(remaining := remainingTurns, chat := history, prompt := message));
          case Unknown =>
            var partial := ExtractLastAssistantText(history);
            next := Finished(s'.(events := s'.events + [Failed(reason)]),
                             Ok(if partial == "" then CancelText(c, reason) else partial));
        }
    }
  }

  /** `run_inner`.  The loop ends on every oracle that sends finitely many Steer signals. */
  method RunInner(c: Config, oracle: Oracle, ghost quiet: nat)
    returns (final: State, result: Result<string, string>)
    requires QuietFrom(oracle, quiet)
    ensures (final, result) == RunFrom(c, oracle, quiet, Initial(c), 0)
  {
    var s, round := Initial(c), 0;
    while true
      invariant round <= quiet && s.cell == NoSignal
      invariant RunFrom(c, oracle, quiet, Initial(c), 0) == RunFrom(c, oracle, quiet, s, round)
      decreases quiet - round
    {
      QuietRoundEnds(c, s, oracle(round));
      var next := RunRound(c, s, oracle(round));
      match next {
        case Finished(s', r) => return s', r;
        case Again(s') => s, round := s', round + 1;
      }
    }
  }

  /** The retry loop's bookkeeping: one more attempt. */
  lemma AfterAfter(done: Effect, e: Effect, round: Round, budget: nat, k: nat)
    requires k <= MAX_RETRIES
    requires e == Prompt(done.cell, budget, round.attempt(k)).0
    ensures var outcome := Prompt(done.cell, budget, round.attempt(k)).1;
            var done' := Effect(e.cell, done.calls + e.calls, done.sent + e.sent);
            After(done, Attempts(done.cell, budget, round, k))
            == if Transient(outcome) && k < MAX_RETRIES then After(done', Attempts(e.cell, budget, round, k + 1))
               else (done', outcome)
  {
    if k < MAX_RETRIES {
      var rest := Attempts(e.cell, budget, round, k + 1);
      assert done.sent + (e.sent + rest.0.sent) == done.sent + e.sent + rest.0.sent;
    }
  }

  // --- How a prompt has to end, by positions ---

  /** The signals sent up to and including hook `n - 1`. */
  ghost function SentUpTo(hooks: seq<Hook>, n: nat): seq<Signal>
    requires n <= |hooks|
  {
    if n == 0 then [] else SentUpTo(hooks, n - 1) + hooks[n - 1].sent
  }

  /** The model calls among the first `n` hooks. */
  ghost function CallsUpTo(hooks: seq<Hook>, n: nat): nat
    requires n <= |hooks|
  {
    if n == 0 then 0 else CallsUpTo(hooks, n - 1) + if hooks[n - 1].modelCall then 1 else 0
  }

  /** The signal that hook `i` finds: the one sent last. */
  ghost function SeenAt(hooks: seq<Hook>, i: nat): Signal
    requires i < |hooks|
  {
    var sent := SentUpTo(hooks, i + 1);
    if sent == [] then NoSignal else sent[|sent| - 1]
  }

  /** A model call beyond the budget. */
  ghost predicate OverBudget(hooks: seq<Hook>, budget: nat, i: nat)
    requires i < |hooks|
  {
    hooks[i].modelCall && CallsUpTo(hooks, i) >= budget
  }

  ghost predicate Stops(hooks: seq<Hook>, budget: nat, i: nat)
    requires i < |hooks|
  {
    OverBudget(hooks, budget, i) || SeenAt(hooks, i) != NoSignal
  }

  /** The first hook from `i` on that stops the prompt, or the end. */
  ghost function StopFrom(hooks: seq<Hook>, budget: nat, i: nat): (n: nat)
    requires i <= |hooks|
    ensures i <= n <= |hooks|
    ensures n < |hooks| ==> Stops(hooks, budget, n)
    ensures forall j | i <= j < n :: !Stops(hooks, budget, j)
    decreases |hooks| - i
  {
    if i == |hooks| || Stops(hooks, budget, i) then i else StopFrom(hooks, budget, i + 1)
  }

  datatype Ending = ByItself(end: End) | BySignal(signal: Signal, history: seq<Message>)

  /** How an attempt ends that starts without a signal and stops at hook `n`, or nowhere. */
  ghost function EndingAt(budget: nat, a: Attempt, n: nat): Ending
    requires n <= |a.hooks|
  {
    if n == |a.hooks| then ByItself(a.end)
    else if OverBudget(a.hooks, budget, n) then ByItself(TurnLimit)
    else BySignal(SeenAt(a.hooks, n), a.history)
  }

  /** The model calls such an attempt makes, and the signals sent while it lasts. */
  ghost function CallsAt(budget: nat, a: Attempt, n: nat): nat
    requires n <= |a.hooks|
  {
    if n == |a.hooks| || OverBudget(a.hooks, budget, n) then CallsUpTo(a.hooks, n) else CallsUpTo(a.hooks, n + 1)
  }

  ghost function SentAtStop(a: Attempt, n: nat): seq<Signal>
    requires n <= |a.hooks|
  {
    SentUpTo(a.hooks, if n == |a.hooks| then n else n + 1)
  }

  ghost function EndingOf(budget: nat, a: Attempt): Ending { EndingAt(budget, a, StopFrom(a.hooks, budget, 0)) }

  ghost function CallsOf(budget: nat, a: Attempt): nat { CallsAt(budget, a, StopFrom(a.hooks, budget, 0)) }

  ghost function SentDuring(budget: nat, a: Attempt): seq<Signal> { SentAtStop(a, StopFrom(a.hooks, budget, 0)) }

  ghost predicate Occurs(word: string, text: string) {
    exists i | 0 <= i <= |text| :: word <= text[i..]
  }

  /** The errors that are tried again. */
  ghost predicate Retried(how: Ending) {
    && how.ByItself? && how.end.Error?
    && (Occurs("JsonError", how.end.message) || Occurs("ApiResponse", how.end.message))
  }

  /** The attempt that decides a round: the first whose ending is not tried again, or the third. */
  ghost function Deciding(budget: nat, round: Round): (k: nat)
    ensures k <= 2
  {
    if !Retried(EndingOf(budget, round.attempt(0))) then 0
    else if !Retried(EndingOf(budget, round.attempt(1))) then 1
    else 2
  }

  ghost function RoundEnding(budget: nat, round: Round): Ending {
    EndingOf(budget, round.attempt(Deciding(budget, round)))
  }

  /** The model calls of a round: those of the deciding attempt and of the ones before it. */
  ghost function RoundCalls(budget: nat, round: Round): nat {
    var k := Deciding(budget, round);
    CallsOf(budget, round.attempt(0))
    + (if k >= 1 then CallsOf(budget, round.attempt(1)) else 0)
    + (if k == 2 then CallsOf(budget, round.attempt(2)) else 0)
  }

  ghost function CallsFrom(budget: nat, round: Round, k: nat): nat
    requires k <= Deciding(budget, round)
    decreases 2 - k
  {
    CallsOf(budget, round.attempt(k)) + if k == Deciding(budget, round) then 0 else CallsFrom(budget, round, k + 1)
  }

  ghost function SentFrom(budget: nat, round: Round, k: nat): seq<Signal>
    requires k <= Deciding(budget, round)
    decreases 2 - k
  {
    SentDuring(budget, round.attempt(k)) + if k == Deciding(budget, round) then [] else SentFrom(budget, round, k + 1)
  }

  /** The outcome of a prompt and the signal it leaves agree with an ending. */
  ghost predicate Shows(cell: Signal, outcome: Outcome, how: Ending) {
    match how
    case ByItself(end) => outcome == Outcome.Ended(end) && (end.Error? ==> cell == NoSignal)
    case BySignal(signal, history) =>
      cell == signal && signal != NoSignal && outcome == Cancelled(history, Reason(signal).value)
  }

  lemma SeenNext(hooks: seq<Hook>, i: nat)
    requires i < |hooks| && (i > 0 ==> SeenAt(hooks, i - 1) == NoSignal)
    ensures SeenAt(hooks, i) == Latest(NoSignal, hooks[i].sent)
  {
    var earlier, now := SentUpTo(hooks, i), hooks[i].sent;
    assert SentUpTo(hooks, i + 1) == earlier + now;
    if now == [] { assert earlier + now == earlier; }
  }

  /** What a prompt does at its first hook, and hands on. */
  lemma {:induction false} PromptCons(cell: Signal, budget: nat, a: Attempt, rest: Attempt)
    requires cell == NoSignal && a.hooks != [] && rest == a.(hooks := a.hooks[1..])
    ensures var hook := a.hooks[0];
            var seen, call := Latest(NoSignal, hook.sent), if hook.modelCall then 1 else 0;
            Prompt(cell, budget, a)
            == if call > budget then (Effect(seen, 0, hook.sent), Ended(TurnLimit))
               else if seen != NoSignal then (Effect(seen, call, hook.sent), Cancelled(a.history, Reason(seen).value))
               else
                 var (e, outcome) := Prompt(NoSignal, budget - call, rest);
                 (Effect(e.cell, call + e.calls, hook.sent + e.sent), outcome)
  {
  }

  /** An effect and an outcome from hook `i` on agree with the positions. */
  ghost predicate Fulfils(budget: nat, a: Attempt, i: nat, e: Effect, outcome: Outcome)
    requires i <= |a.hooks|
  {
    var n := StopFrom(a.hooks, budget, i);
    && CallsUpTo(a.hooks, i) + e.calls == CallsAt(budget, a, n)
    && SentUpTo(a.hooks, i) + e.sent == SentAtStop(a, n)
    && Shows(e.cell, outcome, EndingAt(budget, a, n))
  }

  lemma {:induction false} FulfilsAtEnd(budget: nat, a: Attempt)
    ensures Fulfils(budget, a, |a.hooks|, Effect(NoSignal, 0, []), Outcome.Ended(a.end))
  {
    var sent := SentUpTo(a.hooks, |a.hooks|);
    assert sent + [] == sent;
  }

  lemma {:induction false} FulfilsAtStop(budget: nat, a: Attempt, i: nat, e: Effect, outcome: Outcome)
    requires i < |a.hooks| && Stops(a.hooks, budget, i)
    requires e.cell == SeenAt(a.hooks, i) && e.sent == a.hooks[i].sent
    requires if OverBudget(a.hooks, budget, i) then e.calls == 0 && outcome == Outcome.Ended(TurnLimit)
             else && e.calls == (if a.hooks[i].modelCall then 1 else 0)
                  && outcome == Cancelled(a.history, Reason(e.cell).value)
    ensures Fulfils(budget, a, i, e, outcome)
  {
    assert StopFrom(a.hooks, budget, i) == i;
  }

  lemma {:induction false} FulfilsBefore(
      budget: nat, a: Attempt, i: nat, e: Effect, e': Effect, outcome: Outcome)
    requires i < |a.hooks| && !Stops(a.hooks, budget, i) && Fulfils(budget, a, i + 1, e', outcome)
    requires e.cell == e'.cell && e.sent == a.hooks[i].sent + e'.sent
    requires e.calls == (if a.hooks[i].modelCall then 1 else 0) + e'.calls
    ensures Fulfils(budget, a, i, e, outcome)
  {
    assert StopFrom(a.hooks, budget, i) == StopFrom(a.hooks, budget, i + 1);
    var before, now, after := SentUpTo(a.hooks, i), a.hooks[i].sent, e'.sent;
    assert before + (now + after) == before + now + after;
  }

  /** From hook `i` on, which no signal has reached, a prompt does what the positions say. */
  lemma {:induction false} PromptFrom(budget: nat, a: Attempt, i: nat, left: int, rest: Attempt)
    requires i <= |a.hooks| && (i > 0 ==> SeenAt(a.hooks, i - 1) == NoSignal)
    requires left == budget - CallsUpTo(a.hooks, i) >= 0 && rest == a.(hooks := a.hooks[i..])
    ensures Fulfils(budget, a, i, Prompt(NoSignal, left, rest).0, Prompt(NoSignal, left, rest).1)
    decreases |a.hooks| - i
  {
    var (e, outcome) := Prompt(NoSignal, left, rest);
    if i == |a.hooks| {
      FulfilsAtEnd(budget, a);
    } else {
      var rest' := a.(hooks := a.hooks[i + 1..]);
      assert rest.hooks[0] == a.hooks[i] && rest.hooks[1..] == a.hooks[i + 1..];
      SeenNext(a.hooks, i);
      PromptCons(NoSignal, left, rest, rest');
      if Stops(a.hooks, budget, i) {
        FulfilsAtStop(budget, a, i, e, outcome);
      } else {
        var left' := left - if a.hooks[i].modelCall then 1 else 0;
        PromptFrom(budget, a, i + 1, left', rest');
        FulfilsBefore(budget, a, i, e, Prompt(NoSignal, left', rest').0, outcome);
      }
    }
  }

  /** A prompt does what the positions of its hooks say. */
  lemma {:induction false} PromptExact(budget: nat, a: Attempt)
    ensures var (e, outcome) := Prompt(NoSignal, budget, a);
            && e.calls == CallsOf(budget, a) && e.sent == SentDuring(budget, a)
            && Shows(e.cell, outcome, EndingOf(budget, a))
  {
    assert a.hooks[0..] == a.hooks && SentUpTo(a.hooks, 0) == [];
    PromptFrom(budget, a, 0, budget, a);
    assert [] + Prompt(NoSignal, budget, a).0.sent == Prompt(NoSignal, budget, a).0.sent;
  }

  lemma {:induction false} ContainsExact(text: string, word: string)
    ensures Contains(text, word) <==> Occurs(word, text)
  {
    if word <= text {
      assert text[0..] == text;
    } else if text != "" {
      ContainsExact(text[1..], word);
      assert forall i | 0 < i <= |text| :: text[i..] == text[1..][i - 1..];
    }
  }

  ghost predicate SentAt(hooks: seq<Hook>, signal: Signal) {
    exists i | 0 <= i < |hooks| :: signal in hooks[i].sent
  }

  lemma {:induction false} SentUpToExact(hooks: seq<Hook>, n: nat)
    requires n <= |hooks|
    ensures forall signal | signal in SentUpTo(hooks, n) :: SentAt(hooks, signal)
  {
    if n > 0 { SentUpToExact(hooks, n - 1); }
  }

  lemma {:induction false} CallsWithinBudget(hooks: seq<Hook>, budget: nat, n: nat)
    requires n <= |hooks| && forall j | 0 <= j < n :: !Stops(hooks, budget, j)
    ensures CallsUpTo(hooks, n) <= budget
  {
    if n > 0 {
      CallsWithinBudget(hooks, budget, n - 1);
      assert !Stops(hooks, budget, n - 1);
    }
  }

  lemma {:induction false} AttemptWithinBudget(budget: nat, a: Attempt)
    ensures CallsOf(budget, a) <= budget
  {
    var n := StopFrom(a.hooks, budget, 0);
    CallsWithinBudget(a.hooks, budget, n);
  }

  /** The signal that stops an attempt was sent during it. */
  lemma {:induction false} StoppingSignalIsSent(budget: nat, a: Attempt)
    requires EndingOf(budget, a).BySignal?
    ensures var signal := EndingOf(budget, a).signal;
            signal != NoSignal && signal in SentDuring(budget, a) && SentAt(a.hooks, signal)
  {
    SentUpToExact(a.hooks, StopFrom(a.hooks, budget, 0) + 1);
  }

  lemma TransientExact(outcome: Outcome, cell: Signal, how: Ending)
    requires Shows(cell, outcome, how)
    ensures Transient(outcome) <==> Retried(how)
  {
    if how.ByItself? && how.end.Error? {
      ContainsExact(how.end.message, "JsonError");
      ContainsExact(how.end.message, "ApiResponse");
    }
  }

  lemma {:induction false} AttemptsStep(budget: nat, round: Round, k: nat)
    requires k <= 2
    ensures var first, how := Prompt(NoSignal, budget, round.attempt(k)), EndingOf(budget, round.attempt(k));
            Attempts(NoSignal, budget, round, k)
            == if k < 2 && Retried(how) then After(first.0, Attempts(NoSignal, budget, round, k + 1)) else first
  {
    var a := round.attempt(k);
    PromptExact(budget, a);
    var (e, outcome) := Prompt(NoSignal, budget, a);
    TransientExact(outcome, e.cell, EndingOf(budget, a));
  }

  lemma DecidingStep(budget: nat, round: Round, k: nat)
    requires k <= Deciding(budget, round)
    ensures k < Deciding(budget, round) <==> k < 2 && Retried(EndingOf(budget, round.attempt(k)))
  {
  }

  /** The attempts of a round end as the deciding one does, and count them all. */
  lemma {:induction false} AttemptsExact(budget: nat, round: Round, k: nat)
    requires k <= Deciding(budget, round)
    ensures var (e, outcome) := Attempts(NoSignal, budget, round, k);
            && e.calls == CallsFrom(budget, round, k) && e.sent == SentFrom(budget, round, k)
            && Shows(e.cell, outcome, RoundEnding(budget, round))
    decreases 2 - k
  {
    PromptExact(budget, round.attempt(k));
    AttemptsStep(budget, round, k);
    DecidingStep(budget, round, k);
    if k < Deciding(budget, round) {
      AttemptsExact(budget, round, k + 1);
    } else {
      var sent := SentDuring(budget, round.attempt(k));
      assert sent + [] == sent;
    }
  }

  lemma RoundCallsBounded(budget: nat, round: Round)
    ensures CallsFrom(budget, round, 0) == RoundCalls(budget, round) <= 3 * budget
  {
    AttemptWithinBudget(budget, round.attempt(0));
    AttemptWithinBudget(budget, round.attempt(1));
    AttemptWithinBudget(budget, round.attempt(2));
  }

  lemma {:induction false} DecidingSignalIsSent(budget: nat, round: Round, k: nat)
    requires k <= Deciding(budget, round) && RoundEnding(budget, round).BySignal?
    ensures var signal := RoundEnding(budget, round).signal;
            signal != NoSignal && signal in SentFrom(budget, round, k) && SentIn(round, signal)
    decreases 2 - k
  {
    if k < Deciding(budget, round) {
      DecidingSignalIsSent(budget, round, k + 1);
    } else {
      StoppingSignalIsSent(budget, round.attempt(k));
    }
  }

  ghost predicate Terminal(e: Event) { e.Completed? || e.Failed? || e.Interrupted? }

  /** What is published and returned for a round that ends the run. */
  ghost predicate AnswersWith(c: Config, how: Ending, last: Event, result: Result<string, string>) {
    match how
    case ByItself(Reply(text)) => last == Completed(text) && result == Ok(text)
    case ByItself(TurnLimit) => last == Completed(c.limitText) && result == Ok(c.limitText)
    case ByItself(Error(message)) => last == Failed(message) && result == Err(message)
    case BySignal(WrapUp, history) =>
      && last.Interrupted? && result == Ok(last.partial)
      && if IsLastText(history, "") then last.partial == "Agent was wrapped up before producing output."
         else IsLastText(history, last.partial)
    case BySignal(_, _) => false
  }

  /** A round ends the run with the event and the result that belong to how its deciding attempt
      ended, or that attempt was stopped by a steer; then the next round starts with no signal, the
      steer as its prompt, the cancelled history as its chat, and the calls left over, or one. */
  lemma {:induction false} RoundFacts(c: Config, s: State, round: Round)
    requires s.cell == NoSignal
    ensures var how, s' := RoundEnding(s.remaining, round), DoRound(c, s, round).state;
            && s'.calls == s.calls + RoundCalls(s.remaining, round) <= s.calls + 3 * s.remaining
            && s'.asked == s.asked + [Asked(s.prompt, s.chat, s.remaining)]
            && match DoRound(c, s, round)
               case Finished(_, result) =>
                 && s'.sent == s.sent + SentFrom(s.remaining, round, 0)
                 && exists last :: s'.events == s.events + [last] && AnswersWith(c, how, last, result)
               case Again(_) =>
                 && s'.sent == s.sent + SentFrom(s.remaining, round, 0) + round.unseen
                 && s'.events == s.events + [AgentSteered(s'.prompt)]
                 && how == BySignal(Signal.Steer(s'.prompt), s'.chat)
                 && s'.cell == NoSignal
                 && s'.remaining == if s'.calls < c.maxTurns then c.maxTurns - s'.calls else 1
  {
    var how := RoundEnding(s.remaining, round);
    AttemptsExact(s.remaining, round, 0);
    RoundCallsBounded(s.remaining, round);
    if how.BySignal? {
      DecidingSignalIsSent(s.remaining, round, 0);
      ReasonReadsBack(how.signal);
      LastTextExact(how.history);
      if IsLastText(how.history, "") { LastTextUnique(how.history, LastText(how.history), ""); }
    }
    match DoRound(c, s, round)
    case Finished(s', result) =>
      var last := s'.events[|s.events|];
      assert s'.events == s.events + [last] && AnswersWith(c, how, last, result);
    case Again(_) =>
  }

  lemma LastTextUnique(history: seq<Message>, text: string, other: string)
    requires IsLastText(history, text) && IsLastText(history, other)
    ensures text == other
  {
    if i: nat, j: nat, i': nat, j': nat :|
      && TextAt(history, i, j) && NoTextAfter(history, i, j) && history[i].parts[j].text == text
      && TextAt(history, i', j') && NoTextAfter(history, i', j') && history[i'].parts[j'].text == other {
      assert i == i' && j == j';
    }
  }

  /** What the caller gets agrees with the event that was published. */
  ghost predicate Agrees(last: Event, result: Result<string, string>) {
    match last
    case Completed(text) => result == Ok(text)
    case Interrupted(text) => result == Ok(text)
    case Failed(error) => result == Err(error)
    case _ => false
  }

  lemma QuietRoundEnds(c: Config, s: State, round: Round)
    requires s.cell == NoSignal
    ensures DoRound(c, s, round).Again? ==> !Quiet(round) && DoRound(c, s, round).state.cell == NoSignal
  {
    RoundFacts(c, s, round);
    if RoundEnding(s.remaining, round).BySignal? { DecidingSignalIsSent(s.remaining, round, 0); }
  }

  // --- Facts about whole runs ---

  ghost predicate IsSubsequence<T>(xs: seq<T>, ys: seq<T>) {
    xs == []
    || (ys != [] && (IsSubsequence(xs, ys[..|ys| - 1])
                     || (xs[|xs| - 1] == ys[|ys| - 1] && IsSubsequence(xs[..|xs| - 1], ys[..|ys| - 1]))))
  }

  lemma {:induction false} SubsequenceExtends<T>(xs: seq<T>, ys: seq<T>, more: seq<T>)
    requires IsSubsequence(xs, ys)
    ensures IsSubsequence(xs, ys + more)
  {
    if more == [] {
      assert ys + more == ys;
    } else {
      SubsequenceExtends(xs, ys, more[..|more| - 1]);
      assert (ys + more)[..|ys + more| - 1] == ys + more[..|more| - 1];
    }
  }

  lemma {:induction false} SubsequenceSnoc<T>(xs: seq<T>, ys: seq<T>, x: T, more: seq<T>)
    requires IsSubsequence(xs, ys) && x in more
    ensures IsSubsequence(xs + [x], ys + more)
  {
    var n := |more| - 1;
    assert (ys + more)[..|ys + more| - 1] == ys + more[..n];
    assert (xs + [x])[..|xs|] == xs;
    if more[n] == x {
      SubsequenceExtends(xs, ys, more[..n]);
    } else {
      SubsequenceSnoc(xs, ys, x, more[..n]);
    }
  }

  /** The signals behind the steers that were published. */
  ghost function SteersOf(events: seq<Event>): seq<Signal> {
    if events == [] then []
    else
      var last := events[|events| - 1];
      SteersOf(events[..|events| - 1]) + if last.AgentSteered? then [Signal.Steer(last.message)] else []
  }

  /** The model calls of the rounds that were asked for. */
  ghost function CallsIn(oracle: Oracle, asks: seq<Asked>): nat {
    if asks == [] then 0
    else
      var last := |asks| - 1;
      CallsIn(oracle, asks[..last]) + RoundCalls(asks[last].budget, oracle(last))
  }

  /** Round `i` was stopped by the steer that was published for it; the next round asks what it said,
      with the history it left, and with the calls left over, or one. */
  ghost predicate SteeredAt(c: Config, oracle: Oracle, events: seq<Event>, asks: seq<Asked>, i: nat)
    requires i < |events| && i + 1 < |asks|
  {
    var next, used := asks[i + 1], CallsIn(oracle, asks[..i + 1]);
    && RoundEnding(asks[i].budget, oracle(i)) == BySignal(Signal.Steer(next.prompt), next.chat)
    && events[i] == AgentSteered(next.prompt)
    && next.budget == if used < c.maxTurns then c.maxTurns - used else 1
  }

  /** The rounds asked for follow from the steers, beginning with the task. */
  ghost predicate RoundsFollow(c: Config, oracle: Oracle, events: seq<Event>, asks: seq<Asked>) {
    && |asks| == |events| + 1
    && asks[0] == Asked(c.task, [], c.maxTurns)
    && forall i | 0 <= i < |events| :: SteeredAt(c, oracle, events, asks, i)
  }

  ghost function NextAsk(s: State): Asked { Asked(s.prompt, s.chat, s.remaining) }

  /** Between rounds only steers have been published. */
  ghost predicate Steady(c: Config, oracle: Oracle, s: State) {
    && s.cell == NoSignal
    && RoundsFollow(c, oracle, s.events, s.asked + [NextAsk(s)])
    && IsSubsequence(SteersOf(s.events), s.sent)
    && s.calls == CallsIn(oracle, s.asked)
    && (s.events != [] ==> s.calls <= 3 * (c.maxTurns + |s.events| - 1))
  }

  /** What a finished run looks like: rounds that follow from steers, each steer published for a Steer
      signal that was sent and in the order they were sent; then the one terminal event and the result
      that belong to how the last round ended; and a bounded number of model calls. */
  ghost predicate WellEnded(c: Config, oracle: Oracle, s: State, result: Result<string, string>) {
    var n := |s.events| - 1;
    && 0 <= n
    && RoundsFollow(c, oracle, s.events[..n], s.asked)
    && AnswersWith(c, RoundEnding(s.asked[n].budget, oracle(n)), s.events[n], result)
    && IsSubsequence(SteersOf(s.events), s.sent)
    && s.calls == CallsIn(oracle, s.asked) <= 3 * (c.maxTurns + n)
  }

  /** The steers of a history with one more event. */
  lemma SteersSnoc(events: seq<Event>, last: Event)
    ensures SteersOf(events + [last])
         == SteersOf(events) + if last.AgentSteered? then [Signal.Steer(last.message)] else []
  {
    assert (events + [last])[..|events|] == events;
  }

  lemma SteerIsKnown(s: State, message: string, sent: seq<Signal>, unseen: seq<Signal>)
    requires IsSubsequence(SteersOf(s.events), s.sent) && Signal.Steer(message) in sent
    ensures IsSubsequence(SteersOf(s.events + [AgentSteered(message)]), s.sent + sent + unseen)
  {
    SteersSnoc(s.events, AgentSteered(message));
    SubsequenceSnoc(SteersOf(s.events), s.sent, Signal.Steer(message), sent);
    SubsequenceExtends(SteersOf(s.events + [AgentSteered(message)]), s.sent + sent, unseen);
  }

  lemma {:induction false} SteeredStays(
      c: Config, oracle: Oracle, events: seq<Event>, asks: seq<Asked>, event: Event, next: Asked, i: nat)
    requires i < |events| && i + 1 < |asks|
    ensures SteeredAt(c, oracle, events + [event], asks + [next], i) == SteeredAt(c, oracle, events, asks, i)
  {
    var asks' := asks + [next];
    assert asks'[..i + 1] == asks[..i + 1];
    assert asks'[i] == asks[i] && asks'[i + 1] == asks[i + 1] && (events + [event])[i] == events[i];
  }

  /** A round that is stopped by a steer follows, with what the next round asks. */
  lemma {:induction false} SteeredNext(c: Config, oracle: Oracle, events: seq<Event>, asks: seq<Asked>, next: Asked)
    requires |asks| == |events| + 1
    requires RoundEnding(asks[|events|].budget, oracle(|events|)) == BySignal(Signal.Steer(next.prompt), next.chat)
    requires var used := CallsIn(oracle, asks);
             next.budget == if used < c.maxTurns then c.maxTurns - used else 1
    ensures SteeredAt(c, oracle, events + [AgentSteered(next.prompt)], asks + [next], |events|)
  {
    var asks' := asks + [next];
    assert asks'[..|asks|] == asks;
    assert asks'[|events|] == asks[|events|] && asks'[|asks|] == next;
  }

  lemma {:induction false} FollowSnoc(
      c: Config, oracle: Oracle, events: seq<Event>, asks: seq<Asked>, event: Event, next: Asked)
    requires RoundsFollow(c, oracle, events, asks)
    requires SteeredAt(c, oracle, events + [event], asks + [next], |events|)
    ensures RoundsFollow(c, oracle, events + [event], asks + [next])
  {
    forall i | 0 <= i <= |events|
      ensures SteeredAt(c, oracle, events + [event], asks + [next], i)
    {
      if i < |events| { SteeredStays(c, oracle, events, asks, event, next, i); }
    }
  }

  lemma {:induction false} CallsBound(c: Config, oracle: Oracle, s: State)
    requires Steady(c, oracle, s)
    ensures s.calls + 3 * s.remaining <= 3 * (c.maxTurns + |s.events|)
    ensures CallsIn(oracle, s.asked + [NextAsk(s)])
         == s.calls + RoundCalls(s.remaining, oracle(|s.asked|))
    ensures |s.asked| == |s.events|
  {
    var asks := s.asked + [NextAsk(s)];
    assert asks[..|s.asked|] == s.asked;
    if s.events != [] { assert SteeredAt(c, oracle, s.events, asks, |s.events| - 1); }
  }

  /** A steady state stays so with one more steer. */
  lemma {:induction false} SteadySnoc(
      c: Config, oracle: Oracle, s: State, s': State, sent: seq<Signal>, unseen: seq<Signal>)
    requires Steady(c, oracle, s) && s'.cell == NoSignal
    requires RoundEnding(s.remaining, oracle(|s.events|)) == BySignal(Signal.Steer(s'.prompt), s'.chat)
    requires s'.calls == s.calls + RoundCalls(s.remaining, oracle(|s.events|)) <= s.calls + 3 * s.remaining
    requires s'.asked == s.asked + [NextAsk(s)]
    requires s'.events == s.events + [AgentSteered(s'.prompt)]
    requires s'.sent == s.sent + sent + unseen && Signal.Steer(s'.prompt) in sent
    requires s'.remaining == if s'.calls < c.maxTurns then c.maxTurns - s'.calls else 1
    ensures Steady(c, oracle, s')
  {
    CallsBound(c, oracle, s);
    SteerIsKnown(s, s'.prompt, sent, unseen);
    SteeredNext(c, oracle, s.events, s'.asked, NextAsk(s'));
    FollowSnoc(c, oracle, s.events, s'.asked, AgentSteered(s'.prompt), NextAsk(s'));
  }

  lemma {:induction false} SteerKeepsSteady(c: Config, oracle: Oracle, s: State)
    requires Steady(c, oracle, s) && DoRound(c, s, oracle(|s.events|)).Again?
    ensures var s' := DoRound(c, s, oracle(|s.events|)).state;
            Steady(c, oracle, s') && |s'.events| == |s.events| + 1
  {
    var round := oracle(|s.events|);
    RoundFacts(c, s, round);
    DecidingSignalIsSent(s.remaining, round, 0);
    SteadySnoc(c, oracle, s, DoRound(c, s, round).state, SentFrom(s.remaining, round, 0), round.unseen);
  }

  lemma TerminalIsNoSteer(s: State, last: Event, sent: seq<Signal>)
    requires IsSubsequence(SteersOf(s.events), s.sent) && Terminal(last)
    ensures IsSubsequence(SteersOf(s.events + [last]), s.sent + sent)
  {
    SteersSnoc(s.events, last);
    assert SteersOf(s.events + [last]) == SteersOf(s.events);
    SubsequenceExtends(SteersOf(s.events), s.sent, sent);
  }

  /** A terminal event after a steady state ends the run well. */
  lemma {:induction false} EndsWell(
      c: Config, oracle: Oracle, s: State, s': State, last: Event, sent: seq<Signal>,
      result: Result<string, string>)
    requires Steady(c, oracle, s) && s'.events == s.events + [last] && s'.sent == s.sent + sent
    requires AnswersWith(c, RoundEnding(s.remaining, oracle(|s.events|)), last, result) && Terminal(last)
    requires s'.asked == s.asked + [NextAsk(s)]
    requires s'.calls == s.calls + RoundCalls(s.remaining, oracle(|s.events|)) <= s.calls + 3 * s.remaining
    ensures WellEnded(c, oracle, s', result)
  {
    CallsBound(c, oracle, s);
    TerminalIsNoSteer(s, last, sent);
    var n := |s.events|;
    assert s'.events[..n] == s.events && s'.events[n] == last;
    EndedBy(c, oracle, s', n, s.remaining, last, result);
  }

  lemma {:induction false} EndedBy(
      c: Config, oracle: Oracle, s: State, n: nat, budget: nat, last: Event, result: Result<string, string>)
    requires |s.events| == n + 1 && s.events[n] == last && RoundsFollow(c, oracle, s.events[..n], s.asked)
    requires s.asked[n].budget == budget && AnswersWith(c, RoundEnding(budget, oracle(n)), last, result)
    requires IsSubsequence(SteersOf(s.events), s.sent)
    requires s.calls == CallsIn(oracle, s.asked) <= 3 * (c.maxTurns + n)
    ensures WellEnded(c, oracle, s, result)
  {
  }

  lemma {:induction false} TerminalEndsWell(c: Config, oracle: Oracle, s: State)
    requires Steady(c, oracle, s) && DoRound(c, s, oracle(|s.events|)).Finished?
    ensures WellEnded(c, oracle, DoRound(c, s, oracle(|s.events|)).state, DoRound(c, s, oracle(|s.events|)).result)
  {
    var round := oracle(|s.events|);
    var next, how := DoRound(c, s, round), RoundEnding(s.remaining, round);
    RoundFacts(c, s, round);
    var last :| next.state.events == s.events + [last] && AnswersWith(c, how, last, next.result);
    AnswerIsTerminal(c, how, last, next.result);
    EndsWell(c, oracle, s, next.state, last, SentFrom(s.remaining, round, 0), next.result);
  }

  lemma AnswerIsTerminal(c: Config, how: Ending, last: Event, result: Result<string, string>)
    requires AnswersWith(c, how, last, result)
    ensures Terminal(last) && Agrees(last, result)
  {
  }

  lemma {:induction false} RunFacts(c: Config, oracle: Oracle, quiet: nat, s: State, r: nat)
    requires QuietFrom(oracle, quiet) && r <= quiet && Steady(c, oracle, s) && |s.events| == r
    ensures var (final, result) := RunFrom(c, oracle, quiet, s, r); WellEnded(c, oracle, final, result)
    decreases quiet - r
  {
    QuietRoundEnds(c, s, oracle(r));
    match DoRound(c, s, oracle(r))
    case Again(s') =>
      SteerKeepsSteady(c, oracle, s);
      RunFacts(c, oracle, quiet, s', r + 1);
    case Finished(_, _) => TerminalEndsWell(c, oracle, s);
  }

  /** Every run ends well: each round asks what the steer before it said, the terminal event and the
      result belong to how the last round's deciding attempt ended, and with `n` steers there are at
      most 3 (maxTurns + n) model calls. */
  lemma RunEndsWell(c: Config, oracle: Oracle, quiet: nat)
    requires QuietFrom(oracle, quiet)
    ensures var (final, result) := RunFrom(c, oracle, quiet, Initial(c), 0); WellEnded(c, oracle, final, result)
  {
    RunFacts(c, oracle, quiet, Initial(c), 0);
  }

  /** `run`: an operator first needs its node; then Started is published, and the run proper needs a
      rendered prompt and a client (`ready`). */
  method RunAgent(c: Config, nodeFound: bool, ready: bool, oracle: Oracle, ghost quiet: nat)
    returns (result: Result<string, string>, events: seq<Event>)
    requires QuietFrom(oracle, quiet)
    ensures events == [] <==> c.kind == Operator && !nodeFound
    ensures events != [] ==> events[0] == Started
    ensures Complete(events) <==> (c.kind == Synapse || nodeFound) && ready
    ensures var (final, answer) := RunFrom(c, oracle, quiet, Initial(c), 0);
            if Complete(events)
            then events[1..] == final.events && result == answer && Agrees(events[|events| - 1], result)
            else result.Err? && |events| <= 1
  {
    if c.kind == Operator && !nodeFound {
      return Err("node not found"), [];
    }
    events := [Started];
    if !ready {
      return Err("prompt or client unavailable"), events;
    }
    var final;
    final, result := RunInner(c, oracle, quiet);
    RunEndsWell(c, oracle, quiet);
    StartedIsComplete(c, oracle, final, result);
    events := events + final.events;
  }

  lemma {:induction false} SteersOnly(c: Config, oracle: Oracle, events: seq<Event>, asks: seq<Asked>)
    requires RoundsFollow(c, oracle, events, asks)
    ensures forall i | 0 <= i < |events| :: events[i].AgentSteered?
  {
    forall i | 0 <= i < |events|
      ensures events[i].AgentSteered?
    {
      assert SteeredAt(c, oracle, events, asks, i);
    }
  }

  lemma {:induction false} StartedIsComplete(
      c: Config, oracle: Oracle, final: State, result: Result<string, string>)
    requires WellEnded(c, oracle, final, result)
    ensures var events := [Started] + final.events;
            Complete(events) && Agrees(events[|events| - 1], result)
  {
    var events, n := [Started] + final.events, |final.events| - 1;
    AnswerIsTerminal(c, RoundEnding(final.asked[n].budget, oracle(n)), final.events[n], result);
    SteersOnly(c, oracle, final.events[..n], final.asked);
    assert forall i | 0 < i < |events| - 1 :: events[i] == final.events[..n][i - 1];
  }

  /** Started, any number of steers, and exactly one terminal event, at the end. */
  ghost predicate Complete(events: seq<Event>) {
    && |events| >= 2
    && events[0] == Started
    && (forall i | 0 < i < |events| - 1 :: events[i].AgentSteered?)
    && Terminal(events[|events| - 1])
  }

  // --- The bound on model calls is exact ---

  /** A prompt that makes `calls` model calls in silence and then one more hook. */
  function BusyHooks(calls: nat, last: seq<Hook>): seq<Hook> {
    if calls == 0 then last else [Hook([], true)] + BusyHooks(calls - 1, last)
  }

  /** Every attempt uses up its budget; the last one is steered in its last call, in the first
      `steers` rounds. */
  function BusyRound(budget: nat, steered: bool): Round {
    var failing := Attempt(BusyHooks(budget, []), Error("JsonError"), []);
    var stopped := Attempt(
      if budget == 0 then [Hook([Signal.Steer("go on")], false)]
      else BusyHooks(budget - 1, [Hook([Signal.Steer("go on")], true)]), Error("JsonError"), []);
    Round(k => if steered && k == MAX_RETRIES then stopped else failing, [])
  }

  function BusyOracle(maxTurns: nat, steers: nat): Oracle {
    r => BusyRound(if r == 0 then maxTurns else 1, r < steers)
  }

  lemma {:induction false} BusyPrompt(budget: nat, calls: nat, last: seq<Hook>, a: Attempt)
    requires calls <= budget
    ensures var (e, outcome) := Prompt(NoSignal, budget, a.(hooks := BusyHooks(calls, last)));
            var (e', outcome') := Prompt(NoSignal, budget - calls, a.(hooks := last));
            e.cell == e'.cell && e.calls == calls + e'.calls && outcome == outcome'
  {
    if calls > 0 {
      var hooks := BusyHooks(calls, last);
      assert hooks[1..] == BusyHooks(calls - 1, last);
      BusyPrompt(budget - 1, calls - 1, last, a);
    }
  }

  lemma BusyAttempts(budget: nat, steered: bool)
    ensures var (e, outcome) := Attempts(NoSignal, budget, BusyRound(budget, steered), 0);
            e.calls == 3 * budget
            && outcome == if steered then Cancelled([], "steer:" + "go on") else Outcome.Ended(Error("JsonError"))
  {
    var round := BusyRound(budget, steered);
    var failing, last := round.attempt(0), round.attempt(MAX_RETRIES);
    assert round.attempt(1) == failing;
    BusyPrompt(budget, budget, [], failing);
    assert Contains("JsonError", "JsonError");
    if steered && budget > 0 {
      BusyPrompt(budget, budget - 1, [Hook([Signal.Steer("go on")], true)], last);
    }
    var (e1, o1) := Prompt(NoSignal, budget, failing);
    var (e3, o3) := Prompt(NoSignal, budget, last);
    assert e1.cell == NoSignal && e1.calls == budget && Transient(o1);
    assert e3.calls == budget;
    assert Attempts(NoSignal, budget, round, 2) == (e3, o3);
    assert Attempts(NoSignal, budget, round, 1) == After(e1, (e3, o3));
  }

  lemma {:induction false} BusyHooksAreSilent(calls: nat)
    ensures forall signal :: !SentAt(BusyHooks(calls, []), signal)
  {
    if calls > 0 {
      BusyHooksAreSilent(calls - 1);
      var hooks, rest := BusyHooks(calls, []), BusyHooks(calls - 1, []);
      forall signal
        ensures !SentAt(hooks, signal)
      {
        assert !SentAt(rest, signal);
        assert forall i | 0 < i < |hooks| :: hooks[i] == rest[i - 1];
      }
    }
  }

  lemma BusyOracleFallsSilent(maxTurns: nat, steers: nat)
    ensures QuietFrom(BusyOracle(maxTurns, steers), steers)
  {
    forall r: nat | steers <= r
      ensures Quiet(BusyOracle(maxTurns, steers)(r))
    {
      var budget := if r == 0 then maxTurns else 1;
      BusyHooksAreSilent(budget);
      var round := BusyRound(budget, false);
      assert forall k: nat :: round.attempt(k).hooks == BusyHooks(budget, []);
      forall signal
        ensures !SentIn(round, signal)
      {
        assert !SentAt(BusyHooks(budget, []), signal);
      }
    }
  }

  lemma {:induction false} BusyRun(c: Config, steers: nat, s: State, r: nat)
    requires QuietFrom(BusyOracle(c.maxTurns, steers), steers) && r <= steers
    requires s.cell == NoSignal && |s.events| == r
    requires if r == 0 then s.calls == 0 && s.remaining == c.maxTurns
             else s.calls == 3 * (c.maxTurns + r - 1) && s.remaining == 1
    ensures var (final, _) := RunFrom(c, BusyOracle(c.maxTurns, steers), steers, s, r);
            |final.events| == steers + 1 && final.calls == 3 * (c.maxTurns + steers)
    decreases steers - r
  {
    var oracle := BusyOracle(c.maxTurns, steers);
    var budget := if r == 0 then c.maxTurns else 1;
    assert oracle(r) == BusyRound(budget, r < steers);
    BusyAttempts(budget, r < steers);
    ReasonReadsBack(Signal.Steer("go on"));
    QuietRoundEnds(c, s, oracle(r));
    match DoRound(c, s, oracle(r))
    case Again(s') => BusyRun(c, steers, s', r + 1);
    case Finished(_, _) =>
  }

  /** For every turn limit and every number of steers some run makes exactly as many model calls as
      `RunEndsWell` allows. */
  lemma BoundIsReached(c: Config, steers: nat)
    ensures QuietFrom(BusyOracle(c.maxTurns, steers), steers)
    ensures var (final, _) := RunFrom(c, BusyOracle(c.maxTurns, steers), steers, Initial(c), 0);
            |final.events| - 1 == steers && final.calls == 3 * (c.maxTurns + steers)
  {
    BusyOracleFallsSilent(c.maxTurns, steers);
    BusyRun(c, steers, Initial(c), 0);
  }
}
