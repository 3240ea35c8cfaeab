/** Signals to running agents, the registry that carries them, and the last word of a history. */
module AgentSignals {
  import opened Wrappers

  datatype Signal = NoSignal | WrapUp | Steer(message: string)

  /** `check_signal`: a reason to cancel the prompt, or none. */
  function Reason(signal: Signal): Option<string> {
    match signal
    case NoSignal => None
    case WrapUp => Some("wrap-up")
    case Steer(message) => Some("steer:" + message)
  }

  /** How a run reads the reason of a cancelled prompt. */
  datatype Verdict = Wrapped | Steered(message: string) | Unknown

  function Read(reason: string): Verdict {
    if reason == "wrap-up" then Wrapped
    else if "steer:" <= reason then Steered(reason[|"steer:"|..])
    else Unknown
  }

  /** Every signal is read back as it was sent; no signal reads as an unknown reason. */
  lemma ReasonReadsBack(signal: Signal)
    requires signal != NoSignal
    ensures Reason(signal).Some?
    ensures Read(Reason(signal).value) == if signal == WrapUp then Wrapped else Steered(signal.message)
  {
    if signal.Steer? {
      var reason := "steer:" + signal.message;
      assert reason[0] == 's' && "wrap-up"[0] == 'w';
      assert "steer:" <= reason && reason[|"steer:"|..] == signal.message;
    }
  }

  datatype Part = Text(text: string) | ToolCall(name: string)

  datatype Message = User(text: string) | Assistant(parts: seq<Part>)

  /** The texts an assistant wrote, in the order of the history. */
  function Texts(parts: seq<Part>): seq<string> {
    if parts == [] then []
    else
      var last := |parts| - 1;
      Texts(parts[..last]) + if parts[last].Text? then [parts[last].text] else []
  }

  function AssistantTexts(history: seq<Message>): seq<string> {
    if history == [] then []
    else
      var last := |history| - 1;
      AssistantTexts(history[..last]) + if history[last].Assistant? then Texts(history[last].parts) else []
  }

  function LastText(history: seq<Message>): string {
    var texts := AssistantTexts(history);
    if texts == [] then "" else texts[|texts| - 1]
  }

  /** Part `j` of message `i` is a text the assistant wrote. */
  ghost predicate TextAt(history: seq<Message>, i: nat, j: nat) {
    i < |history| && history[i].Assistant? && j < |history[i].parts| && history[i].parts[j].Text?
  }

  /** No assistant text comes after part `j` of message `i`. */
  ghost predicate NoTextAfter(history: seq<Message>, i: nat, j: nat) {
    forall i': nat, j': nat | TextAt(history, i', j') :: i' < i || (i' == i && j' <= j)
  }

  /** `text` stands where no assistant text comes after it; or there is none, and it is empty. */
  ghost predicate IsLastText(history: seq<Message>, text: string) {
    || (exists i: nat, j: nat | TextAt(history, i, j) :: history[i].parts[j].text == text && NoTextAfter(history, i, j))
    || (text == "" && forall i: nat, j: nat :: !TextAt(history, i, j))
  }

  lemma {:induction false} TextsExact(parts: seq<Part>)
    ensures Texts(parts) == [] ==> forall j | 0 <= j < |parts| :: !parts[j].Text?
    ensures Texts(parts) != [] ==>
              exists j | 0 <= j < |parts| && parts[j].Text? ::
                parts[j].text == Texts(parts)[|Texts(parts)| - 1] && forall j' | j < j' < |parts| :: !parts[j'].Text?
  {
    if parts != [] {
      var last := |parts| - 1;
      TextsExact(parts[..last]);
      if parts[last].Text? { assert parts[last].text == Texts(parts)[|Texts(parts)| - 1]; }
    }
  }

  lemma NoTextInLast(front: seq<Message>, last: Message, text: string)
    requires IsLastText(front, text)
    requires last.Assistant? ==> forall j | 0 <= j < |last.parts| :: !last.parts[j].Text?
    ensures IsLastText(front + [last], text)
  {
    var history := front + [last];
    forall i: nat, j: nat
      ensures TextAt(history, i, j) <==> TextAt(front, i, j)
    {
    }
    if i: nat, j: nat :|
      TextAt(front, i, j) && front[i].parts[j].text == text && NoTextAfter(front, i, j) {
      assert TextAt(history, i, j) && history[i].parts[j].text == text && NoTextAfter(history, i, j);
    }
  }

  /** `LastText` is the assistant text that no other one comes after. */
  lemma {:induction false} LastTextExact(history: seq<Message>)
    ensures IsLastText(history, LastText(history))
  {
    if history != [] {
      var n := |history| - 1;
      var front, last := history[..n], history[n];
      assert history == front + [last];
      LastTextExact(front);
      if last.Assistant? { TextsExact(last.parts); }
      if last.Assistant? && Texts(last.parts) != [] {
        var texts := Texts(last.parts);
        var j :| 0 <= j < |last.parts| && last.parts[j].Text? && last.parts[j].text == texts[|texts| - 1]
                 && forall j' | j < j' < |last.parts| :: !last.parts[j'].Text?;
        assert LastText(history) == texts[|texts| - 1];
        assert TextAt(history, n, j) && NoTextAfter(history, n, j);
      } else {
        assert AssistantTexts(history) == AssistantTexts(front);
        NoTextInLast(front, last, LastText(front));
      }
    }
  }

  lemma AssistantTextsSnoc(history: seq<Message>, i: nat)
    requires i < |history|
    ensures AssistantTexts(history[..i + 1])
         == AssistantTexts(history[..i]) + if history[i].Assistant? then Texts(history[i].parts) else []
  {
    assert history[..i + 1][..i] == history[..i];
  }

  method ExtractLastAssistantText(history: seq<Message>) returns (text: string)
    ensures text == LastText(history) && IsLastText(history, text)
  {
    LastTextExact(history);
    var i := |history|;
    ghost var all := AssistantTexts(history);
    assert history[..i] == history;
    while i > 0
      invariant 0 <= i <= |history|
      invariant AssistantTexts(history[..i]) == all
    {
      i := i - 1;
      AssistantTextsSnoc(history, i);
      if history[i].Assistant? {
        var found := LastTextPart(history[i].parts);
        if found.Some? {
          ghost var earlier, here := AssistantTexts(history[..i]), Texts(history[i].parts);
          assert all == earlier + here && all[|all| - 1] == here[|here| - 1];
          return found.value;
        }
      }
    }
    text := "";
  }

  /** The inner loop, over the parts of one message. */
  method LastTextPart(parts: seq<Part>) returns (found: Option<string>)
    ensures found == if Texts(parts) == [] then None else Some(Texts(parts)[|Texts(parts)| - 1])
  {
    var j := |parts|;
    assert parts[..j] == parts;
    while j > 0
      invariant 0 <= j <= |parts|
      invariant Texts(parts[..j]) == Texts(parts)
    {
      j := j - 1;
      assert parts[..j + 1][..j] == parts[..j];
      if parts[j].Text? {
        return Some(parts[j].text);
      }
    }
    found := None;
  }

  datatype Kind = Operator | Synapse

  /** `receiving` until the run that owns the signal's receiver has returned. */
  datatype ActiveAgent = ActiveAgent(
    kind: Kind, interface: Option<string>, channel: Option<string>, signal: Signal, receiving: bool, turns: nat)
  {
    predicate On(i: string, c: string) { interface == Some(i) && channel == Some(c) }
  }

  datatype SendError = NoAgent | ReceiverDropped

  /** The registry of running agents; each entry holds the latest signal sent to that agent. */
  class ActiveAgents {
    var agents: map<string, ActiveAgent>

    constructor ()
      ensures agents == map[]
    {
      agents := map[];
    }

    method Register(id: string, kind: Kind, interface: Option<string>, channel: Option<string>)
      modifies this
      ensures agents == old(agents)[id := ActiveAgent(kind, interface, channel, NoSignal, true, 0)]
    {
      agents := agents[id := ActiveAgent(kind, interface, channel, NoSignal, true, 0)];
    }

    /** The run returns and drops its receiver; its entry stays until `Deregister`. */
    method DropReceiver(id: string)
      requires id in agents
      modifies this
      ensures agents == old(agents)[id := old(agents)[id].(receiving := false)]
    {
      agents := agents[id := agents[id].(receiving := false)];
    }

    method Deregister(id: string)
      modifies this
      ensures agents == old(agents) - {id}
    {
      agents := agents - {id};
    }

    method Signal(id: string, signal: Signal) returns (r: Result<(), SendError>)
      modifies this
      ensures r.Ok? <==> id in old(agents) && old(agents)[id].receiving
      ensures r == Err(NoAgent) <==> id !in old(agents)
      ensures agents == if r.Ok? then old(agents)[id := old(agents)[id].(signal := signal)] else old(agents)
    {
      if id !in agents { return Err(NoAgent); }
      if !agents[id].receiving { return Err(ReceiverDropped); }
      agents := agents[id := agents[id].(signal := signal)];
      r := Ok(());
    }

    /** Signals one agent of the channel, whichever the walk over the map meets first, and gives up
        where that one no longer receives. */
    method SignalChannel(interface: string, channel: string, signal: Signal) returns (r: Result<string, SendError>)
      modifies this
      ensures r == Err(NoAgent) <==> forall id | id in old(agents) :: !old(agents)[id].On(interface, channel)
      ensures match r
              case Ok(id) =>
                && id in old(agents) && old(agents)[id].On(interface, channel) && old(agents)[id].receiving
                && agents == old(agents)[id := old(agents)[id].(signal := signal)]
              case Err(NoAgent) => agents == old(agents)
              case Err(ReceiverDropped) =>
                && agents == old(agents)
                && exists id | id in agents :: agents[id].On(interface, channel) && !agents[id].receiving
    {
      var todo := agents.Keys;
      while todo != {}
        invariant todo <= agents.Keys && agents == old(agents)
        invariant forall id | id in agents && id !in todo :: !agents[id].On(interface, channel)
        decreases todo
      {
        var id :| id in todo;
        todo := todo - {id};
        if agents[id].On(interface, channel) {
          if !agents[id].receiving { return Err(ReceiverDropped); }
          agents := agents[id := agents[id].(signal := signal)];
          return Ok(id);
        }
      }
      r := Err(NoAgent);
    }
  }
}
