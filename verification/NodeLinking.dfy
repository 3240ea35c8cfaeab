/**
 Linking a node: one-time codes, the tokens they buy, and logging in with a token.  Tokens come from
 the environment.  `delivered` says whether the answer reached the peer; a code is used up and its
 token stored before the answer is sent.
 */
module NodeLinking {
  import opened Wrappers
  import NodeProtocol

  datatype TokenRow = TokenRow(node: string, token: string)

  datatype Link = Link(code: string, node: string, token: string)

  /** The two tables, the codes with the time in seconds at which they were stored; `stored` and
      `linked` are the history. */
  datatype State = State(
    now: nat, codes: map<string, nat>, tokens: seq<TokenRow>, stored: seq<string>, linked: seq<Link>)

  const INIT := State(0, map[], [], [], [])

  function WithoutNode(rows: seq<TokenRow>, node: string): seq<TokenRow> {
    if rows == [] then []
    else WithoutNode(rows[..|rows| - 1], node) + if rows[|rows| - 1].node == node then [] else [rows[|rows| - 1]]
  }

  /** `INSERT OR REPLACE` on the primary key `node_name`. */
  function StoreToken(rows: seq<TokenRow>, node: string, token: string): seq<TokenRow> {
    WithoutNode(rows, node) + [TokenRow(node, token)]
  }

  /** The first row with this name. */
  function GetToken(rows: seq<TokenRow>, node: string): Option<string> {
    if rows == [] then None
    else if rows[0].node == node then Some(rows[0].token)
    else GetToken(rows[1..], node)
  }

  /** The first row with this token. */
  function FindNode(rows: seq<TokenRow>, token: string): Option<string> {
    if rows == [] then None
    else if rows[0].token == token then Some(rows[0].node)
    else FindNode(rows[1..], token)
  }

  datatype Step =
    | StoreCode(code: string)
    | Authenticate(first: NodeProtocol.Message, token: string, delivered: bool)
    | Wait(seconds: nat)

  function Apply(s: State, step: Step): State {
    match step
    case StoreCode(code) =>
      if code in s.codes then s else s.(codes := s.codes[code := s.now], stored := s.stored + [code])
    case Authenticate(AuthRequest(code, node), token, _) =>
      if code !in s.codes then s
      else s.(codes := s.codes - {code}, tokens := StoreToken(s.tokens, node, token),
              linked := s.linked + [Link(code, node, token)])
    case Authenticate(_, _, _) => s
    case Wait(seconds) => s.(now := s.now + seconds)
  }

  /** Whom the connection is authenticated as. */
  function Outcome(s: State, step: Step): Option<string>
    requires step.Authenticate?
  {
    if !step.delivered then None
    else
      match step.first
      case AuthRequest(code, node) => if code in s.codes then Some(node) else None
      case TokenAuth(token) => FindNode(s.tokens, token)
      case _ => None
  }

  function Run(s: State, steps: seq<Step>): State {
    if steps == [] then s else Apply(Run(s, steps[..|steps| - 1]), steps[|steps| - 1])
  }

  /** The core's link tables, updated in place. */
  class LinkTables {
    var now: nat
    var codes: map<string, nat>
    var tokens: seq<TokenRow>
    ghost var stored: seq<string>
    ghost var linked: seq<Link>

    ghost function View(): State
      reads this
    {
      State(now, codes, tokens, stored, linked)
    }

    constructor ()
      ensures View() == INIT
    {
      now, codes, tokens, stored, linked := 0, map[], [], [], [];
    }

    method StorePendingCode(code: string) returns (r: Result<(), string>)
      modifies this
      ensures View() == Apply(old(View()), StoreCode(code))
      ensures r.Ok? <==> code !in old(codes)
    {
      if code in codes { return Err("failed to store pending link code"); }
      codes, stored := codes[code := now], stored + [code];
      r := Ok(());
    }

    method ConsumePendingCode(code: string) returns (existed: bool)
      modifies this`codes
      ensures existed == (code in old(codes)) && codes == old(codes) - {code}
    {
      existed := code in codes;
      codes := codes - {code};
    }

    method Wait(seconds: nat)
      modifies this`now
      ensures View() == Apply(old(View()), Step.Wait(seconds))
    {
      now := now + seconds;
    }

    /** `authenticate`, on the first message of a connection. */
    method Authenticate(first: NodeProtocol.Message, newToken: string, delivered: bool)
      returns (r: Result<string, string>, reply: NodeProtocol.Message)
      modifies this
      ensures View() == Apply(old(View()), Step.Authenticate(first, newToken, delivered))
      ensures match Outcome(old(View()), Step.Authenticate(first, newToken, delivered))
              case Some(node) => r == Ok(node)
              case None => r.Err?
      ensures match first
              case AuthRequest(code, _) =>
                var valid := code in old(codes);
                reply == NodeProtocol.AuthResponse(valid, if valid then Some(newToken) else None)
              case TokenAuth(token) => reply == NodeProtocol.TokenAuthResponse(FindNode(old(tokens), token).Some?)
              case _ => reply.Error?
    {
      match first {
        case AuthRequest(code, name) =>
          var valid := ConsumePendingCode(code);
          if !valid {
            return Err("invalid or expired link code"), NodeProtocol.AuthResponse(false, None);
          }
          tokens := StoreToken(tokens, name, newToken);
          linked := linked + [Link(code, name, newToken)];
          reply := NodeProtocol.AuthResponse(true, Some(newToken));
          r := if delivered then Ok(name) else Err("failed to write message data");
        case TokenAuth(token) =>
          var node := FindNode(tokens, token);
          reply := NodeProtocol.TokenAuthResponse(node.Some?);
          r := if node.None? then Err("invalid token")
               else if delivered then Ok(node.value) else Err("failed to write message data");
        case _ =>
          r, reply := Err("unexpected first message"), NodeProtocol.Error("expected AuthRequest or TokenAuth");
      }
    }
  }

  // --- Codes ---

  ghost function LinksBy(linked: seq<Link>, code: string): nat {
    if linked == [] then 0
    else LinksBy(linked[..|linked| - 1], code) + if linked[|linked| - 1].code == code then 1 else 0
  }

  ghost function StoresOf(stored: seq<string>, code: string): nat {
    if stored == [] then 0
    else StoresOf(stored[..|stored| - 1], code) + if stored[|stored| - 1] == code then 1 else 0
  }

  /** Links made with the code, plus 1 while it is pending, less the times it was stored. */
  ghost function Balance(s: State, code: string): int {
    LinksBy(s.linked, code) + (if code in s.codes then 1 else 0) - StoresOf(s.stored, code)
  }

  lemma StepBalances(s: State, step: Step, code: string)
    ensures Balance(Apply(s, step), code) == Balance(s, code)
  {
    match step
    case StoreCode(stored) => StoresOfSnoc(s.stored, stored, code);
    case Authenticate(AuthRequest(used, node), token, _) => LinksBySnoc(s.linked, Link(used, node, token), code);
    case Authenticate(_, _, _) =>
    case Wait(_) =>
  }

  lemma LinksBySnoc(linked: seq<Link>, link: Link, code: string)
    ensures LinksBy(linked + [link], code) == LinksBy(linked, code) + if link.code == code then 1 else 0
  {
    assert (linked + [link])[..|linked|] == linked;
  }

  lemma StoresOfSnoc(stored: seq<string>, last: string, code: string)
    ensures StoresOf(stored + [last], code) == StoresOf(stored, code) + if last == code then 1 else 0
  {
    assert (stored + [last])[..|stored|] == stored;
  }

  /** Each storing of a code is still pending or has admitted exactly one link. */
  lemma {:induction false} CodesAdmitOnce(steps: seq<Step>, code: string)
    ensures var s := Run(INIT, steps);
            LinksBy(s.linked, code) + (if code in s.codes then 1 else 0) == StoresOf(s.stored, code)
  {
    if steps != [] {
      CodesAdmitOnce(steps[..|steps| - 1], code);
      StepBalances(Run(INIT, steps[..|steps| - 1]), steps[|steps| - 1], code);
    }
  }

  /** So links never outnumber the codes stored. */
  lemma {:induction false} LinksAreBought(steps: seq<Step>)
    ensures var s := Run(INIT, steps); |s.linked| + |s.codes| == |s.stored|
  {
    if steps != [] { LinksAreBought(steps[..|steps| - 1]); }
  }

  // --- The age of codes ---

  /** How long a code is said to be valid, in seconds. */
  const CODE_LIFETIME: nat := 300

  predicate Uses(step: Step, code: string) {
    step.Authenticate? && step.first.AuthRequest? && step.first.code == code
  }

  function Elapsed(steps: seq<Step>): nat {
    if steps == [] then 0
    else
      var last := steps[|steps| - 1];
      Elapsed(steps[..|steps| - 1]) + if last.Wait? then last.seconds else 0
  }

  /** A pending code stays pending, with the time at which it was stored, until it is used. */
  lemma {:induction false} PendingUntilUsed(before: seq<Step>, more: seq<Step>, code: string)
    requires code in Run(INIT, before).codes
    requires forall step | step in more :: !Uses(step, code)
    ensures var s, s' := Run(INIT, before), Run(INIT, before + more);
            code in s'.codes && s'.codes[code] == s.codes[code] && s'.now == s.now + Elapsed(more)
  {
    if more == [] {
      assert before + more == before;
    } else {
      var front, last := more[..|more| - 1], more[|more| - 1];
      PendingUntilUsed(before, front, code);
      assert (before + more)[..|before + more| - 1] == before + front;
      assert last in more;
    }
  }

  /** A code is accepted after any time: whatever happens after it is stored, except its use, and
      however long that takes, the next request with it links the node. */
  lemma CodesNeverExpire(before: seq<Step>, more: seq<Step>, code: string, node: string, token: string)
    requires code !in Run(INIT, before).codes
    requires forall step | step in more :: !Uses(step, code)
    ensures var s := Run(INIT, before + [StoreCode(code)] + more);
            && code in s.codes && s.now - s.codes[code] == Elapsed(more)
            && Outcome(s, Authenticate(NodeProtocol.AuthRequest(code, node), token, true)) == Some(node)
  {
    var storing := before + [StoreCode(code)];
    assert storing[..|storing| - 1] == before;
    PendingUntilUsed(storing, more, code);
  }

  /** The documented rule: a code admits while it is pending and at most 5 minutes old. */
  ghost predicate ShouldAdmit(s: State, code: string) {
    code in s.codes && s.now - s.codes[code] <= CODE_LIFETIME
  }

  /** The code follows the documented rule exactly where no pending code is too old. */
  lemma ExpiryExactly(s: State, code: string)
    ensures (forall node, token ::
               Outcome(s, Authenticate(NodeProtocol.AuthRequest(code, node), token, true)) == Some(node)
               <==> ShouldAdmit(s, code))
       <==> (code in s.codes ==> s.now - s.codes[code] <= CODE_LIFETIME)
  {
    assert Outcome(s, Authenticate(NodeProtocol.AuthRequest(code, ""), "", true)) == Some("") <==> code in s.codes;
  }

  /** A code stored in an empty table and used `CODE_LIFETIME + 1` seconds later still admits. */
  lemma LateCodeExample(code: string, node: string, token: string)
    ensures var s := Run(INIT, [StoreCode(code), Wait(CODE_LIFETIME + 1)]);
            && !ShouldAdmit(s, code)
            && Outcome(s, Authenticate(NodeProtocol.AuthRequest(code, node), token, true)) == Some(node)
  {
    var wait := Wait(CODE_LIFETIME + 1);
    assert [wait][..0] == [];
    CodesNeverExpire([], [wait], code, node, token);
    assert [] + [StoreCode(code)] + [wait] == [StoreCode(code), wait];
  }

  // --- Tokens ---

  /** Every token handed out is new. */
  ghost predicate FreshTokens(linked: seq<Link>) {
    forall i, j | 0 <= i < j < |linked| :: linked[i].token != linked[j].token
  }

  /** The token of the node's latest link. */
  ghost function LatestToken(linked: seq<Link>, node: string): Option<string> {
    if linked == [] then None
    else if linked[|linked| - 1].node == node then Some(linked[|linked| - 1].token)
    else LatestToken(linked[..|linked| - 1], node)
  }

  ghost predicate OneRowEach(rows: seq<TokenRow>) {
    forall i, j | 0 <= i < j < |rows| :: rows[i].node != rows[j].node
  }

  lemma {:induction false} WithoutNodeExact(rows: seq<TokenRow>, node: string)
    ensures forall row :: row in WithoutNode(rows, node) <==> row in rows && row.node != node
    ensures OneRowEach(rows) ==> OneRowEach(WithoutNode(rows, node))
  {
    if rows != [] {
      var front, last := rows[..|rows| - 1], rows[|rows| - 1];
      WithoutNodeExact(front, node);
      assert rows == front + [last];
      assert forall i | 0 <= i < |front| :: front[i] == rows[i];
    }
  }

  /** The table holds, for each node ever linked, one row with its latest token. */
  lemma {:induction false} TableHoldsLatest(steps: seq<Step>)
    ensures var s := Run(INIT, steps);
            && OneRowEach(s.tokens)
            && forall row :: row in s.tokens <==> LatestToken(s.linked, row.node) == Some(row.token)
  {
    if steps != [] {
      var before, step := Run(INIT, steps[..|steps| - 1]), steps[|steps| - 1];
      var s := Run(INIT, steps);
      TableHoldsLatest(steps[..|steps| - 1]);
      if s.linked != before.linked {
        assert s.linked[..|before.linked|] == before.linked;
        WithoutNodeExact(before.tokens, step.first.name);
        var kept := WithoutNode(before.tokens, step.first.name);
        assert forall i | 0 <= i < |kept| :: kept[i] in kept;
      }
    }
  }

  lemma {:induction false} FindNodeExact(rows: seq<TokenRow>, token: string)
    ensures FindNode(rows, token).Some? ==> TokenRow(FindNode(rows, token).value, token) in rows
    ensures FindNode(rows, token).None? ==> forall row | row in rows :: row.token != token
  {
    if rows != [] { FindNodeExact(rows[1..], token); }
  }

  lemma {:induction false} GetTokenExact(rows: seq<TokenRow>, node: string)
    ensures GetToken(rows, node).Some? ==> TokenRow(node, GetToken(rows, node).value) in rows
    ensures GetToken(rows, node).None? ==> forall row | row in rows :: row.node != node
  {
    if rows != [] { GetTokenExact(rows[1..], node); }
  }

  lemma {:induction false} IndexOfLink(linked: seq<Link>, node: string) returns (i: nat)
    requires LatestToken(linked, node).Some?
    ensures i < |linked| && linked[i].node == node && linked[i].token == LatestToken(linked, node).value
  {
    i := |linked| - 1;
    if linked[i].node != node { i := IndexOfLink(linked[..i], node); }
  }

  lemma TableGivesLatest(steps: seq<Step>, node: string)
    ensures GetToken(Run(INIT, steps).tokens, node) == LatestToken(Run(INIT, steps).linked, node)
  {
    var s := Run(INIT, steps);
    TableHoldsLatest(steps);
    GetTokenExact(s.tokens, node);
    if LatestToken(s.linked, node).Some? {
      assert TokenRow(node, LatestToken(s.linked, node).value) in s.tokens;
    }
  }

  lemma LatestTokensDiffer(linked: seq<Link>, node: string, other: string)
    requires FreshTokens(linked)
    requires LatestToken(linked, node).Some? && LatestToken(linked, node) == LatestToken(linked, other)
    ensures node == other
  {
    var i := IndexOfLink(linked, node);
    var j := IndexOfLink(linked, other);
    assert linked[i].token == linked[j].token;
  }

  lemma FoundIsLatest(steps: seq<Step>, node: string, token: string)
    requires FreshTokens(Run(INIT, steps).linked)
    ensures var s := Run(INIT, steps);
            FindNode(s.tokens, token) == Some(node) <==> LatestToken(s.linked, node) == Some(token)
  {
    var s := Run(INIT, steps);
    TableHoldsLatest(steps);
    FindNodeExact(s.tokens, token);
    if LatestToken(s.linked, node) == Some(token) {
      assert TokenRow(node, token) in s.tokens;
      var other := FindNode(s.tokens, token).value;
      assert TokenRow(other, token) in s.tokens;
      LatestTokensDiffer(s.linked, node, other);
    }
  }

  /** With new tokens every time, a token logs in as a node exactly when it is the one the node got
      at its latest link, which is the token the table gives for that node. */
  lemma TokensLogInTheirNode(steps: seq<Step>, node: string, token: string)
    requires FreshTokens(Run(INIT, steps).linked)
    ensures var s := Run(INIT, steps);
            && (FindNode(s.tokens, token) == Some(node) <==> GetToken(s.tokens, node) == Some(token))
            && (GetToken(s.tokens, node) == LatestToken(s.linked, node))
  {
    TableGivesLatest(steps, node);
    FoundIsLatest(steps, node, token);
  }

  // --- Logging in ---

  /** The links that the steps ask for: each accepted request links its node under its code with the
      token that was handed out. */
  ghost function LinksAsked(steps: seq<Step>): seq<Link> {
    if steps == [] then []
    else
      var before, last := steps[..|steps| - 1], steps[|steps| - 1];
      LinksAsked(before)
      + if last.Authenticate? && last.first.AuthRequest? && last.first.code in Run(INIT, before).codes
        then [Link(last.first.code, last.first.name, last.token)] else []
  }

  lemma {:induction false} LinksExactly(steps: seq<Step>)
    ensures Run(INIT, steps).linked == LinksAsked(steps)
  {
    if steps != [] {
      LinksExactly(steps[..|steps| - 1]);
      var linked := Run(INIT, steps[..|steps| - 1]).linked;
      assert linked + [] == linked;
    }
  }

  /** After any run a token logs in as a node exactly when it is the token of the node's latest link
      and the answer reaches the peer; every other first message but a request logs in nobody. */
  lemma LoginExactly(steps: seq<Step>, token: string, given: string, delivered: bool, node: string)
    requires FreshTokens(LinksAsked(steps))
    ensures Outcome(Run(INIT, steps), Authenticate(NodeProtocol.TokenAuth(token), given, delivered)) == Some(node)
       <==> delivered && LatestToken(LinksAsked(steps), node) == Some(token)
  {
    LinksExactly(steps);
    FoundIsLatest(steps, node, token);
  }

  /** An earlier token of a node that was linked again is rejected. */
  lemma EarlierTokenIsRejected(steps: seq<Step>, i: nat, j: nat, given: string, delivered: bool)
    requires FreshTokens(LinksAsked(steps))
    requires i < j < |LinksAsked(steps)| && LinksAsked(steps)[i].node == LinksAsked(steps)[j].node
    ensures var first := NodeProtocol.TokenAuth(LinksAsked(steps)[i].token);
            Outcome(Run(INIT, steps), Authenticate(first, given, delivered)) == None
  {
    LinksExactly(steps);
    RelinkingRevokes(steps, i, j);
  }

  /** Nobody is authenticated by an answer that does not arrive, or by another kind of first message;
      a request logs its node in exactly while its code is pending. */
  lemma AdmissionExactly(s: State, first: NodeProtocol.Message, given: string, delivered: bool)
    ensures var outcome := Outcome(s, Authenticate(first, given, delivered));
            && (!delivered ==> outcome == None)
            && (!first.AuthRequest? && !first.TokenAuth? ==> outcome == None)
            && (first.AuthRequest? && delivered ==>
                  outcome == if first.code in s.codes then Some(first.name) else None)
  {
  }

  /** Linking a node again makes every earlier token of it unknown. */
  lemma RelinkingRevokes(steps: seq<Step>, i: nat, j: nat)
    requires var linked := Run(INIT, steps).linked;
             FreshTokens(linked) && i < j < |linked| && linked[i].node == linked[j].node
    ensures FindNode(Run(INIT, steps).tokens, Run(INIT, steps).linked[i].token) == None
  {
    var s := Run(INIT, steps);
    var token := s.linked[i].token;
    TableHoldsLatest(steps);
    FindNodeExact(s.tokens, token);
    if FindNode(s.tokens, token).Some? {
      var node := FindNode(s.tokens, token).value;
      assert TokenRow(node, token) in s.tokens;
      var k := IndexOfLink(s.linked, node);
      assert k == i;
      LatestIsLater(s.linked, node, i, j);
    }
  }

  lemma {:induction false} LatestIsLater(linked: seq<Link>, node: string, i: nat, j: nat)
    requires FreshTokens(linked) && i < j < |linked| && linked[j].node == node
    ensures LatestToken(linked, node) != Some(linked[i].token)
  {
    var last := |linked| - 1;
    if linked[last].node != node {
      LatestIsLater(linked[..last], node, i, j);
    }
  }
}
