/**
 The protocol between the core and its nodes: length-prefixed frames on a stream, the dispatchers
 of the two peers, and the remote executor.  The message encoding is a pair of functions; a node is
 what its five operations answer and how they change its state (its files, say).
 */
module NodeProtocol {
  import opened Wrappers
  import opened Bytes

  // --- Frames ---

  const MAX_FRAME: nat := 64 * 1024 * 1024

  function Frame(data: seq<byte>): seq<byte> { BE32(|data|) + data }

  function Frames(datas: seq<seq<byte>>): seq<byte> {
    if datas == [] then [] else Frame(datas[0]) + Frames(datas[1..])
  }

  /** One receive: the body of the first frame and what follows it. */
  function Receive(b: seq<byte>): Result<(seq<byte>, seq<byte>), string> {
    if |b| < 4 then Err("failed to read message length")
    else
      var len := FromBE32(b[..4]);
      if len > MAX_FRAME then Err("message too large")
      else if |b| - 4 < len then Err("failed to read message data")
      else Ok((b[4..4 + len], b[4 + len..]))
  }

  /** A stream: bytes written and not yet read. */
  class Stream {
    var bytes: seq<byte>

    constructor ()
      ensures bytes == []
    {
      bytes := [];
    }

    method WriteAll(data: seq<byte>)
      modifies this
      ensures bytes == old(bytes) + data
    {
      bytes := bytes + data;
    }

    method ReadExact(n: nat) returns (r: Option<seq<byte>>)
      modifies this
      ensures if n <= |old(bytes)| then r == Some(old(bytes)[..n]) && bytes == old(bytes)[n..]
              else r == None && bytes == []
    {
      if |bytes| < n {
        bytes := [];
        return None;
      }
      r := Some(bytes[..n]);
      bytes := bytes[n..];
    }

    method SendMessage(data: seq<byte>)
      modifies this
      ensures bytes == old(bytes) + Frame(data)
    {
      var len := BE32(|data|);
      WriteAll(len);
      WriteAll(data);
      assert old(bytes) + len + data == old(bytes) + (len + data);
    }

    method RecvMessage() returns (r: Result<seq<byte>, string>)
      modifies this
      ensures match Receive(old(bytes))
              case Ok((data, rest)) => r == Ok(data) && bytes == rest
              case Err(e) => r == Err(e)
    {
      var lenBuf := ReadExact(4);
      if lenBuf.None? { return Err("failed to read message length"); }
      var len := FromBE32(lenBuf.value);
      if len > MAX_FRAME { return Err("message too large"); }
      var buf := ReadExact(len);
      if buf.None? { return Err("failed to read message data"); }
      assert old(bytes)[4..][..len] == old(bytes)[4..4 + len] && old(bytes)[4..][len..] == old(bytes)[4 + len..];
      r := Ok(buf.value);
    }
  }

  lemma Split(prefix: seq<byte>, data: seq<byte>, rest: seq<byte>)
    requires |prefix| == 4
    ensures var b := prefix + data + rest; b[..4] == prefix && b[4..4 + |data|] == data && b[4 + |data|..] == rest
  {
  }

  lemma PrefixedIsReceived(prefix: seq<byte>, body: seq<byte>, rest: seq<byte>)
    requires |prefix| == 4 && FromBE32(prefix) == |body|
    ensures Receive(prefix + body + rest)
         == if |body| <= MAX_FRAME then Ok((body, rest)) else Err("message too large")
  {
    Split(prefix, body, rest);
  }

  lemma PartIsReceived(prefix: seq<byte>, data: seq<byte>, n: nat, rest: seq<byte>)
    requires n <= |data| && |prefix| == 4 && FromBE32(prefix) == n
    ensures Receive(prefix + data + rest)
         == if n <= MAX_FRAME then Ok((data[..n], data[n..] + rest)) else Err("message too large")
  {
    PrefixedIsReceived(prefix, data[..n], data[n..] + rest);
    assert prefix + data + rest == prefix + data[..n] + (data[n..] + rest);
  }

  /** The part of a message that its 32-bit length covers. */
  function Covered(data: seq<byte>): (body: seq<byte>)
    ensures body <= data && (|data| <= MAX_FRAME ==> body == data)
  {
    data[..|data| % 0x1_0000_0000]
  }

  /** What is received of a frame: the part its length covers, if that is at most 64 MiB. */
  lemma FrameArrives(data: seq<byte>, rest: seq<byte>)
    ensures Receive(Frame(data) + rest)
         == if |Covered(data)| <= MAX_FRAME then Ok((Covered(data), data[|Covered(data)|..] + rest))
            else Err("message too large")
  {
    BE32ReadsBack(|data|);
    PartIsReceived(BE32(|data|), data, |Covered(data)|, rest);
  }

  /** A message of any length is read back exactly when it is at most 64 MiB long. */
  lemma FrameReadsBack(data: seq<byte>, rest: seq<byte>)
    ensures Receive(Frame(data) + rest) == Ok((data, rest)) <==> |data| <= 67108864
  {
    FrameArrives(data, rest);
    var body := Covered(data);
    if |data| <= MAX_FRAME {
      assert data[|body|..] + rest == rest;
    }
  }

  /** A frame that is cut short is an error, wherever it is cut. */
  lemma CutFrameFails(data: seq<byte>, part: seq<byte>)
    requires |data| <= 67108864 && part < Frame(data)
    ensures Receive(part).Err?
  {
    BE32Exact(|data|);
    CutPrefixFails(BE32(|data|), data, part);
  }

  lemma CutPrefixFails(prefix: seq<byte>, data: seq<byte>, part: seq<byte>)
    requires |prefix| == 4 && FromBE32(prefix) == |data| && part < prefix + data
    ensures Receive(part).Err?
  {
    assert |part| < |prefix + data|;
    if |part| >= 4 { assert part[..4] == prefix; }
  }

  function ReceiveAll(b: seq<byte>, n: nat): Result<seq<seq<byte>>, string>
    decreases n
  {
    if n == 0 then Ok([])
    else
      match Receive(b)
      case Err(e) => Err(e)
      case Ok((data, rest)) =>
        match ReceiveAll(rest, n - 1)
        case Err(e) => Err(e)
        case Ok(more) => Ok([data] + more)
  }

  lemma FirstFrame(datas: seq<seq<byte>>)
    requires datas != [] && |datas[0]| <= MAX_FRAME
    requires ReceiveAll(Frames(datas[1..]), |datas| - 1) == Ok(datas[1..])
    ensures ReceiveAll(Frames(datas), |datas|) == Ok(datas)
  {
    var data, rest := datas[0], Frames(datas[1..]);
    assert Receive(Frame(data) + rest) == Ok((data, rest)) by { FrameReadsBack(data, rest); }
    assert datas == [data] + datas[1..];
  }

  /** Any messages of at most 64 MiB are read back, in order, from their concatenated frames. */
  lemma {:induction false} FramesReadBack(datas: seq<seq<byte>>)
    requires forall i | 0 <= i < |datas| :: |datas[i]| <= MAX_FRAME
    ensures ReceiveAll(Frames(datas), |datas|) == Ok(datas)
  {
    if datas != [] {
      FramesReadBack(datas[1..]);
      FirstFrame(datas);
    }
  }

  // --- Messages and nodes ---

  datatype ExecResult = ExecResult(stdout: string, stderr: string, exitCode: int)
  datatype FileContent = FileContent(path: string, content: string)
  datatype DirEntry = DirEntry(name: string, isDir: bool, size: nat)

  datatype Message =
    | AuthRequest(code: string, name: string)
    | AuthResponse(success: bool, issued: Option<string>)
    | TokenAuth(token: string)
    | TokenAuthResponse(success: bool)
    | RunCommand(command: string, cwd: Option<string>)
    | RunCommandResult(result: ExecResult)
    | ReadFile(path: string)
    | ReadFileResult(file: FileContent)
    | WriteFile(path: string, content: string)
    | WriteFileResult(success: bool, error: Option<string>)
    | ListDir(path: string)
    | ListDirResult(entries: seq<DirEntry>)
    | SearchFiles(pattern: string, root: Option<string>)
    | SearchFilesResult(paths: seq<string>)
    | Error(message: string)
    | Ping
    | Pong

  /** Each operation answers and leaves a new state of the node. */
  datatype Node<!S> = Node(
    runCommand: (S, string, Option<string>) -> (Result<ExecResult, string>, S),
    readFile: (S, string) -> (Result<FileContent, string>, S),
    writeFile: (S, string, string) -> (Result<(), string>, S),
    listDir: (S, string) -> (Result<seq<DirEntry>, string>, S),
    searchFiles: (S, string, Option<string>) -> (Result<seq<string>, string>, S))

  // --- The two dispatchers; `show` renders a message for an error text ---

  /** The core's answer to one message of a node: `handle_message`. */
  function HandleMessage<S>(node: Node<S>, show: Message -> string, s: S, msg: Message): (Message, S) {
    match msg
    case Ping => (Pong, s)
    case RunCommand(command, cwd) =>
      var (answer, s') := node.runCommand(s, command, cwd);
      (match answer case Ok(result) => RunCommandResult(result) case Err(e) => Error(e), s')
    case ReadFile(path) =>
      var (answer, s') := node.readFile(s, path);
      (match answer case Ok(content) => ReadFileResult(content) case Err(e) => Error(e), s')
    case WriteFile(path, content) =>
      var (answer, s') := node.writeFile(s, path, content);
      (match answer case Ok(_) => WriteFileResult(true, None) case Err(e) => WriteFileResult(false, Some(e)), s')
    case ListDir(path) =>
      var (answer, s') := node.listDir(s, path);
      (match answer case Ok(entries) => ListDirResult(entries) case Err(e) => Error(e), s')
    case SearchFiles(pattern, root) =>
      var (answer, s') := node.searchFiles(s, pattern, root);
      (match answer case Ok(paths) => SearchFilesResult(paths) case Err(e) => Error(e), s')
    case other => (Error("unexpected message: " + show(other)), s)
  }

  /** A node's answer to one message of the core, in its protocol loop. */
  function NodeReply<S>(node: Node<S>, show: Message -> string, s: S, msg: Message): (Message, S) {
    if msg.Ping? then (Pong, s)
    else if msg.RunCommand? then
      var ran := node.runCommand(s, msg.command, msg.cwd);
      (if ran.0.Ok? then RunCommandResult(ran.0.value) else Error(ran.0.error), ran.1)
    else if msg.ReadFile? then
      var read := node.readFile(s, msg.path);
      (if read.0.Ok? then ReadFileResult(read.0.value) else Error(read.0.error), read.1)
    else if msg.WriteFile? then
      var wrote := node.writeFile(s, msg.path, msg.content);
      (if wrote.0.Ok? then WriteFileResult(true, None) else WriteFileResult(false, Some(wrote.0.error)), wrote.1)
    else if msg.ListDir? then
      var listed := node.listDir(s, msg.path);
      (if listed.0.Ok? then ListDirResult(listed.0.value) else Error(listed.0.error), listed.1)
    else if msg.SearchFiles? then
      var found := node.searchFiles(s, msg.pattern, msg.root);
      (if found.0.Ok? then SearchFilesResult(found.0.value) else Error(found.0.error), found.1)
    else (Error("unexpected message: " + show(msg)), s)
  }

  /** The two peers, written apart, answer every message alike and with the same effect. */
  lemma PeersAgree<S>(node: Node<S>, show: Message -> string, s: S, msg: Message)
    ensures HandleMessage(node, show, s, msg) == NodeReply(node, show, s, msg)
  {
  }

  /** A peer answers Ping with Pong, and a message that is no request with an error that shows it; neither
      touches the node. */
  lemma OtherMessages<S>(node: Node<S>, show: Message -> string, s: S, msg: Message)
    ensures NodeReply(node, show, s, Ping) == (Pong, s)
    ensures !(msg.Ping? || msg.RunCommand? || msg.ReadFile? || msg.WriteFile? || msg.ListDir? || msg.SearchFiles?)
        ==> NodeReply(node, show, s, msg) == (Error("unexpected message: " + show(msg)), s)
  {
  }

  // --- The remote executor ---

  datatype Operation =
    | DoRunCommand(command: string, cwd: Option<string>)
    | DoReadFile(path: string)
    | DoWriteFile(path: string, content: string)
    | DoListDir(path: string)
    | DoSearchFiles(pattern: string, root: Option<string>)

  datatype Value =
    | Executed(result: ExecResult)
    | Content(file: FileContent)
    | Written
    | Entries(entries: seq<DirEntry>)
    | Paths(paths: seq<string>)

  /** The operation on the node itself. */
  function Local<S>(node: Node<S>, s: S, op: Operation): (Result<Value, string>, S) {
    match op
    case DoRunCommand(command, cwd) =>
      var (answer, s') := node.runCommand(s, command, cwd);
      (match answer case Ok(result) => Ok(Executed(result)) case Err(e) => Err(e), s')
    case DoReadFile(path) =>
      var (answer, s') := node.readFile(s, path);
      (match answer case Ok(content) => Ok(Content(content)) case Err(e) => Err(e), s')
    case DoWriteFile(path, content) =>
      var (answer, s') := node.writeFile(s, path, content);
      (match answer case Ok(_) => Ok(Written) case Err(e) => Err(e), s')
    case DoListDir(path) =>
      var (answer, s') := node.listDir(s, path);
      (match answer case Ok(entries) => Ok(Entries(entries)) case Err(e) => Err(e), s')
    case DoSearchFiles(pattern, root) =>
      var (answer, s') := node.searchFiles(s, pattern, root);
      (match answer case Ok(paths) => Ok(Paths(paths)) case Err(e) => Err(e), s')
  }

  /** Each operation calls the node's function of that name with its own arguments. */
  lemma OperationsReachTheNode<S>(node: Node<S>, s: S, a: string, b: string, place: Option<string>)
    ensures Local(node, s, DoRunCommand(a, place)).1 == node.runCommand(s, a, place).1
    ensures Local(node, s, DoReadFile(a)).1 == node.readFile(s, a).1
    ensures Local(node, s, DoWriteFile(a, b)).1 == node.writeFile(s, a, b).1
    ensures Local(node, s, DoListDir(a)).1 == node.listDir(s, a).1
    ensures Local(node, s, DoSearchFiles(a, place)).1 == node.searchFiles(s, a, place).1
    ensures forall r :: Local(node, s, DoRunCommand(a, place)).0 == Ok(Executed(r)) <==>
                        node.runCommand(s, a, place).0 == Ok(r)
    ensures forall r :: Local(node, s, DoReadFile(a)).0 == Ok(Content(r)) <==> node.readFile(s, a).0 == Ok(r)
    ensures Local(node, s, DoWriteFile(a, b)).0 == Ok(Written) <==> node.writeFile(s, a, b).0.Ok?
    ensures forall r :: Local(node, s, DoListDir(a)).0 == Ok(Entries(r)) <==> node.listDir(s, a).0 == Ok(r)
    ensures forall r :: Local(node, s, DoSearchFiles(a, place)).0 == Ok(Paths(r)) <==>
                        node.searchFiles(s, a, place).0 == Ok(r)
  {
  }

  function Asks(op: Operation): Message {
    match op
    case DoRunCommand(command, cwd) => RunCommand(command, cwd)
    case DoReadFile(path) => ReadFile(path)
    case DoWriteFile(path, content) => WriteFile(path, content)
    case DoListDir(path) => ListDir(path)
    case DoSearchFiles(pattern, root) => SearchFiles(pattern, root)
  }

  /** What the remote executor makes of a reply. */
  function Understand(op: Operation, reply: Message): Result<Value, string> {
    match (op, reply)
    case (DoRunCommand(_, _), RunCommandResult(r)) => Ok(Executed(r))
    case (DoReadFile(_), ReadFileResult(c)) => Ok(Content(c))
    case (DoWriteFile(_, _), WriteFileResult(success, error)) =>
      if success then Ok(Written)
      else Err("remote write error: " + match error case Some(e) => e case None => "")
    case (DoListDir(_), ListDirResult(entries)) => Ok(Entries(entries))
    case (DoSearchFiles(_, _), SearchFilesResult(paths)) => Ok(Paths(paths))
    case (_, Error(message)) => Err("remote error: " + message)
    case _ => Err(UNEXPECTED)
  }

  const UNEXPECTED := "unexpected response"

  datatype Codec = Codec(encode: Message -> seq<byte>, decode: seq<byte> -> Option<Message>)
  {
    /** Messages decode to themselves, and no proper prefix of an encoding decodes (a decoder that
        reads exactly what was encoded runs out of bytes). */
    ghost predicate Good() {
      && (forall m :: decode(encode(m)) == Some(m))
      && (forall m, part | part < encode(m) :: decode(part) == None)
    }

    predicate Fits(m: Message) { |encode(m)| <= MAX_FRAME }

    /** Sent as a frame on a fresh stream and received at the other end. */
    function Deliver(m: Message): Result<Message, string> {
      match Receive(Frame(encode(m)))
      case Err(e) => Err(e)
      case Ok((data, _)) => match decode(data) case None => Err("failed to decode message") case Some(m') => Ok(m')
    }
  }

  /** `request`: a peer that cannot read the message closes the stream without a reply. */
  function Request<S>(codec: Codec, node: Node<S>, show: Message -> string, s: S, msg: Message)
    : (Result<Message, string>, S)
  {
    match codec.Deliver(msg)
    case Err(_) => (Err("failed to read message length"), s)
    case Ok(received) =>
      var (reply, s') := NodeReply(node, show, s, received);
      (codec.Deliver(reply), s')
  }

  function Remote<S>(codec: Codec, node: Node<S>, show: Message -> string, s: S, op: Operation)
    : (Result<Value, string>, S)
  {
    var (answer, s') := Request(codec, node, show, s, Asks(op));
    (match answer case Err(e) => Err(e) case Ok(reply) => Understand(op, reply), s')
  }

  /** A message arrives exactly when it fits a frame, and is never taken for another one. */
  lemma Delivers(codec: Codec, m: Message)
    requires codec.Good()
    ensures if codec.Fits(m) then codec.Deliver(m) == Ok(m)
            else codec.Deliver(m) in {Err("message too large"), Err("failed to decode message")}
  {
    var data := codec.encode(m);
    FrameArrives(data, []);
    assert Frame(data) + [] == Frame(data);
    var body := Covered(data);
    if !codec.Fits(m) && |body| <= MAX_FRAME {
      assert body < codec.encode(m);
      assert codec.decode(body) == None;
    }
  }

  /** How the remote executor words an error of the peer. */
  function Worded(op: Operation, error: string): string {
    (if op.DoWriteFile? then "remote write error: " else "remote error: ") + error
  }

  lemma ReplyIsUnderstood<S>(node: Node<S>, show: Message -> string, s: S, op: Operation)
    ensures var (reply, after) := NodeReply(node, show, s, Asks(op));
            var (local, localAfter) := Local(node, s, op);
            && after == localAfter
            && Understand(op, reply) == if local.Ok? then local else Err(Worded(op, local.error))
  {
  }

  lemma NoErrorIsUnexpected(op: Operation, error: string)
    ensures Worded(op, error) != UNEXPECTED
    ensures "message too large" != UNEXPECTED && "failed to decode message" != UNEXPECTED
    ensures "failed to read message length" != UNEXPECTED
  {
    assert Worded(op, error)[0] == 'r' && UNEXPECTED[0] == 'u';
    assert "message too large"[0] == 'm' && "failed to decode message"[0] == 'f';
    assert "failed to read message length"[0] == 'f';
  }

  /** Remote execution refines local execution: an operation succeeds remotely with a value exactly
      when it succeeds on the peer with that value and both messages fit a frame; the peer's state
      becomes what the local operation leaves exactly when the request fits, even where the reply
      does not and the caller sees an error; a local error that can be told arrives as an error
      carrying its text; and no reply is ever unexpected. */
  lemma RemoteRefinesLocal<S>(codec: Codec, node: Node<S>, show: Message -> string, s: S, op: Operation)
    requires codec.Good()
    ensures var (remote, after) := Remote(codec, node, show, s, op);
            var (local, localAfter) := Local(node, s, op);
            var asked := codec.Fits(Asks(op));
            var fits := asked && codec.Fits(NodeReply(node, show, s, Asks(op)).0);
            && after == (if asked then localAfter else s)
            && (forall v :: remote == Ok(v) <==> local == Ok(v) && fits)
            && (fits && local.Err? ==>
                  remote == Err((if op.DoWriteFile? then "remote write error: " else "remote error: ") + local.error))
            && remote != Err("unexpected response")
  {
    Delivers(codec, Asks(op));
    Delivers(codec, NodeReply(node, show, s, Asks(op)).0);
    ReplyIsUnderstood(node, show, s, op);
    var (local, _) := Local(node, s, op);
    NoErrorIsUnexpected(op, if local.Err? then local.error else "");
  }

  // --- A whole session ---

  function RemoteAll<S>(codec: Codec, node: Node<S>, show: Message -> string, s: S, ops: seq<Operation>): S {
    if ops == [] then s
    else RemoteAll(codec, node, show, Remote(codec, node, show, s, ops[0]).1, ops[1..])
  }

  function LocalAll<S>(node: Node<S>, s: S, ops: seq<Operation>): S {
    if ops == [] then s else LocalAll(node, Local(node, s, ops[0]).1, ops[1..])
  }

  function Fitting(codec: Codec, ops: seq<Operation>): seq<Operation> {
    if ops == [] then []
    else (if codec.Fits(Asks(ops[0])) then [ops[0]] else []) + Fitting(codec, ops[1..])
  }

  /** Any sequence of remote operations leaves the peer as the local operations whose requests fit
      would, each done once and in order. */
  lemma {:induction false} SessionRefinesLocal<S>(
      codec: Codec, node: Node<S>, show: Message -> string, s: S, ops: seq<Operation>)
    requires codec.Good()
    ensures RemoteAll(codec, node, show, s, ops) == LocalAll(node, s, Fitting(codec, ops))
  {
    if ops != [] {
      RemoteRefinesLocal(codec, node, show, s, ops[0]);
      SessionRefinesLocal(codec, node, show, Remote(codec, node, show, s, ops[0]).1, ops[1..]);
      var more := Fitting(codec, ops[1..]);
      if codec.Fits(Asks(ops[0])) { assert ([ops[0]] + more)[1..] == more; } else { assert [] + more == more; }
    }
  }
}
