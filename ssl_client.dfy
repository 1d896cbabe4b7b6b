/**
 * `SSLClient`: the client side of the SSL work level. `connect` starts a
 * thread that opens the socket, then runs two loops: while the connection
 * is awarded but not yet accepted it resends the connect command and reads
 * the server's answer; once operative it writes whatever was queued and
 * handles the server's frames. `rename`, `send` and `close` act on the same
 * flags from outside the thread, and `close` starts a countdown of ten
 * one-second ticks that drops the socket if the server does not answer
 * first.
 *
 * As for the servers, each action is first a function on a `State` value;
 * the class `Client` does the same work on its fields, and each method is
 * proved to leave the fields and the effects as the function says.
 */
module SslClient {
  import opened Common
  import opened JavaLang
  import opened Message
  import opened MergeTypes
  import opened Remote

  const CLIENT_REQUEST_TEXT := "Client disconnect request"
  const NO_SERVER_REASON_TEXT := "no server reason..."
  /** The value the `disconnect` countdown starts from. */
  const COUNTDOWN: nat := 10

  /** The events the client hands to `RemoteListener.callClientEvent`. */
  datatype ClientEvent =
    | ServerConnect(server: string)
    | ServerMessage(input: Payload)
    | ServerDisconnect(reason: Option<string>)

  /** What the client does that can be seen: a line written, an event fired, the connect future completed. */
  datatype ClientEffect = Write(line: SslWrite) | Fire(event: ClientEvent) | Complete(connected: bool)

  /** Where the connect thread is: not started, opening the socket, in the award loop, in the operative loop, or gone. */
  datatype Phase = Idle | Opening | Awaiting | Serving | Ended

  /**
   * The fields of the client. `name` is `client_name`, which a rename
   * reply can set to null; `countdown` is the field `disconnect`;
   * `socketOpen` is `socket != null`; `remote` is the MAC of the
   * recorded server handle; `queue` is `data_queue`, a set of arrays by
   * identity, so equal frames can be queued more than once; `ticking`
   * is whether the countdown timer runs.
   */
  datatype State = State(
    name: Option<string>,
    key: string,
    countdown: nat,
    disconnecting: bool,
    debug: bool,
    operative: bool,
    instantClose: bool,
    award: bool,
    tryingConnect: bool,
    socketOpen: bool,
    remote: Option<string>,
    queue: multiset<Payload>,
    phase: Phase,
    ticking: bool)

  datatype Outcome = Outcome(state: State, effects: seq<ClientEffect>)

  /** A new client, named `client_<random>`; the random name is a parameter. */
  function Initial(name: string): State
  {
    State(Some(name), "", COUNTDOWN, false, false, false, false, false, true, false, None, multiset{}, Idle, false)
  }

  // ---------------------------------------------------------------------
  // The frames the client writes

  /** `connect`: MAC, COMMAND_ENABLED, COMMAND and ARGUMENT, then ACCESS_KEY only when there is a key. */
  function ConnectFrame(mac: string, name: string, key: string): Payload
  {
    var texts := map[MAC_KEY := mac, COMMAND := "connect", ARGUMENT := name];
    Control(if key == "" then texts else texts[ACCESS_KEY := key])
  }

  function RenameFrame(mac: string, name: string): Payload
  {
    Control(map[MAC_KEY := mac, COMMAND := "rename", ARGUMENT := name])
  }

  function DisconnectFrame(mac: string): Payload
  {
    Control(map[MAC_KEY := mac, COMMAND := "disconnect", ARGUMENT := CLIENT_REQUEST_TEXT])
  }

  /** `send(data)`: the decoded data stamped with the client's MAC as a plain message; undecodable data throws. */
  function MessageFrame(mac: string, data: Decoding): Option<Payload>
  {
    match data
    case NotBase64 => None
    case NoObject => Some(Stamp(mac))
    case Output(p) => Some(Routed(p, mac))
  }

  /** The connect command carries the client's name, and an access key exactly when one is set. */
  lemma ConnectFrameReads(mac: string, name: string, key: string)
    ensures var p := ConnectFrame(mac, name, key);
      p.GetString(MAC_KEY) == Some(mac) && p.GetBoolean(COMMAND_ENABLED) &&
      p.GetString(COMMAND) == Some("connect") && p.GetString(ARGUMENT) == Some(name) &&
      p.GetString(ACCESS_KEY) == (if key == "" then None else Some(key))
  {
    var p := ConnectFrame(mac, name, key);
    assert p.sequences[MAC_KEY] == mac;
    assert p.sequences[COMMAND] == "connect";
    assert p.sequences[ARGUMENT] == name;
    if key == "" {
      assert ACCESS_KEY !in p.sequences;
    } else {
      assert p.sequences[ACCESS_KEY] == key;
    }
  }

  /** A message the client sends carries its MAC with COMMAND_ENABLED false, and the decoded data's other entries. */
  lemma MessageFrameReads(mac: string, p: Payload, key: string, t: DataType)
    ensures var f := MessageFrame(mac, Output(p)).value;
      f.GetString(MAC_KEY) == Some(mac) && !f.GetBoolean(COMMAND_ENABLED) &&
      (!(key == MAC_KEY && t == SEQUENCE) && !(key == COMMAND_ENABLED && t == BOOLEAN) ==> f.Get(key, t) == p.Get(key, t))
  {
    RoutedFields(p, mac, key, t);
  }

  /** `println` of a compiled frame. */
  function Printed(p: Payload): ClientEffect
  {
    Write(SslWrite(p, true))
  }

  /** The frames `ps` printed one after the other. */
  function PrintedAll(ps: seq<Payload>): (r: seq<ClientEffect>)
    ensures |r| == |ps|
    ensures forall i :: 0 <= i < |ps| ==> r[i] == Printed(ps[i])
    decreases |ps|
  {
    if ps == [] then [] else PrintedAll(ps[..|ps| - 1]) + [Printed(ps[|ps| - 1])]
  }

  // ---------------------------------------------------------------------
  // connect and the connect thread

  /** `connect()`: nothing, and no future, while operative; otherwise the flags are reset and the thread starts. */
  function ConnectStep(s: State): (State, bool)
  {
    if s.operative then (s, false)
    else (s.(tryingConnect := true, disconnecting := false, phase := Opening), true)
  }

  /** `connect(accessKey)`: the key is only taken when the client is not operative. */
  function ConnectWithKeyStep(s: State, accessKey: string): (State, bool)
  {
    if s.operative then (s, false) else ConnectStep(s.(key := accessKey))
  }

  /** Opening the socket and the TLS handshake: on failure the future completes with false and the thread ends. */
  function OpenStep(s: State, ok: bool): Outcome
    requires s.phase == Opening
  {
    if ok then Outcome(s.(award := true, socketOpen := true, phase := Awaiting), [])
    else Outcome(s.(phase := Ended), [Complete(false)])
  }

  /**
   * Leaving the award loop, because `award_connection` is false or through
   * the exception caught around the loop: the future completes with true,
   * and the operative loop runs only if `operative` is set.
   */
  function LeaveAwait(s: State, effects: seq<ClientEffect>): Outcome
  {
    Outcome(s.(phase := if s.operative then Serving else Ended), effects + [Complete(true)])
  }

  /** The `instant_close` branch of the award loop: every flag down and the socket dropped. */
  function TornDown(s: State): State
  {
    s.(tryingConnect := false, award := false, operative := false, socketOpen := false)
  }

  /** The resend of the connect command: what is written, and whether it threw (a null name or no socket). */
  function Resent(s: State, mac: string): (seq<ClientEffect>, bool)
  {
    if !s.tryingConnect then ([], false)
    else if s.name.None? || !s.socketOpen then ([], true)
    else ([Printed(ConnectFrame(mac, s.name.value, s.key))], false)
  }

  /** What a line read by the award loop answers to the connect command. */
  datatype Answer = Unrelated | Accepted(server: string) | Refused

  /**
   * An enabled command with a MAC is an accept when its COMMAND is
   * "accept", ignoring case, and a refusal when its ARGUMENT is "connect";
   * anything else leaves the loop waiting.
   */
  function AnswerTo(input: Payload): Answer
  {
    var command := input.GetString(COMMAND);
    var mac := input.GetString(MAC_KEY);
    if !input.GetBoolean(COMMAND_ENABLED) || command.None? || mac.None? then Unrelated
    else if EqualsIgnoreCase(command.value, "accept") then Accepted(mac.value)
    else
      var argument := input.GetString(ARGUMENT);
      if argument.Some? && EqualsIgnoreCase(argument.value, "connect") then Refused else Unrelated
  }

  /** The answer in a line read by the award loop; None when reading or decoding it throws. */
  function Heard(read: Option<Payload>): Option<Answer>
  {
    match read
    case None => None
    case Some(input) => Some(AnswerTo(input))
  }

  /**
   * The server's answer in the award loop, read only while not operative
   * and with a socket. An accept records the server and, with an empty
   * queue, makes the client operative; a queued frame makes the drain
   * throw first, because an SSL socket from a factory has no channel. A
   * refusal sets `instant_close` and completes the future with false.
   */
  function Answered(s: State, answer: Option<Answer>): Outcome
  {
    if s.operative || !s.socketOpen then Outcome(s, [])
    else
      match answer
      case None => LeaveAwait(s, [])
      case Some(Unrelated) => Outcome(s, [])
      case Some(Accepted(server)) =>
        var s1 := s.(remote := Some(server));
        if s1.queue != multiset{} then LeaveAwait(s1, [])
        else Outcome(s1.(award := false, operative := true), [Fire(ServerConnect(server))])
      case Some(Refused) => Outcome(s.(instantClose := true), [Complete(false)])
  }

  /** One pass of the award loop; `read` is the decoded line, None when reading or decoding it throws. */
  function AwaitStep(s: State, mac: string, read: Option<Payload>): Outcome
    requires s.phase == Awaiting
  {
    if !s.award then LeaveAwait(s, [])
    else Handshake(if s.instantClose then TornDown(s) else s, mac, read)
  }

  /** The rest of the pass: the resend, then the answer when the resend did not throw. */
  function Handshake(s: State, mac: string, read: Option<Payload>): Outcome
  {
    var (sent, threw) := Resent(s, mac);
    if threw then LeaveAwait(s, sent)
    else
      var o := Answered(s, Heard(read));
      Outcome(o.state, sent + o.effects)
  }

  /**
   * What a frame read by the operative loop makes the client do: nothing,
   * hand it to the listeners, take a new name, die on an exception, fire
   * a disconnect event, or fire one and drop the connection.
   */
  datatype Reaction =
    | Ignore
    | Deliver
    | TakeName(name: Option<string>)
    | Crash
    | Report(reason: Option<string>)
    | Drop(reason: Option<string>)

  /** The `failed` replies: two of them fire a disconnect event; an ARGUMENT_DATA with too few comma pieces throws. */
  function FailedReaction(argument: string, data: Option<string>): Reaction
  {
    if argument == "connect" then
      if data.None? then Ignore
      else if |SplitComma(data.value)| < 2 then Crash
      else Report(Some(SplitComma(data.value)[1]))
    else if argument == "rename" then
      if data.Some? && |SplitComma(data.value)| < 2 then Crash else Ignore
    else if argument == "disconnect" then
      if data.Some? then Report(Some(NO_SERVER_REASON_TEXT)) else Ignore
    else if argument == "unknown" then
      if data.Some? && |SplitComma(data.value)| < 3 then Crash else Ignore
    else Ignore
  }

  /**
   * A `failed` reply never drops the connection, delivers or renames; it
   * fires a disconnect event only for a declined connect with a reason
   * piece or a failed disconnect with data, and throws exactly where an
   * array index past the comma pieces is read.
   */
  lemma FailedOutcomes(argument: string, data: Option<string>)
    ensures var r := FailedReaction(argument, data);
      !r.Deliver? && !r.Drop? && !r.TakeName? &&
      (r.Report? <==> data.Some? && ((argument == "connect" && |SplitComma(data.value)| >= 2) || argument == "disconnect")) &&
      (r.Crash? <==> data.Some? && (((argument == "connect" || argument == "rename") && |SplitComma(data.value)| < 2) ||
                                    (argument == "unknown" && |SplitComma(data.value)| < 3))) &&
      (r.Report? && argument == "connect" ==> r.reason == Some(SplitComma(data.value)[1])) &&
      (r.Report? && argument == "disconnect" ==> r.reason == Some(NO_SERVER_REASON_TEXT))
  {
  }

  /**
   * The reaction to a frame, for a client whose recorded server has the
   * MAC `server`: frames under another MAC are ignored, plain frames go
   * to the listeners, and the commands success, failed and disconnect are
   * handled.
   */
  function ReactionTo(server: string, debug: bool, input: Payload): Reaction
  {
    if input.GetString(MAC_KEY) != Some(server) then Ignore
    else if !input.GetBoolean(COMMAND_ENABLED) then Deliver
    else
      var command := input.GetString(COMMAND);
      var argument := input.GetString(ARGUMENT);
      if command.None? || argument.None? then Ignore
      else
        var data := input.GetString(ARGUMENT_DATA);
        var c := Lower(command.value);
        var a := Lower(argument.value);
        if c == "success" then
          if a == "rename" then TakeName(data)
          else if a == "unknown" && debug && data.Some? && |SplitComma(data.value)| < 3 then Crash
          else Ignore
        else if c == "failed" then FailedReaction(a, data)
        else if c == "disconnect" then Drop(data)
        else Ignore
  }

  /** The state the `disconnect` command and the end of the countdown both leave. */
  function Disconnected(s: State): State
  {
    s.(operative := false, award := false, tryingConnect := true, socketOpen := false, disconnecting := false)
  }

  /** Carrying out a reaction to the frame `input`. */
  function React(s: State, input: Payload, r: Reaction): Outcome
  {
    match r
    case Ignore => Outcome(s, [])
    case Deliver => Outcome(s, [Fire(ServerMessage(input))])
    case TakeName(name) => Outcome(s.(name := name), [])
    case Crash => Outcome(s.(phase := Ended), [])
    case Report(reason) => Outcome(s, [Fire(ServerDisconnect(reason))])
    case Drop(reason) => Outcome(Disconnected(s), [Fire(ServerDisconnect(reason))])
  }

  /** A frame read by the operative loop. */
  function ReplyStep(s: State, input: Payload): Outcome
    requires s.remote.Some?
  {
    React(s, input, ReactionTo(s.remote.value, s.debug, input))
  }

  /**
   * One pass of the operative loop. The queue is written in the set's
   * iteration order `order` and emptied; otherwise a line is read and
   * handled. `read` is None when reading or decoding it throws.
   */
  function ServeStep(s: State, read: Option<Payload>, order: seq<Payload>): Outcome
    requires s.phase == Serving && multiset(order) == s.queue
  {
    if !s.operative then Outcome(s.(phase := Ended), [])
    else if !s.socketOpen then Outcome(s, [])
    else if s.queue != multiset{} then Outcome(s.(queue := multiset{}), PrintedAll(order))
    else if s.remote.None? then Outcome(s, [])
    else
      match read
      case None => Outcome(s.(phase := Ended), [])
      case Some(input) => ReplyStep(s, input)
  }

  // ---------------------------------------------------------------------
  // rename, send, close and the countdown

  /** `rename(name)`: while awarded or operative the name changes at once; a failed write queues the frame. */
  function RenameStep(s: State, mac: string, newName: string, streamOk: bool): Outcome
  {
    if !(s.award || s.operative) then Outcome(s, [])
    else
      var s1 := s.(name := Some(newName));
      var frame := RenameFrame(mac, newName);
      if s.socketOpen && streamOk then Outcome(s1, [Printed(frame)])
      else Outcome(s1.(queue := s1.queue + multiset{frame}), [])
  }

  /** `send(data)`: the same guard; undecodable data makes the call throw. */
  function SendStep(s: State, mac: string, data: Decoding, streamOk: bool): (Outcome, bool)
  {
    if !(s.award || s.operative) then (Outcome(s, []), false)
    else
      match MessageFrame(mac, data)
      case None => (Outcome(s, []), true)
      case Some(frame) =>
        if s.socketOpen && streamOk then (Outcome(s, [Printed(frame)]), false)
        else (Outcome(s.(queue := s.queue + multiset{frame}), []), false)
  }

  /**
   * `close()`: while operative and not yet disconnecting, the disconnect
   * command is written and the countdown starts from 10; before the
   * client is operative only `instant_close` is set.
   */
  function CloseStep(s: State, mac: string, streamOk: bool): Outcome
  {
    if !s.operative then Outcome(s.(instantClose := true), [])
    else if s.disconnecting then Outcome(s, [])
    else if s.socketOpen && streamOk then
      Outcome(s.(countdown := COUNTDOWN, disconnecting := true, ticking := true), [Printed(DisconnectFrame(mac))])
    else Outcome(s, [])
  }

  /** One second of the countdown timer: count down, tear down at 0, or cancel once no longer disconnecting. */
  function TickStep(s: State): State
    requires s.ticking
  {
    if !s.disconnecting then s.(ticking := false)
    else if s.countdown == 0 then Disconnected(s)
    else s.(countdown := s.countdown - 1)
  }

  /** `n` seconds of the timer, or fewer if it is cancelled. */
  function Ticks(s: State, n: nat): State
    decreases n
  {
    if n == 0 || !s.ticking then s else Ticks(TickStep(s), n - 1)
  }

  // ---------------------------------------------------------------------
  // Properties

  /** connect is refused while operative; otherwise it asks for a connect and clears `disconnecting`. */
  lemma ConnectGuard(s: State)
    ensures ConnectStep(s).1 <==> !s.operative
    ensures !s.operative ==> var r := ConnectStep(s).0;
      r.tryingConnect && !r.disconnecting && r.phase == Opening &&
      r == s.(tryingConnect := true, disconnecting := false, phase := Opening)
    ensures s.operative ==> ConnectStep(s).0 == s
  {
  }

  /**
   * While the connection is awarded and no close is pending, every pass
   * of the award loop writes the connect command again, with ACCESS_KEY
   * exactly when a key is set, and still wants to connect afterwards.
   */
  lemma HandshakeResends(s: State, mac: string, read: Option<Payload>)
    requires s.phase == Awaiting && s.award && !s.instantClose && s.tryingConnect
    requires s.name.Some? && s.socketOpen
    ensures var r := AwaitStep(s, mac, read);
      |r.effects| >= 1 && r.effects[0] == Printed(ConnectFrame(mac, s.name.value, s.key)) &&
      r.state.tryingConnect
    ensures ConnectFrame(mac, s.name.value, s.key).GetString(ACCESS_KEY) ==
      (if s.key == "" then None else Some(s.key))
  {
    ConnectFrameReads(mac, s.name.value, s.key);
  }

  /**
   * An accept while nothing is queued records the server, makes the
   * client operative and fires ServerConnectEvent. With a frame queued
   * the drain throws: the award loop ends with nothing written, the client
   * never becomes operative and the thread ends.
   */
  lemma AcceptAnswer(s: State, mac: string, server: string, input: Payload)
    requires s.phase == Awaiting && s.award && !s.instantClose && !s.tryingConnect
    requires !s.operative && s.socketOpen
    requires input.GetBoolean(COMMAND_ENABLED) && input.GetString(MAC_KEY) == Some(server)
    requires input.GetString(COMMAND).Some? && EqualsIgnoreCase(input.GetString(COMMAND).value, "accept")
    ensures var r := AwaitStep(s, mac, Some(input));
      s.queue == multiset{} ==>
        r.state == s.(remote := Some(server), award := false, operative := true) &&
        r.effects == [Fire(ServerConnect(server))]
    ensures var r := AwaitStep(s, mac, Some(input));
      s.queue != multiset{} ==>
        r.state == s.(remote := Some(server), phase := Ended) && r.effects == [Complete(true)] &&
        !r.state.operative && r.state.award
  {
  }

  /**
   * A refusal sets `instant_close` and completes the future with false;
   * the next pass drops every flag and the socket, and the pass after that
   * leaves the loop and ends the thread.
   */
  lemma DeclineTearsDown(s: State, mac: string, input: Payload, next: Option<Payload>, last: Option<Payload>)
    requires s.phase == Awaiting && s.award && !s.instantClose && !s.tryingConnect && !s.operative && s.socketOpen
    requires input.GetBoolean(COMMAND_ENABLED) && input.GetString(MAC_KEY).Some?
    requires input.GetString(COMMAND).Some? && !EqualsIgnoreCase(input.GetString(COMMAND).value, "accept")
    requires input.GetString(ARGUMENT).Some? && EqualsIgnoreCase(input.GetString(ARGUMENT).value, "connect")
    ensures var r1 := AwaitStep(s, mac, Some(input));
      r1.state == s.(instantClose := true) && r1.effects == [Complete(false)]
    ensures var r2 := AwaitStep(s.(instantClose := true), mac, next);
      r2.state == TornDown(s.(instantClose := true)) && r2.effects == [] &&
      !r2.state.operative && !r2.state.award && !r2.state.tryingConnect && !r2.state.socketOpen
    ensures var r3 := AwaitStep(TornDown(s.(instantClose := true)), mac, last);
      r3.state.phase == Ended && r3.state.instantClose && r3.effects == [Complete(true)]
  {
  }

  /** No call the application makes ever clears `instant_close` once it is set. */
  lemma InstantCloseSticks(s: State, mac: string, accessKey: string, ok: bool)
    requires s.instantClose
    ensures ConnectStep(s).0.instantClose && ConnectWithKeyStep(s, accessKey).0.instantClose
    ensures CloseStep(s, mac, ok).state.instantClose
    ensures s.ticking ==> TickStep(s).instantClose
  {
  }

  /** Neither do rename and send. */
  lemma InstantCloseSticksOnWrites(s: State, mac: string, newName: string, data: Decoding, ok: bool)
    requires s.instantClose
    ensures RenameStep(s, mac, newName, ok).state.instantClose
    ensures SendStep(s, mac, data, ok).0.state.instantClose
  {
  }

  /** Nor does the connect thread. */
  lemma InstantCloseSticksInThread(s: State, mac: string, read: Option<Payload>, order: seq<Payload>, ok: bool)
    requires s.instantClose
    ensures s.phase == Opening ==> OpenStep(s, ok).state.instantClose
    ensures s.phase == Awaiting ==> AwaitStep(s, mac, read).state.instantClose
    ensures s.phase == Serving && multiset(order) == s.queue ==> ServeStep(s, read, order).state.instantClose
  {
    if s.phase == Serving && multiset(order) == s.queue && s.operative && s.socketOpen &&
       s.queue == multiset{} && s.remote.Some? && read.Some? {
      ReactionKeepsInstantClose(s, read.value, ReactionTo(s.remote.value, s.debug, read.value));
    }
  }

  lemma ReactionKeepsInstantClose(s: State, input: Payload, r: Reaction)
    ensures React(s, input, r).state.instantClose == s.instantClose
  {
    match r
    case Drop(reason) =>
      assert React(s, input, r).state == Disconnected(s);
    case _ =>
  }

  /** Once operative, a frame under any MAC but the recorded server's changes nothing and fires nothing. */
  lemma ForeignFramesIgnored(s: State, input: Payload)
    requires s.phase == Serving && s.operative && s.socketOpen && s.queue == multiset{} && s.remote.Some?
    requires input.GetString(MAC_KEY) != s.remote
    ensures ServeStep(s, Some(input), []) == Outcome(s, [])
  {
  }

  /** From the server, a frame that is not a command reaches the listeners as ServerMessageEvent and changes nothing. */
  lemma PlainFramesDelivered(s: State, input: Payload)
    requires s.phase == Serving && s.operative && s.socketOpen && s.queue == multiset{} && s.remote.Some?
    requires input.GetString(MAC_KEY) == s.remote && !input.GetBoolean(COMMAND_ENABLED)
    ensures ServeStep(s, Some(input), []) == Outcome(s, [Fire(ServerMessage(input))])
  {
  }

  /** success/rename from the server sets the name to ARGUMENT_DATA, null included, and changes nothing else. */
  lemma RenameConfirmed(s: State, input: Payload)
    requires s.phase == Serving && s.operative && s.socketOpen && s.queue == multiset{} && s.remote.Some?
    requires input.GetString(MAC_KEY) == s.remote && input.GetBoolean(COMMAND_ENABLED)
    requires input.GetString(COMMAND).Some? && Lower(input.GetString(COMMAND).value) == "success"
    requires input.GetString(ARGUMENT).Some? && Lower(input.GetString(ARGUMENT).value) == "rename"
    ensures ServeStep(s, Some(input), []) == Outcome(s.(name := input.GetString(ARGUMENT_DATA)), [])
  {
  }

  /**
   * A disconnect command from the server fires ServerDisconnectEvent with
   * ARGUMENT_DATA as the reason, leaves the client neither operative nor
   * awarded but wanting to connect, drops the socket and stops any
   * pending disconnect; the next pass ends the thread.
   */
  lemma ServerDisconnects(s: State, input: Payload, next: Option<Payload>)
    requires s.phase == Serving && s.operative && s.socketOpen && s.queue == multiset{} && s.remote.Some?
    requires input.GetString(MAC_KEY) == s.remote && input.GetBoolean(COMMAND_ENABLED)
    requires input.GetString(COMMAND).Some? && Lower(input.GetString(COMMAND).value) == "disconnect"
    requires input.GetString(ARGUMENT).Some?
    ensures var r := ServeStep(s, Some(input), []);
      r.effects == [Fire(ServerDisconnect(input.GetString(ARGUMENT_DATA)))] &&
      !r.state.operative && !r.state.award && r.state.tryingConnect && !r.state.disconnecting &&
      !r.state.socketOpen && r.state == Disconnected(s)
    ensures ServeStep(Disconnected(s), next, []).state.phase == Ended
  {
    assert Lower(input.GetString(COMMAND).value) != "success";
    assert Lower(input.GetString(COMMAND).value) != "failed";
  }

  /** The operative loop writes every queued frame, in the set's order, and empties the queue before reading again. */
  lemma QueueDrained(s: State, read: Option<Payload>, order: seq<Payload>)
    requires s.phase == Serving && multiset(order) == s.queue
    requires s.operative && s.socketOpen && s.queue != multiset{}
    ensures var r := ServeStep(s, read, order);
      r.state == s.(queue := multiset{}) && |r.effects| == |order| &&
      forall i :: 0 <= i < |order| ==> r.effects[i] == Write(SslWrite(order[i], true))
  {
  }

  /** rename and send do nothing at all unless the connection is awarded or operative. */
  lemma UnconnectedCallsIgnored(s: State, mac: string, newName: string, data: Decoding, streamOk: bool)
    requires !s.award && !s.operative
    ensures RenameStep(s, mac, newName, streamOk) == Outcome(s, [])
    ensures SendStep(s, mac, data, streamOk) == (Outcome(s, []), false)
  {
  }

  /**
   * A rename takes effect on the client before the server confirms it;
   * the rename command is written, or queued when the write fails.
   */
  lemma RenameBeforeConfirmation(s: State, mac: string, newName: string, streamOk: bool)
    requires s.award || s.operative
    ensures var r := RenameStep(s, mac, newName, streamOk);
      r.state.name == Some(newName) &&
      (s.socketOpen && streamOk ==> r.effects == [Printed(RenameFrame(mac, newName))] && r.state.queue == s.queue) &&
      (!(s.socketOpen && streamOk) ==> r.effects == [] && r.state.queue == s.queue + multiset{RenameFrame(mac, newName)})
  {
  }

  /** A message whose write fails is queued, once more, with the client's MAC stamped on it. */
  lemma FailedSendQueued(s: State, mac: string, p: Payload)
    requires s.award || s.operative
    ensures var (r, threw) := SendStep(s, mac, Output(p), false);
      !threw && r.effects == [] && r.state == s.(queue := s.queue + multiset{Routed(p, mac)})
  {
  }

  /** Counting down one second at a time: `n` seconds leave the flags alone while the count lasts. */
  lemma {:induction false} CountingDown(s: State, n: nat)
    requires s.ticking && s.disconnecting && n <= s.countdown
    ensures Ticks(s, n) == s.(countdown := s.countdown - n)
    decreases n
  {
    if n > 0 {
      var t := s.(countdown := s.countdown - 1);
      OneSecond(s);
      CountingDown(t, n - 1);
      CountdownComposes(s, n);
    }
  }

  /** A second of the countdown while the count is positive only lowers it. */
  lemma OneSecond(s: State)
    requires s.ticking && s.disconnecting && s.countdown > 0
    ensures TickStep(s) == s.(countdown := s.countdown - 1)
  {
  }

  lemma CountdownComposes(s: State, n: nat)
    requires 0 < n <= s.countdown
    ensures var t := s.(countdown := s.countdown - 1); t.(countdown := t.countdown - (n - 1)) == s.(countdown := s.countdown - n)
  {
  }

  /**
   * close on an operative client writes the disconnect command and starts
   * the countdown from 10. Ten seconds later the client is still operative,
   * with the count at 0; the eleventh second tears it down.
   */
  lemma CloseCountdown(s: State, mac: string)
    requires s.operative && !s.disconnecting && s.socketOpen
    ensures var c := CloseStep(s, mac, true);
      c.effects == [Printed(DisconnectFrame(mac))] && c.state.disconnecting &&
      Ticks(c.state, COUNTDOWN) == c.state.(countdown := 0) && Ticks(c.state, COUNTDOWN).operative &&
      Ticks(c.state, COUNTDOWN + 1) == Disconnected(c.state.(countdown := 0)) &&
      !Ticks(c.state, COUNTDOWN + 1).operative && !Ticks(c.state, COUNTDOWN + 1).socketOpen
  {
    var c := CloseStep(s, mac, true).state;
    CountingDown(c, COUNTDOWN);
    var z := c.(countdown := 0);
    assert Ticks(z, 1) == Ticks(TickStep(z), 0);
    TicksSplit(c, COUNTDOWN, 1);
  }

  /** `m + n` seconds are `m` seconds, then `n`. */
  lemma {:induction false} TicksSplit(s: State, m: nat, n: nat)
    ensures Ticks(s, m + n) == Ticks(Ticks(s, m), n)
    decreases m
  {
    if m > 0 && s.ticking {
      TicksSplit(TickStep(s), m - 1, n);
      assert m + n - 1 == (m - 1) + n;
    }
  }

  /** close while already disconnecting does nothing; close before the client is operative only sets `instant_close`. */
  lemma CloseWhenNotOperative(s: State, mac: string, streamOk: bool)
    ensures s.operative && s.disconnecting ==> CloseStep(s, mac, streamOk) == Outcome(s, [])
    ensures !s.operative ==> CloseStep(s, mac, streamOk) == Outcome(s.(instantClose := true), [])
  {
  }

  // ---------------------------------------------------------------------
  // The client object

  class Client {
    var clientName: Option<string>
    var key: string
    var countdown: nat
    var disconnecting: bool
    var debug: bool
    var operative: bool
    var instantClose: bool
    var award: bool
    var tryingConnect: bool
    var socketOpen: bool
    var remote: SslRemoteServer?
    var queue: multiset<Payload>
    var phase: Phase
    var ticking: bool
    /** Everything written, fired and completed so far, in order. */
    var effects: seq<ClientEffect>
    /** `getMAC()`. */
    const mac: string
    /** The server's host and port, as given to the constructor. */
    const serverHost: string
    const serverPort: nat

    function Snapshot(): State
      reads this
    {
      State(clientName, key, countdown, disconnecting, debug, operative, instantClose, award,
            tryingConnect, socketOpen, if remote == null then None else remote.mac, queue, phase, ticking)
    }

    /** A handle recorded from an accept always knows the server's MAC. */
    predicate Valid()
      reads this
    {
      remote != null ==> remote.mac.Some?
    }

    constructor (clientMac: string, randomName: string, host: string, port: nat)
      ensures Snapshot() == Initial(randomName) && effects == [] && Valid()
      ensures mac == clientMac && serverHost == host && serverPort == port
    {
      clientName, key, countdown, disconnecting, debug := Some(randomName), "", COUNTDOWN, false, false;
      operative, instantClose, award, tryingConnect, socketOpen := false, false, false, true, false;
      remote, queue, phase, ticking, effects := null, multiset{}, Idle, false, [];
      mac, serverHost, serverPort := clientMac, host, port;
    }

    /** `getName()`. */
    function GetName(): (r: Option<string>)
      reads this
      ensures r == clientName
    {
      clientName
    }

    /** `isConnecting()`. */
    function IsConnecting(): (r: bool)
      reads this
      ensures r <==> tryingConnect || award
    {
      tryingConnect || award
    }

    method Debug(status: bool)
      modifies this
      ensures Snapshot() == old(Snapshot()).(debug := status) && effects == old(effects) && Valid() == old(Valid())
    {
      debug := status;
    }

    method Println(p: Payload)
      modifies this
      ensures Snapshot() == old(Snapshot()) && effects == old(effects) + [Printed(p)] && remote == old(remote)
    {
      effects := effects + [Write(SslWrite(p, true))];
    }

    method Emit(e: ClientEffect)
      modifies this
      ensures Snapshot() == old(Snapshot()) && effects == old(effects) + [e] && remote == old(remote)
    {
      effects := effects + [e];
    }

    method Connect() returns (started: bool)
      modifies this
      ensures (Snapshot(), started) == ConnectStep(old(Snapshot())) && effects == old(effects)
      ensures Valid() == old(Valid())
    {
      if operative {
        return false;
      }
      tryingConnect := true;
      disconnecting := false;
      phase := Opening;
      started := true;
    }

    method ConnectWithKey(accessKey: string) returns (started: bool)
      modifies this
      ensures (Snapshot(), started) == ConnectWithKeyStep(old(Snapshot()), accessKey) && effects == old(effects)
      ensures Valid() == old(Valid())
    {
      if operative {
        return false;
      }
      key := accessKey;
      started := Connect();
    }

    method Opened(ok: bool)
      requires phase == Opening
      modifies this
      ensures var o := OpenStep(old(Snapshot()), ok); Snapshot() == o.state && effects == old(effects) + o.effects
      ensures Valid() == old(Valid())
    {
      if !ok {
        phase := Ended;
        Emit(Complete(false));
        return;
      }
      socketOpen := true;
      award := true;
      phase := Awaiting;
    }

    method LeaveAwaitLoop()
      modifies this
      ensures var o := LeaveAwait(old(Snapshot()), []);
        Snapshot() == o.state && effects == old(effects) + o.effects
      ensures remote == old(remote)
    {
      Emit(Complete(true));
      phase := if operative then Serving else Ended;
    }

    /** `new MessageDataOutput()`, the four writes and the key when there is one, then `compile()`. */
    static method ComposeConnect(clientMac: string, name: string, accessKey: string) returns (compiled: Payload)
      ensures compiled == ConnectFrame(clientMac, name, accessKey)
    {
      var output := new MessageDataOutput();
      output.WriteSequence(MAC_KEY, clientMac);
      output.WriteBoolean(COMMAND_ENABLED, true);
      output.WriteSequence(COMMAND, "connect");
      output.WriteSequence(ARGUMENT, name);
      if accessKey != "" {
        output.WriteSequence(ACCESS_KEY, accessKey);
      }
      compiled := output.Compile();
    }

    static method ComposeCommand(clientMac: string, command: string, argument: string) returns (compiled: Payload)
      ensures compiled == Control(map[MAC_KEY := clientMac, COMMAND := command, ARGUMENT := argument])
    {
      var output := new MessageDataOutput();
      output.WriteSequence(MAC_KEY, clientMac);
      output.WriteBoolean(COMMAND_ENABLED, true);
      output.WriteSequence(COMMAND, command);
      output.WriteSequence(ARGUMENT, argument);
      compiled := output.Compile();
    }

    /** One pass of the award loop. */
    method AwaitPass(read: Option<Payload>)
      requires phase == Awaiting && Valid()
      modifies this
      ensures var o := AwaitStep(old(Snapshot()), mac, read); Snapshot() == o.state && effects == old(effects) + o.effects
      ensures Valid()
    {
      if !award {
        LeaveAwaitLoop();
        return;
      }
      if instantClose {
        TearDown();
      }
      HandshakePass(read);
    }

    /** The `instant_close` branch. */
    method TearDown()
      modifies this
      ensures Snapshot() == TornDown(old(Snapshot())) && effects == old(effects) && remote == old(remote)
    {
      tryingConnect, award, operative, socketOpen := false, false, false, false;
    }

    /** The resend, then the answer. */
    method HandshakePass(read: Option<Payload>)
      requires Valid()
      modifies this
      ensures var o := Handshake(old(Snapshot()), mac, read); Snapshot() == o.state && effects == old(effects) + o.effects
      ensures Valid()
    {
      var threw := Resend();
      if threw {
        LeaveAwaitLoop();
        return;
      }
      Listen(read);
    }

    /** Reading the server's answer, which happens only while not operative and with a socket. */
    method Listen(read: Option<Payload>)
      requires Valid()
      modifies this
      ensures var o := Answered(old(Snapshot()), Heard(read)); Snapshot() == o.state && effects == old(effects) + o.effects
      ensures Valid()
    {
      if !operative && socketOpen {
        var answer: Option<Answer> := None;
        if read.Some? {
          var a := ReadAnswer(read.value);
          answer := Some(a);
        }
        TakeAnswer(answer);
      }
    }

    /** The resend of the connect command while `tryingConnect` is set; it throws without a name or a socket. */
    method Resend() returns (threw: bool)
      modifies this
      ensures Snapshot() == old(Snapshot()) && remote == old(remote)
      ensures effects == old(effects) + Resent(old(Snapshot()), mac).0 && threw == Resent(old(Snapshot()), mac).1
    {
      threw := false;
      if tryingConnect {
        if clientName.None? || !socketOpen {
          return true;
        }
        var frame := ComposeConnect(mac, clientName.value, key);
        Println(frame);
      }
    }

    /** What an answer, read while not operative and with a socket, does; None when the read threw. */
    method TakeAnswer(answer: Option<Answer>)
      requires !operative && socketOpen && Valid()
      modifies this
      ensures var o := Answered(old(Snapshot()), answer); Snapshot() == o.state && effects == old(effects) + o.effects
      ensures Valid()
    {
      match answer {
        case None =>
          LeaveAwaitLoop();
        case Some(Unrelated) =>
        case Some(Accepted(server)) =>
          Accept(server);
        case Some(Refused) =>
          instantClose := true;
          Emit(Complete(false));
      }
    }

    /** An accept from the server with MAC `server`. */
    method Accept(server: string)
      requires !operative && socketOpen
      modifies this
      ensures var o := Answered(old(Snapshot()), Some(Accepted(server)));
        Snapshot() == o.state && effects == old(effects) + o.effects
      ensures Valid()
    {
      remote := new SslRemoteServer(Some(server), serverHost, serverPort, Socket(0, serverHost, serverPort));
      if queue != multiset{} {
        LeaveAwaitLoop();
        return;
      }
      award := false;
      operative := true;
      Emit(Fire(ServerConnect(server)));
    }

    /** The checks the award loop makes on a line it reads. */
    static method ReadAnswer(input: Payload) returns (answer: Answer)
      ensures answer == AnswerTo(input)
    {
      var command := input.GetString(COMMAND);
      var server := input.GetString(MAC_KEY);
      if !input.GetBoolean(COMMAND_ENABLED) || command.None? || server.None? {
        return Unrelated;
      }
      if EqualsIgnoreCase(command.value, "accept") {
        return Accepted(server.value);
      }
      var argument := input.GetString(ARGUMENT);
      if argument.Some? && EqualsIgnoreCase(argument.value, "connect") {
        return Refused;
      }
      return Unrelated;
    }

    /** The checks the operative loop makes on a frame from the server with MAC `server`. */
    static method ReadReaction(server: string, debug: bool, input: Payload) returns (r: Reaction)
      ensures r == ReactionTo(server, debug, input)
    {
      var from := input.GetString(MAC_KEY);
      if from != Some(server) {
        return Ignore;
      }
      if !input.GetBoolean(COMMAND_ENABLED) {
        return Deliver;
      }
      var command := input.GetString(COMMAND);
      var argument := input.GetString(ARGUMENT);
      if command.None? || argument.None? {
        return Ignore;
      }
      var data := input.GetString(ARGUMENT_DATA);
      var c := Lower(command.value);
      var a := Lower(argument.value);
      if c == "success" {
        if a == "rename" {
          r := TakeName(data);
        } else if a == "unknown" && debug && data.Some? && |SplitComma(data.value)| < 3 {
          r := Crash;
        } else {
          r := Ignore;
        }
      } else if c == "failed" {
        r := ReadFailed(a, data);
      } else if c == "disconnect" {
        r := Drop(data);
      } else {
        r := Ignore;
      }
    }

    /** The `failed` replies. */
    static method ReadFailed(argument: string, data: Option<string>) returns (r: Reaction)
      ensures r == FailedReaction(argument, data)
    {
      r := Ignore;
      if argument == "connect" {
        if data.Some? {
          var pieces := SplitComma(data.value);
          if |pieces| < 2 {
            r := Crash;
          } else {
            r := Report(Some(pieces[1]));
          }
        }
      } else if argument == "rename" {
        if data.Some? && |SplitComma(data.value)| < 2 {
          r := Crash;
        }
      } else if argument == "disconnect" {
        if data.Some? {
          r := Report(Some(NO_SERVER_REASON_TEXT));
        }
      } else if argument == "unknown" {
        if data.Some? && |SplitComma(data.value)| < 3 {
          r := Crash;
        }
      }
    }

    /** A frame read by the operative loop. */
    method Reply(input: Payload)
      requires remote != null && Valid()
      modifies this
      ensures var o := ReplyStep(old(Snapshot()), input); Snapshot() == o.state && effects == old(effects) + o.effects
      ensures Valid()
    {
      var r := ReadReaction(remote.mac.value, debug, input);
      Carry(input, r);
    }

    /** Carrying out the reaction `r` to the frame `input`. */
    method Carry(input: Payload, r: Reaction)
      modifies this
      ensures var o := React(old(Snapshot()), input, r); Snapshot() == o.state && effects == old(effects) + o.effects
      ensures remote == old(remote)
    {
      match r {
        case Ignore =>
        case Deliver =>
          Emit(Fire(ServerMessage(input)));
        case TakeName(name) =>
          clientName := name;
        case Crash =>
          phase := Ended;
        case Report(reason) =>
          Emit(Fire(ServerDisconnect(reason)));
        case Drop(reason) =>
          Emit(Fire(ServerDisconnect(reason)));
          Disconnect();
      }
    }

    /** What the `disconnect` command and the end of the countdown both do. */
    method Disconnect()
      modifies this
      ensures Snapshot() == Disconnected(old(Snapshot())) && effects == old(effects) && remote == old(remote)
    {
      operative, award, tryingConnect := false, false, true;
      socketOpen := false;
      disconnecting := false;
    }

    /** Every queued frame printed in the order `order`, and removed from the queue. */
    method Drain(order: seq<Payload>)
      requires multiset(order) == queue
      modifies this
      ensures Snapshot() == old(Snapshot()).(queue := multiset{}) && effects == old(effects) + PrintedAll(order)
      ensures remote == old(remote)
    {
      var written, left := PrintEach(order);
      effects := effects + written;
      queue := left;
    }

    /** The loop over the queue: each frame is printed, then removed. */
    static method PrintEach(order: seq<Payload>) returns (written: seq<ClientEffect>, left: multiset<Payload>)
      ensures written == PrintedAll(order) && left == multiset{}
    {
      var i := 0;
      left := multiset(order);
      written := [];
      while i < |order|
        invariant 0 <= i <= |order|
        invariant left == multiset(order[i..])
        invariant written == PrintedAll(order[..i])
      {
        assert order[..i + 1][..i] == order[..i];
        written := written + [Printed(order[i])];
        assert order[i..] == [order[i]] + order[i + 1..];
        left := left - multiset{order[i]};
        i := i + 1;
      }
      assert order[..|order|] == order;
    }

    /** One pass of the operative loop; `order` is the queue's iteration order. */
    method ServePass(read: Option<Payload>, order: seq<Payload>)
      requires phase == Serving && multiset(order) == queue && Valid()
      modifies this
      ensures var o := ServeStep(old(Snapshot()), read, order); Snapshot() == o.state && effects == old(effects) + o.effects
      ensures Valid()
    {
      if !operative {
        phase := Ended;
        return;
      }
      if !socketOpen {
        return;
      }
      if queue != multiset{} {
        Drain(order);
        return;
      }
      if remote == null {
        return;
      }
      if read.None? {
        phase := Ended;
        return;
      }
      Reply(read.value);
    }

    method Rename(newName: string, streamOk: bool)
      modifies this
      ensures var o := RenameStep(old(Snapshot()), mac, newName, streamOk);
        Snapshot() == o.state && effects == old(effects) + o.effects
      ensures Valid() == old(Valid())
    {
      if award || operative {
        clientName := Some(newName);
        var frame := ComposeCommand(mac, "rename", newName);
        if socketOpen && streamOk {
          Println(frame);
        } else {
          var again := ComposeCommand(mac, "rename", newName);
          queue := queue + multiset{again};
        }
      }
    }

    /**
     * The body of `send(data)` once the guard passes: the output takes the
     * decoded data as DIFFERENCE affiliate under the two routing writes and
     * is compiled; a failed write compiles it a second time, which merges
     * nothing new, so both compilations give the same frame.
     */
    static method ComposeMessage(clientMac: string, data: Decoding) returns (first: Payload, second: Payload)
      requires !data.NotBase64?
      ensures MessageFrame(clientMac, data) == Some(first) && second == first
    {
      var output: MessageDataOutput;
      if data.Output? {
        output := new MessageDataOutput.FromCompiled(data.p, DIFFERENCE);
      } else {
        output := new MessageDataOutput.WithAffiliate(null, DIFFERENCE);
      }
      output.WriteSequence(MAC_KEY, clientMac);
      output.WriteBoolean(COMMAND_ENABLED, false);
      assert output.View() == Stamp(clientMac);
      ghost var source := if output.affiliate == null then Empty else output.affiliate.View();
      first := output.Compile();
      assert output.affiliate != null ==> output.affiliate.View() == source;
      second := output.Compile();
      if data.Output? {
        StampMergedIsRouted(data.p, clientMac);
        MergeIdempotent(Stamp(clientMac), data.p, DIFFERENCE);
      }
    }

    /** `send(data)`. */
    method Send(data: Decoding, streamOk: bool) returns (threw: bool)
      modifies this
      ensures var (o, t) := SendStep(old(Snapshot()), mac, data, streamOk);
        Snapshot() == o.state && effects == old(effects) + o.effects && threw == t
      ensures Valid() == old(Valid())
    {
      threw := false;
      if !(award || operative) {
        return;
      }
      if data.NotBase64? {
        return true;
      }
      var compiled, again := ComposeMessage(mac, data);
      if socketOpen && streamOk {
        Println(compiled);
      } else {
        queue := queue + multiset{again};
      }
    }

    method Close(streamOk: bool)
      modifies this
      ensures var o := CloseStep(old(Snapshot()), mac, streamOk); Snapshot() == o.state && effects == old(effects) + o.effects
      ensures Valid() == old(Valid())
    {
      if !operative {
        instantClose := true;
        return;
      }
      if disconnecting {
        return;
      }
      if socketOpen && streamOk {
        var frame := ComposeCommand(mac, "disconnect", CLIENT_REQUEST_TEXT);
        Println(frame);
        countdown := COUNTDOWN;
        disconnecting := true;
        ticking := true;
      }
    }

    /** One run of the timer's action. */
    method Tick()
      requires ticking
      modifies this
      ensures Snapshot() == TickStep(old(Snapshot())) && effects == old(effects)
      ensures Valid() == old(Valid())
    {
      if !disconnecting {
        ticking := false;
      } else if countdown == 0 {
        Disconnect();
      } else {
        countdown := countdown - 1;
      }
    }
  }
}
