/**
 * `SSLServer`: the server side of the SSL work level. Every line a client
 * sends is decoded into a message and handled by one pass of the frame
 * loop: the sender is looked up (and filed under its address if it is
 * new), then either one of the commands connect, rename, disconnect or an
 * unknown one is run, or the frame is a plain message. The administration
 * calls (ban, kick, unBan, broadcast, redirect, close, start) act on the
 * same three collections: the clients by address, the name each open
 * socket is known under, and the banned MAC addresses.
 *
 * The behaviour is first given as functions on a `State` value (one frame,
 * one administration call); the class `Server` then does the same work
 * step by step on its fields, and every method is proved to leave the
 * fields as the function says.
 */
module SslServer {
  import opened Common
  import opened JavaLang
  import opened Message
  import opened MergeTypes
  import opened Remote

  type SslEffect = Effect<SslWrite>

  const BANNED_TEXT := "You are banned from this server!"
  const BAD_KEY_TEXT := "The provided access key is not valid for this server!"
  const NAME_TAKEN_TEXT := "A client with that name already exists!"
  const NOT_CONNECTED_TEXT := "You are not connected to this server!"
  const CLIENT_LEFT_TEXT := "Disconnect requested by client"
  const SERVER_CLOSED_TEXT := "Server closed"
  const BAN_NOTICE_TEXT := "You have been banned from this server!"
  const KICK_NOTICE_TEXT := "You have been kicked from this server!"

  // ---------------------------------------------------------------------
  // Replies

  function Accept(serverMac: string): Payload
  {
    Control(map[MAC_KEY := serverMac, COMMAND := "accept"])
  }

  function Decline(serverMac: string, reason: string): Payload
  {
    Control(map[MAC_KEY := serverMac, COMMAND := "decline", ARGUMENT := "connect", COMMAND_ARGUMENT := reason])
  }

  function Answer(serverMac: string, command: string, argument: string, data: string): Payload
  {
    Control(map[MAC_KEY := serverMac, COMMAND := command, ARGUMENT := argument, ARGUMENT_DATA := data])
  }

  /** The DISCONNECT command a server sends before it lets a client go. */
  function Notice(serverMac: string, text: string): Payload
  {
    Answer(serverMac, "DISCONNECT", "DISCONNECT", text)
  }

  /** `writer.println(compiled)`: every reply of the frame loop ends with a line terminator. */
  function Line(p: Payload): SslWrite
  {
    SslWrite(p, true)
  }

  /** What a reply says, read back with the getters a client uses. */
  lemma AnswerReads(serverMac: string, command: string, argument: string, data: string)
    ensures var p := Answer(serverMac, command, argument, data);
      p.GetString(MAC_KEY) == Some(serverMac) && p.GetBoolean(COMMAND_ENABLED) &&
      p.GetString(COMMAND) == Some(command) && p.GetString(ARGUMENT) == Some(argument) &&
      p.GetString(ARGUMENT_DATA) == Some(data)
  {
    var p := Answer(serverMac, command, argument, data);
    assert p.sequences[MAC_KEY] == serverMac;
    assert p.sequences[COMMAND] == command;
    assert p.sequences[ARGUMENT] == argument;
    assert p.sequences[ARGUMENT_DATA] == data;
  }

  /**
   * A notice handed to a client's `sendMessage` reaches it with the
   * client's own MAC and COMMAND_ENABLED = false: it is no longer a
   * command, and the DISCONNECT fields ride along as plain data.
   */
  lemma NoticeArrivesAsData(serverMac: string, text: string, clientMac: string)
    ensures var p := Routed(Notice(serverMac, text), clientMac);
      p.GetString(MAC_KEY) == Some(clientMac) && !p.GetBoolean(COMMAND_ENABLED) &&
      p.GetString(COMMAND) == Some("DISCONNECT") && p.GetString(ARGUMENT_DATA) == Some(text)
  {
    var p := Routed(Notice(serverMac, text), clientMac);
    assert p.sequences[MAC_KEY] == clientMac;
    assert p.booleans[COMMAND_ENABLED] == false;
    assert p.sequences[COMMAND] == "DISCONNECT";
    assert p.sequences[ARGUMENT_DATA] == text;
  }

  /**
   * `new MessageDataOutput()`, the writes MAC, COMMAND_ENABLED = true and
   * the three text fields in order, then `compile()`.
   */
  method ComposeAnswer(serverMac: string, command: string, argument: string, data: string) returns (compiled: Payload)
    ensures compiled == Answer(serverMac, command, argument, data)
  {
    var output := new MessageDataOutput();
    output.WriteSequence(MAC_KEY, serverMac);
    output.WriteBoolean(COMMAND_ENABLED, true);
    output.WriteSequence(COMMAND, command);
    output.WriteSequence(ARGUMENT, argument);
    output.WriteSequence(ARGUMENT_DATA, data);
    assert output.View() == Answer(serverMac, command, argument, data);
    compiled := output.Compile();
  }

  method ComposeAccept(serverMac: string) returns (compiled: Payload)
    ensures compiled == Accept(serverMac)
  {
    var output := new MessageDataOutput();
    output.WriteSequence(MAC_KEY, serverMac);
    output.WriteBoolean(COMMAND_ENABLED, true);
    output.WriteSequence(COMMAND, "accept");
    assert output.View() == Accept(serverMac);
    compiled := output.Compile();
  }

  method ComposeDecline(serverMac: string, reason: string) returns (compiled: Payload)
    ensures compiled == Decline(serverMac, reason)
  {
    var output := new MessageDataOutput();
    output.WriteSequence(MAC_KEY, serverMac);
    output.WriteBoolean(COMMAND_ENABLED, true);
    output.WriteSequence(COMMAND, "decline");
    output.WriteSequence(ARGUMENT, "connect");
    output.WriteSequence(COMMAND_ARGUMENT, reason);
    assert output.View() == Decline(serverMac, reason);
    compiled := output.Compile();
  }

  method ComposeNotice(serverMac: string, text: string) returns (output: MessageDataOutput)
    ensures fresh(output) && output.View() == Notice(serverMac, text)
  {
    output := new MessageDataOutput();
    output.WriteSequence(MAC_KEY, serverMac);
    output.WriteBoolean(COMMAND_ENABLED, true);
    output.WriteSequence(COMMAND, "DISCONNECT");
    output.WriteSequence(ARGUMENT, "DISCONNECT");
    output.WriteSequence(ARGUMENT_DATA, text);
  }

  // ---------------------------------------------------------------------
  // The server state and one pass of the frame loop

  /**
   * `clients`: handle by "host/port"; `connections`: the name each open
   * socket is known under; `banned`: MAC addresses; `key`: the access key;
   * `processed`: frames handled to the end; `queue`: the pending inputs.
   */
  datatype State = State(
    clients: map<string, ClientInfo>,
    connections: map<Socket, string>,
    banned: set<string>,
    key: string,
    processed: nat,
    operative: bool,
    queue: seq<Payload>)

  /** What one part of a pass leaves: the state, the effects in order, and whether it threw. */
  datatype Step = Step(state: State, effects: seq<SslEffect>, threw: bool)

  /** The result of one pass of the frame loop for one socket. */
  datatype Outcome = Outcome(state: State, effects: seq<SslEffect>)

  /** `getClient`: the handle filed under the address, or a new one named after the address, filed there. */
  function FileClient(s: State, dn: string, mac: Option<string>, sock: Socket): (r: (State, ClientInfo))
    ensures r.0 == s.(clients := s.clients[dn := r.1])
    ensures dn in s.clients ==> r.1 == s.clients[dn]
    ensures dn !in s.clients ==> r.1 == ClientInfo(dn, mac, sock)
  {
    if dn in s.clients then (s, s.clients[dn])
    else
      var client := ClientInfo(dn, mac, sock);
      (s.(clients := s.clients[dn := client]), client)
  }

  /** The membership test every command but connect starts with. */
  predicate Member(s: State, dn: string, designated: string)
  {
    dn in s.connections.Values || designated in s.connections.Values
  }

  /**
   * The exception path of the frame loop: the socket's entry is removed,
   * and so is every client whose name is the name that entry held.
   */
  function Drop(s: State, sock: Socket): (r: State)
    ensures r.connections == s.connections - {sock}
    ensures forall k :: k in r.clients <==>
      k in s.clients && !(sock in s.connections && s.clients[k].name == s.connections[sock])
    ensures forall k :: k in r.clients ==> r.clients[k] == s.clients[k]
    ensures r == s.(connections := r.connections, clients := r.clients)
  {
    var name := Lookup(s.connections, sock);
    s.(connections := s.connections - {sock},
       clients := map k | k in s.clients && Some(s.clients[k].name) != name :: s.clients[k])
  }

  /** Whether the connect command keeps `validKey` true: banned senders never reach the key test. */
  predicate ValidKey(s: State, mac: string, input: Payload)
  {
    mac in s.banned || s.key == "" || input.GetString(ACCESS_KEY) == Some(s.key)
  }

  /** `case "connect"`. A null MAC makes `banned.contains` throw. */
  function ConnectStep(s: State, serverMac: string, sock: Socket, dn: string, input: Payload,
                   mac: Option<string>, argument: string): Step
  {
    match mac
    case None => Step(s, [], true)
    case Some(m) =>
      if m !in s.banned && ValidKey(s, m, input) then
        var client := ClientInfo(argument, mac, sock);
        Step(s.(clients := s.clients[dn := client], connections := s.connections[sock := dn]),
             [Emit(ClientConnect(client)), Send(sock, Line(Accept(serverMac)))], false)
      else
        var reason := if ValidKey(s, m, input) then BANNED_TEXT else BAD_KEY_TEXT;
        Step(s.(connections := s.connections - {sock}), [Send(sock, Line(Decline(serverMac, reason)))], false)
  }

  /** `case "rename"`: the new name must not be one an open socket is known under. */
  function RenameStep(s: State, serverMac: string, sock: Socket, dn: string, mac: Option<string>,
                  member: bool, command: string, argument: string): Step
  {
    if member then
      if argument !in s.connections.Values then
        var client := ClientInfo(argument, mac, sock);
        Step(s.(clients := s.clients[dn := client], connections := s.connections[sock := argument]),
             [Emit(ClientCommand(client, command, argument, None)),
              Send(sock, Line(Answer(serverMac, "success", "rename", argument)))], false)
      else
        Step(s, [Send(sock, Line(Answer(serverMac, "failed", "rename", argument + "," + NAME_TAKEN_TEXT)))], false)
    else
      Step(s, [Send(sock, Line(Answer(serverMac, "failed", "rename", argument + "," + NOT_CONNECTED_TEXT)))], false)
  }

  /** `case "disconnect"`: the reply goes out first, then both entries go, then the event. */
  function DisconnectStep(s: State, serverMac: string, sock: Socket, dn: string, client: ClientInfo,
                      member: bool, argument: string): Step
  {
    if member then
      Step(s.(clients := s.clients - {dn}, connections := s.connections - {sock}),
           [Send(sock, Line(Notice(serverMac, CLIENT_LEFT_TEXT))),
            Emit(ClientDisconnect(client, KILLED_BY_CLIENT, argument))], false)
    else
      Step(s, [Send(sock, Line(Answer(serverMac, "failed", "disconnect", NOT_CONNECTED_TEXT)))], false)
  }

  /** `default`: an unknown command is handed to the listeners as it was written. */
  function UnknownStep(s: State, serverMac: string, sock: Socket, client: ClientInfo,
                   member: bool, command: string, argument: string): Step
  {
    if member then Step(s, [Emit(ClientCommand(client, command, argument, None))], false)
    else Step(s, [Send(sock, Line(Answer(serverMac, "failed", "unknown",
                                         command + "," + argument + "," + NOT_CONNECTED_TEXT)))], false)
  }

  /** A frame whose COMMAND_ENABLED is not true: acknowledged, then handed to the listeners. */
  function DataStep(s: State, serverMac: string, sock: Socket, client: ClientInfo, member: bool, input: Payload): Step
  {
    if member then
      Step(s, [Send(sock, Line(Answer(serverMac, "success", "message", client.name))),
               Emit(ClientMessage(client, input))], false)
    else
      Step(s, [Send(sock, Line(Answer(serverMac, "failed", "message", NOT_CONNECTED_TEXT)))], false)
  }

  /** The switch on `command.toLowerCase()`. */
  function CommandStep(s: State, serverMac: string, sock: Socket, dn: string, input: Payload, mac: Option<string>,
                   client: ClientInfo, member: bool, command: string, argument: string): Step
  {
    var c := Lower(command);
    if c == "connect" then ConnectStep(s, serverMac, sock, dn, input, mac, argument)
    else if c == "rename" then RenameStep(s, serverMac, sock, dn, mac, member, command, argument)
    else if c == "disconnect" then DisconnectStep(s, serverMac, sock, dn, client, member, argument)
    else UnknownStep(s, serverMac, sock, client, member, command, argument)
  }

  /** One decoded input from `sock`, after the queue step: look up the sender, then the command or the message. */
  function HandleStep(s: State, serverMac: string, sock: Socket, designated: string, input: Payload): Step
  {
    var dn := DefaultName(sock.host, sock.port);
    var mac := input.GetString(MAC_KEY);
    var (s1, client) := FileClient(s, dn, mac, sock);
    var member := Member(s1, dn, designated);
    if input.GetBoolean(COMMAND_ENABLED) then
      var command := input.GetString(COMMAND);
      var argument := input.GetString(ARGUMENT);
      if command.None? || argument.None? then Step(s1, [], false)
      else CommandStep(s1, serverMac, sock, dn, input, mac, client, member, command.value, argument.value)
    else DataStep(s1, serverMac, sock, client, member, input)
  }

  /**
   * One pass of the frame loop for an open socket. `read` is the decoded
   * line, or None when reading or decoding threw (the end of the stream
   * included). A pass that completes counts one more processed frame; one
   * that throws takes the exception path instead.
   */
  function Frame(s: State, serverMac: string, sock: Socket, read: Option<Payload>): Outcome
    requires sock in s.connections
  {
    match read
    case None => Outcome(Drop(s, sock), [])
    case Some(frame) =>
      var s1 := if s.queue == [] then s else s.(queue := s.queue + [frame]);
      var input := if s.queue == [] then frame else s.queue[0];
      var st := HandleStep(s1, serverMac, sock, s.connections[sock], input);
      if st.threw then Outcome(Drop(st.state, sock), st.effects)
      else Outcome(st.state.(processed := st.state.processed + 1), st.effects)
  }

  // ---------------------------------------------------------------------
  // The administration calls

  /**
   * What `client.sendMessage(message)` writes: nothing when the handle has
   * no MAC, or when the write to its socket throws, which it does exactly
   * for the sockets in `failing`.
   */
  function Sent(c: ClientInfo, message: Payload, failing: set<Socket>): seq<SslEffect>
  {
    if c.mac.Some? && c.socket !in failing then [Send(c.socket, SslWrite(Routed(message, c.mac.value), false))] else []
  }

  /** The writes to the clients `cs`, in order. */
  function Sends(cs: seq<ClientInfo>, message: Payload, failing: set<Socket>): seq<SslEffect>
    decreases |cs|
  {
    if cs == [] then [] else Sends(cs[..|cs| - 1], message, failing) + Sent(cs[|cs| - 1], message, failing)
  }

  /** One more client picked adds its write at the end. */
  lemma SendsAppend(cs: seq<ClientInfo>, c: ClientInfo, message: Payload, failing: set<Socket>)
    ensures Sends(cs + [c], message, failing) == Sends(cs, message, failing) + Sent(c, message, failing)
  {
    assert (cs + [c])[..|cs|] == cs;
  }

  /** Every write goes to one of the clients, which has a MAC and a socket that takes the write, and carries the message routed to it. */
  lemma {:induction false} SendsTo(cs: seq<ClientInfo>, message: Payload, i: nat, failing: set<Socket>)
    requires i < |Sends(cs, message, failing)|
    ensures exists j :: (0 <= j < |cs| && cs[j].mac.Some? && cs[j].socket !in failing &&
      Sends(cs, message, failing)[i] == Send(cs[j].socket, SslWrite(Routed(message, cs[j].mac.value), false)))
    decreases |cs|
  {
    var prefix := cs[..|cs| - 1];
    if i < |Sends(prefix, message, failing)| {
      SendsTo(prefix, message, i, failing);
      var j :| 0 <= j < |prefix| && prefix[j].mac.Some? && prefix[j].socket !in failing &&
        Sends(prefix, message, failing)[i] == Send(prefix[j].socket, SslWrite(Routed(message, prefix[j].mac.value), false));
      assert prefix[j] == cs[j];
    } else {
      assert cs[|cs| - 1].mac.Some? && cs[|cs| - 1].socket !in failing;
    }
  }

  /** Every client of `cs` with a MAC and a socket that takes the write gets its write. */
  lemma {:induction false} SendsReach(cs: seq<ClientInfo>, message: Payload, c: ClientInfo, failing: set<Socket>)
    requires c in cs && c.mac.Some? && c.socket !in failing
    ensures Send(c.socket, SslWrite(Routed(message, c.mac.value), false)) in Sends(cs, message, failing)
    decreases |cs|
  {
    var prefix := cs[..|cs| - 1];
    if c != cs[|cs| - 1] {
      assert cs == prefix + [cs[|cs| - 1]];
      SendsReach(prefix, message, c, failing);
    }
  }

  /** The writes of a loop over the clients in `order`, and whether it stopped by throwing. */
  function Notices(clients: map<string, ClientInfo>, order: seq<string>, sel: Selector, message: Payload, failing: set<Socket>): (seq<SslEffect>, bool)
  {
    var (picked, threw) := Selected(clients, order, sel);
    (Sends(picked, message, failing), threw)
  }

  /**
   * A loop over all the clients throws exactly when the test throws for
   * one of them; every write goes to a client the test accepts, and when
   * nothing throws, every accepted client with a MAC whose socket takes
   * the write is written to.
   */
  lemma NoticesExactly(clients: map<string, ClientInfo>, order: seq<string>, sel: Selector, message: Payload, failing: set<Socket>)
    requires Enumerates(order, clients.Keys)
    ensures Notices(clients, order, sel, message, failing).1 <==> exists k :: k in clients && Verdict(sel, clients[k]) == Throw
    ensures forall e :: e in Notices(clients, order, sel, message, failing).0 ==>
      exists k :: k in clients && Verdict(sel, clients[k]) == Notify && clients[k].mac.Some? && clients[k].socket !in failing &&
        e == Send(clients[k].socket, SslWrite(Routed(message, clients[k].mac.value), false))
    ensures !Notices(clients, order, sel, message, failing).1 ==>
      forall k :: k in clients && Verdict(sel, clients[k]) == Notify && clients[k].mac.Some? && clients[k].socket !in failing ==>
        Send(clients[k].socket, SslWrite(Routed(message, clients[k].mac.value), false)) in Notices(clients, order, sel, message, failing).0
  {
    var picked := Selected(clients, order, sel).0;
    var written := Sends(picked, message, failing);
    SelectedAll(clients, order, sel);
    forall e | e in written
      ensures exists k :: (k in clients && Verdict(sel, clients[k]) == Notify && clients[k].mac.Some? && clients[k].socket !in failing &&
        e == Send(clients[k].socket, SslWrite(Routed(message, clients[k].mac.value), false)))
    {
      var i :| 0 <= i < |written| && written[i] == e;
      SendsTo(picked, message, i, failing);
      var j :| 0 <= j < |picked| && picked[j].mac.Some? && picked[j].socket !in failing &&
        written[i] == Send(picked[j].socket, SslWrite(Routed(message, picked[j].mac.value), false));
      assert picked[j] in picked;
    }
    if !Selected(clients, order, sel).1 {
      forall k | k in clients && Verdict(sel, clients[k]) == Notify && clients[k].mac.Some? && clients[k].socket !in failing
        ensures Send(clients[k].socket, SslWrite(Routed(message, clients[k].mac.value), false)) in written
      {
        SendsReach(picked, message, clients[k], failing);
      }
    }
  }

  /** `ban`: the MACs join the banned set; every client with a banned MAC is sent the ban notice. */
  function BanStep(s: State, serverMac: string, macs: seq<string>, order: seq<string>, failing: set<Socket>): (State, seq<SslEffect>, bool)
    requires forall i :: 0 <= i < |order| ==> order[i] in s.clients
  {
    var banned := s.banned + Elements(macs);
    var (e, threw) := Notices(s.clients, order, Banned(banned), Notice(serverMac, BAN_NOTICE_TEXT), failing);
    (s.(banned := banned), e, threw)
  }

  /** `kick`: every client whose MAC is listed is sent the kick notice. */
  function KickStep(s: State, serverMac: string, macs: seq<string>, order: seq<string>, failing: set<Socket>): seq<SslEffect>
    requires forall i :: 0 <= i < |order| ==> order[i] in s.clients
  {
    Notices(s.clients, order, Kicked(macs), Notice(serverMac, KICK_NOTICE_TEXT), failing).0
  }

  /** A kick writes to no one whose MAC it does not list, so it never throws. */
  lemma KickNeverThrows(s: State, serverMac: string, macs: seq<string>, order: seq<string>, failing: set<Socket>)
    requires forall i :: 0 <= i < |order| ==> order[i] in s.clients
    ensures !Notices(s.clients, order, Kicked(macs), Notice(serverMac, KICK_NOTICE_TEXT), failing).1
  {
    SelectedWithoutThrow(s.clients, order, Kicked(macs), ClientInfo("", None, Socket(0, "", 0)));
  }

  /**
   * Ban only sends a notice: a banned client keeps its handle and its
   * socket entry, and every notice goes to a client whose MAC is banned,
   * as a non-command frame with that MAC.
   */
  lemma BanKeepsClients(s: State, serverMac: string, macs: seq<string>, order: seq<string>, i: nat, failing: set<Socket>)
    requires forall i :: 0 <= i < |order| ==> order[i] in s.clients
    requires i < |BanStep(s, serverMac, macs, order, failing).1|
    ensures BanStep(s, serverMac, macs, order, failing).0.clients == s.clients
    ensures BanStep(s, serverMac, macs, order, failing).0.connections == s.connections
    ensures BanStep(s, serverMac, macs, order, failing).0.banned == s.banned + Elements(macs)
    ensures var e := BanStep(s, serverMac, macs, order, failing).1[i];
      e.Send? && !e.write.frame.GetBoolean(COMMAND_ENABLED) && !e.write.newline &&
      exists k :: k in s.clients && s.clients[k].socket == e.to && s.clients[k].mac.Some? && s.clients[k].socket !in failing &&
        s.clients[k].mac.value in s.banned + Elements(macs) &&
        e.write.frame.GetString(MAC_KEY) == s.clients[k].mac
  {
    var banned := s.banned + Elements(macs);
    var notice := Notice(serverMac, BAN_NOTICE_TEXT);
    var picked := Selected(s.clients, order, Banned(banned)).0;
    SendsTo(picked, notice, i, failing);
    var j :| 0 <= j < |picked| && picked[j].mac.Some? && picked[j].socket !in failing &&
      Sends(picked, notice, failing)[i] == Send(picked[j].socket, SslWrite(Routed(notice, picked[j].mac.value), false));
    SelectedArePicked(s.clients, order, Banned(banned), j);
    var n :| 0 <= n < |order| && picked[j] == s.clients[order[n]] && Verdict(Banned(banned), s.clients[order[n]]) == Notify;
    NoticeArrivesAsData(serverMac, BAN_NOTICE_TEXT, picked[j].mac.value);
  }

  /**
   * Over all the clients, a ban throws exactly when some client has no MAC;
   * otherwise every client whose MAC is now banned and whose socket takes
   * the write is sent the notice.
   */
  lemma BanNotifiesBanned(s: State, serverMac: string, macs: seq<string>, order: seq<string>, failing: set<Socket>)
    requires Enumerates(order, s.clients.Keys)
    ensures BanStep(s, serverMac, macs, order, failing).2 <==> exists k :: k in s.clients && s.clients[k].mac.None?
    ensures var r := BanStep(s, serverMac, macs, order, failing);
      !r.2 ==> forall k :: (k in s.clients && s.clients[k].mac.Some? && s.clients[k].mac.value in r.0.banned &&
        s.clients[k].socket !in failing) ==>
        Send(s.clients[k].socket, SslWrite(Routed(Notice(serverMac, BAN_NOTICE_TEXT), s.clients[k].mac.value), false)) in r.1
  {
    NoticesExactly(s.clients, order, Banned(s.banned + Elements(macs)), Notice(serverMac, BAN_NOTICE_TEXT), failing);
  }

  /** Over all the clients, a kick sends its notice to exactly the clients whose MAC it lists and whose socket takes the write. */
  lemma KickNotifiesListed(s: State, serverMac: string, macs: seq<string>, order: seq<string>, failing: set<Socket>)
    requires Enumerates(order, s.clients.Keys)
    ensures forall k :: (k in s.clients && s.clients[k].mac.Some? && s.clients[k].mac.value in macs &&
      s.clients[k].socket !in failing) ==>
      Send(s.clients[k].socket, SslWrite(Routed(Notice(serverMac, KICK_NOTICE_TEXT), s.clients[k].mac.value), false))
        in KickStep(s, serverMac, macs, order, failing)
    ensures forall e :: e in KickStep(s, serverMac, macs, order, failing) ==>
      exists k :: k in s.clients && s.clients[k].mac.Some? && s.clients[k].mac.value in macs && s.clients[k].socket !in failing &&
        e == Send(s.clients[k].socket, SslWrite(Routed(Notice(serverMac, KICK_NOTICE_TEXT), s.clients[k].mac.value), false))
  {
    KickNeverThrows(s, serverMac, macs, order, failing);
    NoticesExactly(s.clients, order, Kicked(macs), Notice(serverMac, KICK_NOTICE_TEXT), failing);
  }

  /** `unBan`. */
  function UnBanStep(s: State, macs: seq<string>): (r: State)
    ensures r.banned == s.banned - Elements(macs)
    ensures r == s.(banned := r.banned)
  {
    s.(banned := s.banned - Elements(macs))
  }

  /** Banning then unbanning the same MACs leaves exactly the MACs banned before that were not among them. */
  lemma BanThenUnBan(s: State, serverMac: string, macs: seq<string>, order: seq<string>, failing: set<Socket>)
    requires forall i :: 0 <= i < |order| ==> order[i] in s.clients
    ensures UnBanStep(BanStep(s, serverMac, macs, order, failing).0, macs).banned == s.banned - Elements(macs)
  {
  }

  /** `redirect(name, data)`: the clients whose name or MAC is `name` are sent the data. */
  function RedirectStep(s: State, name: string, data: Payload, order: seq<string>, failing: set<Socket>): (seq<SslEffect>, bool)
    requires forall i :: 0 <= i < |order| ==> order[i] in s.clients
  {
    Notices(s.clients, order, Named(name), data, failing)
  }

  /** `broadcast(data)`: every client with a MAC is sent the data. */
  function BroadcastStep(s: State, data: Payload, order: seq<string>, failing: set<Socket>): seq<SslEffect>
    requires forall i :: 0 <= i < |order| ==> order[i] in s.clients
  {
    Notices(s.clients, order, Everyone, data, failing).0
  }

  /**
   * Over all the clients, a redirect throws exactly when a client not
   * named `name` has no MAC; otherwise every client with a MAC whose name
   * or MAC is `name` and whose socket takes the write is sent the data,
   * and no other client is.
   */
  lemma RedirectReaches(s: State, name: string, data: Payload, order: seq<string>, failing: set<Socket>)
    requires Enumerates(order, s.clients.Keys)
    ensures RedirectStep(s, name, data, order, failing).1 <==>
      exists k :: k in s.clients && s.clients[k].name != name && s.clients[k].mac.None?
    ensures var r := RedirectStep(s, name, data, order, failing);
      !r.1 ==> forall k :: (k in s.clients && s.clients[k].mac.Some? && s.clients[k].socket !in failing &&
        (s.clients[k].name == name || s.clients[k].mac.value == name)) ==>
          Send(s.clients[k].socket, SslWrite(Routed(data, s.clients[k].mac.value), false)) in r.0
    ensures forall e :: e in RedirectStep(s, name, data, order, failing).0 ==>
      exists k :: k in s.clients && s.clients[k].mac.Some? && s.clients[k].socket !in failing &&
        (s.clients[k].name == name || s.clients[k].mac.value == name) &&
        e == Send(s.clients[k].socket, SslWrite(Routed(data, s.clients[k].mac.value), false))
  {
    NoticesExactly(s.clients, order, Named(name), data, failing);
  }

  /**
   * A broadcast never throws and writes to the clients in the order of the
   * loop; over all the clients, every client with a MAC whose socket
   * takes the write is sent the data.
   */
  lemma BroadcastReachesAll(s: State, data: Payload, order: seq<string>, failing: set<Socket>)
    requires Enumerates(order, s.clients.Keys)
    ensures Notices(s.clients, order, Everyone, data, failing) == (Sends(InOrder(s.clients, order), data, failing), false)
    ensures forall k :: k in s.clients && s.clients[k].mac.Some? && s.clients[k].socket !in failing ==>
      Send(s.clients[k].socket, SslWrite(Routed(data, s.clients[k].mac.value), false)) in BroadcastStep(s, data, order, failing)
  {
    SelectedEveryone(s.clients, order);
    NoticesExactly(s.clients, order, Everyone, data, failing);
  }

  /** A socket the accept loop takes is known under its address. */
  function Accepted(s: State, sock: Socket): (r: State)
    ensures r.connections == s.connections[sock := DefaultName(sock.host, sock.port)]
    ensures r == s.(connections := r.connections)
  {
    s.(connections := s.connections[sock := DefaultName(sock.host, sock.port)])
  }

  /** The DISCONNECT line `close()` writes to each socket in `order`. */
  function Farewells(serverMac: string, order: seq<Socket>): (r: seq<SslEffect>)
    ensures |r| == |order|
    ensures forall i :: 0 <= i < |order| ==> r[i] == Send(order[i], Line(Notice(serverMac, SERVER_CLOSED_TEXT)))
    decreases |order|
  {
    if order == [] then [] else Farewells(serverMac, order[..|order| - 1]) + [Send(order[|order| - 1], Line(Notice(serverMac, SERVER_CLOSED_TEXT)))]
  }

  /** `close()`: stop, say goodbye to every socket, forget them all; the client handles stay. */
  function Closed(s: State): (r: State)
    ensures !r.operative && r.connections == map[]
    ensures r == s.(operative := false, connections := map[])
  {
    s.(operative := false, connections := map[])
  }

  // ---------------------------------------------------------------------
  // Properties of the frame loop

  /** The membership test cannot fail for a socket the loop visits: its own name is a value of `connections`. */
  lemma MemberAlways(s: State, sock: Socket, dn: string)
    requires sock in s.connections
    ensures Member(s, dn, s.connections[sock])
  {
    assert s.connections[sock] in s.connections.Values;
  }

  /** Nothing but the queue branch itself adds to the queue, so an empty queue stays empty. */
  lemma QueueStaysEmpty(s: State, serverMac: string, sock: Socket, read: Option<Payload>)
    requires sock in s.connections && s.queue == []
    ensures Frame(s, serverMac, sock, read).state.queue == []
  {
    if read.Some? {
      HandleKeepsCount(s, serverMac, sock, s.connections[sock], read.value);
    }
  }

  /** No part of a pass touches the count or the queue. */
  lemma HandleKeepsCount(s: State, serverMac: string, sock: Socket, designated: string, input: Payload)
    ensures var st := HandleStep(s, serverMac, sock, designated, input);
      st.state.processed == s.processed && st.state.queue == s.queue
  {
    var dn := DefaultName(sock.host, sock.port);
    var mac := input.GetString(MAC_KEY);
    var (s1, client) := FileClient(s, dn, mac, sock);
    assert s1.processed == s.processed && s1.queue == s.queue;
    if input.GetBoolean(COMMAND_ENABLED) {
      var command := input.GetString(COMMAND);
      var argument := input.GetString(ARGUMENT);
      if command.Some? && argument.Some? {
        var c := Lower(command.value);
        var member := Member(s1, dn, designated);
        var st := CommandStep(s1, serverMac, sock, dn, input, mac, client, member, command.value, argument.value);
        if c == "connect" {
          assert st == ConnectStep(s1, serverMac, sock, dn, input, mac, argument.value);
        } else if c == "rename" {
          assert st == RenameStep(s1, serverMac, sock, dn, mac, member, command.value, argument.value);
        } else if c == "disconnect" {
          assert st == DisconnectStep(s1, serverMac, sock, dn, client, member, argument.value);
        } else {
          assert st == UnknownStep(s1, serverMac, sock, client, member, command.value, argument.value);
        }
      }
    }
  }

  /** A pass either completes and counts one frame, or takes the exception path and counts none. */
  lemma ProcessedCount(s: State, serverMac: string, sock: Socket, read: Option<Payload>)
    requires sock in s.connections
    ensures var o := Frame(s, serverMac, sock, read);
      o.state.processed == s.processed + 1 || (o.state.processed == s.processed && sock !in o.state.connections)
  {
    if read.Some? {
      var s1 := if s.queue == [] then s else s.(queue := s.queue + [read.value]);
      var input := if s.queue == [] then read.value else s.queue[0];
      HandleKeepsCount(s1, serverMac, sock, s.connections[sock], input);
    }
  }

  /** The address a frame from `sock` is filed under. */
  function Address(sock: Socket): string
  {
    DefaultName(sock.host, sock.port)
  }

  /** The state after the sender lookup of a frame carrying `mac`. */
  function LookedUp(s: State, sock: Socket, mac: Option<string>): State
  {
    FileClient(s, Address(sock), mac, sock).0
  }

  /** A connect command frame: COMMAND_ENABLED, a command `connect` in any case, and an argument. */
  predicate IsCommand(p: Payload, word: string)
  {
    p.GetBoolean(COMMAND_ENABLED) && p.GetString(COMMAND).Some? && p.GetString(ARGUMENT).Some? &&
    Lower(p.GetString(COMMAND).value) == word
  }

  /**
   * Connect, when the queue is empty: a sender with a MAC that is not
   * banned and gives the key (if the server has one) is filed under its
   * address with the name it asked for, its socket is known under the
   * address, and it hears `accept` after the connect event. Anyone else
   * hears `decline` with the ban text exactly when it is banned, and its
   * socket entry goes. A frame without a MAC takes the exception path.
   */
  lemma ConnectOutcome(s: State, serverMac: string, sock: Socket, p: Payload)
    requires sock in s.connections && s.queue == [] && IsCommand(p, "connect")
    ensures var o := Frame(s, serverMac, sock, Some(p));
      var mac := p.GetString(MAC_KEY);
      var argument := p.GetString(ARGUMENT).value;
      var s1 := LookedUp(s, sock, mac);
      var admitted := mac.Some? && mac.value !in s.banned && (s.key == "" || p.GetString(ACCESS_KEY) == Some(s.key));
      (mac.None? ==> o == Outcome(Drop(s1, sock), [])) &&
      (admitted ==>
        o.state.clients == s.clients[Address(sock) := ClientInfo(argument, mac, sock)] &&
        o.state.connections == s.connections[sock := Address(sock)] &&
        o.effects == [Emit(ClientConnect(ClientInfo(argument, mac, sock))), Send(sock, Line(Accept(serverMac)))]) &&
      (mac.Some? && !admitted ==>
        o.state.clients == s1.clients &&
        o.state.connections == s.connections - {sock} &&
        o.effects == [Send(sock, Line(Decline(serverMac, if mac.value in s.banned then BANNED_TEXT else BAD_KEY_TEXT)))])
  {
    var mac := p.GetString(MAC_KEY);
    var (s1, client) := FileClient(s, Address(sock), mac, sock);
    CommandFrameHandled(s, serverMac, sock, p);
    UpdateTwice(s.clients, Address(sock), client, ClientInfo(p.GetString(ARGUMENT).value, mac, sock));
    var st := ConnectStep(s1, serverMac, sock, Address(sock), p, mac, p.GetString(ARGUMENT).value);
    assert Frame(s, serverMac, sock, Some(p)) ==
      if st.threw then Outcome(Drop(st.state, sock), st.effects)
      else Outcome(st.state.(processed := st.state.processed + 1), st.effects);
  }

  /** A command frame read with an empty queue goes straight to the command switch. */
  lemma CommandFrameHandled(s: State, serverMac: string, sock: Socket, p: Payload)
    requires sock in s.connections && s.queue == []
    requires p.GetBoolean(COMMAND_ENABLED) && p.GetString(COMMAND).Some? && p.GetString(ARGUMENT).Some?
    ensures var mac := p.GetString(MAC_KEY);
      var (s1, client) := FileClient(s, Address(sock), mac, sock);
      var st := CommandStep(s1, serverMac, sock, Address(sock), p, mac, client,
                            Member(s1, Address(sock), s.connections[sock]),
                            p.GetString(COMMAND).value, p.GetString(ARGUMENT).value);
      Frame(s, serverMac, sock, Some(p)) ==
        if st.threw then Outcome(Drop(st.state, sock), st.effects)
        else Outcome(st.state.(processed := st.state.processed + 1), st.effects)
  {
  }

  /**
   * Rename, when the queue is empty: it succeeds exactly when no open
   * socket is known under the new name. Success renames both the handle
   * and the socket entry; failure changes nothing but the sender lookup.
   */
  lemma RenameOutcome(s: State, serverMac: string, sock: Socket, p: Payload)
    requires sock in s.connections && s.queue == [] && IsCommand(p, "rename")
    ensures var o := Frame(s, serverMac, sock, Some(p));
      var mac := p.GetString(MAC_KEY);
      var command := p.GetString(COMMAND).value;
      var argument := p.GetString(ARGUMENT).value;
      var s1 := LookedUp(s, sock, mac);
      (argument !in s.connections.Values ==>
        o.state.clients == s.clients[Address(sock) := ClientInfo(argument, mac, sock)] &&
        o.state.connections == s.connections[sock := argument] &&
        o.effects == [Emit(ClientCommand(ClientInfo(argument, mac, sock), command, argument, None)),
                      Send(sock, Line(Answer(serverMac, "success", "rename", argument)))]) &&
      (argument in s.connections.Values ==>
        o.state == s1.(processed := s.processed + 1) &&
        o.effects == [Send(sock, Line(Answer(serverMac, "failed", "rename", argument + "," + NAME_TAKEN_TEXT)))])
  {
    MemberAlways(LookedUp(s, sock, p.GetString(MAC_KEY)), sock, Address(sock));
  }

  /**
   * Disconnect, when the queue is empty: the client hears the DISCONNECT
   * command, loses its handle and its socket entry, and the listeners hear
   * it left at its own request with its argument as the message.
   */
  lemma DisconnectOutcome(s: State, serverMac: string, sock: Socket, p: Payload)
    requires sock in s.connections && s.queue == [] && IsCommand(p, "disconnect")
    ensures var o := Frame(s, serverMac, sock, Some(p));
      var mac := p.GetString(MAC_KEY);
      var client := FileClient(s, Address(sock), mac, sock).1;
      o.state.clients == s.clients - {Address(sock)} &&
      o.state.connections == s.connections - {sock} &&
      o.effects == [Send(sock, Line(Notice(serverMac, CLIENT_LEFT_TEXT))),
                    Emit(ClientDisconnect(client, KILLED_BY_CLIENT, p.GetString(ARGUMENT).value))]
  {
    MemberAlways(LookedUp(s, sock, p.GetString(MAC_KEY)), sock, Address(sock));
    assert LookedUp(s, sock, p.GetString(MAC_KEY)).clients - {Address(sock)} == s.clients - {Address(sock)};
  }

  /**
   * A plain message, when the queue is empty: acknowledged with the
   * sender's name, then handed to the listeners; the only change is the
   * sender lookup and the count.
   */
  lemma MessageOutcome(s: State, serverMac: string, sock: Socket, p: Payload)
    requires sock in s.connections && s.queue == [] && !p.GetBoolean(COMMAND_ENABLED)
    ensures var o := Frame(s, serverMac, sock, Some(p));
      var mac := p.GetString(MAC_KEY);
      var client := FileClient(s, Address(sock), mac, sock).1;
      o.state == LookedUp(s, sock, mac).(processed := s.processed + 1) &&
      o.effects == [Send(sock, Line(Answer(serverMac, "success", "message", client.name))),
                    Emit(ClientMessage(client, p))]
  {
    MemberAlways(LookedUp(s, sock, p.GetString(MAC_KEY)), sock, Address(sock));
  }

  /**
   * Rename only checks the names open sockets are known under, and a
   * connect files the socket under the address, not under the name asked
   * for: while a client connected as `name` keeps the address as its
   * socket's name, another client can rename itself to `name`, after which
   * two handles carry that name.
   */
  lemma RenameMissesConnectedName(s: State, serverMac: string, sock: Socket, p: Payload, k: string)
    requires sock in s.connections && s.queue == [] && IsCommand(p, "rename")
    requires k in s.clients && k != Address(sock) && s.clients[k].name == p.GetString(ARGUMENT).value
    requires p.GetString(ARGUMENT).value !in s.connections.Values
    ensures var o := Frame(s, serverMac, sock, Some(p));
      k in o.state.clients && Address(sock) in o.state.clients &&
      o.state.clients[k].name == o.state.clients[Address(sock)].name == p.GetString(ARGUMENT).value
  {
    RenameOutcome(s, serverMac, sock, p);
  }

  /** The exception path removes every handle that carries the socket's name, whatever address it is filed under. */
  lemma DropTakesNamesakes(s: State, sock: Socket, k: string)
    requires sock in s.connections && k in s.clients && s.clients[k].name == s.connections[sock]
    ensures k !in Drop(s, sock).clients && sock !in Drop(s, sock).connections
  {
  }

  // ---------------------------------------------------------------------
  // The server object

  class Server {
    var clients: map<string, ClientInfo>
    var connections: map<Socket, string>
    var banned: set<string>
    var key: string
    var processed: nat
    var operative: bool
    var queue: seq<Payload>
    /** Everything written and every event fired so far, in order. */
    var effects: seq<SslEffect>
    /** `getMAC()`. */
    const mac: string

    function Snapshot(): State
      reads this
    {
      State(clients, connections, banned, key, processed, operative, queue)
    }

    constructor (serverMac: string)
      ensures Snapshot() == State(map[], map[], {}, "", 0, false, []) && effects == [] && mac == serverMac
    {
      clients, connections, banned, key := map[], map[], {}, "";
      processed, operative, queue, effects := 0, false, [], [];
      mac := serverMac;
    }

    /** `getClients()`. */
    function GetClients(): (r: set<ClientInfo>)
      reads this
      ensures forall c :: c in r <==> exists k :: k in clients && clients[k] == c
    {
      clients.Values
    }

    method Println(sock: Socket, p: Payload)
      modifies this
      ensures Snapshot() == old(Snapshot()) && effects == old(effects) + [Send(sock, Line(p))]
    {
      effects := effects + [Send(sock, SslWrite(p, true))];
    }

    method Fire(event: ServerEvent)
      modifies this
      ensures Snapshot() == old(Snapshot()) && effects == old(effects) + [Emit(event)]
    {
      effects := effects + [Emit(event)];
    }

    /** `start()`: None when already running, else whether binding succeeded, which also decides `operative`. */
    method Start(bindOk: bool) returns (started: Option<bool>)
      modifies this
      ensures old(operative) ==> started.None? && Snapshot() == old(Snapshot())
      ensures !old(operative) ==> started == Some(bindOk) && Snapshot() == old(Snapshot()).(operative := bindOk)
      ensures effects == old(effects)
    {
      if operative {
        return None;
      }
      if bindOk {
        operative := true;
      }
      started := Some(bindOk);
    }

    /** `start(accessKey)`: the key is only taken when the server is not running. */
    method StartWithKey(accessKey: string, bindOk: bool) returns (started: Option<bool>)
      modifies this
      ensures old(operative) ==> started.None? && Snapshot() == old(Snapshot())
      ensures !old(operative) ==> started == Some(bindOk) && Snapshot() == old(Snapshot()).(key := accessKey, operative := bindOk)
      ensures effects == old(effects)
    {
      if !operative {
        key := accessKey;
        started := Start(bindOk);
      } else {
        started := None;
      }
    }

    /** One iteration of the accept loop. */
    method Accept(sock: Socket)
      modifies this
      ensures Snapshot() == Accepted(old(Snapshot()), sock) && effects == old(effects)
    {
      connections := connections[sock := DefaultName(sock.host, sock.port)];
    }

    /** The exception path: the name the socket had is removed from both collections. */
    method DropConnection(sock: Socket)
      modifies this
      ensures Snapshot() == Drop(old(Snapshot()), sock) && effects == old(effects)
    {
      var name := Lookup(connections, sock);
      connections := connections - {sock};
      ghost var before := clients;
      var pending := clients.Keys;
      while pending != {}
        invariant pending <= before.Keys
        invariant Snapshot() == old(Snapshot()).(connections := connections, clients := clients)
        invariant connections == old(connections) - {sock} && effects == old(effects)
        invariant clients == map k | k in before && (k in pending || Some(before[k].name) != name) :: before[k]
        decreases pending
      {
        var k :| k in pending;
        pending := pending - {k};
        if Some(clients[k].name) == name {
          clients := clients - {k};
        }
      }
      assert clients == map k | k in before && Some(before[k].name) != name :: before[k];
    }

    method GetClient(dn: string, m: Option<string>, sock: Socket) returns (client: ClientInfo)
      modifies this
      ensures (Snapshot(), client) == FileClient(old(Snapshot()), dn, m, sock) && effects == old(effects)
    {
      if dn in clients {
        client := clients[dn];
      } else {
        client := ClientInfo(dn, m, sock);
        clients := clients[dn := client];
      }
    }

    method Connect(sock: Socket, dn: string, input: Payload, m: Option<string>, argument: string) returns (threw: bool)
      modifies this
      ensures var st := ConnectStep(old(Snapshot()), mac, sock, dn, input, m, argument);
        Snapshot() == st.state && effects == old(effects) + st.effects && threw == st.threw
    {
      var sendDecline := true;
      var validKey := true;
      if m.None? {
        return true;
      }
      if m.value !in banned {
        if key != "" {
          var provided := input.GetString(ACCESS_KEY);
          validKey := provided.Some? && provided.value == key;
        }
        if validKey {
          sendDecline := false;
          var client := ClientInfo(argument, m, sock);
          clients := clients[dn := client];
          connections := connections[sock := dn];
          Fire(ClientConnect(client));
          var reply := ComposeAccept(mac);
          Println(sock, reply);
        }
      }
      if sendDecline {
        var reply := ComposeDecline(mac, if validKey then BANNED_TEXT else BAD_KEY_TEXT);
        Println(sock, reply);
        connections := connections - {sock};
      }
      threw := false;
    }

    method Rename(sock: Socket, dn: string, m: Option<string>, member: bool, command: string, argument: string)
      modifies this
      ensures var st := RenameStep(old(Snapshot()), mac, sock, dn, m, member, command, argument);
        Snapshot() == st.state && effects == old(effects) + st.effects
    {
      if member {
        if argument !in connections.Values {
          var client := ClientInfo(argument, m, sock);
          clients := clients[dn := client];
          connections := connections[sock := argument];
          Fire(ClientCommand(client, command, argument, None));
          var reply := ComposeAnswer(mac, "success", "rename", argument);
          Println(sock, reply);
        } else {
          var reply := ComposeAnswer(mac, "failed", "rename", argument + "," + NAME_TAKEN_TEXT);
          Println(sock, reply);
        }
      } else {
        var reply := ComposeAnswer(mac, "failed", "rename", argument + "," + NOT_CONNECTED_TEXT);
        Println(sock, reply);
      }
    }

    method Disconnect(sock: Socket, dn: string, client: ClientInfo, member: bool, argument: string)
      modifies this
      ensures var st := DisconnectStep(old(Snapshot()), mac, sock, dn, client, member, argument);
        Snapshot() == st.state && effects == old(effects) + st.effects
    {
      if member {
        var reply := ComposeAnswer(mac, "DISCONNECT", "DISCONNECT", CLIENT_LEFT_TEXT);
        Println(sock, reply);
        clients := clients - {dn};
        connections := connections - {sock};
        Fire(ClientDisconnect(client, KILLED_BY_CLIENT, argument));
      } else {
        var reply := ComposeAnswer(mac, "failed", "disconnect", NOT_CONNECTED_TEXT);
        Println(sock, reply);
      }
    }

    method Unknown(sock: Socket, client: ClientInfo, member: bool, command: string, argument: string)
      modifies this
      ensures var st := UnknownStep(old(Snapshot()), mac, sock, client, member, command, argument);
        Snapshot() == st.state && effects == old(effects) + st.effects
    {
      if member {
        Fire(ClientCommand(client, command, argument, None));
      } else {
        var reply := ComposeAnswer(mac, "failed", "unknown", command + "," + argument + "," + NOT_CONNECTED_TEXT);
        Println(sock, reply);
      }
    }

    method Data(sock: Socket, client: ClientInfo, member: bool, input: Payload)
      modifies this
      ensures var st := DataStep(old(Snapshot()), mac, sock, client, member, input);
        Snapshot() == st.state && effects == old(effects) + st.effects
    {
      if member {
        var reply := ComposeAnswer(mac, "success", "message", client.name);
        Println(sock, reply);
        Fire(ClientMessage(client, input));
      } else {
        var reply := ComposeAnswer(mac, "failed", "message", NOT_CONNECTED_TEXT);
        Println(sock, reply);
      }
    }

    method Handle(sock: Socket, designated: string, input: Payload) returns (threw: bool)
      modifies this
      ensures var st := HandleStep(old(Snapshot()), mac, sock, designated, input);
        Snapshot() == st.state && effects == old(effects) + st.effects && threw == st.threw
    {
      var dn := DefaultName(sock.host, sock.port);
      var m := input.GetString(MAC_KEY);
      var client := GetClient(dn, m, sock);
      var member := dn in connections.Values || designated in connections.Values;
      threw := false;
      if input.GetBoolean(COMMAND_ENABLED) {
        var command := input.GetString(COMMAND);
        var argument := input.GetString(ARGUMENT);
        if command.Some? && argument.Some? {
          var c := Lower(command.value);
          if c == "connect" {
            threw := Connect(sock, dn, input, m, argument.value);
          } else if c == "rename" {
            Rename(sock, dn, m, member, command.value, argument.value);
          } else if c == "disconnect" {
            Disconnect(sock, dn, client, member, argument.value);
          } else {
            Unknown(sock, client, member, command.value, argument.value);
          }
        }
      } else {
        Data(sock, client, member, input);
      }
    }

    /** One pass of the frame loop for the open socket `sock`; `read` is None when reading or decoding threw. */
    method HandleFrame(sock: Socket, read: Option<Payload>)
      requires sock in connections
      modifies this
      ensures var o := Frame(old(Snapshot()), mac, sock, read);
        Snapshot() == o.state && effects == old(effects) + o.effects
    {
      if read.None? {
        DropConnection(sock);
        return;
      }
      var designated := connections[sock];
      var input := read.value;
      if queue != [] {
        queue := queue + [input];
        input := queue[0];
      }
      var threw := Handle(sock, designated, input);
      if threw {
        DropConnection(sock);
      } else {
        processed := processed + 1;
      }
    }

    /** The loop shared by the administration calls: each client in `order` the selector picks is sent `message`. */
    method NotifyEach(order: seq<string>, sel: Selector, message: MessageDataOutput?, failing: set<Socket>) returns (threw: bool)
      requires forall i :: 0 <= i < |order| ==> order[i] in clients
      modifies this
      ensures Snapshot() == old(Snapshot())
      ensures var r := Notices(clients, order, sel, Content(message), failing);
        effects == old(effects) + r.0 && threw == r.1
    {
      var written;
      written, threw := NotifyLoop(clients, order, sel, message, failing);
      effects := effects + written;
    }

    /** The loop itself, over the clients under the names in `order`; it stops at the first throw. */
    static method NotifyLoop(clients: map<string, ClientInfo>, order: seq<string>, sel: Selector, message: MessageDataOutput?, failing: set<Socket>)
      returns (written: seq<SslEffect>, threw: bool)
      requires forall i :: 0 <= i < |order| ==> order[i] in clients
      ensures (written, threw) == Notices(clients, order, sel, Content(message), failing)
    {
      ghost var picked: seq<ClientInfo> := [];
      var i := 0;
      written, threw := [], false;
      while i < |order|
        invariant 0 <= i <= |order|
        invariant written == Sends(picked, Content(message), failing)
        invariant Selected(clients, order[..i], sel) == (picked, false)
      {
        SelectedNext(clients, order, sel, i, picked);
        var c := clients[order[i]];
        var v := Verdict(sel, c);
        if v == Throw {
          SelectedStop(clients, order, sel, i + 1);
          return written, true;
        } else if v == Notify {
          var out := SendTo(c, message, failing);
          SendsAppend(picked, c, Content(message), failing);
          written := written + out;
          picked := picked + [c];
        }
        i := i + 1;
      }
      assert order[..|order|] == order;
    }

    /** `client.sendMessage(message)` on a handle made for a client picked; what fails to be written is dropped. */
    static method SendTo(c: ClientInfo, message: MessageDataOutput?, failing: set<Socket>) returns (out: seq<SslEffect>)
      ensures out == Sent(c, Content(message), failing)
    {
      var handle := new SslRemoteClient(c.name, c.mac, c.socket.host, c.socket.port, c.socket);
      var ok, sent := handle.SendMessage(message, c.socket !in failing);
      out := if ok then [Send(c.socket, sent.value)] else [];
    }

    method Ban(macs: seq<string>, order: seq<string>, failing: set<Socket>) returns (threw: bool)
      requires Enumerates(order, clients.Keys)
      modifies this
      ensures var r := BanStep(old(Snapshot()), mac, macs, order, failing);
        Snapshot() == r.0 && effects == old(effects) + r.1 && threw == r.2
    {
      banned := banned + Elements(macs);
      var notice := ComposeNotice(mac, BAN_NOTICE_TEXT);
      threw := NotifyEach(order, Banned(banned), notice, failing);
    }

    method Kick(macs: seq<string>, order: seq<string>, failing: set<Socket>)
      requires Enumerates(order, clients.Keys)
      modifies this
      ensures Snapshot() == old(Snapshot()) && effects == old(effects) + KickStep(old(Snapshot()), mac, macs, order, failing)
    {
      var notice := ComposeNotice(mac, KICK_NOTICE_TEXT);
      var threw := NotifyEach(order, Kicked(macs), notice, failing);
      KickNeverThrows(Snapshot(), mac, macs, order, failing);
    }

    method UnBan(macs: seq<string>)
      modifies this
      ensures Snapshot() == UnBanStep(old(Snapshot()), macs) && effects == old(effects)
    {
      var i := 0;
      while i < |macs|
        invariant 0 <= i <= |macs|
        invariant Snapshot() == old(Snapshot()).(banned := old(banned) - Elements(macs[..i]))
        invariant effects == old(effects)
      {
        assert Elements(macs[..i + 1]) == Elements(macs[..i]) + {macs[i]};
        banned := banned - {macs[i]};
        i := i + 1;
      }
      assert macs[..|macs|] == macs;
    }

    /** `redirect(name, data)`, with the wait for queued frames over at once since the queue stays empty. */
    method Redirect(name: string, data: MessageDataOutput?, order: seq<string>, failing: set<Socket>) returns (threw: bool)
      requires Enumerates(order, clients.Keys)
      modifies this
      ensures var r := RedirectStep(old(Snapshot()), name, Content(data), order, failing);
        Snapshot() == old(Snapshot()) && effects == old(effects) + r.0 && threw == r.1
    {
      threw := NotifyEach(order, Named(name), data, failing);
    }

    method Broadcast(data: MessageDataOutput?, order: seq<string>, failing: set<Socket>)
      requires Enumerates(order, clients.Keys)
      modifies this
      ensures Snapshot() == old(Snapshot()) && effects == old(effects) + BroadcastStep(old(Snapshot()), Content(data), order, failing)
    {
      var threw := NotifyEach(order, Everyone, data, failing);
    }

    /** `close()`: each socket in `order` is told the server closed. */
    method Close(order: seq<Socket>)
      requires Enumerates(order, connections.Keys)
      modifies this
      ensures Snapshot() == Closed(old(Snapshot())) && effects == old(effects) + Farewells(mac, order)
    {
      operative := false;
      var i := 0;
      while i < |order|
        invariant 0 <= i <= |order|
        invariant Snapshot() == old(Snapshot()).(operative := false)
        invariant effects == old(effects) + Farewells(mac, order[..i])
      {
        assert order[..i + 1][..i] == order[..i];
        var notice := ComposeAnswer(mac, "DISCONNECT", "DISCONNECT", SERVER_CLOSED_TEXT);
        Println(order[i], notice);
        i := i + 1;
      }
      assert order[..|order|] == order;
      connections := map[];
    }
  }
}
