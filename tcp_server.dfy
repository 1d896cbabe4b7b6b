/**
 * `TCPServer`: the server side of the TCP work level. Every channel read
 * lands in one static 4056-byte buffer, which is then read as a binary
 * frame: the sender's MAC, a control flag, and either a command with its
 * argument or an offset from which on the buffer is the message. The
 * administration calls (ban, kick, unBan, broadcast, redirect, close)
 * act on the clients by address, the set of addresses that connected,
 * and the banned MAC addresses.
 *
 * As for the SSL server, the behaviour is first given as functions on a
 * `State` value; the class `Server` does the same work on its fields and
 * on the buffer array, and each method is proved to do what the
 * functions say.
 */
module TcpServer {
  import opened Common
  import opened JavaLang
  import opened JavaIo
  import opened Remote
  import Message

  type TcpEffect = Effect<seq<byte>>

  /** The capacity of the `ByteBuffer` every reply but the message acknowledgement is put into. */
  const REPLY_BUFFER := 10240
  /** The capacity of the `ByteBuffer` the message acknowledgement is put into. */
  const MESSAGE_REPLY_BUFFER := 90128

  const BANNED_TEXT := "You are banned from this server!"
  const NOT_CONNECTED_TEXT := "You are not connected to this server!"
  const BAN_NOTICE_TEXT := "You have been banned from this server!"
  const KICK_NOTICE_TEXT := "You have been kicked from this server!"

  /** The bytes of `writeUTF("accept")`. */
  const ACCEPT_UTF: seq<byte> := [0, 6, 97, 99, 99, 101, 112, 116]

  lemma AcceptUtf()
    ensures EncodeUTF("accept") == Some(ACCEPT_UTF)
  {
    var text := "accept";
    assert IsAscii(text) && |text| == 6;
    AsciiUTF(text);
    assert AsciiBytes(text) == ACCEPT_UTF[2..];
    assert [0, |text| as byte] + AsciiBytes(text) == ACCEPT_UTF;
  }

  /** The reply to an accepted connect: true, "accept", the server MAC (no MAC in front). */
  function AcceptReply(serverMac: string): (r: Option<seq<byte>>)
    ensures r.Some? <==> EncodeUTF(serverMac).Some?
    ensures r.Some? ==> r.value == EncodeBoolean(true) + ACCEPT_UTF + EncodeUTF(serverMac).value
  {
    match EncodeUTF(serverMac)
    case None => None
    case Some(m) => Some(EncodeBoolean(true) + ACCEPT_UTF + m)
  }

  /**
   * Putting a reply into a buffer of `capacity` bytes and writing it to
   * the channel, whose write succeeds when `channelOk` holds: the write, or
   * a throw when the reply cannot be built, does not fit or is not written.
   */
  function Reply(sock: Socket, frame: Option<seq<byte>>, capacity: nat, channelOk: bool): (r: (seq<TcpEffect>, bool))
    ensures !r.1 <==> frame.Some? && |frame.value| <= capacity && channelOk
    ensures !r.1 ==> r.0 == [Send(sock, frame.value)]
    ensures r.1 ==> r.0 == []
  {
    if frame.Some? && |frame.value| <= capacity && channelOk then ([Send(sock, frame.value)], false) else ([], true)
  }

  // ---------------------------------------------------------------------
  // The server state and one pass of a channel's loop

  /**
   * `clients`: handle by "host/port"; `connections`: the addresses that
   * connected; `banned`: MAC addresses; `buffer`: the contents of the
   * shared read buffer.
   */
  datatype State = State(
    clients: map<string, ClientInfo>,
    connections: set<string>,
    banned: set<string>,
    operative: bool,
    buffer: seq<byte>)

  /** What part of a pass leaves: the state, the effects in order, and whether it threw. */
  datatype Step = Step(state: State, effects: seq<TcpEffect>, threw: bool)

  /** The result of one pass of a channel's loop. */
  datatype Outcome = Outcome(state: State, effects: seq<TcpEffect>)

  /**
   * The state every pass keeps: the buffer has its fixed size, every
   * handle has a MAC (it was read from a frame), and every address that
   * connected has a handle.
   */
  predicate Valid(s: State)
  {
    |s.buffer| == FRAME_BUFFER &&
    (forall k :: k in s.clients ==> s.clients[k].mac.Some?) &&
    s.connections <= s.clients.Keys
  }

  /** How far the frame in a buffer can be read before anything is decided. */
  datatype Parse =
    | Unreadable
    | Cut(mac: string)
    | Control(mac: string, command: string, argument: string)
    | Data(mac: string, rest: Reader)

  /**
   * The reads at the start of a pass: `readUTF` for the MAC, then
   * `readBoolean`, then for a control frame two more `readUTF`s. Once the
   * MAC is read the sender is filed, so a failure after it is `Cut`.
   */
  function ParseFrame(buf: seq<byte>): Parse
  {
    match ReadUTF(Reader(buf, 0))
    case None => Unreadable
    case Some((mac, r1)) =>
      match ReadBoolean(r1)
      case None => Cut(mac)
      case Some((flag, r2)) =>
        if flag then
          match ReadUTF(r2)
          case None => Cut(mac)
          case Some((command, r3)) =>
            match ReadUTF(r3)
            case None => Cut(mac)
            case Some((argument, _)) => Control(mac, command, argument)
        else Data(mac, r2)
  }

  /** `getClient`: the handle filed under the address, or a new one named after the address, filed there. */
  function FileClient(s: State, dn: string, mac: string, sock: Socket): (r: (State, ClientInfo))
    ensures r.0 == s.(clients := s.clients[dn := r.1])
    ensures dn in s.clients ==> r.1 == s.clients[dn]
    ensures dn !in s.clients ==> r.1 == ClientInfo(dn, Some(mac), sock)
  {
    if dn in s.clients then (s, s.clients[dn])
    else
      var client := ClientInfo(dn, Some(mac), sock);
      (s.(clients := s.clients[dn := client]), client)
  }

  /** `case "connect"`: no access key; a banned MAC only hears the ban text. */
  function ConnectStep(s: State, serverMac: string, sock: Socket, dn: string, mac: string, argument: string, channelOk: bool): Step
  {
    if mac !in s.banned then
      var client := ClientInfo(argument, Some(mac), sock);
      var r := Reply(sock, AcceptReply(serverMac), REPLY_BUFFER, channelOk);
      Step(s.(clients := s.clients[dn := client], connections := s.connections + {dn}),
           [Emit(ClientConnect(client))] + r.0, r.1)
    else
      var r := Reply(sock, CommandFrame(serverMac, [BANNED_TEXT]), REPLY_BUFFER, channelOk);
      Step(s, r.0, r.1)
  }

  /** `case "rename"`: a member is renamed whatever other clients are called. */
  function RenameStep(s: State, serverMac: string, sock: Socket, dn: string, mac: string, command: string, argument: string, channelOk: bool): Step
  {
    if dn in s.connections then
      var client := ClientInfo(argument, Some(mac), sock);
      var r := Reply(sock, CommandFrame(serverMac, ["success", "rename", argument]), REPLY_BUFFER, channelOk);
      Step(s.(clients := s.clients[dn := client]), [Emit(ClientCommand(client, command, argument, Some(s.buffer)))] + r.0, r.1)
    else
      var r := Reply(sock, CommandFrame(serverMac, ["failed", "rename", argument, NOT_CONNECTED_TEXT]), REPLY_BUFFER, channelOk);
      Step(s, r.0, r.1)
  }

  /** `case "disconnect"`: a member leaves without a reply. */
  function DisconnectStep(s: State, serverMac: string, sock: Socket, dn: string, client: ClientInfo, argument: string, channelOk: bool): Step
  {
    if dn in s.connections then
      Step(s.(clients := s.clients - {dn}, connections := s.connections - {dn}),
           [Emit(ClientDisconnect(client, KILLED_BY_CLIENT, argument))], false)
    else
      var r := Reply(sock, CommandFrame(serverMac, ["failed", "disconnect", NOT_CONNECTED_TEXT]), REPLY_BUFFER, channelOk);
      Step(s, r.0, r.1)
  }

  /** `default`: a member's unknown command goes to the listeners. */
  function UnknownStep(s: State, serverMac: string, sock: Socket, dn: string, client: ClientInfo,
                   command: string, argument: string, channelOk: bool): Step
  {
    if dn in s.connections then Step(s, [Emit(ClientCommand(client, command, argument, Some(s.buffer)))], false)
    else
      var r := Reply(sock, CommandFrame(serverMac, ["failed", "unknown", command, argument, NOT_CONNECTED_TEXT]), REPLY_BUFFER, channelOk);
      Step(s, r.0, r.1)
  }

  /**
   * Reference definition of the delivered bytes: walking the buffer from
   * the front, every byte whose index is at least `offset` is kept.
   */
  function KeptFrom(buf: seq<byte>, offset: int): seq<byte>
    decreases |buf|
  {
    if buf == [] then []
    else KeptFrom(buf[..|buf| - 1], offset) + (if |buf| - 1 >= offset then [buf[|buf| - 1]] else [])
  }

  /** The bytes kept are the buffer from the offset on: all of it for an offset of 0 or less, none past its end. */
  lemma {:induction false} KeptFromIsSuffix(buf: seq<byte>, offset: int)
    ensures offset <= 0 ==> KeptFrom(buf, offset) == buf
    ensures 0 <= offset <= |buf| ==> KeptFrom(buf, offset) == buf[offset..]
    ensures offset >= |buf| ==> KeptFrom(buf, offset) == []
    decreases |buf|
  {
    var from := if offset <= 0 then 0 else if offset >= |buf| then |buf| else offset;
    KeptFromClamped(buf, offset, from);
  }

  /** The bytes kept are the buffer from the offset clamped into its bounds. */
  lemma {:induction false} KeptFromClamped(buf: seq<byte>, offset: int, from: nat)
    requires from == if offset <= 0 then 0 else if offset >= |buf| then |buf| else offset
    ensures KeptFrom(buf, offset) == buf[from..]
    decreases |buf|
  {
    if buf != [] {
      var init := buf[..|buf| - 1];
      var last := buf[|buf| - 1];
      var from' := if offset <= 0 then 0 else if offset >= |init| then |init| else offset;
      KeptFromClamped(init, offset, from');
      if |buf| - 1 >= offset {
        assert from == from';
        assert init[from'..] + [last] == buf[from..];
      } else {
        assert from == |buf| && from' == |init|;
      }
    }
  }

  /** A frame whose control flag is false: a member's offset is read, it is acknowledged, then the bytes go to the listeners. */
  function DataStep(s: State, serverMac: string, sock: Socket, dn: string, client: ClientInfo, rest: Reader, channelOk: bool): Step
  {
    if dn in s.connections then
      match ReadInt(rest)
      case None => Step(s, [], true)
      case Some((offset, _)) =>
        var r := Reply(sock, CommandFrame(serverMac, ["success", "message", client.name]), MESSAGE_REPLY_BUFFER, channelOk);
        if r.1 then Step(s, [], true)
        else Step(s, r.0 + [Emit(ClientData(client, KeptFrom(s.buffer, offset as int)))], false)
    else
      var r := Reply(sock, CommandFrame(serverMac, ["failed", "message", NOT_CONNECTED_TEXT]), REPLY_BUFFER, channelOk);
      Step(s, r.0, r.1)
  }

  /** The switch on `command.toLowerCase()`. */
  function CommandStep(s: State, serverMac: string, sock: Socket, dn: string, mac: string, client: ClientInfo,
                   command: string, argument: string, channelOk: bool): Step
  {
    var c := Lower(command);
    if c == "connect" then ConnectStep(s, serverMac, sock, dn, mac, argument, channelOk)
    else if c == "rename" then RenameStep(s, serverMac, sock, dn, mac, command, argument, channelOk)
    else if c == "disconnect" then DisconnectStep(s, serverMac, sock, dn, client, argument, channelOk)
    else UnknownStep(s, serverMac, sock, dn, client, command, argument, channelOk)
  }

  /** Reading the buffer as a frame from `sock` and acting on it. */
  function HandleStep(s: State, serverMac: string, sock: Socket, channelOk: bool): Step
  {
    var dn := DefaultName(sock.host, sock.port);
    match ParseFrame(s.buffer)
    case Unreadable => Step(s, [], true)
    case Cut(mac) => Step(FileClient(s, dn, mac, sock).0, [], true)
    case Control(mac, command, argument) =>
      var (s1, client) := FileClient(s, dn, mac, sock);
      CommandStep(s1, serverMac, sock, dn, mac, client, command, argument, channelOk)
    case Data(mac, rest) =>
      var (s1, client) := FileClient(s, dn, mac, sock);
      DataStep(s1, serverMac, sock, dn, client, rest, channelOk)
  }

  /** A read of `received` into the cleared buffer: it overwrites the front, the rest keeps what it held. */
  function Received(buffer: seq<byte>, received: seq<byte>): (r: seq<byte>)
    requires |received| <= |buffer|
    ensures |r| == |buffer| && r[..|received|] == received && r[|received|..] == buffer[|received|..]
  {
    received + buffer[|received|..]
  }

  /**
   * One pass of a channel's loop. `read` is the bytes the channel read
   * (none at the end of the stream), or None when reading threw. Every
   * exception is caught and printed, so what was done before it stays.
   */
  function Frame(s: State, serverMac: string, sock: Socket, read: Option<seq<byte>>, channelOk: bool): Outcome
    requires read.Some? ==> |read.value| <= |s.buffer|
  {
    match read
    case None => Outcome(s, [])
    case Some(bytes) =>
      var st := HandleStep(s.(buffer := Received(s.buffer, bytes)), serverMac, sock, channelOk);
      Outcome(st.state, st.effects)
  }

  // ---------------------------------------------------------------------
  // The administration calls

  /** `sendMessage` can put a frame for `c` into its buffer: it has a MAC and its data frame fits the buffer. */
  predicate Fits(c: ClientInfo, message: seq<byte>)
  {
    c.mac.Some? && DataFrame(c.mac.value, message).Some? && |DataFrame(c.mac.value, message).value| <= FRAME_BUFFER
  }

  /**
   * What `client.sendMessage(message)` writes: a data frame under the
   * client's MAC, when it fits the buffer and the write to the client's
   * channel succeeds, which it does unless the socket is in `failing`.
   */
  function Sent(c: ClientInfo, message: seq<byte>, failing: set<Socket>): seq<TcpEffect>
  {
    if Fits(c, message) && c.socket !in failing
    then [Send(c.socket, DataFrame(c.mac.value, message).value)]
    else []
  }

  /** The writes to the clients `cs`, in order. */
  function Sends(cs: seq<ClientInfo>, message: seq<byte>, failing: set<Socket>): seq<TcpEffect>
    decreases |cs|
  {
    if cs == [] then [] else Sends(cs[..|cs| - 1], message, failing) + Sent(cs[|cs| - 1], message, failing)
  }

  /** One more client picked adds its write at the end. */
  lemma SendsAppend(cs: seq<ClientInfo>, c: ClientInfo, message: seq<byte>, failing: set<Socket>)
    ensures Sends(cs + [c], message, failing) == Sends(cs, message, failing) + Sent(c, message, failing)
  {
    assert (cs + [c])[..|cs|] == cs;
  }

  /** Every write goes to one of the clients, as a data frame under its MAC. */
  lemma {:induction false} SendsTo(cs: seq<ClientInfo>, message: seq<byte>, i: nat, failing: set<Socket>)
    requires i < |Sends(cs, message, failing)|
    ensures exists j :: (0 <= j < |cs| && cs[j].mac.Some? && DataFrame(cs[j].mac.value, message).Some? &&
      Sends(cs, message, failing)[i] == Send(cs[j].socket, DataFrame(cs[j].mac.value, message).value))
    decreases |cs|
  {
    var prefix := cs[..|cs| - 1];
    if i < |Sends(prefix, message, failing)| {
      SendsTo(prefix, message, i, failing);
      var j :| 0 <= j < |prefix| && prefix[j].mac.Some? && DataFrame(prefix[j].mac.value, message).Some? &&
        Sends(prefix, message, failing)[i] == Send(prefix[j].socket, DataFrame(prefix[j].mac.value, message).value);
      assert prefix[j] == cs[j];
    } else {
      assert Sent(cs[|cs| - 1], message, failing) != [];
    }
  }

  /** Every client of `cs` whose frame fits and whose channel takes the write gets its write. */
  lemma {:induction false} SendsReach(cs: seq<ClientInfo>, message: seq<byte>, c: ClientInfo, failing: set<Socket>)
    requires c in cs && Fits(c, message) && c.socket !in failing
    ensures Send(c.socket, DataFrame(c.mac.value, message).value) in Sends(cs, message, failing)
    decreases |cs|
  {
    var prefix := cs[..|cs| - 1];
    if c != cs[|cs| - 1] {
      assert cs == prefix + [cs[|cs| - 1]];
      SendsReach(prefix, message, c, failing);
    }
  }

  /** The writes of a loop over the clients in `order`, and whether it stopped by throwing. */
  function Notices(clients: map<string, ClientInfo>, order: seq<string>, sel: Selector, message: seq<byte>, failing: set<Socket>): (seq<TcpEffect>, bool)
  {
    var (picked, threw) := Selected(clients, order, sel);
    (Sends(picked, message, failing), threw)
  }

  /**
   * A loop over all the clients throws exactly when the test throws for
   * one of them; every write goes to a client the test accepts, and when
   * nothing throws, every accepted client whose frame fits and whose channel takes the write is written to.
   */
  lemma NoticesExactly(clients: map<string, ClientInfo>, order: seq<string>, sel: Selector, message: seq<byte>, failing: set<Socket>)
    requires Enumerates(order, clients.Keys)
    ensures Notices(clients, order, sel, message, failing).1 <==> exists k :: k in clients && Verdict(sel, clients[k]) == Throw
    ensures forall e :: e in Notices(clients, order, sel, message, failing).0 ==>
      exists k :: k in clients && Verdict(sel, clients[k]) == Notify && Fits(clients[k], message) && clients[k].socket !in failing &&
        e == Send(clients[k].socket, DataFrame(clients[k].mac.value, message).value)
    ensures !Notices(clients, order, sel, message, failing).1 ==>
      forall k :: k in clients && Verdict(sel, clients[k]) == Notify && Fits(clients[k], message) && clients[k].socket !in failing ==>
        Send(clients[k].socket, DataFrame(clients[k].mac.value, message).value) in Notices(clients, order, sel, message, failing).0
  {
    var picked := Selected(clients, order, sel).0;
    var written := Sends(picked, message, failing);
    SelectedAll(clients, order, sel);
    forall e | e in written
      ensures exists k :: (k in clients && Verdict(sel, clients[k]) == Notify && Fits(clients[k], message) && clients[k].socket !in failing &&
        e == Send(clients[k].socket, DataFrame(clients[k].mac.value, message).value))
    {
      var i :| 0 <= i < |written| && written[i] == e;
      SendsFit(picked, message, i, failing);
      var j :| 0 <= j < |picked| && Fits(picked[j], message) && picked[j].socket !in failing &&
        written[i] == Send(picked[j].socket, DataFrame(picked[j].mac.value, message).value);
      assert picked[j] in picked;
    }
    if !Selected(clients, order, sel).1 {
      forall k | k in clients && Verdict(sel, clients[k]) == Notify && Fits(clients[k], message) && clients[k].socket !in failing
        ensures Send(clients[k].socket, DataFrame(clients[k].mac.value, message).value) in written
      {
        SendsReach(picked, message, clients[k], failing);
      }
    }
  }

  /** Every write goes to one of the clients whose frame fits and whose channel takes the write. */
  lemma {:induction false} SendsFit(cs: seq<ClientInfo>, message: seq<byte>, i: nat, failing: set<Socket>)
    requires i < |Sends(cs, message, failing)|
    ensures exists j :: (0 <= j < |cs| && Fits(cs[j], message) && cs[j].socket !in failing &&
      Sends(cs, message, failing)[i] == Send(cs[j].socket, DataFrame(cs[j].mac.value, message).value))
    decreases |cs|
  {
    var prefix := cs[..|cs| - 1];
    if i < |Sends(prefix, message, failing)| {
      SendsFit(prefix, message, i, failing);
      var j :| 0 <= j < |prefix| && Fits(prefix[j], message) && prefix[j].socket !in failing &&
        Sends(prefix, message, failing)[i] == Send(prefix[j].socket, DataFrame(prefix[j].mac.value, message).value);
      assert prefix[j] == cs[j];
    } else {
      assert Fits(cs[|cs| - 1], message) && cs[|cs| - 1].socket !in failing;
    }
  }

  /** A loop of sends throws exactly when its selection does. */
  lemma NoticesParts(clients: map<string, ClientInfo>, order: seq<string>, sel: Selector, message: seq<byte>, failing: set<Socket>)
    requires forall i :: 0 <= i < |order| ==> order[i] in clients
    ensures Notices(clients, order, sel, message, failing).1 == Selected(clients, order, sel).1
  {
  }

  /** The notice of ban and kick, built inside the loop for each client it picks. */
  function NoticeFrame(serverMac: string, text: string): Option<seq<byte>>
  {
    CommandFrame(serverMac, ["failed", "disconnect", text])
  }

  /**
   * The loop of ban and kick: each client picked is sent the notice; if
   * the notice cannot be built, the loop throws at the first one picked.
   */
  function NoticeLoop(clients: map<string, ClientInfo>, order: seq<string>, sel: Selector,
                      serverMac: string, text: string, failing: set<Socket>): (seq<TcpEffect>, bool)
    requires forall i :: 0 <= i < |order| ==> order[i] in clients
  {
    match NoticeFrame(serverMac, text)
    case Some(notice) => Notices(clients, order, sel, notice, failing)
    case None =>
      var (picked, threw) := Selected(clients, order, sel);
      ([], threw || picked != [])
  }

  /** `ban`: the MACs join the banned set; every client with a banned MAC is sent the ban notice. */
  function BanStep(s: State, serverMac: string, macs: seq<string>, order: seq<string>, failing: set<Socket>): (State, seq<TcpEffect>, bool)
    requires forall i :: 0 <= i < |order| ==> order[i] in s.clients
  {
    var banned := s.banned + Elements(macs);
    var (e, threw) := NoticeLoop(s.clients, order, Banned(banned), serverMac, BAN_NOTICE_TEXT, failing);
    (s.(banned := banned), e, threw)
  }

  /** `kick`: every client whose MAC is listed is sent the kick notice. */
  function KickStep(s: State, serverMac: string, macs: seq<string>, order: seq<string>, failing: set<Socket>): (seq<TcpEffect>, bool)
    requires forall i :: 0 <= i < |order| ==> order[i] in s.clients
  {
    NoticeLoop(s.clients, order, Kicked(macs), serverMac, KICK_NOTICE_TEXT, failing)
  }

  /** `unBan`. */
  function UnBanStep(s: State, macs: seq<string>): (r: State)
    ensures r.banned == s.banned - Elements(macs)
    ensures r == s.(banned := r.banned)
  {
    s.(banned := s.banned - Elements(macs))
  }

  /** `redirect(name, data)`: the clients whose name or MAC is `name` are sent the data. */
  function RedirectStep(s: State, name: string, data: seq<byte>, order: seq<string>, failing: set<Socket>): (seq<TcpEffect>, bool)
    requires forall i :: 0 <= i < |order| ==> order[i] in s.clients
  {
    Notices(s.clients, order, Named(name), data, failing)
  }

  /** `broadcast(data)`: every client is sent the data. */
  function BroadcastStep(s: State, data: seq<byte>, order: seq<string>, failing: set<Socket>): seq<TcpEffect>
    requires forall i :: 0 <= i < |order| ==> order[i] in s.clients
  {
    Notices(s.clients, order, Everyone, data, failing).0
  }

  /** `close()`: the accept loop stops; clients, connections and bans stay. */
  function Closed(s: State): (r: State)
    ensures !r.operative
    ensures r == s.(operative := false)
  {
    s.(operative := false)
  }

  // ---------------------------------------------------------------------
  // Properties of a pass

  /** The address a frame from `sock` is filed under. */
  function Address(sock: Socket): string
  {
    DefaultName(sock.host, sock.port)
  }

  /** The state after the sender lookup of a frame carrying `mac`. */
  function LookedUp(s: State, sock: Socket, mac: string): State
  {
    FileClient(s, Address(sock), mac, sock).0
  }

  /** A control frame as a client writes it, read back from the buffer it lands in, whatever the buffer held after it. */
  lemma ControlFrameParses(mac: string, command: string, argument: string, frame: seq<byte>, tail: seq<byte>)
    requires ControlFrame(mac, command, argument) == Some(frame)
    ensures ParseFrame(frame + tail) == Control(mac, command, argument)
  {
    var u, uc, ua := EncodeUTF(mac).value, EncodeUTF(command).value, EncodeUTF(argument).value;
    var c := |u| + 1 + |uc|;
    ControlFrameAt(mac, command, argument, u, uc, ua, frame, tail);
    ParseControl(frame + tail, mac, command, argument, 0 + |u|, c, c + |ua|);
  }

  /** Three fields with a true byte after the first make a control frame. */
  lemma ParseControl(buf: seq<byte>, mac: string, command: string, argument: string, m: nat, c: nat, e: nat)
    requires UTFAt(buf, 0, m, mac) && m < |buf| && buf[m] == 1
    requires UTFAt(buf, m + 1, c, command) && UTFAt(buf, c, e, argument)
    ensures ParseFrame(buf) == Control(mac, command, argument)
  {
    ReadUTFAt(buf, 0, m, mac);
    ReadUTFAt(buf, m + 1, c, command);
    ReadUTFAt(buf, c, e, argument);
  }

  /** A data frame read back from the buffer: the MAC, and a reader at the offset it carries. */
  lemma DataFrameParses(mac: string, message: seq<byte>, tail: seq<byte>)
    requires EncodeUTF(mac).Some?
    ensures var buf := DataFrame(mac, message).value + tail;
      var u := EncodeUTF(mac).value;
      ParseFrame(buf) == Data(mac, Reader(buf, |u| + 1)) &&
      ReadInt(Reader(buf, |u| + 1)) == Some(((|u| + 5) as int32, Reader(buf, |u| + 5))) &&
      buf[|u| + 5..] == message + tail
  {
    DataFrameReads(mac, message, tail);
  }

  /** The buffer after a read of a whole frame that fits it. */
  lemma ReceivedFrame(s: State, frame: seq<byte>)
    requires |frame| <= |s.buffer|
    ensures Received(s.buffer, frame) == frame + s.buffer[|frame|..]
  {
  }

  /** A pass keeps `Valid`. */
  lemma FrameKeepsValid(s: State, serverMac: string, sock: Socket, read: Option<seq<byte>>, channelOk: bool)
    requires Valid(s) && (read.Some? ==> |read.value| <= |s.buffer|)
    ensures Valid(Frame(s, serverMac, sock, read, channelOk).state)
  {
    if read.Some? {
      var s1 := s.(buffer := Received(s.buffer, read.value));
      assert Valid(s1);
      var dn := Address(sock);
      match ParseFrame(s1.buffer)
      case Unreadable =>
      case Cut(mac) =>
      case Control(mac, command, argument) =>
        var (s2, client) := FileClient(s1, dn, mac, sock);
        assert Valid(s2);
        CommandKeepsValid(s2, serverMac, sock, dn, mac, client, command, argument, channelOk);
      case Data(mac, rest) =>
    }
  }

  /** The command switch keeps `Valid`: every handle it files carries the sender's MAC. */
  lemma CommandKeepsValid(s: State, serverMac: string, sock: Socket, dn: string, mac: string, client: ClientInfo,
                          command: string, argument: string, channelOk: bool)
    requires Valid(s) && dn in s.clients
    ensures Valid(CommandStep(s, serverMac, sock, dn, mac, client, command, argument, channelOk).state)
  {
    var st := CommandStep(s, serverMac, sock, dn, mac, client, command, argument, channelOk);
    var c := Lower(command);
    if c == "connect" {
      assert st == ConnectStep(s, serverMac, sock, dn, mac, argument, channelOk);
    } else if c == "rename" {
      assert st == RenameStep(s, serverMac, sock, dn, mac, command, argument, channelOk);
    } else if c == "disconnect" {
      assert st == DisconnectStep(s, serverMac, sock, dn, client, argument, channelOk);
    } else {
      assert st == UnknownStep(s, serverMac, sock, dn, client, command, argument, channelOk);
    }
  }

  /** A control frame read whole into the buffer is filed and handed to the command switch. */
  lemma ControlFrameHandled(s: State, serverMac: string, sock: Socket, mac: string, command: string, argument: string, frame: seq<byte>, channelOk: bool)
    requires ControlFrame(mac, command, argument) == Some(frame)
    requires |frame| <= |s.buffer|
    ensures var s0 := s.(buffer := frame + s.buffer[|frame|..]);
      var (s1, client) := FileClient(s0, Address(sock), mac, sock);
      var st := CommandStep(s1, serverMac, sock, Address(sock), mac, client, command, argument, channelOk);
      Frame(s, serverMac, sock, Some(frame), channelOk) == Outcome(st.state, st.effects)
  {
    ControlFrameParses(mac, command, argument, frame, s.buffer[|frame|..]);
  }

  /**
   * Connect, from a control frame read whole into the buffer: a MAC that
   * is not banned is filed under the address with the name asked for, the
   * address joins `connections`, and the connect event comes before the
   * accept reply; there is no access key.
   */
  lemma ConnectOutcome(s: State, serverMac: string, sock: Socket, mac: string, command: string, argument: string, frame: seq<byte>, channelOk: bool)
    requires ControlFrame(mac, command, argument) == Some(frame) && Lower(command) == "connect"
    requires |frame| <= |s.buffer|
    requires mac !in s.banned
    ensures var o := Frame(s, serverMac, sock, Some(frame), channelOk);
      var client := ClientInfo(argument, Some(mac), sock);
      o.state == s.(clients := s.clients[Address(sock) := client], connections := s.connections + {Address(sock)},
                    buffer := frame + s.buffer[|frame|..]) &&
      o.effects == [Emit(ClientConnect(client))] + Reply(sock, AcceptReply(serverMac), REPLY_BUFFER, channelOk).0
  {
    ControlFrameHandled(s, serverMac, sock, mac, command, argument, frame, channelOk);
    var s0 := s.(buffer := frame + s.buffer[|frame|..]);
    Message.UpdateTwice(s.clients, Address(sock), FileClient(s0, Address(sock), mac, sock).1, ClientInfo(argument, Some(mac), sock));
  }

  /** A banned MAC gets only the ban text; it is filed as any sender is, and `connections` stays as it was. */
  lemma ConnectBanned(s: State, serverMac: string, sock: Socket, mac: string, command: string, argument: string, frame: seq<byte>, channelOk: bool)
    requires ControlFrame(mac, command, argument) == Some(frame) && Lower(command) == "connect"
    requires |frame| <= |s.buffer|
    requires mac in s.banned
    ensures var o := Frame(s, serverMac, sock, Some(frame), channelOk);
      o.state == LookedUp(s, sock, mac).(buffer := frame + s.buffer[|frame|..]) &&
      o.effects == Reply(sock, CommandFrame(serverMac, [BANNED_TEXT]), REPLY_BUFFER, channelOk).0
  {
    ControlFrameHandled(s, serverMac, sock, mac, command, argument, frame, channelOk);
  }

  /**
   * Before its connect is accepted, a sender is not a member: rename,
   * disconnect and every other command get a failed reply, and nothing
   * changes but the sender lookup and the buffer.
   */
  lemma CommandBeforeConnect(s: State, serverMac: string, sock: Socket, mac: string, command: string, argument: string, frame: seq<byte>, channelOk: bool)
    requires ControlFrame(mac, command, argument) == Some(frame) && Lower(command) != "connect"
    requires |frame| <= |s.buffer|
    requires Address(sock) !in s.connections
    ensures var o := Frame(s, serverMac, sock, Some(frame), channelOk);
      var c := Lower(command);
      var failure :=
        if c == "rename" then ["failed", "rename", argument, NOT_CONNECTED_TEXT]
        else if c == "disconnect" then ["failed", "disconnect", NOT_CONNECTED_TEXT]
        else ["failed", "unknown", command, argument, NOT_CONNECTED_TEXT];
      o.state == LookedUp(s, sock, mac).(buffer := frame + s.buffer[|frame|..]) &&
      o.effects == Reply(sock, CommandFrame(serverMac, failure), REPLY_BUFFER, channelOk).0
  {
    ControlFrameHandled(s, serverMac, sock, mac, command, argument, frame, channelOk);
  }

  /** A data frame before connect is refused too. */
  lemma DataBeforeConnect(s: State, serverMac: string, sock: Socket, mac: string, message: seq<byte>, channelOk: bool)
    requires EncodeUTF(mac).Some? && |DataFrame(mac, message).value| <= |s.buffer|
    requires Address(sock) !in s.connections
    ensures var frame := DataFrame(mac, message).value;
      var o := Frame(s, serverMac, sock, Some(frame), channelOk);
      o.state == LookedUp(s, sock, mac).(buffer := frame + s.buffer[|frame|..]) &&
      o.effects == Reply(sock, CommandFrame(serverMac, ["failed", "message", NOT_CONNECTED_TEXT]), REPLY_BUFFER, channelOk).0
  {
    var frame := DataFrame(mac, message).value;
    DataFrameParses(mac, message, s.buffer[|frame|..]);
  }

  /**
   * Rename by a member: the handle takes the new name even when another
   * client already carries it; the reply is success/rename with the name.
   */
  lemma RenameWithoutCollisionCheck(s: State, serverMac: string, sock: Socket, mac: string, command: string, argument: string, frame: seq<byte>, channelOk: bool)
    requires ControlFrame(mac, command, argument) == Some(frame) && Lower(command) == "rename"
    requires |frame| <= |s.buffer|
    requires Address(sock) in s.connections
    ensures var o := Frame(s, serverMac, sock, Some(frame), channelOk);
      var client := ClientInfo(argument, Some(mac), sock);
      o.state == s.(clients := s.clients[Address(sock) := client], buffer := frame + s.buffer[|frame|..]) &&
      o.effects == [Emit(ClientCommand(client, command, argument, Some(frame + s.buffer[|frame|..])))] +
                   Reply(sock, CommandFrame(serverMac, ["success", "rename", argument]), REPLY_BUFFER, channelOk).0
  {
    ControlFrameHandled(s, serverMac, sock, mac, command, argument, frame, channelOk);
    var s0 := s.(buffer := frame + s.buffer[|frame|..]);
    Message.UpdateTwice(s.clients, Address(sock), FileClient(s0, Address(sock), mac, sock).1, ClientInfo(argument, Some(mac), sock));
  }

  /** Disconnect by a member: both entries go and the listeners hear of it, but nothing is written back. */
  lemma DisconnectWithoutReply(s: State, serverMac: string, sock: Socket, mac: string, command: string, argument: string, frame: seq<byte>, channelOk: bool)
    requires ControlFrame(mac, command, argument) == Some(frame) && Lower(command) == "disconnect"
    requires |frame| <= |s.buffer|
    requires Address(sock) in s.connections
    ensures var o := Frame(s, serverMac, sock, Some(frame), channelOk);
      var client := FileClient(s, Address(sock), mac, sock).1;
      o.state == s.(clients := s.clients - {Address(sock)}, connections := s.connections - {Address(sock)},
                    buffer := frame + s.buffer[|frame|..]) &&
      o.effects == [Emit(ClientDisconnect(client, KILLED_BY_CLIENT, argument))]
  {
    ControlFrameHandled(s, serverMac, sock, mac, command, argument, frame, channelOk);
    assert LookedUp(s, sock, mac).clients - {Address(sock)} == s.clients - {Address(sock)};
  }

  /**
   * A member's data frame, read whole into the buffer: the
   * acknowledgement goes out, then the listeners get the bytes from the
   * frame's offset to the end of the buffer, which is the message followed
   * by whatever earlier reads left behind it.
   */
  lemma DataDeliversStaleTail(s: State, serverMac: string, sock: Socket, mac: string, message: seq<byte>, channelOk: bool)
    requires EncodeUTF(mac).Some? && |DataFrame(mac, message).value| <= |s.buffer|
    requires Address(sock) in s.connections
    ensures var frame := DataFrame(mac, message).value;
      var o := Frame(s, serverMac, sock, Some(frame), channelOk);
      var client := FileClient(s, Address(sock), mac, sock).1;
      var r := Reply(sock, CommandFrame(serverMac, ["success", "message", client.name]), MESSAGE_REPLY_BUFFER, channelOk);
      o.state == LookedUp(s, sock, mac).(buffer := frame + s.buffer[|frame|..]) &&
      (!r.1 ==> o.effects == r.0 + [Emit(ClientData(client, message + s.buffer[|frame|..]))]) &&
      (r.1 ==> o.effects == [])
  {
    var frame := DataFrame(mac, message).value;
    var buf := frame + s.buffer[|frame|..];
    var u := EncodeUTF(mac).value;
    DataFrameParses(mac, message, s.buffer[|frame|..]);
    DataFrameLayout(mac, message);
    KeptFromIsSuffix(buf, |u| + 5);
  }

  /**
   * A member's data frame: the listeners hear of the bytes exactly when
   * the acknowledgement reaches the channel, and right after it. When the
   * offset cannot be read, the acknowledgement cannot be built or does not
   * fit, or the channel's write fails, the pass throws having written and
   * fired nothing.
   */
  lemma DataEventFollowsAck(s: State, serverMac: string, sock: Socket, dn: string, client: ClientInfo, rest: Reader,
                            channelOk: bool)
    requires dn in s.connections
    ensures var st := DataStep(s, serverMac, sock, dn, client, rest, channelOk);
      var ack := CommandFrame(serverMac, ["success", "message", client.name]);
      var acked := ReadInt(rest).Some? && ack.Some? && |ack.value| <= MESSAGE_REPLY_BUFFER && channelOk;
      st.state == s && st.threw == !acked &&
      (acked ==> st.effects == [Send(sock, ack.value), Emit(ClientData(client, KeptFrom(s.buffer, ReadInt(rest).value.0 as int)))]) &&
      (!acked ==> st.effects == [])
  {
  }

  /**
   * A read of no bytes (the end of the stream, which the loop keeps
   * meeting) leaves the buffer as it was, so the previous frame is handled
   * again.
   */
  lemma EmptyReadRepeats(s: State, serverMac: string, sock: Socket, channelOk: bool)
    ensures Frame(s, serverMac, sock, Some([]), channelOk) == Outcome(HandleStep(s, serverMac, sock, channelOk).state, HandleStep(s, serverMac, sock, channelOk).effects)
  {
    assert Received(s.buffer, []) == s.buffer;
    assert s.(buffer := s.buffer) == s;
  }

  // ---------------------------------------------------------------------
  // Properties of the administration calls

  /** Under `Valid` every handle has a MAC, so no loop throws for a missing one. */
  lemma NoMissingMac(s: State, order: seq<string>, sel: Selector)
    requires Valid(s) && forall i :: 0 <= i < |order| ==> order[i] in s.clients
    ensures forall i :: 0 <= i < |order| ==> Verdict(sel, s.clients[order[i]]) != Throw
  {
  }

  /**
   * Ban only adds to the banned set: the handles and `connections` stay.
   * A valid server's ban never throws once the notice can be built.
   */
  lemma BanKeepsClients(s: State, serverMac: string, macs: seq<string>, order: seq<string>, failing: set<Socket>)
    requires Valid(s) && forall i :: 0 <= i < |order| ==> order[i] in s.clients
    requires NoticeFrame(serverMac, BAN_NOTICE_TEXT).Some?
    ensures var r := BanStep(s, serverMac, macs, order, failing);
      r.0 == s.(banned := s.banned + Elements(macs)) && !r.2
  {
    var banned := s.banned + Elements(macs);
    NoMissingMac(s, order, Banned(banned));
    SelectedWithoutThrow(s.clients, order, Banned(banned), ClientInfo("", None, Socket(0, "", 0)));
    NoticesParts(s.clients, order, Banned(banned), NoticeFrame(serverMac, BAN_NOTICE_TEXT).value, failing);
  }

  /**
   * Every write of a loop of sends goes to a client the loop picked, as a
   * data frame under its MAC.
   */
  lemma NoticesGoTo(clients: map<string, ClientInfo>, order: seq<string>, sel: Selector, message: seq<byte>, i: nat, failing: set<Socket>)
    requires forall i :: 0 <= i < |order| ==> order[i] in clients
    requires i < |Notices(clients, order, sel, message, failing).0|
    ensures exists n :: (0 <= n < |order| && Verdict(sel, clients[order[n]]) == Notify &&
      clients[order[n]].mac.Some? && DataFrame(clients[order[n]].mac.value, message).Some? &&
      Notices(clients, order, sel, message, failing).0[i] ==
        Send(clients[order[n]].socket, DataFrame(clients[order[n]].mac.value, message).value))
  {
    var picked := Selected(clients, order, sel).0;
    SendsTo(picked, message, i, failing);
    var j :| 0 <= j < |picked| && picked[j].mac.Some? && DataFrame(picked[j].mac.value, message).Some? &&
      Sends(picked, message, failing)[i] == Send(picked[j].socket, DataFrame(picked[j].mac.value, message).value);
    SelectedArePicked(clients, order, sel, j);
    var n :| 0 <= n < |order| && picked[j] == clients[order[n]] && Verdict(sel, clients[order[n]]) == Notify;
  }

  /**
   * Every write of a ban goes to a client whose MAC is now banned, as a
   * data frame under that MAC carrying the ban notice.
   */
  lemma BanNoticesGoToBanned(s: State, serverMac: string, macs: seq<string>, order: seq<string>, i: nat, failing: set<Socket>)
    requires forall i :: 0 <= i < |order| ==> order[i] in s.clients
    requires i < |BanStep(s, serverMac, macs, order, failing).1|
    ensures NoticeFrame(serverMac, BAN_NOTICE_TEXT).Some?
    ensures exists n :: (0 <= n < |order| && s.clients[order[n]].mac.Some? &&
      s.clients[order[n]].mac.value in s.banned + Elements(macs) &&
      DataFrame(s.clients[order[n]].mac.value, NoticeFrame(serverMac, BAN_NOTICE_TEXT).value).Some? &&
      BanStep(s, serverMac, macs, order, failing).1[i] ==
        Send(s.clients[order[n]].socket, DataFrame(s.clients[order[n]].mac.value, NoticeFrame(serverMac, BAN_NOTICE_TEXT).value).value))
  {
    var banned := s.banned + Elements(macs);
    NoticesGoTo(s.clients, order, Banned(banned), NoticeFrame(serverMac, BAN_NOTICE_TEXT).value, i, failing);
  }

  /** A kick never throws once the notice can be built, whatever the iteration order. */
  lemma KickNeverThrows(s: State, serverMac: string, macs: seq<string>, order: seq<string>, failing: set<Socket>)
    requires forall i :: 0 <= i < |order| ==> order[i] in s.clients
    requires NoticeFrame(serverMac, KICK_NOTICE_TEXT).Some?
    ensures !KickStep(s, serverMac, macs, order, failing).1
  {
    SelectedWithoutThrow(s.clients, order, Kicked(macs), ClientInfo("", None, Socket(0, "", 0)));
  }

  /**
   * Over all the clients, once the notice can be built, a ban throws
   * exactly when some client has no MAC; otherwise every client whose MAC
   * is now banned and whose frame fits and whose channel takes the write is sent the notice. A notice that
   * cannot be built is never written.
   */
  lemma BanNotifiesBanned(s: State, serverMac: string, macs: seq<string>, order: seq<string>, failing: set<Socket>)
    requires Enumerates(order, s.clients.Keys)
    ensures NoticeFrame(serverMac, BAN_NOTICE_TEXT).None? ==> BanStep(s, serverMac, macs, order, failing).1 == []
    ensures NoticeFrame(serverMac, BAN_NOTICE_TEXT).Some? ==>
      (BanStep(s, serverMac, macs, order, failing).2 <==> exists k :: k in s.clients && s.clients[k].mac.None?)
    ensures var r := BanStep(s, serverMac, macs, order, failing); var n := NoticeFrame(serverMac, BAN_NOTICE_TEXT);
      n.Some? && !r.2 ==>
        forall k :: k in s.clients && s.clients[k].mac.Some? && s.clients[k].mac.value in r.0.banned && Fits(s.clients[k], n.value) && s.clients[k].socket !in failing ==>
          Send(s.clients[k].socket, DataFrame(s.clients[k].mac.value, n.value).value) in r.1
  {
    var n := NoticeFrame(serverMac, BAN_NOTICE_TEXT);
    if n.Some? {
      NoticesExactly(s.clients, order, Banned(s.banned + Elements(macs)), n.value, failing);
    }
  }

  /**
   * Over all the clients, a kick whose notice can be built never throws
   * and sends it to exactly the clients whose MAC it lists and whose frame
   * fits.
   */
  lemma KickNotifiesListed(s: State, serverMac: string, macs: seq<string>, order: seq<string>, failing: set<Socket>)
    requires Enumerates(order, s.clients.Keys)
    ensures NoticeFrame(serverMac, KICK_NOTICE_TEXT).None? ==> KickStep(s, serverMac, macs, order, failing).0 == []
    ensures var n := NoticeFrame(serverMac, KICK_NOTICE_TEXT);
      n.Some? ==> (!KickStep(s, serverMac, macs, order, failing).1 &&
        forall k :: k in s.clients && s.clients[k].mac.Some? && s.clients[k].mac.value in macs && Fits(s.clients[k], n.value) && s.clients[k].socket !in failing ==>
          Send(s.clients[k].socket, DataFrame(s.clients[k].mac.value, n.value).value) in KickStep(s, serverMac, macs, order, failing).0)
    ensures var n := NoticeFrame(serverMac, KICK_NOTICE_TEXT);
      forall e :: e in KickStep(s, serverMac, macs, order, failing).0 ==> (n.Some? &&
        exists k :: k in s.clients && s.clients[k].mac.Some? && s.clients[k].mac.value in macs && Fits(s.clients[k], n.value) && s.clients[k].socket !in failing &&
          e == Send(s.clients[k].socket, DataFrame(s.clients[k].mac.value, n.value).value))
  {
    var n := NoticeFrame(serverMac, KICK_NOTICE_TEXT);
    if n.Some? {
      KickNeverThrows(s, serverMac, macs, order, failing);
      NoticesExactly(s.clients, order, Kicked(macs), n.value, failing);
    }
  }

  /** Banning then unbanning the same MACs leaves exactly the MACs banned before that were not among them. */
  lemma BanThenUnBan(s: State, serverMac: string, macs: seq<string>, order: seq<string>, failing: set<Socket>)
    requires forall i :: 0 <= i < |order| ==> order[i] in s.clients
    ensures UnBanStep(BanStep(s, serverMac, macs, order, failing).0, macs).banned == s.banned - Elements(macs)
  {
  }

  /**
   * A broadcast never throws and writes to the clients in loop order; over
   * all the clients, every client whose frame fits and whose channel takes the write is sent the data.
   */
  lemma BroadcastReachesAll(s: State, data: seq<byte>, order: seq<string>, failing: set<Socket>)
    requires Enumerates(order, s.clients.Keys)
    ensures Notices(s.clients, order, Everyone, data, failing) == (Sends(InOrder(s.clients, order), data, failing), false)
    ensures forall k :: k in s.clients && Fits(s.clients[k], data) && s.clients[k].socket !in failing ==>
      Send(s.clients[k].socket, DataFrame(s.clients[k].mac.value, data).value) in BroadcastStep(s, data, order, failing)
  {
    SelectedEveryone(s.clients, order);
    NoticesExactly(s.clients, order, Everyone, data, failing);
  }

  /**
   * Over all the clients, a redirect throws exactly when a client not
   * named `name` has no MAC; otherwise every client whose name or MAC is
   * `name` and whose frame fits and whose channel takes the write is sent the data, and no other client is.
   */
  lemma RedirectReaches(s: State, name: string, data: seq<byte>, order: seq<string>, failing: set<Socket>)
    requires Enumerates(order, s.clients.Keys)
    ensures RedirectStep(s, name, data, order, failing).1 <==>
      exists k :: k in s.clients && s.clients[k].name != name && s.clients[k].mac.None?
    ensures var r := RedirectStep(s, name, data, order, failing);
      !r.1 ==> forall k :: (k in s.clients && (s.clients[k].name == name || s.clients[k].mac == Some(name)) &&
        Fits(s.clients[k], data) && s.clients[k].socket !in failing) ==> Send(s.clients[k].socket, DataFrame(s.clients[k].mac.value, data).value) in r.0
    ensures forall e :: e in RedirectStep(s, name, data, order, failing).0 ==>
      exists k :: k in s.clients && (s.clients[k].name == name || s.clients[k].mac == Some(name)) && Fits(s.clients[k], data) && s.clients[k].socket !in failing &&
        e == Send(s.clients[k].socket, DataFrame(s.clients[k].mac.value, data).value)
  {
    NoticesExactly(s.clients, order, Named(name), data, failing);
  }

  /** A redirect on a valid server never throws. */
  lemma RedirectNeverThrows(s: State, name: string, data: seq<byte>, order: seq<string>, failing: set<Socket>)
    requires Valid(s) && forall i :: 0 <= i < |order| ==> order[i] in s.clients
    ensures !RedirectStep(s, name, data, order, failing).1
  {
    NoMissingMac(s, order, Named(name));
    SelectedWithoutThrow(s.clients, order, Named(name), ClientInfo("", None, Socket(0, "", 0)));
    NoticesParts(s.clients, order, Named(name), data, failing);
  }

  /** On a valid server a redirect over all the clients picks a client exactly when its name or its MAC is the target. */
  lemma RedirectPicks(s: State, name: string, order: seq<string>, c: ClientInfo)
    requires Valid(s) && Enumerates(order, s.clients.Keys)
    ensures c in Selected(s.clients, order, Named(name)).0 <==>
      exists k :: k in s.clients && s.clients[k] == c && (c.name == name || c.mac == Some(name))
  {
    SelectedAll(s.clients, order, Named(name));
  }

  // ---------------------------------------------------------------------
  // The server object

  class Server {
    var clients: map<string, ClientInfo>
    var connections: set<string>
    var banned: set<string>
    var operative: bool
    /** The static read buffer every channel shares. */
    const buffer: array<byte>
    /** Everything written and every event fired so far, in order. */
    var effects: seq<TcpEffect>
    /** `getMAC()`. */
    const mac: string

    function Snapshot(): State
      reads this, buffer
    {
      State(clients, connections, banned, operative, buffer[..])
    }

    /** Operative from the start, as the static field is; the buffer starts zeroed. */
    constructor (serverMac: string)
      ensures Snapshot() == State(map[], {}, {}, true, seq(FRAME_BUFFER, _ => 0)) && effects == [] && mac == serverMac
      ensures Valid(Snapshot()) && fresh(buffer)
    {
      clients, connections, banned, operative, effects := map[], {}, {}, true, [];
      buffer := new byte[FRAME_BUFFER](_ => 0);
      mac := serverMac;
    }

    /** `getClients()`. */
    function GetClients(): (r: set<ClientInfo>)
      reads this
      ensures forall c :: c in r <==> exists k :: k in clients && clients[k] == c
    {
      clients.Values
    }

    /** `start()`: whether binding succeeded; it does not touch `operative`. */
    method Start(bindOk: bool) returns (started: bool)
      ensures started == bindOk
    {
      started := bindOk;
    }

    /** `BUFFER.clear(); channel.read(BUFFER)`: the bytes read go to the front of the buffer. */
    method Receive(received: seq<byte>)
      requires |received| <= buffer.Length
      modifies buffer
      ensures buffer[..] == Received(old(buffer[..]), received)
    {
      var i := 0;
      while i < |received|
        invariant 0 <= i <= |received|
        invariant buffer[..i] == received[..i]
        invariant buffer[i..] == old(buffer[..])[i..]
      {
        buffer[i] := received[i];
        i := i + 1;
        assert buffer[..i] == buffer[..i - 1] + [buffer[i - 1]];
        assert received[..i] == received[..i - 1] + [received[i - 1]];
      }
      assert buffer[..] == buffer[..i] + buffer[i..];
    }

    /** Writing a reply, or throwing when it cannot be built, does not fit or the channel's write fails. */
    method Respond(sock: Socket, frame: Option<seq<byte>>, capacity: nat, channelOk: bool) returns (threw: bool)
      modifies this
      ensures Snapshot() == old(Snapshot()) && threw == Reply(sock, frame, capacity, channelOk).1
      ensures effects == old(effects) + Reply(sock, frame, capacity, channelOk).0
    {
      if frame.None? || |frame.value| > capacity || !channelOk {
        return true;
      }
      effects := effects + [Send(sock, frame.value)];
      threw := false;
    }

    method Fire(event: ServerEvent)
      modifies this
      ensures Snapshot() == old(Snapshot()) && effects == old(effects) + [Emit(event)]
    {
      effects := effects + [Emit(event)];
    }

    method GetClient(dn: string, m: string, sock: Socket) returns (client: ClientInfo)
      modifies this
      ensures (Snapshot(), client) == FileClient(old(Snapshot()), dn, m, sock) && effects == old(effects)
    {
      if dn in clients {
        client := clients[dn];
      } else {
        client := ClientInfo(dn, Some(m), sock);
        clients := clients[dn := client];
      }
    }

    method Connect(sock: Socket, dn: string, m: string, argument: string, channelOk: bool) returns (threw: bool)
      modifies this
      ensures var st := ConnectStep(old(Snapshot()), mac, sock, dn, m, argument, channelOk);
        Snapshot() == st.state && effects == old(effects) + st.effects && threw == st.threw
    {
      if m !in banned {
        var client := ClientInfo(argument, Some(m), sock);
        clients := clients[dn := client];
        connections := connections + {dn};
        Fire(ClientConnect(client));
        threw := Respond(sock, AcceptReply(mac), REPLY_BUFFER, channelOk);
      } else {
        threw := Respond(sock, CommandFrame(mac, [BANNED_TEXT]), REPLY_BUFFER, channelOk);
      }
    }

    method Rename(sock: Socket, dn: string, m: string, command: string, argument: string, channelOk: bool) returns (threw: bool)
      modifies this
      ensures var st := RenameStep(old(Snapshot()), mac, sock, dn, m, command, argument, channelOk);
        Snapshot() == st.state && effects == old(effects) + st.effects && threw == st.threw
    {
      if dn in connections {
        var client := ClientInfo(argument, Some(m), sock);
        clients := clients[dn := client];
        Fire(ClientCommand(client, command, argument, Some(buffer[..])));
        threw := Respond(sock, CommandFrame(mac, ["success", "rename", argument]), REPLY_BUFFER, channelOk);
      } else {
        threw := Respond(sock, CommandFrame(mac, ["failed", "rename", argument, NOT_CONNECTED_TEXT]), REPLY_BUFFER, channelOk);
      }
    }

    method Disconnect(sock: Socket, dn: string, client: ClientInfo, argument: string, channelOk: bool) returns (threw: bool)
      modifies this
      ensures var st := DisconnectStep(old(Snapshot()), mac, sock, dn, client, argument, channelOk);
        Snapshot() == st.state && effects == old(effects) + st.effects && threw == st.threw
    {
      if dn in connections {
        clients := clients - {dn};
        connections := connections - {dn};
        Fire(ClientDisconnect(client, KILLED_BY_CLIENT, argument));
        threw := false;
      } else {
        threw := Respond(sock, CommandFrame(mac, ["failed", "disconnect", NOT_CONNECTED_TEXT]), REPLY_BUFFER, channelOk);
      }
    }

    method Unknown(sock: Socket, dn: string, client: ClientInfo, command: string, argument: string, channelOk: bool) returns (threw: bool)
      modifies this
      ensures var st := UnknownStep(old(Snapshot()), mac, sock, dn, client, command, argument, channelOk);
        Snapshot() == st.state && effects == old(effects) + st.effects && threw == st.threw
    {
      if dn in connections {
        Fire(ClientCommand(client, command, argument, Some(buffer[..])));
        threw := false;
      } else {
        threw := Respond(sock, CommandFrame(mac, ["failed", "unknown", command, argument, NOT_CONNECTED_TEXT]), REPLY_BUFFER, channelOk);
      }
    }

    /** The copy loops of the data branch: every buffer byte at an index of at least `offset`, in order. */
    method SliceFrom(offset: int32) returns (delivered: seq<byte>)
      ensures delivered == KeptFrom(buffer[..], offset as int)
    {
      delivered := [];
      var i := 0;
      while i < buffer.Length
        invariant 0 <= i <= buffer.Length
        invariant delivered == KeptFrom(buffer[..i], offset as int)
      {
        assert buffer[..i + 1][..i] == buffer[..i];
        if i >= offset as int {
          delivered := delivered + [buffer[i]];
        }
        i := i + 1;
      }
      assert buffer[..buffer.Length] == buffer[..];
    }

    method Data(sock: Socket, dn: string, client: ClientInfo, rest: Reader, channelOk: bool) returns (threw: bool)
      modifies this
      ensures var st := DataStep(old(Snapshot()), mac, sock, dn, client, rest, channelOk);
        Snapshot() == st.state && effects == old(effects) + st.effects && threw == st.threw
    {
      if dn in connections {
        var offset := ReadInt(rest);
        if offset.None? {
          return true;
        }
        var delivered := SliceFrom(offset.value.0);
        threw := Respond(sock, CommandFrame(mac, ["success", "message", client.name]), MESSAGE_REPLY_BUFFER, channelOk);
        if !threw {
          Fire(ClientData(client, delivered));
        }
      } else {
        threw := Respond(sock, CommandFrame(mac, ["failed", "message", NOT_CONNECTED_TEXT]), REPLY_BUFFER, channelOk);
      }
    }

    /**
     * One pass of a channel's loop for `sock`: the read, then the frame
     * in the buffer; `read` is None when the read threw.
     */
    method HandleFrame(sock: Socket, read: Option<seq<byte>>, channelOk: bool)
      requires read.Some? ==> |read.value| <= buffer.Length
      modifies this, buffer
      ensures var o := Frame(old(Snapshot()), mac, sock, read, channelOk);
        Snapshot() == o.state && effects == old(effects) + o.effects
    {
      if read.None? {
        return;
      }
      Receive(read.value);
      var threw := Handle(sock, channelOk);
    }

    /** The frame now in the buffer, read as from `sock` and acted on. */
    method Handle(sock: Socket, channelOk: bool) returns (threw: bool)
      modifies this
      ensures var st := HandleStep(old(Snapshot()), mac, sock, channelOk);
        Snapshot() == st.state && effects == old(effects) + st.effects && threw == st.threw
    {
      var dn := DefaultName(sock.host, sock.port);
      threw := true;
      match ParseFrame(buffer[..])
      case Unreadable =>
      case Cut(m) =>
        var client := GetClient(dn, m, sock);
      case Control(m, command, argument) =>
        var client := GetClient(dn, m, sock);
        threw := Command(sock, dn, m, client, command, argument, channelOk);
      case Data(m, rest) =>
        var client := GetClient(dn, m, sock);
        threw := Data(sock, dn, client, rest, channelOk);
    }

    /** The switch on `command.toLowerCase()`. */
    method Command(sock: Socket, dn: string, m: string, client: ClientInfo, command: string, argument: string, channelOk: bool)
      returns (threw: bool)
      modifies this
      ensures var st := CommandStep(old(Snapshot()), mac, sock, dn, m, client, command, argument, channelOk);
        Snapshot() == st.state && effects == old(effects) + st.effects && threw == st.threw
    {
      var c := Lower(command);
      if c == "connect" {
        threw := Connect(sock, dn, m, argument, channelOk);
      } else if c == "rename" {
        threw := Rename(sock, dn, m, command, argument, channelOk);
      } else if c == "disconnect" {
        threw := Disconnect(sock, dn, client, argument, channelOk);
      } else {
        threw := Unknown(sock, dn, client, command, argument, channelOk);
      }
    }

    /** The loop shared by the administration calls: each client in `order` the selector picks is sent `message`. */
    method NotifyEach(order: seq<string>, sel: Selector, message: seq<byte>, failing: set<Socket>) returns (threw: bool)
      requires forall i :: 0 <= i < |order| ==> order[i] in clients
      modifies this
      ensures Snapshot() == old(Snapshot())
      ensures var r := Notices(clients, order, sel, message, failing);
        effects == old(effects) + r.0 && threw == r.1
    {
      var written;
      written, threw := NotifyLoop(clients, order, sel, message, failing);
      effects := effects + written;
    }

    /** The loop itself, over the clients under the names in `order`; it stops at the first throw. */
    static method NotifyLoop(clients: map<string, ClientInfo>, order: seq<string>, sel: Selector, message: seq<byte>, failing: set<Socket>)
      returns (written: seq<TcpEffect>, threw: bool)
      requires forall i :: 0 <= i < |order| ==> order[i] in clients
      ensures (written, threw) == Notices(clients, order, sel, message, failing)
    {
      ghost var picked: seq<ClientInfo> := [];
      var i := 0;
      written, threw := [], false;
      while i < |order|
        invariant 0 <= i <= |order|
        invariant written == Sends(picked, message, failing)
        invariant Selected(clients, order[..i], sel) == (picked, false)
      {
        SelectedNext(clients, order, sel, i, picked);
        var c := clients[order[i]];
        var v := Verdict(sel, c);
        if v == Throw {
          SelectedStop(clients, order, sel, i + 1);
          return written, true;
        } else if v == Notify {
          var out := SendTo(c, message, failing);
          SendsAppend(picked, c, message, failing);
          written := written + out;
          picked := picked + [c];
        }
        i := i + 1;
      }
      assert order[..|order|] == order;
    }

    /** `client.sendMessage(message)` on a client picked; what fails to be written is dropped. */
    static method SendTo(c: ClientInfo, message: seq<byte>, failing: set<Socket>) returns (out: seq<TcpEffect>)
      ensures out == Sent(c, message, failing)
    {
      var ok := false;
      var sent: Option<seq<byte>> := None;
      if c.mac.Some? {
        var handle := new TcpRemoteClient(c.name, c.mac.value, c.socket.host, c.socket.port, c.socket);
        ok, sent := handle.SendMessage(message, c.socket !in failing);
      }
      out := if ok then [Send(c.socket, sent.value)] else [];
    }

    /** The loop of ban and kick, with the notice built for each client picked. */
    method NoticeEach(order: seq<string>, sel: Selector, text: string, failing: set<Socket>) returns (threw: bool)
      requires forall i :: 0 <= i < |order| ==> order[i] in clients
      modifies this
      ensures Snapshot() == old(Snapshot())
      ensures var r := NoticeLoop(clients, order, sel, mac, text, failing);
        effects == old(effects) + r.0 && threw == r.1
    {
      var notice := NoticeFrame(mac, text);
      if notice.Some? {
        threw := NotifyEach(order, sel, notice.value, failing);
      } else {
        ghost var picked: seq<ClientInfo> := [];
        var i := 0;
        while i < |order|
          invariant 0 <= i <= |order|
          invariant Selected(clients, order[..i], sel) == (picked, false) && picked == []
        {
          assert order[..i + 1][..i] == order[..i];
          var v := Verdict(sel, clients[order[i]]);
          if v != Skip {
            assert Selected(clients, order[..i + 1], sel).1 || Selected(clients, order[..i + 1], sel).0 != [];
            SelectedExtends(clients, order, sel, i + 1);
            return true;
          }
          i := i + 1;
        }
        assert order[..|order|] == order;
        threw := false;
      }
    }

    method Ban(macs: seq<string>, order: seq<string>, failing: set<Socket>) returns (threw: bool)
      requires Enumerates(order, clients.Keys)
      modifies this
      ensures var r := BanStep(old(Snapshot()), mac, macs, order, failing);
        Snapshot() == r.0 && effects == old(effects) + r.1 && threw == r.2
    {
      banned := banned + Elements(macs);
      threw := NoticeEach(order, Banned(banned), BAN_NOTICE_TEXT, failing);
    }

    method Kick(macs: seq<string>, order: seq<string>, failing: set<Socket>) returns (threw: bool)
      requires Enumerates(order, clients.Keys)
      modifies this
      ensures var r := KickStep(old(Snapshot()), mac, macs, order, failing);
        Snapshot() == old(Snapshot()) && effects == old(effects) + r.0 && threw == r.1
    {
      threw := NoticeEach(order, Kicked(macs), KICK_NOTICE_TEXT, failing);
    }

    method UnBan(macs: seq<string>)
      modifies this
      ensures Snapshot() == UnBanStep(old(Snapshot()), macs) && effects == old(effects)
    {
      var i := 0;
      while i < |macs|
        invariant 0 <= i <= |macs|
        invariant Snapshot() == old(Snapshot()).(banned := old(banned) - Elements(macs[..i]))
        invariant effects == old(effects)
      {
        assert Elements(macs[..i + 1]) == Elements(macs[..i]) + {macs[i]};
        banned := banned - {macs[i]};
        i := i + 1;
      }
      assert macs[..|macs|] == macs;
    }

    method Redirect(name: string, data: seq<byte>, order: seq<string>, failing: set<Socket>) returns (threw: bool)
      requires Enumerates(order, clients.Keys)
      modifies this
      ensures var r := RedirectStep(old(Snapshot()), name, data, order, failing);
        Snapshot() == old(Snapshot()) && effects == old(effects) + r.0 && threw == r.1
    {
      threw := NotifyEach(order, Named(name), data, failing);
    }

    method Broadcast(data: seq<byte>, order: seq<string>, failing: set<Socket>)
      requires Enumerates(order, clients.Keys)
      modifies this
      ensures Snapshot() == old(Snapshot()) && effects == old(effects) + BroadcastStep(old(Snapshot()), data, order, failing)
    {
      var threw := NotifyEach(order, Everyone, data, failing);
    }

    /** `close()`: the accept loop stops; the listening socket's close is I/O. */
    method Close()
      modifies this
      ensures Snapshot() == Closed(old(Snapshot())) && effects == old(effects)
    {
      operative := false;
    }
  }
}
