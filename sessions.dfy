/**
 * How the two ends of each work level read each other: the frames a
 * client writes, as its server reads them, and the server's writes, as
 * the client reads them. Each lemma joins a step of one side to a step
 * of the other.
 */
module Sessions {
  import opened Common
  import opened JavaIo
  import opened Remote
  import TC = TcpClient
  import TS = TcpServer
  import SslServer
  import SslClient
  import JavaLang

  // ---------------------------------------------------------------------
  // TCP: what the server makes of the client's frames

  /**
   * The connect frame of a TCP client, read whole by a TCP server that
   * has not banned its MAC, files the client under the name it asked
   * for, makes its address a connection and answers with the accept
   * reply.
   */
  lemma TcpConnectFiled(s: TS.State, serverMac: string, sock: Socket, mac: string, name: string, frame: seq<byte>, channelOk: bool)
    requires TC.ConnectFrame(mac, name) == Some(frame) && |frame| <= |s.buffer| && mac !in s.banned
    ensures var o := TS.Frame(s, serverMac, sock, Some(frame), channelOk);
      var client := ClientInfo(name, Some(mac), sock);
      TS.Address(sock) in o.state.connections && TS.Address(sock) in o.state.clients &&
      o.state.clients[TS.Address(sock)] == client &&
      o.effects == [Emit(ClientConnect(client))] + TS.Reply(sock, TS.AcceptReply(serverMac), TS.REPLY_BUFFER, channelOk).0
  {
    TC.ConnectUtf();
    ConnectKeyword(s, serverMac, sock, mac, "connect", name, frame, channelOk);
  }

  lemma ConnectKeyword(s: TS.State, serverMac: string, sock: Socket, mac: string, command: string, name: string, frame: seq<byte>, channelOk: bool)
    requires EncodeUTF(command) == Some(TC.CONNECT_UTF) && JavaLang.Lower(command) == "connect"
    requires TC.ConnectFrame(mac, name) == Some(frame) && |frame| <= |s.buffer| && mac !in s.banned
    ensures var o := TS.Frame(s, serverMac, sock, Some(frame), channelOk);
      var client := ClientInfo(name, Some(mac), sock);
      TS.Address(sock) in o.state.connections && TS.Address(sock) in o.state.clients &&
      o.state.clients[TS.Address(sock)] == client &&
      o.effects == [Emit(ClientConnect(client))] + TS.Reply(sock, TS.AcceptReply(serverMac), TS.REPLY_BUFFER, channelOk).0
  {
    TC.KeywordControl(mac, command, TC.CONNECT_UTF, name);
    TS.ConnectOutcome(s, serverMac, sock, mac, command, name, frame, channelOk);
  }

  /**
   * The rename frame of a connected TCP client renames its handle on the
   * server and is answered with success/rename and the new name.
   */
  lemma TcpRenameFiled(s: TS.State, serverMac: string, sock: Socket, mac: string, name: string, frame: seq<byte>, channelOk: bool)
    requires TC.RenameFrame(mac, name) == Some(frame) && |frame| <= |s.buffer| && TS.Address(sock) in s.connections
    ensures var o := TS.Frame(s, serverMac, sock, Some(frame), channelOk);
      var client := ClientInfo(name, Some(mac), sock);
      o.state == s.(clients := s.clients[TS.Address(sock) := client], buffer := frame + s.buffer[|frame|..]) &&
      o.effects == [Emit(ClientCommand(client, "rename", name, Some(frame + s.buffer[|frame|..])))] +
                   TS.Reply(sock, CommandFrame(serverMac, ["success", "rename", name]), TS.REPLY_BUFFER, channelOk).0
  {
    TC.RenameUtf();
    RenameKeyword(s, serverMac, sock, mac, "rename", name, frame, channelOk);
  }

  lemma RenameKeyword(s: TS.State, serverMac: string, sock: Socket, mac: string, command: string, name: string, frame: seq<byte>, channelOk: bool)
    requires EncodeUTF(command) == Some(TC.RENAME_UTF) && JavaLang.Lower(command) == "rename"
    requires TC.RenameFrame(mac, name) == Some(frame) && |frame| <= |s.buffer| && TS.Address(sock) in s.connections
    ensures var o := TS.Frame(s, serverMac, sock, Some(frame), channelOk);
      var client := ClientInfo(name, Some(mac), sock);
      o.state == s.(clients := s.clients[TS.Address(sock) := client], buffer := frame + s.buffer[|frame|..]) &&
      o.effects == [Emit(ClientCommand(client, command, name, Some(frame + s.buffer[|frame|..])))] +
                   TS.Reply(sock, CommandFrame(serverMac, ["success", "rename", name]), TS.REPLY_BUFFER, channelOk).0
  {
    TC.KeywordControl(mac, command, TC.RENAME_UTF, name);
    TS.RenameWithoutCollisionCheck(s, serverMac, sock, mac, command, name, frame, channelOk);
  }

  /**
   * The disconnect frame that close() queues, once written, takes a
   * connected client off the server with the reason "Client disconnect
   * request", and nothing is written back.
   */
  lemma TcpDisconnectLeaves(s: TS.State, serverMac: string, sock: Socket, mac: string, frame: seq<byte>, channelOk: bool)
    requires TC.DisconnectFrame(mac) == Some(frame) && |frame| <= |s.buffer| && TS.Address(sock) in s.connections
    ensures var o := TS.Frame(s, serverMac, sock, Some(frame), channelOk);
      var client := TS.FileClient(s, TS.Address(sock), mac, sock).1;
      TS.Address(sock) !in o.state.connections && TS.Address(sock) !in o.state.clients &&
      o.effects == [Emit(ClientDisconnect(client, KILLED_BY_CLIENT, TC.CLIENT_REQUEST_TEXT))]
  {
    TC.DisconnectUtf();
    TC.RequestUtf();
    LowerDisconnect();
    DisconnectKeyword(s, serverMac, sock, mac, "disconnect", TC.CLIENT_REQUEST_TEXT, frame, channelOk);
  }

  /** The server's `toLowerCase` leaves the keyword as it is. */
  lemma LowerDisconnect()
    ensures JavaLang.Lower("disconnect") == "disconnect"
  {
    JavaLang.LowerOfLowerWord("disconnect");
  }

  lemma DisconnectKeyword(s: TS.State, serverMac: string, sock: Socket, mac: string, command: string, reason: string, frame: seq<byte>, channelOk: bool)
    requires EncodeUTF(command) == Some(TC.DISCONNECT_UTF) && EncodeUTF(reason) == Some(TC.REQUEST_UTF)
    requires JavaLang.Lower(command) == "disconnect"
    requires TC.DisconnectFrame(mac) == Some(frame) && |frame| <= |s.buffer| && TS.Address(sock) in s.connections
    ensures var o := TS.Frame(s, serverMac, sock, Some(frame), channelOk);
      var client := TS.FileClient(s, TS.Address(sock), mac, sock).1;
      TS.Address(sock) !in o.state.connections && TS.Address(sock) !in o.state.clients &&
      o.effects == [Emit(ClientDisconnect(client, KILLED_BY_CLIENT, reason))]
  {
    TC.DisconnectControl(mac, command, reason);
    TS.DisconnectWithoutReply(s, serverMac, sock, mac, command, reason, frame, channelOk);
  }

  // ---------------------------------------------------------------------
  // TCP: what the client makes of the server's writes

  /** A MAC whose `writeUTF` count fits in one byte, as every MAC address text does. */
  predicate ShortMac(mac: string)
  {
    EncodeUTF(mac).Some? && |EncodeUTF(mac).value| < 258
  }

  /** The count of such a MAC's `writeUTF` starts with a zero byte. */
  lemma ShortMacZero(mac: string)
    requires ShortMac(mac)
    ensures EncodeUTF(mac).value[0] == 0
  {
    WrittenUTF(mac, EncodeUTF(mac).value);
  }

  /** The accept reply of the TCP server, read by the TCP client's award loop, is an accept. */
  lemma AcceptReplyRead(serverMac: string)
    requires TS.AcceptReply(serverMac).Some? && |TS.AcceptReply(serverMac).value| <= TC.READ_BUFFER
    ensures TC.AnswerTo(TC.ReadArray(TC.Bytes(TS.AcceptReply(serverMac).value))) == TC.Accepted
  {
    var m := EncodeUTF(serverMac).value;
    var data := TS.AcceptReply(serverMac).value;
    TC.FilledPrefix(data);
    var zeros := TC.Filled(data)[|data|..];
    assert TC.Filled(data) == [1] + TS.ACCEPT_UTF + (m + zeros);
    TS.AcceptUtf();
    TC.AnswerToText("accept", TS.ACCEPT_UTF, m + zeros);
  }

  /**
   * So a TCP client waiting for its answer, whose queue can all be
   * written, becomes operative on the server's accept reply.
   */
  lemma TcpHandshake(s: TC.State, mac: string, serverMac: string, order: seq<seq<byte>>, writable: bool)
    requires s.phase == TC.Awaiting && multiset(order) == s.queue && s.award && !s.tryingConnect && !s.operative
    requires TS.AcceptReply(serverMac).Some? && |TS.AcceptReply(serverMac).value| <= TC.READ_BUFFER
    requires forall f :: f in s.queue ==> TC.Puts(f, writable)
    ensures var r := TC.AwaitStep(s, mac, TC.Bytes(TS.AcceptReply(serverMac).value), order, writable);
      r.state.operative && !r.state.award && r.effects == TC.Writes(order)
  {
    AcceptReplyRead(serverMac);
    TC.AcceptDrains(s, mac, TC.Bytes(TS.AcceptReply(serverMac).value), order, writable);
    TC.CallsChangeOnlyQueue(s.(queue := multiset{}, award := false, operative := true), mac, [], [], writable);
  }

  /**
   * Anything that starts with the `writeUTF` of a short MAC reads, in the
   * TCP client, as a frame with a false flag: no answer in the award loop,
   * and only logged in the operative loop.
   */
  lemma MacFirstIsPlain(mac: string, frame: seq<byte>, debug: bool)
    requires ShortMac(mac) && |EncodeUTF(mac).value| <= |frame| && frame[..|EncodeUTF(mac).value|] == EncodeUTF(mac).value
    ensures TC.AnswerTo(TC.ReadArray(TC.Bytes(frame))) == TC.Unrelated
    ensures TC.ReactionTo(TC.ReadArray(TC.Bytes(frame)), debug) == TC.Ignore
  {
    ShortMacZero(mac);
    assert frame[0] == EncodeUTF(mac).value[0];
    TC.ZeroFlagIgnored(TC.ReadArray(TC.Bytes(frame)), debug);
  }

  /**
   * Every reply of the TCP server but the accept starts with its MAC, so
   * the success/rename reply to a rename never reaches the TCP client's
   * rename branch: the client's name stays as it was.
   */
  lemma RenameReplyIgnored(s: TC.State, serverMac: string, name: string, order: seq<seq<byte>>, writable: bool)
    requires s.phase == TC.Serving && multiset(order) == s.queue && s.operative
    requires ShortMac(serverMac) && CommandFrame(serverMac, ["success", "rename", name]).Some?
    ensures var reply := CommandFrame(serverMac, ["success", "rename", name]).value;
      TC.ServeStep(s, TC.Bytes(reply), order, writable) == TC.Outcome(s, [])
  {
    var reply := CommandFrame(serverMac, ["success", "rename", name]).value;
    var u := EncodeUTF(serverMac).value;
    assert reply[..|u|] == u;
    MacFirstIsPlain(serverMac, reply, s.debug);
    TC.ServeReacts(s, TC.Bytes(reply), order, writable);
  }

  /**
   * The writes of the TCP server's notify loops (ban and kick notices,
   * redirect and broadcast) are data frames under each client's MAC, so a
   * TCP client with a short MAC only logs them: a kicked TCP client is
   * not told to go.
   */
  lemma NoticesArePlain(cs: seq<ClientInfo>, message: seq<byte>, i: nat, debug: bool, failing: set<Socket>)
    requires forall j :: 0 <= j < |cs| && cs[j].mac.Some? ==> ShortMac(cs[j].mac.value)
    requires i < |TS.Sends(cs, message, failing)|
    ensures TS.Sends(cs, message, failing)[i].Send? &&
      TC.ReactionTo(TC.ReadArray(TC.Bytes(TS.Sends(cs, message, failing)[i].write)), debug) == TC.Ignore
  {
    TS.SendsTo(cs, message, i, failing);
    var j :| 0 <= j < |cs| && cs[j].mac.Some? && DataFrame(cs[j].mac.value, message).Some? &&
      TS.Sends(cs, message, failing)[i] == Send(cs[j].socket, DataFrame(cs[j].mac.value, message).value);
    DataFramePlain(cs[j].mac.value, message, debug);
  }

  /** A data frame under a short MAC, read by the TCP client. */
  lemma DataFramePlain(mac: string, message: seq<byte>, debug: bool)
    requires ShortMac(mac)
    ensures TC.ReactionTo(TC.ReadArray(TC.Bytes(DataFrame(mac, message).value)), debug) == TC.Ignore
  {
    var frame := DataFrame(mac, message).value;
    DataFrameLayout(mac, message);
    assert frame[..|EncodeUTF(mac).value|] == EncodeUTF(mac).value;
    MacFirstIsPlain(mac, frame, debug);
  }

  // ---------------------------------------------------------------------
  // SSL: what the client makes of the server's notices

  /**
   * A ban or kick notice of the SSL server reaches a client as plain
   * data under the client's own MAC: the SSL client hands it to its
   * listeners when that MAC is the one it recorded for its server, and
   * ignores it otherwise; it never drops the connection over it.
   */
  lemma SslNoticeIsData(server: string, debug: bool, serverMac: string, text: string, clientMac: string)
    ensures var r := SslClient.ReactionTo(server, debug, Routed(SslServer.Notice(serverMac, text), clientMac));
      r == if clientMac == server then SslClient.Deliver else SslClient.Ignore
  {
    SslServer.NoticeArrivesAsData(serverMac, text, clientMac);
  }

  /** An operative SSL client reading such a notice stays operative, with its socket open. */
  lemma SslKickedStays(s: SslClient.State, serverMac: string, text: string, clientMac: string)
    requires s.phase == SslClient.Serving && s.operative && s.socketOpen && s.queue == multiset{} && s.remote.Some?
    ensures var r := SslClient.ServeStep(s, Some(Routed(SslServer.Notice(serverMac, text), clientMac)), []);
      r.state == s && r.state.operative && r.state.socketOpen
  {
    SslNoticeIsData(s.remote.value, s.debug, serverMac, text, clientMac);
  }
}
