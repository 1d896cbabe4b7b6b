/**
 * The remote handles: what a server knows of a connected client and what a
 * client knows of its server, and how each of them sends a message to the
 * other side. Over SSL a message is a compiled output stamped with two
 * routing fields; over TCP it is a binary data frame that records where
 * its payload starts.
 */
module Remote {
  import opened Common
  import opened JavaLang
  import opened JavaIo
  import opened MergeTypes
  import opened Message

  /** A connected socket: an identity plus the peer's address and port. */
  datatype Socket = Socket(id: nat, host: string, port: nat)

  /** `address.getHostAddress() + "/" + port`, the key a server files a client under. */
  function DefaultName(host: string, port: nat): (r: string)
    ensures r == host + "/" + Decimal(port)
    ensures |r| > |host| && r[|host|] == '/'
  {
    host + "/" + Decimal(port)
  }

  /**
   * A host address holds no '/', so the default name gives back both the
   * address and the port: two clients get the same name only when both agree.
   */
  lemma DefaultNameInjective(host1: string, port1: nat, host2: string, port2: nat)
    requires '/' !in host1 && '/' !in host2
    ensures DefaultName(host1, port1) == DefaultName(host2, port2) ==> host1 == host2 && port1 == port2
  {
    var r1 := DefaultName(host1, port1);
    var r2 := DefaultName(host2, port2);
    if r1 == r2 {
      assert host1 == r1[..|host1|] && host2 == r2[..|host2|];
      assert Decimal(port1) == r1[|host1| + 1..] && Decimal(port2) == r2[|host2| + 1..];
      DecimalInjective(port1, port2);
    }
  }

  /** What a server records of one client: `getName()`, `getMAC()` (null for a frame without one) and its socket. */
  datatype ClientInfo = ClientInfo(name: string, mac: Option<string>, socket: Socket)

  /** `DisconnectReason`. */
  datatype DisconnectReason = BANNED | KILLED_BY_SERVER | KILLED_BY_CLIENT | UNKNOWN

  /**
   * The events a server hands to `RemoteListener.callServerEvent`. A TCP
   * `ClientCommandEvent` also carries the raw bytes it was built with, the
   * whole shared read buffer; the SSL one carries none.
   */
  datatype ServerEvent =
    | ClientConnect(client: ClientInfo)
    | ClientCommand(client: ClientInfo, command: string, argument: string, raw: Option<seq<byte>>)
    | ClientDisconnect(client: ClientInfo, reason: DisconnectReason, message: string)
    | ClientMessage(client: ClientInfo, input: Payload)
    | ClientData(client: ClientInfo, data: seq<byte>)

  /** One observable step of a server, in order: a write `w` to a socket, or an event fired. */
  datatype Effect<W> = Send(to: Socket, write: W) | Emit(event: ServerEvent)

  // ---------------------------------------------------------------------
  // The loops over `clients.values()` of the administration calls

  /**
   * Which clients a loop of ban, kick, redirect or broadcast writes to:
   * MAC in the banned set, MAC among the listed ones, name or MAC equal to
   * a target, or every client.
   */
  datatype Selector = Banned(macs: set<string>) | Kicked(listed: seq<string>) | Named(target: string) | Everyone

  datatype Pick = Skip | Notify | Throw

  /**
   * The test each loop applies to one client. `banned.contains(null)` and
   * `null.equals(target)` throw; `List.contains(null)` does not.
   */
  function Verdict(sel: Selector, c: ClientInfo): Pick
  {
    match sel
    case Banned(macs) => if c.mac.None? then Throw else if c.mac.value in macs then Notify else Skip
    case Kicked(listed) => if c.mac.Some? && c.mac.value in listed then Notify else Skip
    case Named(target) =>
      if c.name == target then Notify else if c.mac.None? then Throw
      else if c.mac.value == target then Notify else Skip
    case Everyone => Notify
  }

  /** The clients a loop over `order` writes to, in order, and whether the loop threw. */
  function Selected(clients: map<string, ClientInfo>, order: seq<string>, sel: Selector): (seq<ClientInfo>, bool)
    decreases |order|
  {
    if order == [] then ([], false)
    else
      var (picked, threw) := Selected(clients, order[..|order| - 1], sel);
      if threw || order[|order| - 1] !in clients then (picked, threw)
      else
        var c := clients[order[|order| - 1]];
        match Verdict(sel, c)
        case Skip => (picked, false)
        case Throw => (picked, true)
        case Notify => (picked + [c], false)
  }

  /** One more turn of a loop that has not thrown: the next client is skipped, makes it throw, or is picked. */
  lemma SelectedNext(clients: map<string, ClientInfo>, order: seq<string>, sel: Selector, i: nat, picked: seq<ClientInfo>)
    requires forall i :: 0 <= i < |order| ==> order[i] in clients
    requires i < |order| && Selected(clients, order[..i], sel) == (picked, false)
    ensures var c := clients[order[i]];
      Selected(clients, order[..i + 1], sel) ==
        match Verdict(sel, c)
        case Skip => (picked, false)
        case Throw => (picked, true)
        case Notify => (picked + [c], false)
  {
    assert order[..i + 1][..i] == order[..i];
  }

  /** Everything selected is a client the test picked, taken in the order of the loop. */
  lemma {:induction false} SelectedArePicked(clients: map<string, ClientInfo>, order: seq<string>, sel: Selector, i: nat)
    requires forall i :: 0 <= i < |order| ==> order[i] in clients
    requires i < |Selected(clients, order, sel).0|
    ensures exists j :: (0 <= j < |order| && Selected(clients, order, sel).0[i] == clients[order[j]] &&
      Verdict(sel, clients[order[j]]) == Notify)
    decreases |order|
  {
    var prefix := order[..|order| - 1];
    var (picked, threw) := Selected(clients, prefix, sel);
    if i < |picked| {
      SelectedArePicked(clients, prefix, sel, i);
      var j :| 0 <= j < |prefix| && picked[i] == clients[prefix[j]] && Verdict(sel, clients[prefix[j]]) == Notify;
      assert prefix[j] == order[j];
    } else {
      assert Verdict(sel, clients[order[|order| - 1]]) == Notify;
    }
  }

  /** Once the loop has thrown at position `i`, the rest of `order` is not visited. */
  lemma {:induction false} SelectedStop(clients: map<string, ClientInfo>, order: seq<string>, sel: Selector, i: nat)
    requires forall i :: 0 <= i < |order| ==> order[i] in clients
    requires i <= |order| && Selected(clients, order[..i], sel).1
    ensures Selected(clients, order, sel) == Selected(clients, order[..i], sel)
    decreases |order| - i
  {
    if i < |order| {
      assert order[..i + 1][..i] == order[..i];
      SelectedStop(clients, order, sel, i + 1);
    } else {
      assert order[..i] == order;
    }
  }

  /** A longer loop keeps what a shorter one picked, in front, and a throw stays a throw. */
  lemma {:induction false} SelectedExtends(clients: map<string, ClientInfo>, order: seq<string>, sel: Selector, k: nat)
    requires forall i :: 0 <= i < |order| ==> order[i] in clients
    requires k <= |order|
    ensures Selected(clients, order[..k], sel).0 <= Selected(clients, order, sel).0
    ensures Selected(clients, order[..k], sel).1 ==> Selected(clients, order, sel).1
    decreases |order| - k
  {
    if k < |order| {
      assert order[..k + 1][..k] == order[..k];
      SelectedExtends(clients, order, sel, k + 1);
    } else {
      assert order[..k] == order;
    }
  }

  /** The clients in `order`, in order. */
  function InOrder(clients: map<string, ClientInfo>, order: seq<string>): (r: seq<ClientInfo>)
    requires forall i :: 0 <= i < |order| ==> order[i] in clients
    ensures |r| == |order| && forall i :: 0 <= i < |order| ==> r[i] == clients[order[i]]
    decreases |order|
  {
    if order == [] then [] else InOrder(clients, order[..|order| - 1]) + [clients[order[|order| - 1]]]
  }

  /** A loop that selects everyone visits every client, in order, and never throws. */
  lemma {:induction false} SelectedEveryone(clients: map<string, ClientInfo>, order: seq<string>)
    requires forall i :: 0 <= i < |order| ==> order[i] in clients
    ensures Selected(clients, order, Everyone) == (InOrder(clients, order), false)
    decreases |order|
  {
    if order != [] {
      SelectedEveryone(clients, order[..|order| - 1]);
    }
  }

  /** A loop whose test never throws picks exactly the clients the test accepts. */
  lemma {:induction false} SelectedWithoutThrow(clients: map<string, ClientInfo>, order: seq<string>, sel: Selector, c: ClientInfo)
    requires forall i :: 0 <= i < |order| ==> order[i] in clients
    requires forall i :: 0 <= i < |order| ==> Verdict(sel, clients[order[i]]) != Throw
    ensures !Selected(clients, order, sel).1
    ensures c in Selected(clients, order, sel).0 <==>
      exists j :: 0 <= j < |order| && clients[order[j]] == c && Verdict(sel, c) == Notify
    decreases |order|
  {
    if order != [] {
      var prefix := order[..|order| - 1];
      SelectedWithoutThrow(clients, prefix, sel, c);
      if exists j :: 0 <= j < |prefix| && clients[prefix[j]] == c && Verdict(sel, c) == Notify {
        var j :| 0 <= j < |prefix| && clients[prefix[j]] == c && Verdict(sel, c) == Notify;
        assert order[j] == prefix[j];
      }
      if exists j :: 0 <= j < |order| && clients[order[j]] == c && Verdict(sel, c) == Notify {
        var j :| 0 <= j < |order| && clients[order[j]] == c && Verdict(sel, c) == Notify;
        if j < |prefix| {
          assert order[j] == prefix[j];
        }
      }
    }
  }

  /** The loop throws exactly when the test throws for one of the clients it visits. */
  lemma {:induction false} SelectedThrows(clients: map<string, ClientInfo>, order: seq<string>, sel: Selector)
    requires forall i :: 0 <= i < |order| ==> order[i] in clients
    ensures Selected(clients, order, sel).1 <==> exists j :: 0 <= j < |order| && Verdict(sel, clients[order[j]]) == Throw
    decreases |order|
  {
    if order != [] {
      var prefix := order[..|order| - 1];
      SelectedThrows(clients, prefix, sel);
      if exists j :: 0 <= j < |prefix| && Verdict(sel, clients[prefix[j]]) == Throw {
        var j :| 0 <= j < |prefix| && Verdict(sel, clients[prefix[j]]) == Throw;
        assert order[j] == prefix[j];
      }
      if exists j :: 0 <= j < |order| && Verdict(sel, clients[order[j]]) == Throw {
        var j :| 0 <= j < |order| && Verdict(sel, clients[order[j]]) == Throw;
        if j < |prefix| {
          assert order[j] == prefix[j];
        }
      }
    }
  }

  /** A loop that did not throw picked every client of `order` the test accepts. */
  lemma {:induction false} SelectedIncludes(clients: map<string, ClientInfo>, order: seq<string>, sel: Selector, j: nat)
    requires forall i :: 0 <= i < |order| ==> order[i] in clients
    requires j < |order| && !Selected(clients, order, sel).1 && Verdict(sel, clients[order[j]]) == Notify
    ensures clients[order[j]] in Selected(clients, order, sel).0
    decreases |order|
  {
    var prefix := order[..|order| - 1];
    assert !Selected(clients, prefix, sel).1;
    if j < |prefix| {
      assert prefix[j] == order[j];
      SelectedIncludes(clients, prefix, sel, j);
    }
  }

  /**
   * Over an iteration order of the whole map, the loop throws exactly when
   * some client makes the test throw; otherwise the clients it picks are
   * exactly those the test accepts.
   */
  lemma SelectedAll(clients: map<string, ClientInfo>, order: seq<string>, sel: Selector)
    requires Enumerates(order, clients.Keys)
    ensures Selected(clients, order, sel).1 <==> exists k :: k in clients && Verdict(sel, clients[k]) == Throw
    ensures forall c :: c in Selected(clients, order, sel).0 ==>
      exists k :: k in clients && clients[k] == c && Verdict(sel, c) == Notify
    ensures !Selected(clients, order, sel).1 ==>
      forall k :: k in clients && Verdict(sel, clients[k]) == Notify ==> clients[k] in Selected(clients, order, sel).0
  {
    var picked := Selected(clients, order, sel).0;
    SelectedThrows(clients, order, sel);
    if exists k :: k in clients && Verdict(sel, clients[k]) == Throw {
      var k :| k in clients && Verdict(sel, clients[k]) == Throw;
      var j :| 0 <= j < |order| && order[j] == k;
    }
    forall c | c in picked
      ensures exists k :: k in clients && clients[k] == c && Verdict(sel, c) == Notify
    {
      var i :| 0 <= i < |picked| && picked[i] == c;
      SelectedArePicked(clients, order, sel, i);
    }
    if !Selected(clients, order, sel).1 {
      forall k | k in clients && Verdict(sel, clients[k]) == Notify
        ensures clients[k] in picked
      {
        var j :| 0 <= j < |order| && order[j] == k;
        SelectedIncludes(clients, order, sel, j);
      }
    }
  }

  // ---------------------------------------------------------------------
  // SSL: the keys of a frame, and its routing fields

  const MAC_KEY := "MAC"
  const COMMAND_ENABLED := "COMMAND_ENABLED"
  const COMMAND := "COMMAND"
  const ARGUMENT := "ARGUMENT"
  const ARGUMENT_DATA := "ARGUMENT_DATA"
  const COMMAND_ARGUMENT := "COMMAND_ARGUMENT"
  const ACCESS_KEY := "ACCESS_KEY"

  /** A command frame as either side builds it: COMMAND_ENABLED = true and the given text fields, the sender's MAC among them. */
  function Control(texts: map<string, string>): Payload
  {
    Payload(map[], texts, map[COMMAND_ENABLED := true], map[], map[], map[])
  }

  /**
   * Reference definition of an SSL routed frame: the message with its
   * text `MAC` set to `mac` and its boolean `COMMAND_ENABLED` set to false.
   */
  function Routed(message: Payload, mac: string): Payload
  {
    message.(sequences := message.sequences[MAC_KEY := mac],
             booleans := message.booleans[COMMAND_ENABLED := false])
  }

  /** The two routing fields always win, whatever the message held under them; every other entry is the message's. */
  lemma RoutedFields(message: Payload, mac: string, key: string, t: DataType)
    ensures Routed(message, mac).GetSequence(MAC_KEY) == Some(mac)
    ensures Routed(message, mac).Get(COMMAND_ENABLED, BOOLEAN) == Some(JBoolean(false))
    ensures !Routed(message, mac).GetBoolean(COMMAND_ENABLED)
    ensures !(key == MAC_KEY && t == SEQUENCE) && !(key == COMMAND_ENABLED && t == BOOLEAN) ==>
            Routed(message, mac).Get(key, t) == message.Get(key, t)
  {
  }

  /** The local writes of `sendMessage`, before the merge. */
  function Stamp(mac: string): Payload
  {
    Empty.Put(MAC_KEY, JString(mac), SEQUENCE).Put(COMMAND_ENABLED, JBoolean(false), BOOLEAN)
  }

  /** Merging the message as a DIFFERENCE affiliate under the local stamp gives the routed frame. */
  lemma StampMergedIsRouted(message: Payload, mac: string)
    ensures Merged(Stamp(mac), message, DIFFERENCE) == Routed(message, mac)
  {
    var st := Payload(map[], map[MAC_KEY := mac], map[COMMAND_ENABLED := false], map[], map[], map[]);
    StampHolds(mac);
    MergedDifference(st, message);
    UnionOne(message.sequences, MAC_KEY, mac);
    UnionOne(message.booleans, COMMAND_ENABLED, false);
    EmptyUnion(message.serials);
    EmptyUnion(message.numbers);
    EmptyUnion(message.characters);
    EmptyUnion(message.bytes);
  }

  /** The stamp holds the two routing fields and nothing else. */
  lemma StampHolds(mac: string)
    ensures Stamp(mac) == Payload(map[], map[MAC_KEY := mac], map[COMMAND_ENABLED := false], map[], map[], map[])
  {
    assert Empty.Put(MAC_KEY, JString(mac), SEQUENCE) == Empty.(sequences := map[MAC_KEY := mac]);
  }

  lemma UnionOne<V>(m: map<string, V>, k: string, v: V)
    ensures m + map[k := v] == m[k := v]
  {
  }

  lemma EmptyUnion<V>(m: map<string, V>)
    ensures m + map[] == m
  {
  }

  /** All six namespaces merged under DIFFERENCE. */
  lemma MergedDifference(local: Payload, aff: Payload)
    ensures Merged(local, aff, DIFFERENCE) == Payload(
      aff.serials + local.serials, aff.sequences + local.sequences, aff.booleans + local.booleans,
      aff.numbers + local.numbers, aff.characters + local.characters, aff.bytes + local.bytes)
  {
    MergeDifferenceOver(local.serials, aff.serials);
    MergeDifferenceOver(local.sequences, aff.sequences);
    MergeDifferenceOver(local.booleans, aff.booleans);
    MergeDifferenceOver(local.numbers, aff.numbers);
    MergeDifferenceOver(local.characters, aff.characters);
    MergeDifferenceOver(local.bytes, aff.bytes);
  }

  /** One namespace merged under DIFFERENCE: the affiliate's entries, overridden by the local ones. */
  lemma MergeDifferenceOver<V>(local: map<string, V>, aff: map<string, V>)
    ensures MergeMap(local, aff, DIFFERENCE) == aff + local
  {
  }

  /**
   * The body shared by both SSL handles' `sendMessage`: a fresh output with
   * `affiliate` as DIFFERENCE affiliate, the two routing writes, then
   * `compile()`. A null MAC makes the first write throw.
   */
  method CompileRouted(affiliate: MessageDataOutput?, mac: Option<string>) returns (compiled: Option<Payload>)
    ensures mac.None? ==> compiled.None?
    ensures mac.Some? && affiliate != null ==> compiled == Some(Routed(affiliate.View(), mac.value))
    ensures mac.Some? && affiliate == null ==> compiled == Some(Stamp(mac.value))
  {
    var output := new MessageDataOutput.WithAffiliate(affiliate, DIFFERENCE);
    if mac.None? {
      compiled := None;
      return;
    }
    output.WriteSequence(MAC_KEY, mac.value);
    output.WriteBoolean(COMMAND_ENABLED, false);
    var c := output.Compile();
    if affiliate != null {
      StampMergedIsRouted(affiliate.View(), mac.value);
    }
    compiled := Some(c);
  }

  /** The data of a message that may be null: a null message adds nothing, like an empty one. */
  function Content(message: MessageDataOutput?): Payload
    reads message
  {
    if message == null then Empty else message.View()
  }

  /** The bare stamp is the empty message routed. */
  lemma StampIsRoutedEmpty(mac: string)
    ensures Stamp(mac) == Routed(Empty, mac)
  {
    StampHolds(mac);
  }

  /** What the socket receives from an SSL handle: the compiled frame, and whether a line terminator follows it. */
  datatype SslWrite = SslWrite(frame: Payload, newline: bool)

  /** `SSLRemoteClient`: the server's handle on one SSL client. */
  class SslRemoteClient {
    const name: string
    const mac: Option<string>
    const host: string
    const port: nat
    const socket: Socket

    constructor (client: string, m: Option<string>, address: string, incomingPort: nat, server: Socket)
      ensures name == client && mac == m && host == address && port == incomingPort && socket == server
    {
      name, mac, host, port, socket := client, m, address, incomingPort, server;
    }

    function GetName(): string { name }
    function GetMAC(): Option<string> { mac }
    function GetHost(): string { host }
    function GetPort(): nat { port }

    /**
     * `sendMessage`: the message routed with this handle's MAC (a null
     * message gives the bare stamp), written as is, with no line terminator. `streamOk` is whether the write and
     * flush succeed; false on any exception.
     */
    method SendMessage(message: MessageDataOutput?, streamOk: bool) returns (ok: bool, sent: Option<SslWrite>)
      ensures ok <==> mac.Some? && streamOk
      ensures sent == if ok then Some(SslWrite(Routed(Content(message), mac.value), false)) else None
    {
      var compiled := CompileRouted(message, mac);
      if message == null && mac.Some? {
        StampIsRoutedEmpty(mac.value);
      }
      if compiled.Some? && streamOk {
        ok, sent := true, Some(SslWrite(compiled.value, false));
      } else {
        ok, sent := false, None;
      }
    }
  }

  /**
   * What `new MessageDataOutput(bytes, type)` recovers from its bytes:
   * they are not Base64 (an exception), they decode to no object (a null
   * affiliate), or they decode to an output holding `p`.
   */
  datatype Decoding = NotBase64 | NoObject | Output(p: Payload)

  /** `SSLRemoteServer`: a client's handle on its SSL server. */
  class SslRemoteServer {
    const mac: Option<string>
    const host: string
    const port: nat
    const socket: Socket

    constructor (m: Option<string>, address: string, incomingPort: nat, s: Socket)
      ensures mac == m && host == address && port == incomingPort && socket == s
    {
      mac, host, port, socket := m, address, incomingPort, s;
    }

    function GetMAC(): Option<string> { mac }
    function GetHost(): string { host }
    function GetPort(): nat { port }

    /**
     * `sendMessage(bytes)`: the decoded message routed with the server's
     * MAC, printed as one line; false on any exception.
     */
    method SendMessage(message: Decoding, streamOk: bool) returns (ok: bool, sent: Option<SslWrite>)
      ensures ok <==> !message.NotBase64? && mac.Some? && streamOk
      ensures ok && message.Output? ==> sent == Some(SslWrite(Routed(message.p, mac.value), true))
      ensures ok && message.NoObject? ==> sent == Some(SslWrite(Stamp(mac.value), true))
      ensures !ok ==> sent.None?
    {
      if message.NotBase64? {
        return false, None;
      }
      var compiled: Option<Payload>;
      if message.Output? {
        var output := new MessageDataOutput.Decoded(message.p);
        compiled := CompileRouted(output, mac);
      } else {
        compiled := CompileRouted(null, mac);
      }
      if compiled.Some? && streamOk {
        ok, sent := true, Some(SslWrite(compiled.value, true));
      } else {
        ok, sent := false, None;
      }
    }
  }

  // ---------------------------------------------------------------------
  // TCP: data frames

  /** `writeUTF` of each text in turn; None as soon as one is too long. */
  function Utfs(texts: seq<string>): (r: Option<seq<byte>>)
    ensures texts == [] ==> r == Some([])
    decreases |texts|
  {
    if texts == [] then Some([])
    else
      match EncodeUTF(texts[0])
      case None => None
      case Some(u) =>
        match Utfs(texts[1..])
        case None => None
        case Some(rest) => Some(u + rest)
  }

  /**
   * The TCP command layout: `writeUTF(mac)`, `writeBoolean(true)`, then
   * `writeUTF` of each text. The clients' control frames and nearly all of
   * the server's replies have it.
   */
  function CommandFrame(mac: string, texts: seq<string>): (r: Option<seq<byte>>)
    ensures r.Some? <==> EncodeUTF(mac).Some? && Utfs(texts).Some?
    ensures r.Some? ==> r.value == EncodeUTF(mac).value + EncodeBoolean(true) + Utfs(texts).value
  {
    match EncodeUTF(mac)
    case None => None
    case Some(u) =>
      match Utfs(texts)
      case None => None
      case Some(rest) => Some(u + EncodeBoolean(true) + rest)
  }


  /** `writeUTF` of two texts is their two encodings one after the other. */
  lemma UtfsPair(first: string, second: string)
    ensures Utfs([first, second]).Some? <==> EncodeUTF(first).Some? && EncodeUTF(second).Some?
    ensures Utfs([first, second]).Some? ==> Utfs([first, second]).value == EncodeUTF(first).value + EncodeUTF(second).value
  {
    assert [first, second][1..] == [second];
    assert [second][1..] == [];
  }

  /**
   * The clients' control frame: `writeUTF(mac)`, `writeBoolean(true)`,
   * `writeUTF(command)`, `writeUTF(argument)`.
   */
  function ControlFrame(mac: string, command: string, argument: string): (r: Option<seq<byte>>)
    ensures r.Some? <==> EncodeUTF(mac).Some? && EncodeUTF(command).Some? && EncodeUTF(argument).Some?
    ensures r.Some? ==> r.value == EncodeUTF(mac).value + [1] + EncodeUTF(command).value + EncodeUTF(argument).value
  {
    UtfsPair(command, argument);
    CommandFrame(mac, [command, argument])
  }

  /**
   * A buffer that starts with a control frame holds the MAC's encoding at
   * its start, a true byte after it, then the command's encoding, and the
   * argument's encoding ends the frame.
   */
  lemma ControlFrameFields(u: seq<byte>, uc: seq<byte>, ua: seq<byte>, frame: seq<byte>, tail: seq<byte>)
    requires frame == u + [1] + uc + ua
    ensures var buf := frame + tail; var c := |u| + 1 + |uc|;
      c + |ua| <= |buf| && buf[0..|u|] == u && buf[|u|] == 1 && buf[|u| + 1..c] == uc && buf[c..c + |ua|] == ua
  {
    var buf := frame + tail;
    var c := |u| + 1 + |uc|;
    assert buf[0..|u|] == frame[0..|u|] == u;
    assert buf[|u|] == frame[|u|] == 1;
    assert buf[|u| + 1..c] == frame[|u| + 1..c] == uc;
    assert buf[c..c + |ua|] == frame[c..c + |ua|] == ua;
  }

  /**
   * A buffer that starts with a control frame holds, where the server
   * reads them, a field with the MAC, a true byte, a field with the
   * command and a field with the argument that ends the frame.
   */
  lemma ControlFrameAt(mac: string, command: string, argument: string, u: seq<byte>, uc: seq<byte>, ua: seq<byte>,
                       frame: seq<byte>, tail: seq<byte>)
    requires EncodeUTF(mac) == Some(u) && EncodeUTF(command) == Some(uc) && EncodeUTF(argument) == Some(ua)
    requires frame == u + [1] + uc + ua
    ensures var buf := frame + tail; var c := |u| + 1 + |uc|;
      UTFAt(buf, 0, 0 + |u|, mac) && |u| < |buf| && buf[|u|] == 1 &&
      UTFAt(buf, |u| + 1, c, command) && UTFAt(buf, c, c + |ua|, argument)
  {
    WrittenUTF(mac, u);
    WrittenUTF(command, uc);
    WrittenUTF(argument, ua);
    var buf := frame + tail;
    var c := |u| + 1 + |uc|;
    ControlFrameFields(u, uc, ua, frame, tail);
    FieldAt(buf, 0, u, mac);
    FieldAt(buf, |u| + 1, uc, command);
    FieldAt(buf, c, ua, argument);
  }

  /** The bytes `e` of `writeUTF(t)` at position `p` of a buffer make a field there that reads as t. */
  lemma FieldAt(buf: seq<byte>, p: nat, e: seq<byte>, t: string)
    requires UTFField(e, t) && p + |e| <= |buf| && buf[p..p + |e|] == e
    ensures UTFAt(buf, p, p + |e|, t)
  {
    FieldBytes(buf, p, e);
  }

  /** The bytes of a field at position `p`: its length header and its body. */
  lemma FieldBytes(buf: seq<byte>, p: nat, e: seq<byte>)
    requires |e| >= 2 && p + |e| <= |buf| && buf[p..p + |e|] == e
    ensures buf[p] == e[0] && buf[p + 1] == e[1]
    ensures buf[p + 2..p + |e|] == e[2..]
  {
    assert buf[p] == buf[p..p + |e|][0];
    assert buf[p + 1] == buf[p..p + |e|][1];
    assert buf[p + 2..p + |e|] == buf[p..p + |e|][2..];
  }

  /** The capacity of the `ByteBuffer` a data frame is put into. */
  const FRAME_BUFFER := 4056

  /** `writeUTF(mac)`, `writeBoolean(false)`, `writeInt(bytes so far + 4)`: the header of a data frame. */
  function DataHeader(mac: string): (r: Option<seq<byte>>)
    ensures r.Some? <==> EncodeUTF(mac).Some?
  {
    match EncodeUTF(mac)
    case None => None
    case Some(u) => Some(u + EncodeBoolean(false) + EncodeInt((|u| + 1 + 4) as int32))
  }

  /** A data frame: the header, then the message bytes. */
  function DataFrame(mac: string, message: seq<byte>): (r: Option<seq<byte>>)
    ensures r.Some? <==> EncodeUTF(mac).Some?
    ensures r.Some? ==> r.value == DataHeader(mac).value + message
  {
    match DataHeader(mac)
    case None => None
    case Some(h) => Some(h + message)
  }

  /** The layout of a data frame: MAC, false, the offset, the message. */
  lemma DataFrameLayout(mac: string, message: seq<byte>)
    requires EncodeUTF(mac).Some?
    ensures var u := EncodeUTF(mac).value;
      DataFrame(mac, message).value == u + EncodeBoolean(false) + EncodeInt((|u| + 5) as int32) + message &&
      |DataHeader(mac).value| == |u| + 5
  {
  }

  /** The three header fields of `u + b + n + rest`, read in order. */
  lemma HeaderReads(mac: string, offset: int32, rest: seq<byte>)
    requires EncodeUTF(mac).Some?
    ensures var u := EncodeUTF(mac).value;
      var buf := u + EncodeBoolean(false) + EncodeInt(offset) + rest;
      ReadUTF(Reader(buf, 0)) == Some((mac, Reader(buf, |u|))) &&
      ReadBoolean(Reader(buf, |u|)) == Some((false, Reader(buf, |u| + 1))) &&
      ReadInt(Reader(buf, |u| + 1)) == Some((offset, Reader(buf, |u| + 5))) &&
      buf[|u| + 5..] == rest
  {
    var u := EncodeUTF(mac).value;
    var b := EncodeBoolean(false);
    var n := EncodeInt(offset);
    var buf := u + b + n + rest;
    assert buf == [] + u + (b + n + rest);
    ReadUTFAfterWrite([], mac, u, b + n + rest);
    assert buf == u + b + (n + rest);
    ReadBooleanAfterWrite(u, false, n + rest);
    assert buf == (u + b) + n + rest;
    ReadIntAfterWrite(u + b, offset, rest);
  }

  /**
   * Reading back a data frame, followed by anything at all: the MAC, the
   * false control flag, and an offset that is exactly the header's length
   * (2 + |MAC in Modified UTF-8| + 1 + 4), from which on the bytes are the
   * message and then what followed the frame.
   */
  lemma DataFrameReads(mac: string, message: seq<byte>, tail: seq<byte>)
    requires EncodeUTF(mac).Some?
    ensures var buf := DataFrame(mac, message).value + tail;
      var u := EncodeUTF(mac).value;
      ReadUTF(Reader(buf, 0)) == Some((mac, Reader(buf, |u|))) &&
      ReadBoolean(Reader(buf, |u|)) == Some((false, Reader(buf, |u| + 1))) &&
      ReadInt(Reader(buf, |u| + 1)) == Some(((|u| + 5) as int32, Reader(buf, |u| + 5))) &&
      |u| + 5 == 2 + |EncodeUnits(ToUtf16(mac))| + 1 + 4 &&
      |u| + 5 == |DataHeader(mac).value| &&
      buf[|u| + 5..] == message + tail
  {
    var u := EncodeUTF(mac).value;
    DataFrameLayout(mac, message);
    var offset := (|u| + 5) as int32;
    assert DataFrame(mac, message).value + tail == u + EncodeBoolean(false) + EncodeInt(offset) + (message + tail);
    HeaderReads(mac, offset, message + tail);
  }

  /**
   * The body shared by both TCP handles' `sendMessage`. The frame is built
   * with `ByteArrayDataOutput`, then put into a 4056-byte buffer, which
   * fails for a longer frame. `channelOk` is whether the channel write
   * succeeds. False on any exception.
   */
  method SendDataFrame(mac: string, message: seq<byte>, channelOk: bool) returns (ok: bool, sent: Option<seq<byte>>)
    ensures ok <==> DataFrame(mac, message).Some? && |DataFrame(mac, message).value| <= FRAME_BUFFER && channelOk
    ensures sent == if ok then DataFrame(mac, message) else None
  {
    var out := new ByteArrayDataOutput();
    var utfOk := out.WriteUTF(mac);
    if !utfOk {
      return false, None;
    }
    out.WriteBoolean(false);
    var soFar := |out.ToByteArray()|;
    assert soFar + 4 < 0x8000_0000;
    out.WriteInt((soFar + 4) as int32);
    out.Write(message);
    var frame := out.ToByteArray();
    DataFrameLayout(mac, message);
    assert frame == DataFrame(mac, message).value;
    if |frame| > FRAME_BUFFER || !channelOk {
      return false, None;
    }
    ok, sent := true, Some(frame);
  }

  /** `TCPRemoteClient`: the server's handle on one TCP client. */
  class TcpRemoteClient {
    const name: string
    const mac: string
    const host: string
    const port: nat
    const channel: Socket

    constructor (client: string, m: string, address: string, incomingPort: nat, server: Socket)
      ensures name == client && mac == m && host == address && port == incomingPort && channel == server
    {
      name, mac, host, port, channel := client, m, address, incomingPort, server;
    }

    function GetName(): string { name }
    function GetMAC(): string { mac }
    function GetHost(): string { host }
    function GetPort(): nat { port }

    /** `sendMessage`: a data frame under the client's MAC. */
    method SendMessage(message: seq<byte>, channelOk: bool) returns (ok: bool, sent: Option<seq<byte>>)
      ensures ok <==> DataFrame(mac, message).Some? && |DataFrame(mac, message).value| <= FRAME_BUFFER && channelOk
      ensures sent == if ok then DataFrame(mac, message) else None
    {
      ok, sent := SendDataFrame(mac, message, channelOk);
    }
  }

  /** `TCPRemoteServer`: a client's handle on its TCP server. */
  class TcpRemoteServer {
    const mac: string
    const host: string
    const port: nat
    const channel: Socket

    constructor (m: string, address: string, incomingPort: nat, client: Socket)
      ensures mac == m && host == address && port == incomingPort && channel == client
    {
      mac, host, port, channel := m, address, incomingPort, client;
    }

    function GetMAC(): string { mac }
    function GetHost(): string { host }
    function GetPort(): nat { port }

    /** `sendMessage`: a data frame under the server's MAC. */
    method SendMessage(message: seq<byte>, channelOk: bool) returns (ok: bool, sent: Option<seq<byte>>)
      ensures ok <==> DataFrame(mac, message).Some? && |DataFrame(mac, message).value| <= FRAME_BUFFER && channelOk
      ensures sent == if ok then DataFrame(mac, message) else None
    {
      ok, sent := SendDataFrame(mac, message, channelOk);
    }
  }
}
