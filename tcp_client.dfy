/**
 * `TCPClient`: the client side of the TCP work level. Every frame it writes
 * is built with `ByteArrayDataOutput` and put into one static 2048-byte
 * buffer before it goes to the channel. `connect` starts a thread that
 * opens a non-blocking channel, sends the connect frame once, and reads
 * replies until one is an accept; it then writes what was queued and
 * turns operative. From then on it writes the queue whenever a read gets
 * no bytes, and otherwise reads the bytes as a reply from the server.
 * `rename` and `send` write at once whatever the connection state is,
 * queueing the frame when that throws; `close` only queues a disconnect
 * frame.
 *
 * As for the SSL client, each action is first a function on a `State`
 * value; the class `Client` does the same work on its fields, and each
 * method is proved to leave the fields and the effects as the function
 * says.
 */
module TcpClient {
  import opened Common
  import opened JavaLang
  import opened JavaIo
  import opened Remote

  /** The capacity of the static `ByteBuffer` every frame is put into before it is written. */
  const BUFFER := 2048
  /** The capacity of the `ByteBuffer` each read goes into. */
  const READ_BUFFER := 1024
  const CLIENT_REQUEST_TEXT := "Client disconnect request"

  /** What the client does that can be seen: a frame written to the channel, the connect future completed. */
  datatype ClientEffect = Write(frame: seq<byte>) | Complete(connected: bool)

  /** Where the connect thread is: not started, opening the channel, in the award loop, in the operative loop, or gone. */
  datatype Phase = Idle | Opening | Awaiting | Serving | Ended

  /**
   * What one `socket.read` gives: the bytes it put into the read buffer
   * (none for a read of 0), the end of the stream (-1, nothing put), or an
   * exception.
   */
  datatype ReadResult = Bytes(data: seq<byte>) | EndOfStream | ReadFailed

  /**
   * The client's fields. `queue` is `data_queue`, a set of arrays by
   * identity, so equal frames can be queued more than once.
   */
  datatype State = State(
    name: string,
    debug: bool,
    operative: bool,
    instantClose: bool,
    award: bool,
    tryingConnect: bool,
    queue: multiset<seq<byte>>,
    phase: Phase)

  datatype Outcome = Outcome(state: State, effects: seq<ClientEffect>)

  /** The fields before anything happens, named `client_<random>`; the random name is a parameter. */
  function Initial(name: string): State
  {
    State(name, false, false, false, false, true, multiset{}, Idle)
  }

  // ---------------------------------------------------------------------
  // The frames the client writes

  /** The bytes of `writeUTF` of the two command keywords, of "disconnect" and of the disconnect reason. */
  const CONNECT_UTF: seq<byte> := [0, 7, 99, 111, 110, 110, 101, 99, 116]
  const RENAME_UTF: seq<byte> := [0, 6, 114, 101, 110, 97, 109, 101]
  const DISCONNECT_UTF: seq<byte> := [0, 10, 100, 105, 115, 99, 111, 110, 110, 101, 99, 116]
  const REQUEST_UTF: seq<byte> :=
    [0, 25, 67, 108, 105, 101, 110, 116, 32, 100, 105, 115, 99, 111, 110, 110, 101, 99, 116, 32, 114, 101, 113, 117, 101, 115, 116]

  lemma ConnectUtf()
    ensures EncodeUTF("connect") == Some(CONNECT_UTF)
  {
    AsciiText("connect", CONNECT_UTF);
  }

  lemma RenameUtf()
    ensures EncodeUTF("rename") == Some(RENAME_UTF)
  {
    AsciiText("rename", RENAME_UTF);
  }

  lemma DisconnectUtf()
    ensures EncodeUTF("disconnect") == Some(DISCONNECT_UTF)
  {
    AsciiText("disconnect", DISCONNECT_UTF);
  }

  lemma RequestUtf()
    ensures EncodeUTF(CLIENT_REQUEST_TEXT) == Some(REQUEST_UTF)
  {
    AsciiText(CLIENT_REQUEST_TEXT, REQUEST_UTF);
  }

  lemma AsciiText(text: string, w: seq<byte>)
    requires IsAscii(text) && |text| < 256 && |w| == |text| + 2 && w[0] == 0 && w[1] as int == |text|
    requires forall i :: 0 <= i < |text| ==> w[i + 2] as int == text[i] as int
    ensures EncodeUTF(text) == Some(w)
  {
    AsciiUTF(text);
    assert w == [0, |text| as byte] + AsciiBytes(text);
  }

  /** A control frame whose command is already encoded: `writeUTF(mac)`, true, the command's bytes, `writeUTF(argument)`. */
  function KeywordFrame(mac: string, command: seq<byte>, argument: string): (r: Option<seq<byte>>)
    ensures r.Some? <==> EncodeUTF(mac).Some? && EncodeUTF(argument).Some?
    ensures r.Some? ==> r.value == EncodeUTF(mac).value + [1] + command + EncodeUTF(argument).value
  {
    match EncodeUTF(mac)
    case None => None
    case Some(u) =>
      match EncodeUTF(argument)
      case None => None
      case Some(a) => Some(u + [1] + command + a)
  }

  function ConnectFrame(mac: string, name: string): Option<seq<byte>>
  {
    KeywordFrame(mac, CONNECT_UTF, name)
  }

  function RenameFrame(mac: string, name: string): Option<seq<byte>>
  {
    KeywordFrame(mac, RENAME_UTF, name)
  }

  function DisconnectFrame(mac: string): Option<seq<byte>>
  {
    match EncodeUTF(mac)
    case None => None
    case Some(u) => Some(u + [1] + DISCONNECT_UTF + REQUEST_UTF)
  }

  /** The connect and rename frames are the control frames of the commands connect and rename. */
  lemma FramesAreControl(mac: string, name: string)
    ensures ConnectFrame(mac, name) == ControlFrame(mac, "connect", name)
    ensures RenameFrame(mac, name) == ControlFrame(mac, "rename", name)
  {
    ConnectUtf();
    KeywordControl(mac, "connect", CONNECT_UTF, name);
    RenameUtf();
    KeywordControl(mac, "rename", RENAME_UTF, name);
  }

  /** The disconnect frame is the control frame of the command disconnect with the reason as argument. */
  lemma DisconnectIsControl(mac: string)
    ensures DisconnectFrame(mac) == ControlFrame(mac, "disconnect", CLIENT_REQUEST_TEXT)
  {
    DisconnectUtf();
    RequestUtf();
    DisconnectControl(mac, "disconnect", CLIENT_REQUEST_TEXT);
  }

  lemma DisconnectControl(mac: string, command: string, argument: string)
    requires EncodeUTF(command) == Some(DISCONNECT_UTF) && EncodeUTF(argument) == Some(REQUEST_UTF)
    ensures DisconnectFrame(mac) == ControlFrame(mac, command, argument)
  {
  }

  /** A frame laid out as `writeUTF(mac)`, true, `writeUTF(command)`, `writeUTF(argument)` is the control frame. */
  lemma ControlLaidOut(mac: string, command: string, argument: string, frame: seq<byte>)
    requires EncodeUTF(mac).Some? && EncodeUTF(command).Some? && EncodeUTF(argument).Some?
    requires frame == EncodeUTF(mac).value + EncodeBoolean(true) + EncodeUTF(command).value + EncodeUTF(argument).value
    ensures ControlFrame(mac, command, argument) == Some(frame)
  {
  }

  lemma KeywordControl(mac: string, command: string, w: seq<byte>, argument: string)
    requires EncodeUTF(command) == Some(w)
    ensures ControlFrame(mac, command, argument) == KeywordFrame(mac, w, argument)
  {
  }

  /**
   * `BUFFER.clear(); BUFFER.put(frame); BUFFER.flip(); socket.write(BUFFER)`
   * goes through: a frame over 2048 bytes overflows the buffer, and
   * `writable` is false when the write throws (no channel yet, or an I/O
   * error).
   */
  predicate Puts(frame: seq<byte>, writable: bool)
  {
    |frame| <= BUFFER && writable
  }

  /** The frames `frames` written one after the other. */
  function Writes(frames: seq<seq<byte>>): (r: seq<ClientEffect>)
    ensures |r| == |frames|
    ensures forall i :: 0 <= i < |frames| ==> r[i] == Write(frames[i])
    decreases |frames|
  {
    if frames == [] then [] else Writes(frames[..|frames| - 1]) + [Write(frames[|frames| - 1])]
  }

  /**
   * How many frames of `order` a drain writes: all of them up to the first
   * that cannot be put and written, which throws.
   */
  function Drainable(order: seq<seq<byte>>, writable: bool): (k: nat)
    ensures k <= |order|
    ensures forall i :: 0 <= i < k ==> Puts(order[i], writable)
    ensures k < |order| ==> !Puts(order[k], writable)
    decreases |order|
  {
    if order == [] || !Puts(order[0], writable) then 0 else 1 + Drainable(order[1..], writable)
  }

  /**
   * The loop over `data_queue`, in the set's iteration order `order`: each
   * frame is written and then removed; the first that throws ends the
   * loop, and it and the frames after it stay queued. The flag is whether
   * it threw.
   */
  function Drain(s: State, order: seq<seq<byte>>, writable: bool): (Outcome, bool)
    requires multiset(order) == s.queue
  {
    var k := Drainable(order, writable);
    (Outcome(s.(queue := multiset(order[k..])), Writes(order[..k])), k < |order|)
  }

  /** `readBuffer.array()` after a read: the bytes read at the front of 1024 zero bytes. */
  function Filled(data: seq<byte>): (r: seq<byte>)
    ensures |r| == READ_BUFFER
    ensures |data| <= READ_BUFFER ==> r[..|data|] == data && forall i :: |data| <= i < READ_BUFFER ==> r[i] == 0
  {
    if |data| >= READ_BUFFER then data[..READ_BUFFER] else data + seq(READ_BUFFER - |data|, _ => 0)
  }

  /** The array the thread reads a reply from. */
  function ReadArray(read: ReadResult): seq<byte>
    requires !read.ReadFailed?
  {
    if read.Bytes? then Filled(read.data) else Filled([])
  }

  // ---------------------------------------------------------------------
  // connect and the connect thread

  /** `connect()`: no guard at all; a thread starts and a new future is returned. */
  function ConnectStep(s: State): State
  {
    s.(phase := Opening)
  }

  /**
   * Opening the channel and waiting for `finishConnect`: `spun` is whether
   * the wait loop ran (it clears `tryingConnect`), `ok` whether opening
   * succeeded. On success the connection is awarded and the connect frame
   * is due; on failure the future completes with false.
   */
  function OpenStep(s: State, spun: bool, ok: bool): Outcome
    requires s.phase == Opening
  {
    var s1 := if spun then s.(tryingConnect := false) else s;
    if ok then Outcome(s1.(award := true, tryingConnect := true, phase := Awaiting), [])
    else Outcome(s1.(phase := Ended), [Complete(false)])
  }

  /** An exception in the thread while the future is pending: it completes with false and the thread ends. */
  function Fail(s: State, effects: seq<ClientEffect>): Outcome
  {
    Outcome(s.(phase := Ended), effects + [Complete(false)])
  }

  /** Leaving the award loop: the future completes with true, and the operative loop runs while `operative` is set. */
  function LeaveAwait(s: State): Outcome
  {
    Outcome(s.(phase := if s.operative then Serving else Ended), [Complete(true)])
  }

  /** What the award loop reads in a reply: a true flag then "accept" in any case, something else, or an exception. */
  datatype Answer = Accepted | Unrelated | Broken

  function AnswerTo(buf: seq<byte>): Answer
  {
    match ReadBoolean(Reader(buf, 0))
    case None => Broken
    case Some((flag, r)) =>
      if !flag then Unrelated
      else
        match ReadUTF(r)
        case None => Broken
        case Some((text, _)) => if EqualsIgnoreCase(text, "accept") then Accepted else Unrelated
  }

  /** The connect frame: writing it clears `tryingConnect`; a name too long for `writeUTF`, an overflow or a failed write kills the thread. */
  function SendConnect(s: State, mac: string, writable: bool): Outcome
  {
    match ConnectFrame(mac, s.name)
    case None => Fail(s, [])
    case Some(frame) =>
      if Puts(frame, writable) then Outcome(s.(tryingConnect := false), [Write(frame)]) else Fail(s, [])
  }

  /** An accept: the queue is written, the client turns operative, and `close()` runs when `instant_close` is set. */
  function Accept(s: State, mac: string, order: seq<seq<byte>>, writable: bool): Outcome
    requires multiset(order) == s.queue
  {
    var (d, threw) := Drain(s, order, writable);
    if threw then Fail(d.state, d.effects)
    else
      var s1 := d.state.(award := false, operative := true);
      Outcome(if s1.instantClose then CloseStep(s1, mac) else s1, d.effects)
  }

  /**
   * One pass of the award loop. A read happens first, whose bytes the
   * pass with `tryingConnect` set ignores; `order` is the queue's
   * iteration order and `writable` whether writes to the channel succeed.
   */
  function AwaitStep(s: State, mac: string, read: ReadResult, order: seq<seq<byte>>, writable: bool): Outcome
    requires s.phase == Awaiting && multiset(order) == s.queue
  {
    if !s.award then LeaveAwait(s)
    else if read.ReadFailed? then Fail(s, [])
    else if s.tryingConnect then SendConnect(s, mac, writable)
    else if s.operative then Outcome(s, [])
    else
      match AnswerTo(ReadArray(read))
      case Broken => Fail(s, [])
      case Unrelated => Outcome(s, [])
      case Accepted => Accept(s, mac, order, writable)
  }

  /** What a reply read by the operative loop makes the client do: nothing, take a new name, or die on an exception. */
  datatype Reaction = Ignore | TakeName(name: string) | Crash

  /** `n` more `readUTF`s from `r` all succeed. */
  predicate Follow(r: Reader, n: nat)
    decreases n
  {
    n == 0 ||
    match ReadUTF(r)
    case None => false
    case Some((_, next)) => Follow(next, n - 1)
  }

  /** A reply that is only logged, with `n` more strings read for the log line. */
  function Logged(r: Reader, n: nat): Reaction
  {
    if Follow(r, n) then Ignore else Crash
  }

  /** How many strings each `failed` reply reads for its log line. */
  function FailedReads(argument: string): nat
  {
    if argument == "connect" || argument == "rename" then 2
    else if argument == "disconnect" || argument == "message" then 1
    else if argument == "unknown" then 3
    else 0
  }

  /**
   * The reads of the operative loop: a flag, and for a true flag a command
   * and an argument; success/rename reads the new name, and the other
   * replies read only the strings their log lines print (the debug ones
   * only when debugging).
   */
  function ReactionTo(buf: seq<byte>, debug: bool): Reaction
  {
    match ReadBoolean(Reader(buf, 0))
    case None => Crash
    case Some((flag, r1)) =>
      if !flag then Ignore
      else
        match ReadUTF(r1)
        case None => Crash
        case Some((command, r2)) =>
          match ReadUTF(r2)
          case None => Crash
          case Some((argument, r3)) =>
            var c := Lower(command);
            var a := Lower(argument);
            if c == "success" then
              if a == "rename" then
                match ReadUTF(r3)
                case None => Crash
                case Some((name, _)) => TakeName(name)
              else if a == "message" then Logged(r3, if debug then 2 else 0)
              else if a == "unknown" then Logged(r3, if debug then 3 else 0)
              else Ignore
            else if c == "failed" then Logged(r3, FailedReads(a))
            else Ignore
  }

  function React(s: State, r: Reaction): Outcome
  {
    match r
    case Ignore => Outcome(s, [])
    case TakeName(name) => Outcome(s.(name := name), [])
    case Crash => Outcome(s.(phase := Ended), [])
  }

  /**
   * One pass of the operative loop. A read of no bytes writes the queue;
   * any other read is handled as a reply. An exception ends the thread;
   * the future has completed already, so nothing more is seen.
   */
  function ServeStep(s: State, read: ReadResult, order: seq<seq<byte>>, writable: bool): Outcome
    requires s.phase == Serving && multiset(order) == s.queue
  {
    if !s.operative || read.ReadFailed? then Outcome(s.(phase := Ended), [])
    else if read == Bytes([]) then
      var (d, threw) := Drain(s, order, writable);
      if threw then Outcome(d.state.(phase := Ended), d.effects) else d
    else React(s, ReactionTo(ReadArray(read), s.debug))
  }

  // ---------------------------------------------------------------------
  // rename, send and close

  /** Putting a frame into the buffer and writing it from outside the thread: the exception is caught and the frame queued. */
  function Deliver(s: State, frame: seq<byte>, writable: bool): Outcome
  {
    if Puts(frame, writable) then Outcome(s, [Write(frame)])
    else Outcome(s.(queue := s.queue + multiset{frame}), [])
  }

  /** `rename(name)`: the frame is built before the `try`, so a string too long for `writeUTF` reaches the caller. */
  function RenameStep(s: State, mac: string, newName: string, writable: bool): (Outcome, bool)
  {
    match RenameFrame(mac, newName)
    case None => (Outcome(s, []), true)
    case Some(frame) => (Deliver(s, frame, writable), false)
  }

  /** `send(data)`: the same, with a data frame. */
  function SendStep(s: State, mac: string, data: seq<byte>, writable: bool): (Outcome, bool)
  {
    match DataFrame(mac, data)
    case None => (Outcome(s, []), true)
    case Some(frame) => (Deliver(s, frame, writable), false)
  }

  /** `close()`: once operative the disconnect frame is queued (an exception building it is caught); before that `instant_close` is set. */
  function CloseStep(s: State, mac: string): State
  {
    if s.operative then
      match DisconnectFrame(mac)
      case None => s
      case Some(frame) => s.(queue := s.queue + multiset{frame})
    else s.(instantClose := true)
  }

  // ---------------------------------------------------------------------
  // Reading replies

  /** Where the fields of a reply that begins with a true flag and `writeUTF` of three texts sit. */
  lemma FlagThenFields(buf: seq<byte>, p: nat, q: nat, e: nat, w1: seq<byte>, w2: seq<byte>, w3: seq<byte>, rest: seq<byte>,
                       t1: string, t2: string, t3: string)
    requires EncodeUTF(t1) == Some(w1) && EncodeUTF(t2) == Some(w2) && EncodeUTF(t3) == Some(w3)
    requires buf == [1] + w1 + w2 + w3 + rest && p == 1 + |w1| && q == p + |w2| && e == q + |w3|
    ensures |buf| > 0 && buf[0] == 1 && UTFAt(buf, 1, p, t1) && UTFAt(buf, p, q, t2) && UTFAt(buf, q, e, t3)
  {
    FlagSlices(buf, p, q, e, w1, w2, w3, rest);
    WrittenUTF(t1, w1);
    WrittenUTF(t2, w2);
    WrittenUTF(t3, w3);
    FieldAt(buf, 1, w1, t1);
    FieldAt(buf, p, w2, t2);
    FieldAt(buf, q, w3, t3);
  }

  lemma FlagSlices(buf: seq<byte>, p: nat, q: nat, e: nat, w1: seq<byte>, w2: seq<byte>, w3: seq<byte>, rest: seq<byte>)
    requires buf == [1] + w1 + w2 + w3 + rest && p == 1 + |w1| && q == p + |w2| && e == q + |w3|
    ensures e <= |buf| && buf[0] == 1 && buf[1..p] == w1 && buf[p..q] == w2 && buf[q..e] == w3
  {
    var frame := [1] + w1 + w2 + w3;
    assert buf == frame + rest;
    assert buf[1..p] == frame[1..p] == w1;
    assert buf[p..q] == frame[p..q] == w2;
    assert buf[q..e] == frame[q..e] == w3;
  }

  /** The array of a read of at most 1024 bytes is those bytes, then zeros. */
  lemma FilledPrefix(data: seq<byte>)
    requires |data| <= READ_BUFFER
    ensures Filled(data) == data + Filled(data)[|data|..]
  {
    assert Filled(data)[..|data|] == data;
  }

  /** A reply that begins with a true flag and `writeUTF(text)` is an accept exactly when the text is "accept" in any case. */
  lemma AnswerToText(text: string, w: seq<byte>, rest: seq<byte>)
    requires EncodeUTF(text) == Some(w)
    ensures AnswerTo([1] + w + rest) == if EqualsIgnoreCase(text, "accept") then Accepted else Unrelated
  {
    var buf := [1] + w + rest;
    assert ReadBoolean(Reader(buf, 0)) == Some((true, Reader(buf, 1)));
    ReadUTFAfterWrite([1], text, w, rest);
  }

  /** A reply whose first byte is 0 reads as a plain message: the award loop waits on, the operative loop logs it. */
  lemma ZeroFlagIgnored(buf: seq<byte>, debug: bool)
    requires |buf| > 0 && buf[0] == 0
    ensures AnswerTo(buf) == Unrelated && ReactionTo(buf, debug) == Ignore
  {
  }

  /**
   * success/rename from the server, in any case, sets the name to the
   * string after them, and changes nothing else.
   */
  lemma RenameConfirmed(s: State, command: string, argument: string, name: string,
                        uc: seq<byte>, ua: seq<byte>, un: seq<byte>, tail: seq<byte>, order: seq<seq<byte>>, writable: bool)
    requires s.phase == Serving && multiset(order) == s.queue && s.operative
    requires EncodeUTF(command) == Some(uc) && EncodeUTF(argument) == Some(ua) && EncodeUTF(name) == Some(un)
    requires Lower(command) == "success" && Lower(argument) == "rename"
    requires |[1] + uc + ua + un + tail| <= READ_BUFFER
    ensures ServeStep(s, Bytes([1] + uc + ua + un + tail), order, writable) == Outcome(s.(name := name), [])
  {
    var head := [1] + uc + ua + un;
    var data := head + tail;
    FilledPrefix(data);
    var zeros := Filled(data)[|data|..];
    var buf := head + (tail + zeros);
    assert data + zeros == buf;
    var p := 1 + |uc|;
    var q := p + |ua|;
    FlagThenFields(buf, p, q, q + |un|, uc, ua, un, tail + zeros, command, argument, name);
    Renamed(buf, s.debug, command, argument, name, p, q, q + |un|);
    ServeReacts(s, Bytes(data), order, writable);
  }

  /** A read of some bytes in the operative loop is answered by the reaction to them. */
  lemma ServeReacts(s: State, read: ReadResult, order: seq<seq<byte>>, writable: bool)
    requires s.phase == Serving && multiset(order) == s.queue && s.operative && read.Bytes? && read.data != []
    ensures ServeStep(s, read, order, writable) == React(s, ReactionTo(ReadArray(read), s.debug))
  {
  }

  /** The reads of a reply laid out as a true flag, success, rename and a name. */
  lemma Renamed(buf: seq<byte>, debug: bool, command: string, argument: string, name: string, p: nat, q: nat, e: nat)
    requires |buf| > 0 && buf[0] == 1 && UTFAt(buf, 1, p, command) && UTFAt(buf, p, q, argument) && UTFAt(buf, q, e, name)
    requires Lower(command) == "success" && Lower(argument) == "rename"
    ensures ReactionTo(buf, debug) == TakeName(name)
  {
    assert ReadBoolean(Reader(buf, 0)) == Some((true, Reader(buf, 1)));
    ReadUTFAt(buf, 1, p, command);
    ReadUTFAt(buf, p, q, argument);
    ReadUTFAt(buf, q, e, name);
  }

  // ---------------------------------------------------------------------
  // Properties

  /** A sequence's multiset is that of a prefix and the rest. */
  lemma SplitAt<T>(order: seq<T>, k: nat)
    requires k <= |order|
    ensures multiset(order) == multiset(order[..k]) + multiset(order[k..])
  {
    assert order == order[..k] + order[k..];
  }

  /** The effects of writing some frames are writes of those frames. */
  lemma WrittenFrom(frames: seq<seq<byte>>, e: ClientEffect)
    requires e in Writes(frames)
    ensures e.Write? && e.frame in frames
  {
    var j :| 0 <= j < |frames| && Writes(frames)[j] == e;
  }

  /** Every frame a drain writes comes from the queue, and exactly those frames leave it. */
  lemma DrainWritesQueued(s: State, order: seq<seq<byte>>, writable: bool)
    requires multiset(order) == s.queue
    ensures var (d, threw) := Drain(s, order, writable);
      (forall e :: e in d.effects ==> e.Write? && e.frame in s.queue) &&
      d.state.queue + multiset(order[..Drainable(order, writable)]) == s.queue &&
      d.state == s.(queue := d.state.queue)
  {
    var k := Drainable(order, writable);
    var d := Drain(s, order, writable).0;
    forall e | e in d.effects
      ensures e.Write? && e.frame in s.queue
    {
      WrittenFrom(order[..k], e);
      assert e.frame in multiset(order[..k]);
      SplitAt(order, k);
    }
    SplitAt(order, k);
  }

  /** A drain writes the whole queue and empties it exactly when every queued frame can be put and written. */
  lemma DrainAll(s: State, order: seq<seq<byte>>, writable: bool)
    requires multiset(order) == s.queue
    ensures !Drain(s, order, writable).1 <==> forall f :: f in s.queue ==> Puts(f, writable)
    ensures !Drain(s, order, writable).1 ==>
      Drain(s, order, writable).0 == Outcome(s.(queue := multiset{}), Writes(order))
  {
    if forall f :: f in s.queue ==> Puts(f, writable) {
      forall i | 0 <= i < |order|
        ensures Puts(order[i], writable)
      {
        assert order[i] in multiset(order);
      }
      assert order[..|order|] == order;
      assert order[|order|..] == [];
    } else {
      var f :| f in s.queue && !Puts(f, writable);
      assert f in order;
    }
  }

  /**
   * A queued frame over 2048 bytes can never be written: every drain
   * throws, whatever the order, so it stays queued.
   */
  lemma OversizedFrameStalls(s: State, order: seq<seq<byte>>, writable: bool, frame: seq<byte>)
    requires multiset(order) == s.queue && frame in s.queue && |frame| > BUFFER
    ensures Drain(s, order, writable).1
    ensures frame in Drain(s, order, writable).0.state.queue
  {
    var k := Drainable(order, writable);
    assert frame in order;
    var j :| 0 <= j < |order| && order[j] == frame;
    assert k <= j;
    assert order[k..][j - k] == frame;
  }

  /** The pass that finds `tryingConnect` set writes the connect frame and clears it. */
  lemma ConnectSent(s: State, mac: string, read: ReadResult, order: seq<seq<byte>>, writable: bool)
    requires s.phase == Awaiting && multiset(order) == s.queue && s.award && s.tryingConnect && !read.ReadFailed?
    requires ConnectFrame(mac, s.name).Some? && Puts(ConnectFrame(mac, s.name).value, writable)
    ensures AwaitStep(s, mac, read, order, writable) ==
      Outcome(s.(tryingConnect := false), [Write(ConnectFrame(mac, s.name).value)])
  {
  }

  /**
   * Once `tryingConnect` is clear, no pass of the award loop sets it
   * again, and every frame such a pass writes comes from the queue: the
   * connect frame goes out once per connect.
   */
  lemma ConnectSentOnce(s: State, mac: string, read: ReadResult, order: seq<seq<byte>>, writable: bool)
    requires s.phase == Awaiting && !s.tryingConnect && multiset(order) == s.queue
    ensures var r := AwaitStep(s, mac, read, order, writable);
      !r.state.tryingConnect && forall e :: e in r.effects && e.Write? ==> e.frame in s.queue
  {
    if s.award && !read.ReadFailed? && !s.operative && AnswerTo(ReadArray(read)) == Accepted {
      AcceptFromQueue(s, mac, order, writable);
    }
  }

  /** An accept writes only queued frames, and leaves `tryingConnect` as it was. */
  lemma AcceptFromQueue(s: State, mac: string, order: seq<seq<byte>>, writable: bool)
    requires multiset(order) == s.queue
    ensures var r := Accept(s, mac, order, writable);
      r.state.tryingConnect == s.tryingConnect && forall e :: e in r.effects && e.Write? ==> e.frame in s.queue
  {
    DrainWritesQueued(s, order, writable);
    var d := Drain(s, order, writable).0;
    CallsChangeOnlyQueue(d.state.(award := false, operative := true), mac, [], [], writable);
  }

  /** Nor does the operative loop (nor the three calls, by CallsChangeOnlyQueue). */
  lemma TryingConnectStaysClear(s: State, read: ReadResult, order: seq<seq<byte>>, writable: bool)
    requires s.phase == Serving && !s.tryingConnect && multiset(order) == s.queue
    ensures !ServeStep(s, read, order, writable).state.tryingConnect
  {
  }

  /**
   * rename and send change at most the queue, and close at most the queue
   * and `instant_close`: no connection flag, no name, no phase.
   */
  lemma CallsChangeOnlyQueue(s: State, mac: string, text: string, data: seq<byte>, writable: bool)
    ensures RenameStep(s, mac, text, writable).0.state.(queue := s.queue) == s
    ensures SendStep(s, mac, data, writable).0.state.(queue := s.queue) == s
    ensures CloseStep(s, mac).(queue := s.queue, instantClose := s.instantClose) == s
  {
    match RenameFrame(mac, text) {
      case None =>
      case Some(f) => DeliverOnlyQueue(s, f, writable);
    }
    match DataFrame(mac, data) {
      case None =>
      case Some(f) => DeliverOnlyQueue(s, f, writable);
    }
  }

  lemma DeliverOnlyQueue(s: State, frame: seq<byte>, writable: bool)
    ensures Deliver(s, frame, writable).state.(queue := s.queue) == s
  {
  }

  /**
   * An accept in the award loop writes the whole queue when every frame
   * fits and the channel takes it, then the client is operative and no
   * longer awarded, and `close()` runs when `instant_close` is set (which
   * by CloseQueues leaves just the disconnect frame queued).
   */
  lemma AcceptDrains(s: State, mac: string, read: ReadResult, order: seq<seq<byte>>, writable: bool)
    requires s.phase == Awaiting && multiset(order) == s.queue && s.award && !s.tryingConnect && !s.operative
    requires !read.ReadFailed? && AnswerTo(ReadArray(read)) == Accepted
    requires forall f :: f in s.queue ==> Puts(f, writable)
    ensures var r := AwaitStep(s, mac, read, order, writable); var s1 := s.(queue := multiset{}, award := false, operative := true);
      r.effects == Writes(order) && r.state == if s.instantClose then CloseStep(s1, mac) else s1
  {
    AwaitAccepts(s, mac, read, order, writable);
    AcceptAll(s, mac, order, writable);
  }

  /** The accept branch when every queued frame can be written. */
  lemma AcceptAll(s: State, mac: string, order: seq<seq<byte>>, writable: bool)
    requires multiset(order) == s.queue
    requires forall f :: f in s.queue ==> Puts(f, writable)
    ensures var s1 := s.(queue := multiset{}, award := false, operative := true);
      Accept(s, mac, order, writable).state == (if s.instantClose then CloseStep(s1, mac) else s1) &&
      Accept(s, mac, order, writable).effects == Writes(order)
  {
    DrainAll(s, order, writable);
    AcceptEffects(s, mac, order, writable);
  }

  /** An accept whose drain goes through has the drain's effects. */
  lemma AcceptEffects(s: State, mac: string, order: seq<seq<byte>>, writable: bool)
    requires multiset(order) == s.queue && !Drain(s, order, writable).1
    ensures Accept(s, mac, order, writable).effects == Drain(s, order, writable).0.effects
  {
  }

  /** The pass that reads an accept runs the accept branch. */
  lemma AwaitAccepts(s: State, mac: string, read: ReadResult, order: seq<seq<byte>>, writable: bool)
    requires s.phase == Awaiting && multiset(order) == s.queue && s.award && !s.tryingConnect && !s.operative
    requires !read.ReadFailed? && AnswerTo(ReadArray(read)) == Accepted
    ensures AwaitStep(s, mac, read, order, writable) == Accept(s, mac, order, writable)
  {
  }

  /** An accept whose drain throws ends the thread, with the future completed false and the client never operative. */
  lemma AcceptThrows(s: State, mac: string, read: ReadResult, order: seq<seq<byte>>, writable: bool)
    requires s.phase == Awaiting && multiset(order) == s.queue && s.award && !s.tryingConnect && !s.operative
    requires !read.ReadFailed? && AnswerTo(ReadArray(read)) == Accepted
    requires exists f :: f in s.queue && !Puts(f, writable)
    ensures var r := AwaitStep(s, mac, read, order, writable); var k := Drainable(order, writable);
      r.effects == Writes(order[..k]) + [Complete(false)] &&
      r.state == s.(queue := multiset(order[k..]), phase := Ended) && !r.state.operative
  {
    AwaitAccepts(s, mac, read, order, writable);
    DrainAll(s, order, writable);
  }

  /** A reply the award loop reads as anything other than an accept changes nothing, or ends the thread when reading it throws. */
  lemma OtherRepliesWait(s: State, mac: string, read: ReadResult, order: seq<seq<byte>>, writable: bool)
    requires s.phase == Awaiting && multiset(order) == s.queue && s.award && !s.tryingConnect && !s.operative
    requires !read.ReadFailed? && AnswerTo(ReadArray(read)) != Accepted
    ensures var r := AwaitStep(s, mac, read, order, writable);
      r == if AnswerTo(ReadArray(read)) == Unrelated then Outcome(s, []) else Fail(s, [])
  {
  }

  /** While operative, a read of no bytes writes every queued frame that can be written, removing each, and stops at the first that throws. */
  lemma ZeroReadDrains(s: State, order: seq<seq<byte>>, writable: bool)
    requires s.phase == Serving && multiset(order) == s.queue && s.operative
    ensures var r := ServeStep(s, Bytes([]), order, writable); var k := Drainable(order, writable);
      r.effects == Writes(order[..k]) &&
      r.state.queue + multiset(order[..k]) == s.queue &&
      r.state.phase == (if k < |order| then Ended else Serving) &&
      r.state.(queue := s.queue, phase := Serving) == s
    ensures (forall f :: f in s.queue ==> Puts(f, writable)) ==>
      ServeStep(s, Bytes([]), order, writable) == Outcome(s.(queue := multiset{}), Writes(order))
  {
    DrainAll(s, order, writable);
    DrainWritesQueued(s, order, writable);
  }

  /**
   * Neither loop clears `operative` once it is set (nor do rename, send
   * and close, by CallsChangeOnlyQueue): the operative loop
   * only ends through an exception.
   */
  lemma OperativeStays(s: State, mac: string, read: ReadResult, order: seq<seq<byte>>, writable: bool)
    requires s.operative && multiset(order) == s.queue
    ensures s.phase == Awaiting ==> AwaitStep(s, mac, read, order, writable).state.operative
    ensures s.phase == Serving ==> var r := ServeStep(s, read, order, writable);
      r.state.operative &&
      (r.state.phase == Ended <==> read.ReadFailed? || (read == Bytes([]) && Drain(s, order, writable).1) ||
                                   (read != Bytes([]) && ReactionTo(ReadArray(read), s.debug) == Crash))
  {
    if s.phase == Serving && !read.ReadFailed? && read != Bytes([]) {
      var r := ReactionTo(ReadArray(read), s.debug);
      assert ServeStep(s, read, order, writable) == React(s, r);
    }
  }

  /**
   * close while operative only queues the disconnect frame, and nothing
   * else changes; close before that only sets `instant_close`.
   */
  lemma CloseQueues(s: State, mac: string)
    ensures s.operative && EncodeUTF(mac).Some? ==>
      CloseStep(s, mac) == s.(queue := s.queue + multiset{DisconnectFrame(mac).value})
    ensures !s.operative ==> CloseStep(s, mac) == s.(instantClose := true)
  {
  }

  /**
   * rename and send look at no connection flag: the frame is written when
   * it fits and the write succeeds, and is queued otherwise. The name is
   * not changed by rename.
   */
  lemma UnguardedWrites(s: State, mac: string, newName: string, data: seq<byte>, writable: bool)
    requires EncodeUTF(mac).Some? && EncodeUTF(newName).Some?
    ensures var (r, threw) := RenameStep(s, mac, newName, writable); var f := RenameFrame(mac, newName).value;
      !threw && r.state.name == s.name &&
      (Puts(f, writable) ==> r == Outcome(s, [Write(f)])) &&
      (!Puts(f, writable) ==> r == Outcome(s.(queue := s.queue + multiset{f}), []))
    ensures var (r, threw) := SendStep(s, mac, data, writable); var f := DataFrame(mac, data).value;
      !threw &&
      (Puts(f, writable) ==> r == Outcome(s, [Write(f)])) &&
      (!Puts(f, writable) ==> r == Outcome(s.(queue := s.queue + multiset{f}), []))
  {
  }

  /**
   * A rename whose frame overflows the buffer queues that frame, so the
   * next read of no bytes in the operative loop throws and ends the thread.
   */
  lemma OverflowingRenameStops(s: State, mac: string, newName: string, writable: bool, order: seq<seq<byte>>, later: bool)
    requires s.phase == Serving && s.operative
    requires RenameFrame(mac, newName).Some? && |RenameFrame(mac, newName).value| > BUFFER
    requires multiset(order) == RenameStep(s, mac, newName, writable).0.state.queue
    ensures ServeStep(RenameStep(s, mac, newName, writable).0.state, Bytes([]), order, later).state.phase == Ended
  {
    var t := RenameStep(s, mac, newName, writable).0.state;
    OversizedFrameStalls(t, order, later, RenameFrame(mac, newName).value);
  }

  // ---------------------------------------------------------------------
  // The client object

  class Client {
    var clientName: string
    var debug: bool
    var operative: bool
    var instantClose: bool
    var award: bool
    var tryingConnect: bool
    var queue: multiset<seq<byte>>
    var phase: Phase
    /** Everything written and completed so far, in order. */
    var effects: seq<ClientEffect>
    /** `getMAC()`. */
    const mac: string

    function Snapshot(): State
      reads this
    {
      State(clientName, debug, operative, instantClose, award, tryingConnect, queue, phase)
    }

    constructor (clientMac: string, randomName: string)
      ensures Snapshot() == Initial(randomName) && effects == [] && mac == clientMac
    {
      clientName, debug, operative, instantClose := randomName, false, false, false;
      award, tryingConnect, queue, phase := false, true, multiset{}, Idle;
      effects, mac := [], clientMac;
    }

    /** `getName()`. */
    function GetName(): (r: string)
      reads this
      ensures r == Snapshot().name
    {
      clientName
    }

    method Debug(status: bool)
      modifies this
      ensures Snapshot() == old(Snapshot()).(debug := status) && effects == old(effects)
    {
      debug := status;
    }

    method Emit(e: ClientEffect)
      modifies this
      ensures Snapshot() == old(Snapshot()) && effects == old(effects) + [e]
    {
      effects := effects + [e];
    }

    method Connect()
      modifies this
      ensures Snapshot() == ConnectStep(old(Snapshot())) && effects == old(effects)
    {
      phase := Opening;
    }

    method Opened(spun: bool, ok: bool)
      requires phase == Opening
      modifies this
      ensures var o := OpenStep(old(Snapshot()), spun, ok); Snapshot() == o.state && effects == old(effects) + o.effects
    {
      if spun {
        tryingConnect := false;
      }
      if !ok {
        phase := Ended;
        Emit(Complete(false));
        return;
      }
      award, tryingConnect, phase := true, true, Awaiting;
    }

    /** The catch around both loops while the future is pending. */
    method Die()
      modifies this
      ensures var o := Fail(old(Snapshot()), []); Snapshot() == o.state && effects == old(effects) + o.effects
    {
      phase := Ended;
      Emit(Complete(false));
    }

    /** `new ByteArrayDataOutput()`, then MAC, true, command and argument; `ok` is false where a `writeUTF` throws. */
    static method ComposeControl(clientMac: string, command: string, argument: string) returns (ok: bool, frame: seq<byte>)
      ensures ok <==> ControlFrame(clientMac, command, argument).Some?
      ensures ok ==> frame == ControlFrame(clientMac, command, argument).value
    {
      var out := new ByteArrayDataOutput();
      var okMac := out.WriteUTF(clientMac);
      if !okMac {
        return false, [];
      }
      ghost var u := EncodeUTF(clientMac).value;
      assert out.bytes == [] + u == u;
      out.WriteBoolean(true);
      var okCommand := out.WriteUTF(command);
      if !okCommand {
        return false, [];
      }
      ghost var c := EncodeUTF(command).value;
      assert out.bytes == u + EncodeBoolean(true) + c;
      var okArgument := out.WriteUTF(argument);
      if !okArgument {
        return false, [];
      }
      ok, frame := true, out.ToByteArray();
      ControlLaidOut(clientMac, command, argument, frame);
    }

    static method ComposeConnect(clientMac: string, name: string) returns (ok: bool, frame: seq<byte>)
      ensures ok <==> ConnectFrame(clientMac, name).Some?
      ensures ok ==> frame == ConnectFrame(clientMac, name).value
    {
      ok, frame := ComposeControl(clientMac, "connect", name);
      FramesAreControl(clientMac, name);
    }

    static method ComposeRename(clientMac: string, name: string) returns (ok: bool, frame: seq<byte>)
      ensures ok <==> RenameFrame(clientMac, name).Some?
      ensures ok ==> frame == RenameFrame(clientMac, name).value
    {
      ok, frame := ComposeControl(clientMac, "rename", name);
      FramesAreControl(clientMac, name);
    }

    static method ComposeDisconnect(clientMac: string) returns (ok: bool, frame: seq<byte>)
      ensures ok <==> DisconnectFrame(clientMac).Some?
      ensures ok ==> frame == DisconnectFrame(clientMac).value
    {
      ok, frame := ComposeControl(clientMac, "disconnect", CLIENT_REQUEST_TEXT);
      DisconnectIsControl(clientMac);
    }

    /** MAC, false, the length so far plus 4, then the data. */
    static method ComposeData(clientMac: string, data: seq<byte>) returns (ok: bool, frame: seq<byte>)
      ensures ok <==> DataFrame(clientMac, data).Some?
      ensures ok ==> frame == DataFrame(clientMac, data).value
    {
      var out := new ByteArrayDataOutput();
      var okMac := out.WriteUTF(clientMac);
      if !okMac {
        return false, [];
      }
      out.WriteBoolean(false);
      var soFar := |out.ToByteArray()|;
      assert soFar + 4 < 0x8000_0000;
      out.WriteInt((soFar + 4) as int32);
      out.Write(data);
      DataFrameLayout(clientMac, data);
      ok, frame := true, out.ToByteArray();
    }

    /** One pass of the award loop. */
    method AwaitPass(read: ReadResult, order: seq<seq<byte>>, writable: bool)
      requires phase == Awaiting && multiset(order) == queue
      modifies this
      ensures var o := AwaitStep(old(Snapshot()), mac, read, order, writable);
        Snapshot() == o.state && effects == old(effects) + o.effects
    {
      if !award {
        phase := if operative then Serving else Ended;
        Emit(Complete(true));
        return;
      }
      if read.ReadFailed? {
        Die();
        return;
      }
      if tryingConnect {
        SendConnectFrame(writable);
        return;
      }
      if operative {
        return;
      }
      var answer := AnswerTo(ReadArray(read));
      if answer == Broken {
        Die();
      } else if answer == Accepted {
        TakeAccept(order, writable);
      }
    }

    method SendConnectFrame(writable: bool)
      modifies this
      ensures var o := SendConnect(old(Snapshot()), mac, writable);
        Snapshot() == o.state && effects == old(effects) + o.effects
    {
      var ok, frame := ComposeConnect(mac, clientName);
      if !ok || !Puts(frame, writable) {
        Die();
        return;
      }
      Emit(Write(frame));
      tryingConnect := false;
    }

    /** The accept branch: the queue is written, then the flags change and `close()` runs if `instant_close` is set. */
    method TakeAccept(order: seq<seq<byte>>, writable: bool)
      requires multiset(order) == queue
      modifies this
      ensures var o := Accept(old(Snapshot()), mac, order, writable);
        Snapshot() == o.state && effects == old(effects) + o.effects
    {
      var threw := DrainQueue(order, writable);
      if threw {
        Die();
        return;
      }
      award := false;
      operative := true;
      if instantClose {
        Close();
      }
    }

    /** The loop over `data_queue` in the order `order`. */
    method DrainQueue(order: seq<seq<byte>>, writable: bool) returns (threw: bool)
      requires multiset(order) == queue
      modifies this
      ensures var (d, t) := Drain(old(Snapshot()), order, writable);
        Snapshot() == d.state && effects == old(effects) + d.effects && threw == t
    {
      var written, left, k := WriteEach(order, writable);
      effects := effects + written;
      queue := left;
      threw := k < |order|;
    }

    /** Each frame is put, written and removed, until one throws; `k` frames were written. */
    static method WriteEach(order: seq<seq<byte>>, writable: bool) returns (written: seq<ClientEffect>, left: multiset<seq<byte>>, k: nat)
      ensures k == Drainable(order, writable)
      ensures written == Writes(order[..k]) && left == multiset(order[k..])
    {
      k := 0;
      written := [];
      left := multiset(order);
      while k < |order| && Puts(order[k], writable)
        invariant k <= |order|
        invariant forall i :: 0 <= i < k ==> Puts(order[i], writable)
        invariant written == Writes(order[..k])
        invariant left == multiset(order[k..])
      {
        assert order[..k + 1][..k] == order[..k];
        written := written + [Write(order[k])];
        assert order[k..] == [order[k]] + order[k + 1..];
        left := left - multiset{order[k]};
        k := k + 1;
      }
    }

    /** One pass of the operative loop. */
    method ServePass(read: ReadResult, order: seq<seq<byte>>, writable: bool)
      requires phase == Serving && multiset(order) == queue
      modifies this
      ensures var o := ServeStep(old(Snapshot()), read, order, writable);
        Snapshot() == o.state && effects == old(effects) + o.effects
    {
      if !operative || read.ReadFailed? {
        phase := Ended;
        return;
      }
      if read == Bytes([]) {
        var threw := DrainQueue(order, writable);
        if threw {
          phase := Ended;
        }
        return;
      }
      var r := ReactionTo(ReadArray(read), debug);
      match r {
        case Ignore =>
        case TakeName(name) =>
          clientName := name;
        case Crash =>
          phase := Ended;
      }
    }

    /** The `try` of rename and send. */
    method Put(frame: seq<byte>, writable: bool)
      modifies this
      ensures var o := Deliver(old(Snapshot()), frame, writable);
        Snapshot() == o.state && effects == old(effects) + o.effects
    {
      if Puts(frame, writable) {
        Emit(Write(frame));
      } else {
        queue := queue + multiset{frame};
      }
    }

    method Rename(newName: string, writable: bool) returns (threw: bool)
      modifies this
      ensures var (o, t) := RenameStep(old(Snapshot()), mac, newName, writable);
        Snapshot() == o.state && effects == old(effects) + o.effects && threw == t
    {
      var ok, frame := ComposeRename(mac, newName);
      if !ok {
        return true;
      }
      Put(frame, writable);
      threw := false;
    }

    method Send(data: seq<byte>, writable: bool) returns (threw: bool)
      modifies this
      ensures var (o, t) := SendStep(old(Snapshot()), mac, data, writable);
        Snapshot() == o.state && effects == old(effects) + o.effects && threw == t
    {
      var ok, frame := ComposeData(mac, data);
      if !ok {
        return true;
      }
      Put(frame, writable);
      threw := false;
    }

    method Close()
      modifies this
      ensures Snapshot() == CloseStep(old(Snapshot()), mac) && effects == old(effects)
    {
      if !operative {
        instantClose := true;
        return;
      }
      var ok, frame := ComposeDisconnect(mac);
      if ok {
        queue := queue + multiset{frame};
      }
    }
  }
}
