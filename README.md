# RemoteMessaging in Dafny

This project models the core of RemoteMessaging, a Java library for exchanging typed messages between one server and many clients. It has two "work levels":

- **SSL.** Every message is a compiled `MessageOutput`, sent as one text line over a TLS socket. Commands such as connect, rename and disconnect travel as fields of that message.
- **TCP.** Every message is a binary frame built with `DataOutput` over a non-blocking channel. A frame holds the sender's MAC, a control flag, and then either a command with its argument or the offset of the message bytes.

The model covers, module by module:

- `Message` (message.dfy). The typed payload: six string-keyed namespaces (serializable objects, text, booleans, numbers, `char[]` and `byte[]`). `MessageDataOutput` is a class whose methods `Write`, `UnsafeWrite` and `Remove` update those maps in place. It also holds `Compile`'s merge loop, which folds an affiliate output in under a `MergeType`. `MessageInput` and `MessageDataInput` are read-only views over an output.
- `MergeTypes` (merge_type.dfy). The merge-type enumeration, its ids and the `fromName` parser.
- `DataFixer` (data_fixer.dfy). `fixByteData` and `fixBuffer`, as array loops proved against a filter function.
- `Listeners` (listener.dfy). The listener registry and reflective event dispatch. Each listener is a set of declared one-parameter handler types over an explicit class hierarchy.
- `JavaIo` and `JavaLang` (java_io.dfy, java_lang.dfy). The pieces of the Java platform the core depends on:
  - Modified UTF-8 `writeUTF`/`readUTF`, `writeBoolean`, and big-endian `writeInt`/`readInt`, with round-trip lemmas;
  - `toLowerCase` as it is compared against ASCII keywords;
  - `split(",")`.
- `Remote` (remote.dfy). The remote handles `SSLRemoteClient`, `SSLRemoteServer`, `TCPRemoteClient` and `TCPRemoteServer`: their getters, and how each one builds the message it sends.
- `SslServer`, `SslClient`, `TcpServer` and `TcpClient` (ssl_server.dfy, ssl_client.dfy, tcp_server.dfy, tcp_client.dfy). The four workers.
  - Each is first a pure `State` datatype with step functions:
    - one frame read by the server, or one reply read by the client;
    - one administration call, such as ban, kick, unBan, redirect, broadcast, start or close;
    - one client call, such as connect, rename, send, close or a countdown tick.
  - Each step returns the new state and the effects it causes: frames written, events fired, and futures completed.
  - Each worker also has a class (`Server` or `Client`) holding the Java fields. Its methods do the same work step by step, with loops over the clients, the queue and the buffer, and are proved to leave the fields and the effects exactly as the step functions say.
- `Sessions` (sessions.dfy). Lemmas that join the two ends of a work level. A frame a client writes is read by its server as the intended command, and a server's reply is read by the client as the intended answer, or, where the code makes it so, misread.

Some behaviour of the code is kept as written and stated as lemmas:

- **TCP replies are misread.** Every TCP server reply except the accept starts with `writeUTF(serverMac)`, but the TCP client reads a boolean first. So those replies, success/rename included, reach the client as plain messages, and a TCP client is never renamed by a reply.
- **Ban and kick notices dislodge no one.** TCP ban and kick notices are data frames, which the client treats as messages. SSL notices are routed under the client's own MAC with COMMAND_ENABLED false, so an SSL client that reads one as a line (it is written without a line terminator) sees plain data: it ignores the notice when that MAC differs from the MAC it recorded for the server, and hands it to its listeners as a server message when the two are equal. In neither case is the client disconnected.
- **The SSL accept drain throws.** When a frame is queued at accept, the SSL client drains it through `getChannel()`, which is null for an `SSLSocket`. The resulting exception ends the award loop, and the client never becomes operative.
- **Stale buffer bytes are delivered.** The TCP server's 4056-byte buffer is never zeroed. A delivered message therefore runs from the frame's offset to the end of the buffer, which can include bytes left by an earlier, longer read.
- **`contains(null)` throws.** A `ConcurrentHashMap`'s `containsValue(null)` and `contains(null)` throw, so an SSL connect frame without a MAC takes the exception path.
- **No access key over TCP.** A TCP connect is never checked against an access key, and the TCP client's `connect` is not guarded by its state.
- **The SSL rename collision check looks at socket entries, not names.** The refusal it sends says "A client with that name already exists!" (SSLServer.java:423). But the test at SSLServer.java:393 looks for the requested name among the values of `connections`. Those values are the "host/port" key of every client that has not renamed (SSLServer.java:357) and the new name of every client that has (SSLServer.java:400). The name a client gave in its connect frame (SSLServer.java:355) is not among them, so another client may rename to it. The model follows the code (`SslServer.RenameMissesConnectedName`).

Several inputs are parameters of the operations rather than computed:

- the outcome of every socket read and write;
- the local MAC address, the random default name, and whether binding a port succeeds;
- the iteration order of every hash map or set;
- the result of Base64 and Java serialization.

## Model

| member | source | states |
|---|---|---|
| DataFixer.Positive | src/main/java/ml/karmaconfigs/remote/messaging/util/message/DataFixer.java:12-16 | the reference filter: never longer than its input, and every byte it keeps has a positive signed value, so lies in 1..127 |
| DataFixer.PositiveAppend | src/main/java/ml/karmaconfigs/remote/messaging/util/message/DataFixer.java:12-16 | filtering distributes over concatenation, so kept bytes stay in their original order |
| DataFixer.PositiveCounts | src/main/java/ml/karmaconfigs/remote/messaging/util/message/DataFixer.java:12-16 | every positive byte survives as often as it occurs; zero and negative bytes never survive |
| DataFixer.PositiveOfClean | src/main/java/ml/karmaconfigs/remote/messaging/util/message/DataFixer.java:12-21 | an input with no zero or negative byte is returned unchanged |
| DataFixer.PositiveIdempotent | src/main/java/ml/karmaconfigs/remote/messaging/util/message/DataFixer.java:9-24 | fixing twice is fixing once |
| DataFixer.FixByteData | src/main/java/ml/karmaconfigs/remote/messaging/util/message/DataFixer.java:9-24 | the collecting loop and the copying loop produce exactly the filtered bytes of the input |
| DataFixer.FixBuffer | src/main/java/ml/karmaconfigs/remote/messaging/util/message/DataFixer.java:26-29 | the whole backing array is filtered whatever the buffer's position and limit; the new buffer starts at 0 and ends at its length |
| JavaIo.Signed | src/main/java/ml/karmaconfigs/remote/messaging/util/message/DataFixer.java:13 | the signed value of an octet lies in -128..127 and agrees with the octet modulo 256 |
| JavaIo.Utf16RoundTrip | src/main/java/ml/karmaconfigs/remote/messaging/worker/tcp/TCPClient.java:148-151 | a string turned into its UTF-16 units, as `writeUTF` sees it, and paired back gives the same string |
| JavaIo.UnitsRoundTrip | src/main/java/ml/karmaconfigs/remote/messaging/worker/tcp/TCPServer.java:145-150 | the modified UTF-8 decoder of `readUTF` undoes the encoder of `writeUTF` for every sequence of UTF-16 units |
| JavaIo.DecodeUnitFirst | src/main/java/ml/karmaconfigs/remote/messaging/worker/tcp/TCPServer.java:145 | decoding the bytes of one unit in front of other bytes yields that unit first |
| JavaIo.AsciiUTF | src/main/java/ml/karmaconfigs/remote/messaging/worker/tcp/TCPClient.java:148-151 | `writeUTF` of an ASCII text shorter than 256 characters is a zero byte, the length byte and one byte per character |
| JavaIo.AsciiEncodes | src/main/java/ml/karmaconfigs/remote/messaging/worker/tcp/TCPClient.java:150-151 | modified UTF-8 writes each character of an ASCII text as the one byte of its code |
| JavaIo.Unsigned32 | src/main/java/ml/karmaconfigs/remote/messaging/worker/tcp/TCPClient.java:367 | the two's-complement reading of a Java `int` lies in 0..2^32-1 and agrees with it modulo 2^32 |
| JavaIo.EncodeInt | src/main/java/ml/karmaconfigs/remote/messaging/worker/tcp/TCPClient.java:367 | `writeInt` appends exactly four bytes |
| JavaIo.ReadBooleanAfterWrite | src/main/java/ml/karmaconfigs/remote/messaging/worker/tcp/TCPServer.java:148 | reading the byte of `writeBoolean(b)` yields b and moves one byte on |
| JavaIo.ReadIntAfterWrite | src/main/java/ml/karmaconfigs/remote/messaging/worker/tcp/TCPServer.java:289 | reading the four bytes of `writeInt(v)` yields v and moves four bytes on |
| JavaIo.ReadUTFAfterWrite | src/main/java/ml/karmaconfigs/remote/messaging/worker/tcp/TCPServer.java:145 | reading the bytes of `writeUTF(s)`, wherever they sit in the input, yields s and moves past them |
| JavaIo.WrittenUTF | src/main/java/ml/karmaconfigs/remote/messaging/worker/tcp/TCPClient.java:148 | the bytes of `writeUTF(s)` are a big-endian count of the bytes after it followed by a body that decodes to s |
| JavaIo.ReadUTFIn | src/main/java/ml/karmaconfigs/remote/messaging/worker/tcp/TCPServer.java:145 | `readUTF` at a well-formed field yields its text and stops right after it, whatever precedes and follows |
| JavaIo.ReadUTFAt | src/main/java/ml/karmaconfigs/remote/messaging/worker/tcp/TCPServer.java:149-150 | `readUTF` at the start of a well-formed field inside a buffer yields its text and stops at the field's end |
| JavaIo.ByteArrayDataOutput.constructor | src/main/java/ml/karmaconfigs/remote/messaging/worker/tcp/TCPClient.java:147 | `newDataOutput()` starts with no bytes |
| JavaIo.ByteArrayDataOutput.WriteUTF | src/main/java/ml/karmaconfigs/remote/messaging/worker/tcp/TCPClient.java:148 | succeeds exactly when the text's count fits in two bytes; then its encoding is appended, otherwise nothing is written |
| JavaIo.ByteArrayDataOutput.WriteBoolean | src/main/java/ml/karmaconfigs/remote/messaging/worker/tcp/TCPClient.java:149 | appends the one byte of the boolean |
| JavaIo.ByteArrayDataOutput.WriteInt | src/main/java/ml/karmaconfigs/remote/messaging/worker/tcp/TCPClient.java:367 | appends the four big-endian bytes of the int |
| JavaIo.ByteArrayDataOutput.Write | src/main/java/ml/karmaconfigs/remote/messaging/worker/tcp/TCPClient.java:368 | appends the given bytes as they are |
| JavaIo.EncodeUTF | src/main/java/ml/karmaconfigs/remote/messaging/worker/tcp/TCPClient.java:148-151 | no contract; `writeUTF`, whose round trip ReadUTFAfterWrite and layout WrittenUTF state |
| JavaIo.ReadUTF | src/main/java/ml/karmaconfigs/remote/messaging/worker/tcp/TCPServer.java:145-150 | no contract; `readUTF`, which ReadUTFAfterWrite and ReadUTFIn state |
| JavaIo.ReadBoolean | src/main/java/ml/karmaconfigs/remote/messaging/worker/tcp/TCPServer.java:148 | no contract; `readBoolean`, which ReadBooleanAfterWrite states |
| JavaIo.ReadInt | src/main/java/ml/karmaconfigs/remote/messaging/worker/tcp/TCPServer.java:289 | no contract; `readInt`, which ReadIntAfterWrite states |
| JavaIo.DecodeUnits | src/main/java/ml/karmaconfigs/remote/messaging/worker/tcp/TCPServer.java:145 | no contract; the modified UTF-8 decoder inside `readUTF`, which UnitsRoundTrip and DecodeUnitFirst state |
| JavaIo.EncodeBoolean | src/main/java/ml/karmaconfigs/remote/messaging/worker/tcp/TCPClient.java:149 | no contract; the byte of `writeBoolean`, which ReadBooleanAfterWrite reads back |
| JavaIo.ToUtf16 | src/main/java/ml/karmaconfigs/remote/messaging/worker/tcp/TCPClient.java:148 | no contract; the UTF-16 units of a Java string, which Utf16RoundTrip states |
| JavaIo.FromUtf16 | src/main/java/ml/karmaconfigs/remote/messaging/worker/tcp/TCPServer.java:145 | no contract; pairing UTF-16 units back into a string, which Utf16RoundTrip states |
| JavaIo.EncodeUnits | src/main/java/ml/karmaconfigs/remote/messaging/worker/tcp/TCPClient.java:148 | the modified UTF-8 encoder inside `writeUTF`; UnitsRoundTrip states that DecodeUnits undoes it |
| JavaIo.DecodeModified | src/main/java/ml/karmaconfigs/remote/messaging/worker/tcp/TCPServer.java:145 | no contract; the text of a modified UTF-8 body, which ReadUTFAfterWrite and ReadUTFIn state |
| JavaLang.LowerChar | src/main/java/ml/karmaconfigs/remote/messaging/worker/tcp/TCPServer.java:152 | only 'A'..'Z' and the Kelvin sign lower-case to a different ASCII letter; 'A'..'Z' move up by 32 |
| JavaLang.Lower | src/main/java/ml/karmaconfigs/remote/messaging/worker/tcp/TCPServer.java:152 | keeps the length and maps each character through LowerChar, which lower-cases only 'A'..'Z' and the Kelvin sign; the narrower character set is listed under Left out |
| JavaLang.LowerOfLowerWord | src/main/java/ml/karmaconfigs/remote/messaging/worker/tcp/TCPServer.java:152-153 | a lower-case ASCII keyword is its own lower case, so it selects its own `case` |
| JavaLang.EqualsIgnoreCaseSpec | src/main/java/ml/karmaconfigs/remote/messaging/worker/tcp/TCPClient.java:163 | matching a keyword without the letter k ignoring case holds exactly when the lengths agree and each character is the keyword's or its ASCII upper case |
| JavaLang.Pieces | src/main/java/ml/karmaconfigs/remote/messaging/worker/ssl/SSLClient.java:395 | the text between commas: at least one piece, none containing a comma |
| JavaLang.JoinPieces | src/main/java/ml/karmaconfigs/remote/messaging/worker/ssl/SSLClient.java:395 | joining the pieces with commas gives the text back |
| JavaLang.DropTrailingEmpty | src/main/java/ml/karmaconfigs/remote/messaging/worker/ssl/SSLClient.java:395 | keeps a prefix of the pieces that does not end in an empty piece and drops only empty pieces |
| JavaLang.SplitComma | src/main/java/ml/karmaconfigs/remote/messaging/worker/ssl/SSLClient.java:395 | `split(",")` of a text without a comma is that text alone, and no piece contains a comma |
| JavaLang.Decimal | src/main/java/ml/karmaconfigs/remote/messaging/worker/tcp/TCPServer.java:142 | the decimal form of a port is a non-empty string of digits |
| JavaLang.DecimalRoundTrip | src/main/java/ml/karmaconfigs/remote/messaging/worker/tcp/TCPServer.java:142 | the decimal digits of a number read back as that number |
| JavaLang.DecimalInjective | src/main/java/ml/karmaconfigs/remote/messaging/worker/tcp/TCPServer.java:142 | two numbers with the same decimal form are equal |
| JavaLang.EqualsIgnoreCase | src/main/java/ml/karmaconfigs/remote/messaging/worker/tcp/TCPClient.java:163 | no contract; `equalsIgnoreCase`, which EqualsIgnoreCaseSpec states |
| MergeTypes.GetIdInjective | src/main/java/ml/karmaconfigs/remote/messaging/util/message/type/MergeType.java:12-24 | the ids -1, 0, 1 and 2 are pairwise distinct and lie in -1..2 |
| MergeTypes.FromName | src/main/java/ml/karmaconfigs/remote/messaging/util/message/type/MergeType.java:55-70 | "difference", "diff" and "d" give DIFFERENCE, "replace" and "r" REPLACE, "add" and "a" REPLACE_OR_ADD, each in both directions after lower-casing; every other name fails with "Unknown merge type: " and the name, so NONE is never returned |
| MergeTypes.FromNameIgnoresCase | src/main/java/ml/karmaconfigs/remote/messaging/util/message/type/MergeType.java:56 | names with the same lower case give the same answer |
| MergeTypes.NameRoundTrip | src/main/java/ml/karmaconfigs/remote/messaging/util/message/type/MergeType.java:55-70 | `fromName(m.name())` gives m back for DIFFERENCE and REPLACE and fails for NONE and REPLACE_OR_ADD |
| MergeTypes.NoneRefused | src/main/java/ml/karmaconfigs/remote/messaging/util/message/type/MergeType.java:67-68 | "NONE" is refused |
| MergeTypes.ReplaceOrAddRefused | src/main/java/ml/karmaconfigs/remote/messaging/util/message/type/MergeType.java:64-68 | "REPLACE_OR_ADD" is refused |
| MergeTypes.FourLettersRefused | src/main/java/ml/karmaconfigs/remote/messaging/util/message/type/MergeType.java:56-68 | a four-letter name not starting with d (in any case) is refused |
| MergeTypes.LongNameRefused | src/main/java/ml/karmaconfigs/remote/messaging/util/message/type/MergeType.java:56-68 | a name longer than ten letters is refused |
| MergeTypes.GetId | src/main/java/ml/karmaconfigs/remote/messaging/util/message/type/MergeType.java:12-47 | no contract; the declared id of each constant, which GetIdInjective states |
| MergeTypes.Name | src/main/java/ml/karmaconfigs/remote/messaging/util/message/type/MergeType.java:12-24 | no contract; the identifier of each constant, whose round trip through `fromName` NameRoundTrip states |
| Message.Payload.Keys | src/main/java/ml/karmaconfigs/remote/messaging/util/message/MessageDataOutput.java:185-203 | `getKeys(type)` holds exactly the keys under which `get` finds a value in that namespace |
| Message.GetAfterPut | src/main/java/ml/karmaconfigs/remote/messaging/util/message/MessageDataOutput.java:124-147 | after `unsafeWrite(k, v, t)` the entry (t, k) reads back v when v is of t's kind, and every other (namespace, key) entry reads as before; a value of the wrong kind changes nothing |
| Message.LastWriteWins | src/main/java/ml/karmaconfigs/remote/messaging/util/message/MessageDataOutput.java:57-114 | writing the same (namespace, key) twice keeps only the second value |
| Message.GetAfterRemove | src/main/java/ml/karmaconfigs/remote/messaging/util/message/MessageDataOutput.java:156-176 | `remove(k, t)` deletes k from t, and from NUMBER as well when t is BOOLEAN; every other entry stays |
| Message.GetStringSpec | src/main/java/ml/karmaconfigs/remote/messaging/util/message/MessageInput.java:75-88 | `getString` gives the text value when there is one; otherwise the serializable value exactly when it is a String; otherwise nothing |
| Message.WriteInvisibleElsewhere | src/main/java/ml/karmaconfigs/remote/messaging/util/message/MessageDataInput.java:42-99 | a key written into one namespace is not seen by the getter of any other namespace |
| Message.DifferenceLaw | src/main/java/ml/karmaconfigs/remote/messaging/util/message/MessageDataOutput.java:318-328 | under DIFFERENCE a local entry is never overwritten and an entry missing locally takes the affiliate's value |
| Message.ReplaceLaw | src/main/java/ml/karmaconfigs/remote/messaging/util/message/MessageDataOutput.java:307-317 | under REPLACE only keys present on both sides change, to the affiliate's value, and the key set of each namespace stays the same |
| Message.ReplaceKeys | src/main/java/ml/karmaconfigs/remote/messaging/util/message/MessageDataOutput.java:307-317 | REPLACE adds no key to a namespace and removes none |
| Message.ReplaceGet | src/main/java/ml/karmaconfigs/remote/messaging/util/message/MessageDataOutput.java:307-317 | REPLACE on one key of one namespace takes the affiliate's value exactly where both sides hold the key |
| Message.ReplaceMap | src/main/java/ml/karmaconfigs/remote/messaging/util/message/MessageDataOutput.java:311-313 | REPLACE on one key of one map: present exactly where it was, with the affiliate's value where both have it |
| Message.OtherModesKeep | src/main/java/ml/karmaconfigs/remote/messaging/util/message/MessageDataOutput.java:329-331 | NONE and REPLACE_OR_ADD, which reaches the default branch, leave all six namespaces unchanged |
| Message.MergeIdempotent | src/main/java/ml/karmaconfigs/remote/messaging/util/message/MessageDataOutput.java:300-333 | merging again against the same affiliate changes nothing further |
| Message.PayloadExtensional | src/main/java/ml/karmaconfigs/remote/messaging/util/message/MessageDataOutput.java:225-291 | two outputs whose `get` agrees on every namespace and key hold the same six maps |
| Message.SelfMergeKeeps | src/main/java/ml/karmaconfigs/remote/messaging/util/message/MessageDataOutput.java:300-333 | an output merged with its own contents stays as it is under every mode |
| Message.MergeKindsStep | src/main/java/ml/karmaconfigs/remote/messaging/util/message/MessageDataOutput.java:308 | the loop over `DataType.values()` merges each type's namespace after those before it |
| Message.MergeKindsAll | src/main/java/ml/karmaconfigs/remote/messaging/util/message/MessageDataOutput.java:304-315 | handling all six types in `values()` order is the whole merge |
| Message.MergeInto | src/main/java/ml/karmaconfigs/remote/messaging/util/message/MessageDataOutput.java:309-314 | the `forEach` over one namespace's affiliate keys, each written when it is present locally (REPLACE) or absent (DIFFERENCE), gives exactly that namespace's merge |
| Message.MergeOneKey | src/main/java/ml/karmaconfigs/remote/messaging/util/message/MessageDataOutput.java:311-312 | one more affiliate key is taken exactly when the mode's `contains` test on the map built so far passes, and that test sees the local key set |
| Message.MessageDataOutput.constructor | src/main/java/ml/karmaconfigs/remote/messaging/util/message/MessageOutput.java:38-41 | a new output has six empty namespaces, merge type NONE and no affiliate |
| Message.MessageDataOutput.WithAffiliate | src/main/java/ml/karmaconfigs/remote/messaging/util/message/MessageOutput.java:49-52 | the affiliate and merge type are kept exactly as given, a null affiliate included |
| Message.MessageDataOutput.FromCompiled | src/main/java/ml/karmaconfigs/remote/messaging/util/message/MessageOutput.java:60-64 | the merge type given is kept and only the affiliate, a new object, comes from decoding |
| Message.MessageDataOutput.Decoded | src/main/java/ml/karmaconfigs/remote/messaging/util/message/MessageOutput.java:62 | the decoded output holds exactly the encoded contents |
| Message.MessageDataOutput.WriteSerializable | src/main/java/ml/karmaconfigs/remote/messaging/util/message/MessageDataOutput.java:57-59 | stores the object in the serializable namespace and changes nothing else |
| Message.MessageDataOutput.WriteSequence | src/main/java/ml/karmaconfigs/remote/messaging/util/message/MessageDataOutput.java:68-70 | stores the text in the text namespace and changes nothing else |
| Message.MessageDataOutput.WriteBoolean | src/main/java/ml/karmaconfigs/remote/messaging/util/message/MessageDataOutput.java:79-81 | stores the flag in the boolean namespace and changes nothing else |
| Message.MessageDataOutput.WriteNumber | src/main/java/ml/karmaconfigs/remote/messaging/util/message/MessageDataOutput.java:90-92 | stores the number in the number namespace and changes nothing else |
| Message.MessageDataOutput.WriteCharacters | src/main/java/ml/karmaconfigs/remote/messaging/util/message/MessageDataOutput.java:101-103 | stores the characters in the `char[]` namespace and changes nothing else |
| Message.MessageDataOutput.WriteBytes | src/main/java/ml/karmaconfigs/remote/messaging/util/message/MessageDataOutput.java:112-114 | stores the bytes in the `byte[]` namespace and changes nothing else |
| Message.MessageDataOutput.UnsafeWrite | src/main/java/ml/karmaconfigs/remote/messaging/util/message/MessageDataOutput.java:124-147 | stores into the namespace named by the type, and changes nothing when the value is not of its kind |
| Message.MessageDataOutput.Remove | src/main/java/ml/karmaconfigs/remote/messaging/util/message/MessageDataOutput.java:156-176 | removes the key from its namespace, and from NUMBER too for BOOLEAN |
| Message.MessageDataOutput.Contains | src/main/java/ml/karmaconfigs/remote/messaging/util/message/MessageDataOutput.java:215-218 | `contains` holds exactly when the key is in `getKeys` of that type |
| Message.MessageDataOutput.MergeAffiliate | src/main/java/ml/karmaconfigs/remote/messaging/util/message/MessageDataOutput.java:301-333 | without an affiliate nothing changes; with one, the namespaces become the merge of the old ones with the affiliate's under the merge type |
| Message.MessageDataOutput.MergeAll | src/main/java/ml/karmaconfigs/remote/messaging/util/message/MessageDataOutput.java:304-317 | the loop over the six types leaves the merge of the namespaces under REPLACE or DIFFERENCE |
| Message.MessageDataOutput.MergeNamespace | src/main/java/ml/karmaconfigs/remote/messaging/util/message/MessageDataOutput.java:309-314 | one pass of that loop merges the namespace of its type and leaves the other five |
| Message.MessageDataOutput.Compile | src/main/java/ml/karmaconfigs/remote/messaging/util/message/MessageDataOutput.java:300-336 | the merge step of `compile`, after which the compiled form holds the merged namespaces |
| Message.MessageDataInput.OfOutput | src/main/java/ml/karmaconfigs/remote/messaging/util/message/MessageDataInput.java:30-33 | the view and its `MessageInput` part both hold the given output itself |
| Message.MessageDataInput.OfBytes | src/main/java/ml/karmaconfigs/remote/messaging/util/message/MessageDataInput.java:19-23 | the superclass and the subclass each decode the bytes into their own, distinct output |
| Message.MessageDataInput.GetSerialized | src/main/java/ml/karmaconfigs/remote/messaging/util/message/MessageDataInput.java:42-44 | reads only the serializable namespace: present exactly when the key is, with its value |
| Message.MessageDataInput.GetSequence | src/main/java/ml/karmaconfigs/remote/messaging/util/message/MessageDataInput.java:53-55 | reads only the text namespace |
| Message.MessageDataInput.GetString | src/main/java/ml/karmaconfigs/remote/messaging/util/message/MessageInput.java:75-88 | a text value under the key takes precedence; else a serializable String; else nothing |
| Message.MessageDataInput.GetBoolean | src/main/java/ml/karmaconfigs/remote/messaging/util/message/MessageDataInput.java:64-66 | true exactly when the boolean namespace holds true for the key; an absent key or false give false |
| Message.MessageDataInput.GetNumber | src/main/java/ml/karmaconfigs/remote/messaging/util/message/MessageDataInput.java:75-77 | reads only the number namespace |
| Message.MessageDataInput.GetCharacters | src/main/java/ml/karmaconfigs/remote/messaging/util/message/MessageDataInput.java:86-88 | reads only the `char[]` namespace |
| Message.MessageDataInput.GetBytes | src/main/java/ml/karmaconfigs/remote/messaging/util/message/MessageDataInput.java:97-99 | reads only the `byte[]` namespace |
| Message.ViewSeesLaterWrites | src/main/java/ml/karmaconfigs/remote/messaging/util/message/MessageDataInput.java:30-33 | a view built over an output sees text written to that output afterwards, because it shares the instance |
| Message.Merged | src/main/java/ml/karmaconfigs/remote/messaging/util/message/MessageDataOutput.java:300-333 | no contract; all six namespaces merged, which MergeIdempotent and SelfMergeKeeps state |
| Message.Put | src/main/java/ml/karmaconfigs/remote/messaging/util/message/MessageDataOutput.java:124-147 | no contract; the namespace store of unsafeWrite, which MessageDataOutput.UnsafeWrite states |
| Message.Payload.Get | src/main/java/ml/karmaconfigs/remote/messaging/util/message/MessageDataOutput.java:233-291 | no contract; the lookup of `get(key, type)` in the namespace of the type, which GetAfterPut, GetAfterRemove, WriteInvisibleElsewhere and PayloadExtensional state |
| Message.Payload.Remove | src/main/java/ml/karmaconfigs/remote/messaging/util/message/MessageDataOutput.java:156-176 | no contract; the deletion of `remove(key, type)`, which GetAfterRemove states |
| Message.Payload.GetString | src/main/java/ml/karmaconfigs/remote/messaging/util/message/MessageInput.java:75-88 | no contract; the text-then-serializable lookup of `getString`, which GetStringSpec states |
| Message.Payload.GetBoolean | src/main/java/ml/karmaconfigs/remote/messaging/util/message/MessageDataInput.java:64-66 | no contract; `Boolean.TRUE.equals` of the boolean lookup, which MessageDataInput.GetBoolean states |
| Message.Payload.GetSerialized | src/main/java/ml/karmaconfigs/remote/messaging/util/message/MessageDataInput.java:42-44 | no contract; the serializable lookup, which MessageDataInput.GetSerialized states |
| Message.Payload.GetSequence | src/main/java/ml/karmaconfigs/remote/messaging/util/message/MessageDataInput.java:53-55 | no contract; the text lookup, which MessageDataInput.GetSequence states |
| Message.Payload.GetNumber | src/main/java/ml/karmaconfigs/remote/messaging/util/message/MessageDataInput.java:75-77 | no contract; the number lookup, which MessageDataInput.GetNumber states |
| Message.Payload.GetCharacters | src/main/java/ml/karmaconfigs/remote/messaging/util/message/MessageDataInput.java:86-88 | no contract; the `char[]` lookup, which MessageDataInput.GetCharacters states |
| Message.Payload.GetBytes | src/main/java/ml/karmaconfigs/remote/messaging/util/message/MessageDataInput.java:97-99 | no contract; the `byte[]` lookup, which MessageDataInput.GetBytes states |
| Message.MessageDataOutput.Get | src/main/java/ml/karmaconfigs/remote/messaging/util/message/MessageDataOutput.java:233-291 | no contract; `get(key, type)` on the current contents, which Payload.Get and its lemmas state |
| Message.MessageDataOutput.GetKeys | src/main/java/ml/karmaconfigs/remote/messaging/util/message/MessageDataOutput.java:185-203 | no contract; `getKeys(type)` on the current contents, which Payload.Keys states |
| Message.MessageDataInput.GetOutput | src/main/java/ml/karmaconfigs/remote/messaging/util/message/MessageInput.java:129-131 | no contract; the wrapped output, which MessageDataInput.OfOutput and ViewSeesLaterWrites state |
| Listeners.Ancestors | src/main/java/ml/karmaconfigs/remote/messaging/listener/RemoteListener.java:67 | a class is among its own ancestors, so a handler typed with the event's own class is selected |
| Listeners.MethodAttempts | src/main/java/ml/karmaconfigs/remote/messaging/listener/RemoteListener.java:63-70 | a declared method yields at most one attempt: only a one-parameter method whose type the event's class is assignable from is tried, and it is rejected before its body when it is inaccessible or the event is not an instance of its type |
| Listeners.DeliverAppend | src/main/java/ml/karmaconfigs/remote/messaging/listener/RemoteListener.java:58-75 | delivery over two stretches of attempts reaches the second stretch only when the first did not throw |
| Listeners.DeliverOne | src/main/java/ml/karmaconfigs/remote/messaging/listener/RemoteListener.java:68 | one invocation runs its body unless it is rejected (`IllegalAccessException`, `IllegalArgumentException`), and throws when rejected or when its body throws |
| Listeners.DeliverWithoutThrow | src/main/java/ml/karmaconfigs/remote/messaging/listener/RemoteListener.java:58-75 | without an exception every selected method of every listener runs, in order, and nothing is reported |
| Listeners.DeliverStopsAtFirstThrow | src/main/java/ml/karmaconfigs/remote/messaging/listener/RemoteListener.java:58-75 | the single `try` ends the dispatch at the first exception: exactly the attempts before it ran (and it, if its body ran), and the exception is swallowed |
| Listeners.RanOnlyMutuallyAssignable | src/main/java/ml/karmaconfigs/remote/messaging/listener/RemoteListener.java:64-69 | a method that ran is accessible and has one parameter, whose type the event's class is assignable from and the event is an instance of, so it is the event's own class |
| Listeners.RanMember | src/main/java/ml/karmaconfigs/remote/messaging/listener/RemoteListener.java:58-75 | every invocation that ran comes from an attempt whose body ran |
| Listeners.AttemptOrigin | src/main/java/ml/karmaconfigs/remote/messaging/listener/RemoteListener.java:63-69 | each attempt belongs to the listener and to a declared one-parameter method of the selected type, and runs exactly when that method is accessible and the event is an instance of its type |
| Listeners.DeliverFailsIff | src/main/java/ml/karmaconfigs/remote/messaging/listener/RemoteListener.java:73-75 | the dispatch swallows an exception exactly when some attempt throws |
| Listeners.MethodAttemptsInListener | src/main/java/ml/karmaconfigs/remote/messaging/listener/RemoteListener.java:63 | the attempt of each declared method is among its listener's attempts |
| Listeners.ListenerAttemptsInAll | src/main/java/ml/karmaconfigs/remote/messaging/listener/RemoteListener.java:59 | each listener's attempts are among the attempts of the whole dispatch |
| Listeners.EveryListenerNotified | src/main/java/ml/karmaconfigs/remote/messaging/listener/RemoteListener.java:59-71 | when no handler throws, every listener receives the event on every declared one-parameter method whose type the event's class is assignable from |
| Listeners.DoubleRegistrationDeliversTwice | src/main/java/ml/karmaconfigs/remote/messaging/listener/RemoteListener.java:35-41 | one listener registered under two ids is two entries and, without exceptions, receives each selected event twice |
| Listeners.SupertypeHandlerNeverRuns | src/main/java/ml/karmaconfigs/remote/messaging/listener/RemoteListener.java:67 | a handler typed with the abstract `ServerEvent` never runs for any of the four server events |
| Listeners.RemoteListener.constructor | src/main/java/ml/karmaconfigs/remote/messaging/listener/RemoteListener.java:27 | the static map starts empty |
| Listeners.RemoteListener.Register | src/main/java/ml/karmaconfigs/remote/messaging/listener/RemoteListener.java:35-41 | puts the listener under the random id (replacing whatever was there), returns that id, and leaves the other entries as they were |
| Listeners.RemoteListener.UnRegister | src/main/java/ml/karmaconfigs/remote/messaging/listener/RemoteListener.java:48-50 | removes only the given id; an unknown id changes nothing |
| Listeners.RemoteListener.Dispatch | src/main/java/ml/karmaconfigs/remote/messaging/listener/RemoteListener.java:57-76 | the two nested loops call exactly the invocations of the attempts up to the first exception, over the listeners in the map's iteration order |
| Listeners.RemoteListener.CallServerEvent | src/main/java/ml/karmaconfigs/remote/messaging/listener/RemoteListener.java:57-76 | the shared dispatch, with no filtering of listeners by side |
| Listeners.RemoteListener.CallClientEvent | src/main/java/ml/karmaconfigs/remote/messaging/listener/RemoteListener.java:83-102 | the very same dispatch as the server side |
| Listeners.DispatchedDelivers | src/main/java/ml/karmaconfigs/remote/messaging/listener/RemoteListener.java:58-75 | handling the listeners one by one, stopping after one that throws, is the same as one run over all attempts |
| Listeners.DispatchedStops | src/main/java/ml/karmaconfigs/remote/messaging/listener/RemoteListener.java:73 | once some listener prefix has thrown, later listeners are not called |
| Listeners.DispatchedStep | src/main/java/ml/karmaconfigs/remote/messaging/listener/RemoteListener.java:59 | one more listener adds the invocations of its own attempts |
| Listeners.DeliverAll | src/main/java/ml/karmaconfigs/remote/messaging/listener/RemoteListener.java:59-72 | the outer loop over the listeners computes the dispatch |
| Listeners.DeliverToListener | src/main/java/ml/karmaconfigs/remote/messaging/listener/RemoteListener.java:62-71 | the inner loop over one listener's declared methods computes that listener's delivery |
| Listeners.ListenerAttemptsPrefix | src/main/java/ml/karmaconfigs/remote/messaging/listener/RemoteListener.java:63 | the attempts for the first declared methods come first among a listener's attempts |
| Listeners.AllAttemptsPrefix | src/main/java/ml/karmaconfigs/remote/messaging/listener/RemoteListener.java:59 | the attempts for the first listeners come first among all attempts |
| Listeners.AllAttemptsStep | src/main/java/ml/karmaconfigs/remote/messaging/listener/RemoteListener.java:59 | one more listener appends its attempts to those before it |
| Listeners.DeliverPrefixThrows | src/main/java/ml/karmaconfigs/remote/messaging/listener/RemoteListener.java:58-75 | after a prefix of attempts that throws, the rest are never reached |
| Listeners.Deliver | src/main/java/ml/karmaconfigs/remote/messaging/listener/RemoteListener.java:58-75 | no contract; the single try around both loops, which DeliverStopsAtFirstThrow, DeliverWithoutThrow and DeliverFailsIff state |
| Listeners.AllAttempts | src/main/java/ml/karmaconfigs/remote/messaging/listener/RemoteListener.java:59-71 | no contract; the attempts of every listener in iteration order, which AllAttemptsPrefix and ListenerAttemptsInAll state |
| Listeners.TryMethod | src/main/java/ml/karmaconfigs/remote/messaging/listener/RemoteListener.java:64-69 | one turn of the inner loop reports that the method's body ran and whether the call threw, exactly as that method's attempt delivers |
| Listeners.DeliverNextMethod | src/main/java/ml/karmaconfigs/remote/messaging/listener/RemoteListener.java:63-69 | after declared methods that did not throw, one more method adds the delivery of its own attempt |
| Listeners.ClientSupertypeHandlerNeverRuns | src/main/java/ml/karmaconfigs/remote/messaging/listener/RemoteListener.java:67 | a handler typed with the abstract `ClientEvent` never runs for any of the three client events, the disconnect event included |
| Remote.DefaultName | src/main/java/ml/karmaconfigs/remote/messaging/worker/tcp/TCPServer.java:142 | a client is filed under its host, a slash, then the port in decimal |
| Remote.SelectedNext | src/main/java/ml/karmaconfigs/remote/messaging/worker/ssl/SSLServer.java:859-870 | one more turn of a selection loop that has not thrown skips the next client, throws on it, or picks it, as the loop's test says |
| Remote.SelectedArePicked | src/main/java/ml/karmaconfigs/remote/messaging/worker/ssl/SSLServer.java:859-870 | every client a selection loop writes to is one in the iteration order that its test picked |
| Remote.SelectedStop | src/main/java/ml/karmaconfigs/remote/messaging/worker/ssl/SSLServer.java:859-870 | once the loop has thrown, the clients after that point are not visited |
| Remote.SelectedExtends | src/main/java/ml/karmaconfigs/remote/messaging/worker/ssl/SSLServer.java:859-870 | a longer loop keeps what a shorter one picked, in front, and a throw stays a throw |
| Remote.InOrder | src/main/java/ml/karmaconfigs/remote/messaging/worker/ssl/SSLServer.java:798 | the clients of the iteration order, one per entry and in that order |
| Remote.SelectedEveryone | src/main/java/ml/karmaconfigs/remote/messaging/worker/ssl/SSLServer.java:798-800 | broadcast visits every client in iteration order and never throws |
| Remote.SelectedWithoutThrow | src/main/java/ml/karmaconfigs/remote/messaging/worker/ssl/SSLServer.java:882-893 | a loop whose test never throws does not throw, and picks a client exactly when it is in the map and its test accepts it |
| Remote.RoutedFields | src/main/java/ml/karmaconfigs/remote/messaging/worker/ssl/remote/SSLRemoteClient.java:104-108 | the frame always carries text MAC equal to the handle's MAC and COMMAND_ENABLED false, even when the payload set them; every other entry is the payload's |
| Remote.StampMergedIsRouted | src/main/java/ml/karmaconfigs/remote/messaging/worker/ssl/remote/SSLRemoteClient.java:104-108 | merging the payload as DIFFERENCE affiliate under the two local writes gives the routed frame |
| Remote.StampHolds | src/main/java/ml/karmaconfigs/remote/messaging/worker/ssl/remote/SSLRemoteClient.java:105-106 | the two local writes hold the two routing fields and nothing else |
| Remote.MergedDifference | src/main/java/ml/karmaconfigs/remote/messaging/util/message/MessageDataOutput.java:318-328 | DIFFERENCE on all six namespaces, written out per namespace |
| Remote.MergeDifferenceOver | src/main/java/ml/karmaconfigs/remote/messaging/util/message/MessageDataOutput.java:318-328 | one namespace merged under DIFFERENCE is the affiliate's entries overridden by the local ones |
| Remote.CompileRouted | src/main/java/ml/karmaconfigs/remote/messaging/worker/ssl/remote/SSLRemoteClient.java:104-108 | with a MAC the compiled frame is the routed payload (the bare stamp for a null affiliate); a null MAC makes the write throw and nothing is compiled |
| Remote.SslRemoteClient.constructor | src/main/java/ml/karmaconfigs/remote/messaging/worker/ssl/remote/SSLRemoteClient.java:47-53 | the handle keeps the name, MAC, host, port and socket it was given |
| Remote.SslRemoteClient.SendMessage | src/main/java/ml/karmaconfigs/remote/messaging/worker/ssl/remote/SSLRemoteClient.java:101-116 | true exactly when there is a MAC and the stream write succeeds; then the routed frame of the message (the bare stamp for a null one) is written with no line terminator, otherwise nothing |
| Remote.SslRemoteServer.constructor | src/main/java/ml/karmaconfigs/remote/messaging/worker/ssl/remote/SSLRemoteServer.java:45-50 | the handle keeps the MAC, host, port and socket it was given |
| Remote.SslRemoteServer.SendMessage | src/main/java/ml/karmaconfigs/remote/messaging/worker/ssl/remote/SSLRemoteServer.java:88-104 | true exactly when the bytes decode, there is a MAC and the write succeeds; then the routing fields override those of the decoded message and the frame is printed as one line |
| Remote.Utfs | src/main/java/ml/karmaconfigs/remote/messaging/worker/tcp/TCPServer.java:205-210 | the `writeUTF` of no texts is empty |
| Remote.CommandFrame | src/main/java/ml/karmaconfigs/remote/messaging/worker/tcp/TCPServer.java:205-210 | defined exactly when the MAC and every text fit `writeUTF`, and then is the MAC's encoding, a true byte and the texts' encodings |
| Remote.UtfsPair | src/main/java/ml/karmaconfigs/remote/messaging/worker/tcp/TCPClient.java:150-151 | two texts written in turn are their two encodings, one after the other |
| Remote.ControlFrame | src/main/java/ml/karmaconfigs/remote/messaging/worker/tcp/TCPClient.java:147-151 | defined exactly when the MAC, the command and the argument fit `writeUTF`, and then is their encodings around a true byte |
| Remote.ControlFrameFields | src/main/java/ml/karmaconfigs/remote/messaging/worker/tcp/TCPServer.java:144-150 | a buffer that starts with a control frame holds the MAC's encoding, the true byte, the command's encoding and the argument's encoding at the positions the server reads them |
| Remote.ControlFrameAt | src/main/java/ml/karmaconfigs/remote/messaging/worker/tcp/TCPServer.java:144-150 | such a buffer holds readable fields with the MAC, the command and the argument, the last one ending the frame |
| Remote.FieldAt | src/main/java/ml/karmaconfigs/remote/messaging/worker/tcp/TCPServer.java:145 | the bytes of `writeUTF(t)` at a position of a buffer make a field there that reads as t |
| Remote.FieldBytes | src/main/java/ml/karmaconfigs/remote/messaging/worker/tcp/TCPServer.java:145 | a field at a position is its two-byte length header followed by its body |
| Remote.DataHeader | src/main/java/ml/karmaconfigs/remote/messaging/worker/tcp/remote/TCPRemoteClient.java:106-109 | the header of a data frame exists exactly when the MAC fits `writeUTF` |
| Remote.DataFrame | src/main/java/ml/karmaconfigs/remote/messaging/worker/tcp/remote/TCPRemoteClient.java:106-110 | a data frame exists exactly when the MAC fits, and is its header followed by the message bytes |
| Remote.DataFrameLayout | src/main/java/ml/karmaconfigs/remote/messaging/worker/tcp/remote/TCPRemoteClient.java:107-110 | the frame is the MAC's encoding, a false byte, the int 2 + (length of the MAC in modified UTF-8) + 1 + 4, then the message |
| Remote.HeaderReads | src/main/java/ml/karmaconfigs/remote/messaging/worker/tcp/TCPServer.java:145-148 | the MAC, the false flag and the int of a header are read back in order |
| Remote.DataFrameReads | src/main/java/ml/karmaconfigs/remote/messaging/worker/tcp/TCPServer.java:288-301 | reading back a data frame, followed by anything at all, gives the MAC, the false flag and an offset equal to the header's length, from which the bytes are the message and then what followed |
| Remote.SendDataFrame | src/main/java/ml/karmaconfigs/remote/messaging/worker/tcp/remote/TCPRemoteClient.java:104-121 | true exactly when the frame exists, fits the 4056-byte buffer and the channel write succeeds, and then the frame is what is written |
| Remote.TcpRemoteClient.constructor | src/main/java/ml/karmaconfigs/remote/messaging/worker/tcp/remote/TCPRemoteClient.java:48-54 | the handle keeps the name, MAC, host, port and channel it was given |
| Remote.TcpRemoteClient.SendMessage | src/main/java/ml/karmaconfigs/remote/messaging/worker/tcp/remote/TCPRemoteClient.java:104-121 | a data frame under the client's MAC, false when it exceeds the 4056-byte buffer or the write fails |
| Remote.TcpRemoteServer.constructor | src/main/java/ml/karmaconfigs/remote/messaging/worker/tcp/remote/TCPRemoteServer.java:45-50 | the handle keeps the MAC, host, port and channel it was given |
| Remote.TcpRemoteServer.SendMessage | src/main/java/ml/karmaconfigs/remote/messaging/worker/tcp/remote/TCPRemoteServer.java:90-106 | a data frame under the server's MAC, false when it exceeds the 4056-byte buffer or the write fails |
| Remote.DefaultNameInjective | src/main/java/ml/karmaconfigs/remote/messaging/worker/ssl/SSLServer.java:317 | for host addresses without a slash, two clients get the same default name only when both host and port agree |
| Remote.SelectedThrows | src/main/java/ml/karmaconfigs/remote/messaging/worker/ssl/SSLServer.java:859-870 | a selection loop throws exactly when its test throws for some client of the iteration order |
| Remote.SelectedIncludes | src/main/java/ml/karmaconfigs/remote/messaging/worker/ssl/SSLServer.java:859-870 | a loop that does not throw picks every client of the iteration order its test accepts |
| Remote.SelectedAll | src/main/java/ml/karmaconfigs/remote/messaging/worker/ssl/SSLServer.java:859-870 | over all the clients, each once, a loop throws exactly when its test throws for some client, picks only accepted clients, and without a throw picks every accepted one |
| Remote.StampIsRoutedEmpty | src/main/java/ml/karmaconfigs/remote/messaging/worker/ssl/remote/SSLRemoteClient.java:104-106 | the bare stamp sent for a null message is the empty message routed under the MAC |
| Remote.Routed | src/main/java/ml/karmaconfigs/remote/messaging/worker/ssl/remote/SSLRemoteClient.java:104-108 | no contract; the reference definition of a routed frame, which RoutedFields and StampMergedIsRouted state |
| Remote.Stamp | src/main/java/ml/karmaconfigs/remote/messaging/worker/ssl/remote/SSLRemoteClient.java:105-106 | no contract; the two local writes, which StampHolds states |
| Remote.Selected | src/main/java/ml/karmaconfigs/remote/messaging/worker/ssl/SSLServer.java:859-870 | no contract; the clients a loop writes to and whether it threw, which SelectedAll, SelectedThrows and SelectedArePicked state |
| Remote.Verdict | src/main/java/ml/karmaconfigs/remote/messaging/worker/ssl/SSLServer.java:860 | no contract; the loop test: the ban test throws on a null MAC, the redirect test throws when the name differs and the MAC is null, the kick and broadcast tests never throw |
| Remote.SslRemoteClient.GetName | src/main/java/ml/karmaconfigs/remote/messaging/worker/ssl/remote/SSLRemoteClient.java:61-63 | no contract; returns the name the constructor stores |
| Remote.SslRemoteClient.GetMAC | src/main/java/ml/karmaconfigs/remote/messaging/worker/ssl/remote/SSLRemoteClient.java:71-73 | no contract; returns the MAC the constructor stores |
| Remote.SslRemoteClient.GetHost | src/main/java/ml/karmaconfigs/remote/messaging/worker/ssl/remote/SSLRemoteClient.java:81-83 | no contract; returns the host the constructor stores |
| Remote.SslRemoteClient.GetPort | src/main/java/ml/karmaconfigs/remote/messaging/worker/ssl/remote/SSLRemoteClient.java:91-93 | no contract; returns the port the constructor stores |
| Remote.SslRemoteServer.GetHost | src/main/java/ml/karmaconfigs/remote/messaging/worker/ssl/remote/SSLRemoteServer.java:58-60 | no contract; returns the host the constructor stores |
| Remote.SslRemoteServer.GetMAC | src/main/java/ml/karmaconfigs/remote/messaging/worker/ssl/remote/SSLRemoteServer.java:68-70 | no contract; returns the MAC the constructor stores |
| Remote.SslRemoteServer.GetPort | src/main/java/ml/karmaconfigs/remote/messaging/worker/ssl/remote/SSLRemoteServer.java:78-80 | no contract; returns the port the constructor stores |
| Remote.TcpRemoteClient.GetName | src/main/java/ml/karmaconfigs/remote/messaging/worker/tcp/remote/TCPRemoteClient.java:62-64 | no contract; returns the name the constructor stores |
| Remote.TcpRemoteClient.GetMAC | src/main/java/ml/karmaconfigs/remote/messaging/worker/tcp/remote/TCPRemoteClient.java:72-74 | no contract; returns the MAC the constructor stores |
| Remote.TcpRemoteClient.GetHost | src/main/java/ml/karmaconfigs/remote/messaging/worker/tcp/remote/TCPRemoteClient.java:82-84 | no contract; returns the host the constructor stores |
| Remote.TcpRemoteClient.GetPort | src/main/java/ml/karmaconfigs/remote/messaging/worker/tcp/remote/TCPRemoteClient.java:92-94 | no contract; returns the port the constructor stores |
| Remote.TcpRemoteServer.GetHost | src/main/java/ml/karmaconfigs/remote/messaging/worker/tcp/remote/TCPRemoteServer.java:58-60 | no contract; returns the host the constructor stores |
| Remote.TcpRemoteServer.GetMAC | src/main/java/ml/karmaconfigs/remote/messaging/worker/tcp/remote/TCPRemoteServer.java:68-70 | no contract; returns the MAC the constructor stores |
| Remote.TcpRemoteServer.GetPort | src/main/java/ml/karmaconfigs/remote/messaging/worker/tcp/remote/TCPRemoteServer.java:78-80 | no contract; returns the port the constructor stores |
| SslServer.AnswerReads | src/main/java/ml/karmaconfigs/remote/messaging/worker/ssl/SSLServer.java:452-463 | a reply composed with the server MAC, COMMAND_ENABLED = true and command, argument and data texts reads back those exact values through the getters a client uses |
| SslServer.NoticeArrivesAsData | src/main/java/ml/karmaconfigs/remote/messaging/worker/ssl/SSLServer.java:856-871 | a DISCONNECT notice handed to a client's sendMessage arrives under the client's own MAC with COMMAND_ENABLED false, carrying the DISCONNECT command and the notice text as plain data |
| SslServer.ComposeAnswer | src/main/java/ml/karmaconfigs/remote/messaging/worker/ssl/SSLServer.java:405-416 | writing MAC, COMMAND_ENABLED = true, COMMAND, ARGUMENT and ARGUMENT_DATA in order and compiling gives the reply payload with exactly those fields |
| SslServer.ComposeAccept | src/main/java/ml/karmaconfigs/remote/messaging/worker/ssl/SSLServer.java:362-370 | the accept reply carries the server MAC, COMMAND_ENABLED = true and the command accept, and nothing else |
| SslServer.ComposeDecline | src/main/java/ml/karmaconfigs/remote/messaging/worker/ssl/SSLServer.java:375-386 | the decline reply carries the server MAC, COMMAND_ENABLED = true, decline, the argument connect and the reason as COMMAND_ARGUMENT |
| SslServer.ComposeNotice | src/main/java/ml/karmaconfigs/remote/messaging/worker/ssl/SSLServer.java:861-866 | a fresh output holding the DISCONNECT command, argument DISCONNECT and the notice text under the server MAC |
| SslServer.FileClient | src/main/java/ml/karmaconfigs/remote/messaging/worker/ssl/SSLServer.java:915-923 | the handle filed under the address is returned unchanged when there is one; otherwise a new handle named after the address with the frame's MAC is filed there; nothing else changes |
| SslServer.Drop | src/main/java/ml/karmaconfigs/remote/messaging/worker/ssl/SSLServer.java:548-565 | the exception path removes the socket's entry and exactly the clients whose name equals the name that entry held; the other clients, the banned set, the key and the count stay |
| SslServer.SendsAppend | src/main/java/ml/karmaconfigs/remote/messaging/worker/ssl/SSLServer.java:798-800 | one more client visited adds its write after the writes of the earlier ones |
| SslServer.SendsTo | src/main/java/ml/karmaconfigs/remote/messaging/worker/ssl/SSLServer.java:798-800 | every write of a notification loop goes to a visited client that has a MAC and whose socket takes the write, over that socket, carrying the message routed under that MAC |
| SslServer.KickNeverThrows | src/main/java/ml/karmaconfigs/remote/messaging/worker/ssl/SSLServer.java:879-894 | whatever the iteration order, kick never stops on a null MAC, since its test only asks whether the listed MACs contain the client's |
| SslServer.BanKeepsClients | src/main/java/ml/karmaconfigs/remote/messaging/worker/ssl/SSLServer.java:856-871 | ban adds the MACs to the banned set and otherwise leaves clients and socket entries as they were; every write goes to a client whose MAC is banned, without a line terminator, as a non-command frame under that client's MAC |
| SslServer.UnBanStep | src/main/java/ml/karmaconfigs/remote/messaging/worker/ssl/SSLServer.java:901-904 | unBan removes the listed MACs from the banned set and changes nothing else |
| SslServer.BanThenUnBan | src/main/java/ml/karmaconfigs/remote/messaging/worker/ssl/SSLServer.java:856-904 | banning then unbanning the same MACs leaves banned exactly the earlier bans minus those MACs |
| SslServer.BroadcastReachesAll | src/main/java/ml/karmaconfigs/remote/messaging/worker/ssl/SSLServer.java:778-802 | over all the clients in the iteration order, broadcast never stops early, writes in that order, and every client with a MAC whose socket takes the write is sent the data |
| SslServer.Accepted | src/main/java/ml/karmaconfigs/remote/messaging/worker/ssl/SSLServer.java:571-580 | a socket the accept loop takes is recorded under "host/port" and nothing else changes |
| SslServer.Farewells | src/main/java/ml/karmaconfigs/remote/messaging/worker/ssl/SSLServer.java:700-721 | close writes one DISCONNECT line saying the server closed to each open socket, in the iteration order, one per socket |
| SslServer.Closed | src/main/java/ml/karmaconfigs/remote/messaging/worker/ssl/SSLServer.java:700-722 | close stops the server and forgets every socket entry; the client handles, bans and key stay |
| SslServer.MemberAlways | src/main/java/ml/karmaconfigs/remote/messaging/worker/ssl/SSLServer.java:308-318 | for a socket the frame loop visits, the membership test on its designated name always passes |
| SslServer.QueueStaysEmpty | src/main/java/ml/karmaconfigs/remote/messaging/worker/ssl/SSLServer.java:320-324 | when the queue is empty a frame pass leaves it empty, since only the non-empty branch appends to it |
| SslServer.HandleKeepsCount | src/main/java/ml/karmaconfigs/remote/messaging/worker/ssl/SSLServer.java:326-545 | handling one input changes neither the processed count nor the queue |
| SslServer.ProcessedCount | src/main/java/ml/karmaconfigs/remote/messaging/worker/ssl/SSLServer.java:547-549 | a pass either completes and counts one more processed frame, or takes the exception path, counts nothing and leaves the socket without an entry |
| SslServer.ConnectOutcome | src/main/java/ml/karmaconfigs/remote/messaging/worker/ssl/SSLServer.java:335-389 | a connect frame without a MAC takes the exception path; a sender with an unbanned MAC and the right key (or no key on the server) is filed under its address with the name it asked for, its socket under the address, and the connect event fires before accept is written; any other sender hears decline, with the ban text exactly when banned and the key text otherwise, and loses its socket entry |
| SslServer.CommandFrameHandled | src/main/java/ml/karmaconfigs/remote/messaging/worker/ssl/SSLServer.java:320-334 | with an empty queue, a command frame with command and argument goes straight to the switch on the lower-cased command, and a pass that does not throw counts one frame |
| SslServer.RenameOutcome | src/main/java/ml/karmaconfigs/remote/messaging/worker/ssl/SSLServer.java:391-430 | a rename succeeds exactly when no open socket is known under the new name: the handle and the socket entry take the new name, the command event fires, then success is written; otherwise failed is written with the name-taken text and nothing but the sender lookup and the count changes |
| SslServer.DisconnectOutcome | src/main/java/ml/karmaconfigs/remote/messaging/worker/ssl/SSLServer.java:446-469 | a disconnect writes the DISCONNECT command, removes the handle at the sender's address and the socket entry, then fires the disconnect event with the client's argument |
| SslServer.MessageOutcome | src/main/java/ml/karmaconfigs/remote/messaging/worker/ssl/SSLServer.java:510-526 | a plain message is acknowledged with success, message and the sender's name, then handed to the listeners; only the sender lookup and the count change |
| SslServer.RenameMissesConnectedName | src/main/java/ml/karmaconfigs/remote/messaging/worker/ssl/SSLServer.java:391-400 | the collision test looks at socket entries only, so a client can take the name another connected client asked for at connect, and two handles then carry it |
| SslServer.DropTakesNamesakes | src/main/java/ml/karmaconfigs/remote/messaging/worker/ssl/SSLServer.java:549-557 | the exception path removes every handle carrying the socket's name, whatever address it is filed under |
| SslServer.Server.constructor | src/main/java/ml/karmaconfigs/remote/messaging/worker/ssl/SSLServer.java:105-116 | a new server has no clients, no socket entries, no bans, no key, a count of zero, is not running and has an empty queue |
| SslServer.Server.GetClients | src/main/java/ml/karmaconfigs/remote/messaging/worker/ssl/SSLServer.java:682-685 | getClients holds exactly the handles filed in clients |
| SslServer.Server.Println | src/main/java/ml/karmaconfigs/remote/messaging/worker/ssl/SSLServer.java:368-370 | a reply line is appended to the writes and the state stays |
| SslServer.Server.Fire | src/main/java/ml/karmaconfigs/remote/messaging/worker/ssl/SSLServer.java:359-360 | an event is appended to the effects and the state stays |
| SslServer.Server.Start | src/main/java/ml/karmaconfigs/remote/messaging/worker/ssl/SSLServer.java:254-304 | start does nothing and yields None when the server is running; otherwise it yields whether binding succeeded and becomes operative exactly then |
| SslServer.Server.StartWithKey | src/main/java/ml/karmaconfigs/remote/messaging/worker/ssl/SSLServer.java:604-612 | start with a key takes the key and starts only when the server is not running; otherwise nothing changes |
| SslServer.Server.Accept | src/main/java/ml/karmaconfigs/remote/messaging/worker/ssl/SSLServer.java:571-580 | one accept-loop iteration leaves the fields as Accepted says |
| SslServer.Server.DropConnection | src/main/java/ml/karmaconfigs/remote/messaging/worker/ssl/SSLServer.java:548-565 | the exception-path loop over the clients leaves the fields as Drop says |
| SslServer.Server.GetClient | src/main/java/ml/karmaconfigs/remote/messaging/worker/ssl/SSLServer.java:915-923 | the lookup returns the handle and leaves the fields as FileClient says |
| SslServer.Server.Connect | src/main/java/ml/karmaconfigs/remote/messaging/worker/ssl/SSLServer.java:335-389 | the connect case leaves the fields, effects and throw as ConnectStep says |
| SslServer.Server.Rename | src/main/java/ml/karmaconfigs/remote/messaging/worker/ssl/SSLServer.java:391-445 | the rename case, both replies and the not-connected branch included, leaves the fields and effects as RenameStep says |
| SslServer.Server.Disconnect | src/main/java/ml/karmaconfigs/remote/messaging/worker/ssl/SSLServer.java:446-483 | the disconnect case leaves the fields and effects as DisconnectStep says |
| SslServer.Server.Unknown | src/main/java/ml/karmaconfigs/remote/messaging/worker/ssl/SSLServer.java:485-507 | an unknown command fires the command event for a member and writes the not-connected failure otherwise, as UnknownStep says |
| SslServer.Server.Data | src/main/java/ml/karmaconfigs/remote/messaging/worker/ssl/SSLServer.java:510-544 | a plain message is handled as DataStep says |
| SslServer.Server.Handle | src/main/java/ml/karmaconfigs/remote/messaging/worker/ssl/SSLServer.java:326-545 | the sender lookup and the command switch or the message branch leave the fields, effects and throw as HandleStep says |
| SslServer.Server.HandleFrame | src/main/java/ml/karmaconfigs/remote/messaging/worker/ssl/SSLServer.java:308-565 | one pass of the frame loop for an open socket leaves the fields and effects as Frame says, the queue step and the exception path included |
| SslServer.Server.NotifyEach | src/main/java/ml/karmaconfigs/remote/messaging/worker/ssl/SSLServer.java:859-870 | a notification loop of a message (null gives the bare stamp) changes no field and appends exactly the writes Notices gives, stopping where it says |
| SslServer.Server.NotifyLoop | src/main/java/ml/karmaconfigs/remote/messaging/worker/ssl/SSLServer.java:859-870 | the loop over the clients in iteration order appends the writes of the clients the selector picks, in order, and stops at the first one that throws |
| SslServer.Server.SendTo | src/main/java/ml/karmaconfigs/remote/messaging/worker/ssl/SSLServer.java:868 | sendMessage to a picked handle appends its routed write, and nothing when the handle has no MAC or the write to its socket throws, the cases where sendMessage returns false |
| SslServer.Server.Ban | src/main/java/ml/karmaconfigs/remote/messaging/worker/ssl/SSLServer.java:856-871 | ban, looping over every client once, leaves the fields, writes and throw as BanStep says, so BanNotifiesBanned applies |
| SslServer.Server.Kick | src/main/java/ml/karmaconfigs/remote/messaging/worker/ssl/SSLServer.java:879-894 | kick, looping over every client once, changes no field and appends the writes KickStep gives, so KickNotifiesListed applies |
| SslServer.Server.UnBan | src/main/java/ml/karmaconfigs/remote/messaging/worker/ssl/SSLServer.java:901-904 | unBan leaves the fields as UnBanStep says and writes nothing |
| SslServer.Server.Redirect | src/main/java/ml/karmaconfigs/remote/messaging/worker/ssl/SSLServer.java:810-848 | redirect of a message (null gives the bare stamp), looping over every client once, changes no field and appends the writes and throw RedirectStep gives, so RedirectReaches applies |
| SslServer.Server.Broadcast | src/main/java/ml/karmaconfigs/remote/messaging/worker/ssl/SSLServer.java:778-802 | broadcast of a message (null gives the bare stamp), looping over every client once, changes no field and appends the writes BroadcastStep gives, so BroadcastReachesAll applies |
| SslServer.Server.Close | src/main/java/ml/karmaconfigs/remote/messaging/worker/ssl/SSLServer.java:700-729 | close leaves the fields as Closed says and appends the farewell line to each open socket |
| SslServer.SendsReach | src/main/java/ml/karmaconfigs/remote/messaging/worker/ssl/SSLServer.java:798-800 | every visited client with a MAC whose socket takes the write is sent the message routed under that MAC |
| SslServer.NoticesExactly | src/main/java/ml/karmaconfigs/remote/messaging/worker/ssl/SSLServer.java:859-870 | over all the clients, a selection loop throws exactly when its test throws for some client; every write goes to an accepted client with a MAC whose socket takes the write, and without a throw every such client is written to |
| SslServer.BanNotifiesBanned | src/main/java/ml/karmaconfigs/remote/messaging/worker/ssl/SSLServer.java:856-871 | over all the clients, ban throws exactly when some client has no MAC; otherwise every client whose MAC is now banned and whose socket takes the write is sent the ban notice |
| SslServer.KickNotifiesListed | src/main/java/ml/karmaconfigs/remote/messaging/worker/ssl/SSLServer.java:879-894 | over all the clients, kick sends its notice to exactly the clients whose MAC it lists and whose socket takes the write, and to no one else |
| SslServer.RedirectReaches | src/main/java/ml/karmaconfigs/remote/messaging/worker/ssl/SSLServer.java:810-848 | over all the clients, redirect throws exactly when a client not named after the target has no MAC; every write goes to a client whose name or MAC is the target, and without a throw every such client with a MAC whose socket takes the write is written to |
| SslServer.ConnectStep | src/main/java/ml/karmaconfigs/remote/messaging/worker/ssl/SSLServer.java:335-389 | no contract; the connect case, whose outcomes ConnectOutcome states |
| SslServer.RenameStep | src/main/java/ml/karmaconfigs/remote/messaging/worker/ssl/SSLServer.java:391-445 | no contract; the rename case, whose outcomes RenameOutcome and RenameMissesConnectedName state |
| SslServer.DisconnectStep | src/main/java/ml/karmaconfigs/remote/messaging/worker/ssl/SSLServer.java:446-483 | no contract; the disconnect case, whose outcome DisconnectOutcome states |
| SslServer.UnknownStep | src/main/java/ml/karmaconfigs/remote/messaging/worker/ssl/SSLServer.java:485-507 | no contract; the default case: the command event for a member, failed/unknown with the not-connected text otherwise |
| SslServer.DataStep | src/main/java/ml/karmaconfigs/remote/messaging/worker/ssl/SSLServer.java:510-544 | no contract; the message branch, whose outcome MessageOutcome states |
| SslServer.CommandStep | src/main/java/ml/karmaconfigs/remote/messaging/worker/ssl/SSLServer.java:333-334 | no contract; the switch on the lower-cased command, which CommandFrameHandled states is reached |
| SslServer.HandleStep | src/main/java/ml/karmaconfigs/remote/messaging/worker/ssl/SSLServer.java:326-545 | no contract; the sender lookup then the command switch or the message branch; HandleKeepsCount states what it leaves alone |
| SslServer.BanStep | src/main/java/ml/karmaconfigs/remote/messaging/worker/ssl/SSLServer.java:856-871 | no contract; ban, whose properties BanKeepsClients, BanNotifiesBanned and BanThenUnBan state |
| SslServer.KickStep | src/main/java/ml/karmaconfigs/remote/messaging/worker/ssl/SSLServer.java:879-894 | no contract; kick, whose properties KickNeverThrows and KickNotifiesListed state |
| SslServer.RedirectStep | src/main/java/ml/karmaconfigs/remote/messaging/worker/ssl/SSLServer.java:810-848 | no contract; redirect, whose properties RedirectReaches states |
| SslServer.BroadcastStep | src/main/java/ml/karmaconfigs/remote/messaging/worker/ssl/SSLServer.java:778-802 | no contract; broadcast, whose properties BroadcastReachesAll states |
| SslServer.Notices | src/main/java/ml/karmaconfigs/remote/messaging/worker/ssl/SSLServer.java:859-870 | no contract; the writes of a selection loop, which NoticesExactly states |
| SslServer.Sends | src/main/java/ml/karmaconfigs/remote/messaging/worker/ssl/SSLServer.java:798-800 | no contract; the writes to the clients in turn, which SendsTo and SendsReach state |
| SslServer.Frame | src/main/java/ml/karmaconfigs/remote/messaging/worker/ssl/SSLServer.java:308-565 | no contract; one pass of the frame loop, which QueueStaysEmpty, ProcessedCount and CommandFrameHandled state |
| SslServer.ValidKey | src/main/java/ml/karmaconfigs/remote/messaging/worker/ssl/SSLServer.java:337-347 | no contract; the `validKey` flag of the connect case, whose outcomes ConnectOutcome states |
| SslServer.Member | src/main/java/ml/karmaconfigs/remote/messaging/worker/ssl/SSLServer.java:392 | no contract; the `containsValue` membership test, which MemberAlways states always passes |
| SslServer.Sent | src/main/java/ml/karmaconfigs/remote/messaging/worker/ssl/SSLServer.java:866-869 | no contract; the write a selected client gets, which SendsTo and NoticesExactly state |
| SslServer.Accept | src/main/java/ml/karmaconfigs/remote/messaging/worker/ssl/SSLServer.java:362-365 | no contract; the accept reply, which ConnectOutcome states is written to an admitted client |
| SslServer.Decline | src/main/java/ml/karmaconfigs/remote/messaging/worker/ssl/SSLServer.java:375-380 | no contract; the decline reply with its reason, which ConnectOutcome states |
| SslServer.Answer | src/main/java/ml/karmaconfigs/remote/messaging/worker/ssl/SSLServer.java:405-410 | no contract; a command reply, which AnswerReads states reads back field by field |
| SslServer.Notice | src/main/java/ml/karmaconfigs/remote/messaging/worker/ssl/SSLServer.java:861-866 | no contract; the DISCONNECT notice, which NoticeArrivesAsData states |
| SslServer.Line | src/main/java/ml/karmaconfigs/remote/messaging/worker/ssl/SSLServer.java:367-369 | no contract; `println` of a compiled reply, a write ending in a line terminator |
| SslServer.Address | src/main/java/ml/karmaconfigs/remote/messaging/worker/ssl/SSLServer.java:317 | no contract; the address a socket's frames are filed under, which MemberAlways states |
| SslServer.LookedUp | src/main/java/ml/karmaconfigs/remote/messaging/worker/ssl/SSLServer.java:308-318 | no contract; the sender lookup of a frame, which MemberAlways states |
| SslClient.ConnectFrameReads | src/main/java/ml/karmaconfigs/remote/messaging/worker/ssl/SSLClient.java:273-287 | the connect command reads back the client MAC, COMMAND_ENABLED = true, connect and the client's name, and carries ACCESS_KEY exactly when a key is set |
| SslClient.MessageFrameReads | src/main/java/ml/karmaconfigs/remote/messaging/worker/ssl/SSLClient.java:643-648 | a message the client sends carries its own MAC with COMMAND_ENABLED false, and every other entry of the decoded data unchanged |
| SslClient.PrintedAll | src/main/java/ml/karmaconfigs/remote/messaging/worker/ssl/SSLClient.java:350-357 | printing the queued frames writes one line per frame, each frame in its position |
| SslClient.ConnectGuard | src/main/java/ml/karmaconfigs/remote/messaging/worker/ssl/SSLClient.java:197-205 | connect starts the thread exactly when the client is not operative; it then asks to connect and clears disconnecting, and otherwise changes nothing |
| SslClient.HandshakeResends | src/main/java/ml/karmaconfigs/remote/messaging/worker/ssl/SSLClient.java:273-288 | while awarded, not closing and wanting to connect, each pass of the award loop first writes the connect command again, with the key exactly when one is set, and still wants to connect afterwards |
| SslClient.AcceptAnswer | src/main/java/ml/karmaconfigs/remote/messaging/worker/ssl/SSLClient.java:300-318 | an accept with nothing queued records the server's MAC, makes the client operative, clears the award and fires the connect event; with a frame queued the drain throws, the loop ends with the future completed true, and the client never becomes operative |
| SslClient.DeclineTearsDown | src/main/java/ml/karmaconfigs/remote/messaging/worker/ssl/SSLClient.java:259-271 | a refusal sets instant_close and completes the future false; the next pass drops every flag and the socket; the pass after ends the thread having completed the future true |
| SslClient.InstantCloseSticks | src/main/java/ml/karmaconfigs/remote/messaging/worker/ssl/SSLClient.java:197-201 | connect, connect with a key, close and the countdown tick never clear instant_close once set |
| SslClient.InstantCloseSticksOnWrites | src/main/java/ml/karmaconfigs/remote/messaging/worker/ssl/SSLClient.java:610-659 | neither rename nor send clears instant_close |
| SslClient.InstantCloseSticksInThread | src/main/java/ml/karmaconfigs/remote/messaging/worker/ssl/SSLClient.java:204-494 | no part of the connect thread clears instant_close |
| SslClient.ReactionKeepsInstantClose | src/main/java/ml/karmaconfigs/remote/messaging/worker/ssl/SSLClient.java:375-486 | no reaction of the operative loop changes instant_close |
| SslClient.ForeignFramesIgnored | src/main/java/ml/karmaconfigs/remote/messaging/worker/ssl/SSLClient.java:365-367 | once operative, a frame under any MAC but the recorded server's changes nothing and fires nothing |
| SslClient.PlainFramesDelivered | src/main/java/ml/karmaconfigs/remote/messaging/worker/ssl/SSLClient.java:484-486 | a non-command frame from the server reaches the listeners as a server message event and changes nothing |
| SslClient.RenameConfirmed | src/main/java/ml/karmaconfigs/remote/messaging/worker/ssl/SSLClient.java:376-384 | success/rename from the server sets the client's name to ARGUMENT_DATA, null included, and changes nothing else |
| SslClient.ServerDisconnects | src/main/java/ml/karmaconfigs/remote/messaging/worker/ssl/SSLClient.java:463-481 | a disconnect command from the server fires the disconnect event with ARGUMENT_DATA as the reason, clears operative, award and disconnecting, asks to connect again and drops the socket; the next pass ends the thread |
| SslClient.QueueDrained | src/main/java/ml/karmaconfigs/remote/messaging/worker/ssl/SSLClient.java:347-358 | with frames queued, the operative loop prints every one of them in the set's iteration order and empties the queue before it reads again |
| SslClient.UnconnectedCallsIgnored | src/main/java/ml/karmaconfigs/remote/messaging/worker/ssl/SSLClient.java:610-659 | rename and send do nothing unless the connection is awarded or operative |
| SslClient.RenameBeforeConfirmation | src/main/java/ml/karmaconfigs/remote/messaging/worker/ssl/SSLClient.java:610-634 | rename sets the name before the server answers; it writes the rename command, or queues it when the write fails |
| SslClient.FailedSendQueued | src/main/java/ml/karmaconfigs/remote/messaging/worker/ssl/SSLClient.java:643-658 | a message whose write fails is queued, with the client's MAC stamped on it, and nothing is written |
| SslClient.CountingDown | src/main/java/ml/karmaconfigs/remote/messaging/worker/ssl/SSLClient.java:688-705 | each second of the countdown while the count lasts lowers it by one and leaves every flag alone |
| SslClient.OneSecond | src/main/java/ml/karmaconfigs/remote/messaging/worker/ssl/SSLClient.java:703-705 | one second with a positive count only lowers the count |
| SslClient.CountdownComposes | src/main/java/ml/karmaconfigs/remote/messaging/worker/ssl/SSLClient.java:704 | lowering the count by one and then by n - 1 lowers it by n |
| SslClient.CloseCountdown | src/main/java/ml/karmaconfigs/remote/messaging/worker/ssl/SSLClient.java:665-709 | close on an operative client writes the disconnect command and starts the count at 10; ten seconds later the client is still operative with the count at 0, and the eleventh second tears it down |
| SslClient.TicksSplit | src/main/java/ml/karmaconfigs/remote/messaging/worker/ssl/SSLClient.java:688-709 | m + n seconds of the timer are m seconds followed by n |
| SslClient.CloseWhenNotOperative | src/main/java/ml/karmaconfigs/remote/messaging/worker/ssl/SSLClient.java:665-716 | close while already disconnecting does nothing; close before the client is operative only sets instant_close |
| SslClient.Client.constructor | src/main/java/ml/karmaconfigs/remote/messaging/worker/ssl/SSLClient.java:91-125 | a new client has the random name, no key, a count of 10, every flag but tryingConnect down, no socket, no server, an empty queue, and the given server host and port |
| SslClient.Client.GetName | src/main/java/ml/karmaconfigs/remote/messaging/worker/ssl/SSLClient.java:529-532 | getName is the current client name, possibly null |
| SslClient.Client.IsConnecting | src/main/java/ml/karmaconfigs/remote/messaging/worker/ssl/SSLClient.java:585-588 | isConnecting holds exactly when the client wants to connect or is awarded |
| SslClient.Client.Debug | src/main/java/ml/karmaconfigs/remote/messaging/worker/ssl/SSLClient.java:68 | debug sets only the debug flag |
| SslClient.Client.Println | src/main/java/ml/karmaconfigs/remote/messaging/worker/ssl/SSLClient.java:285-287 | printing a frame appends its line and changes no field |
| SslClient.Client.Emit | src/main/java/ml/karmaconfigs/remote/messaging/worker/ssl/SSLClient.java:317-318 | firing an event or completing the future appends it and changes no field |
| SslClient.Client.Connect | src/main/java/ml/karmaconfigs/remote/messaging/worker/ssl/SSLClient.java:197-205 | connect leaves the fields as ConnectStep says |
| SslClient.Client.ConnectWithKey | src/main/java/ml/karmaconfigs/remote/messaging/worker/ssl/SSLClient.java:514-521 | connect with a key takes the key and connects only when not operative, as ConnectWithKeyStep says |
| SslClient.Client.Opened | src/main/java/ml/karmaconfigs/remote/messaging/worker/ssl/SSLClient.java:210-251 | opening the socket either awards the connection or completes the future false and ends the thread, as OpenStep says |
| SslClient.Client.LeaveAwaitLoop | src/main/java/ml/karmaconfigs/remote/messaging/worker/ssl/SSLClient.java:338-345 | leaving the award loop completes the future true and goes on to the operative loop only when operative |
| SslClient.Client.ComposeConnect | src/main/java/ml/karmaconfigs/remote/messaging/worker/ssl/SSLClient.java:274-283 | the connect command compiles to the frame ConnectFrame gives |
| SslClient.Client.ComposeCommand | src/main/java/ml/karmaconfigs/remote/messaging/worker/ssl/SSLClient.java:615-619 | a MAC, COMMAND_ENABLED = true, command and argument compile to the control frame with exactly those fields |
| SslClient.Client.AwaitPass | src/main/java/ml/karmaconfigs/remote/messaging/worker/ssl/SSLClient.java:258-337 | one pass of the award loop leaves the fields and effects as AwaitStep says |
| SslClient.Client.TearDown | src/main/java/ml/karmaconfigs/remote/messaging/worker/ssl/SSLClient.java:259-271 | the instant_close branch drops every flag and the socket, as TornDown says |
| SslClient.Client.HandshakePass | src/main/java/ml/karmaconfigs/remote/messaging/worker/ssl/SSLClient.java:273-337 | the resend and then the answer leave the fields and effects as Handshake says |
| SslClient.Client.Listen | src/main/java/ml/karmaconfigs/remote/messaging/worker/ssl/SSLClient.java:290-337 | reading the answer leaves the fields and effects as Answered says |
| SslClient.Client.Resend | src/main/java/ml/karmaconfigs/remote/messaging/worker/ssl/SSLClient.java:273-288 | the resend writes the connect command while wanting to connect and throws without a name or a socket, as Resent says, changing no field |
| SslClient.Client.TakeAnswer | src/main/java/ml/karmaconfigs/remote/messaging/worker/ssl/SSLClient.java:296-334 | an answer read while not operative and with a socket is handled as Answered says |
| SslClient.Client.Accept | src/main/java/ml/karmaconfigs/remote/messaging/worker/ssl/SSLClient.java:300-318 | an accept is handled as Answered says, the queued-frame drain included |
| SslClient.Client.ReadAnswer | src/main/java/ml/karmaconfigs/remote/messaging/worker/ssl/SSLClient.java:296-323 | the award loop's checks on a line give AnswerTo of it |
| SslClient.Client.ReadReaction | src/main/java/ml/karmaconfigs/remote/messaging/worker/ssl/SSLClient.java:365-486 | the operative loop's checks on a frame give ReactionTo of it |
| SslClient.Client.ReadFailed | src/main/java/ml/karmaconfigs/remote/messaging/worker/ssl/SSLClient.java:407-462 | the failed-reply switch gives FailedReaction of its argument and data |
| SslClient.Client.Reply | src/main/java/ml/karmaconfigs/remote/messaging/worker/ssl/SSLClient.java:361-486 | a frame read by the operative loop leaves the fields and effects as ReplyStep says |
| SslClient.Client.Carry | src/main/java/ml/karmaconfigs/remote/messaging/worker/ssl/SSLClient.java:375-486 | carrying out a reaction leaves the fields and effects as React says |
| SslClient.Client.Disconnect | src/main/java/ml/karmaconfigs/remote/messaging/worker/ssl/SSLClient.java:472-479 | the disconnect command leaves the fields as Disconnected says |
| SslClient.Client.Drain | src/main/java/ml/karmaconfigs/remote/messaging/worker/ssl/SSLClient.java:347-358 | the queued frames are printed in the given order and the queue is emptied |
| SslClient.Client.PrintEach | src/main/java/ml/karmaconfigs/remote/messaging/worker/ssl/SSLClient.java:350-357 | the loop over the queue prints each frame and removes it, leaving nothing |
| SslClient.Client.ServePass | src/main/java/ml/karmaconfigs/remote/messaging/worker/ssl/SSLClient.java:345-492 | one pass of the operative loop leaves the fields and effects as ServeStep says |
| SslClient.Client.Rename | src/main/java/ml/karmaconfigs/remote/messaging/worker/ssl/SSLClient.java:610-634 | rename leaves the fields and effects as RenameStep says |
| SslClient.Client.ComposeMessage | src/main/java/ml/karmaconfigs/remote/messaging/worker/ssl/SSLClient.java:644-656 | the message frame is the decoded data with the client MAC and COMMAND_ENABLED false merged in, and compiling it a second time gives the same frame |
| SslClient.Client.Send | src/main/java/ml/karmaconfigs/remote/messaging/worker/ssl/SSLClient.java:642-659 | send leaves the fields, effects and throw as SendStep says |
| SslClient.Client.Close | src/main/java/ml/karmaconfigs/remote/messaging/worker/ssl/SSLClient.java:664-716 | close leaves the fields and effects as CloseStep says |
| SslClient.Client.Tick | src/main/java/ml/karmaconfigs/remote/messaging/worker/ssl/SSLClient.java:689-709 | one run of the timer's action leaves the fields as TickStep says |
| SslClient.AwaitStep | src/main/java/ml/karmaconfigs/remote/messaging/worker/ssl/SSLClient.java:258-337 | no contract; one pass of the award loop, whose outcomes HandshakeResends and the award lemmas state |
| SslClient.ServeStep | src/main/java/ml/karmaconfigs/remote/messaging/worker/ssl/SSLClient.java:345-492 | no contract; one pass of the operative loop, whose reactions ServerDisconnects and ReactionKeepsInstantClose state |
| SslClient.ReactionTo | src/main/java/ml/karmaconfigs/remote/messaging/worker/ssl/SSLClient.java:365-486 | no contract; the reaction to a frame: ignored under a foreign MAC, delivered when plain, the success, failed and disconnect commands handled |
| SslClient.SendStep | src/main/java/ml/karmaconfigs/remote/messaging/worker/ssl/SSLClient.java:642-659 | no contract; send, whose failure path FailedSendQueued states |
| SslClient.CloseStep | src/main/java/ml/karmaconfigs/remote/messaging/worker/ssl/SSLClient.java:664-716 | no contract; close, which CloseCountdown and CloseWhenNotOperative state |
| SslClient.ConnectStep | src/main/java/ml/karmaconfigs/remote/messaging/worker/ssl/SSLClient.java:197-205 | no contract; `connect()` starting the thread unless one is running, which ConnectGuard and InstantCloseSticks state |
| SslClient.ConnectWithKeyStep | src/main/java/ml/karmaconfigs/remote/messaging/worker/ssl/SSLClient.java:514-521 | no contract; `connect(accessKey)` storing the key first, which InstantCloseSticks states |
| SslClient.OpenStep | src/main/java/ml/karmaconfigs/remote/messaging/worker/ssl/SSLClient.java:210-251 | no contract; opening the socket and starting the handshake, which InstantCloseSticksInThread states |
| SslClient.Handshake | src/main/java/ml/karmaconfigs/remote/messaging/worker/ssl/SSLClient.java:273-337 | no contract; one pass of the handshake loop, which HandshakeResends and AcceptAnswer state |
| SslClient.Answered | src/main/java/ml/karmaconfigs/remote/messaging/worker/ssl/SSLClient.java:290-337 | no contract; the server's answer to the connect request, which AcceptAnswer and DeclineTearsDown state |
| SslClient.FailedReaction | src/main/java/ml/karmaconfigs/remote/messaging/worker/ssl/SSLClient.java:407-462 | no contract; the `failed` replies, which FailedOutcomes states |
| SslClient.FailedOutcomes | src/main/java/ml/karmaconfigs/remote/messaging/worker/ssl/SSLClient.java:407-462 | a `failed` reply never drops, delivers or renames; it fires a disconnect event exactly for a connect with at least two comma pieces (reason: the second) or a disconnect with data (reason: the fixed text), and throws exactly where a missing comma piece is indexed |
| SslClient.React | src/main/java/ml/karmaconfigs/remote/messaging/worker/ssl/SSLClient.java:375-486 | no contract; carrying out a reaction, which ReactionKeepsInstantClose states |
| SslClient.ReplyStep | src/main/java/ml/karmaconfigs/remote/messaging/worker/ssl/SSLClient.java:361-486 | no contract; one frame of the operative loop, which ForeignFramesIgnored, PlainFramesDelivered, RenameConfirmed and ServerDisconnects state |
| SslClient.RenameStep | src/main/java/ml/karmaconfigs/remote/messaging/worker/ssl/SSLClient.java:610-634 | no contract; `rename`, which InstantCloseSticksOnWrites, UnconnectedCallsIgnored and RenameBeforeConfirmation state |
| SslClient.TickStep | src/main/java/ml/karmaconfigs/remote/messaging/worker/ssl/SSLClient.java:689-709 | no contract; one second of the close timer, which InstantCloseSticks and OneSecond state |
| SslClient.Ticks | src/main/java/ml/karmaconfigs/remote/messaging/worker/ssl/SSLClient.java:688-709 | no contract; n seconds of the close timer, which CountingDown, CloseCountdown and TicksSplit state |
| SslClient.ConnectFrame | src/main/java/ml/karmaconfigs/remote/messaging/worker/ssl/SSLClient.java:274-281 | no contract; the connect request, which ConnectFrameReads states |
| SslClient.RenameFrame | src/main/java/ml/karmaconfigs/remote/messaging/worker/ssl/SSLClient.java:616-620 | no contract; the rename request, which RenameBeforeConfirmation states is written |
| SslClient.DisconnectFrame | src/main/java/ml/karmaconfigs/remote/messaging/worker/ssl/SSLClient.java:670-674 | no contract; the disconnect request, which CloseCountdown states is written |
| SslClient.MessageFrame | src/main/java/ml/karmaconfigs/remote/messaging/worker/ssl/SSLClient.java:645-647 | no contract; the data stamped as a plain message, which MessageFrameReads states |
| SslClient.Printed | src/main/java/ml/karmaconfigs/remote/messaging/worker/ssl/SSLClient.java:285-287 | no contract; `println` of a compiled frame |
| SslClient.TornDown | src/main/java/ml/karmaconfigs/remote/messaging/worker/ssl/SSLClient.java:258-269 | no contract; the `instant_close` branch, which DeclineTearsDown states |
| SslClient.Resent | src/main/java/ml/karmaconfigs/remote/messaging/worker/ssl/SSLClient.java:273-288 | no contract; the resend of the connect request, which HandshakeResends states |
| SslClient.LeaveAwait | src/main/java/ml/karmaconfigs/remote/messaging/worker/ssl/SSLClient.java:336-341 | no contract; leaving the award loop and completing with true, which AcceptAnswer states for an accept with frames still queued |
| SslClient.AnswerTo | src/main/java/ml/karmaconfigs/remote/messaging/worker/ssl/SSLClient.java:296-330 | no contract; what the award loop reads in a reply, which AcceptAnswer and DeclineTearsDown state |
| SslClient.Heard | src/main/java/ml/karmaconfigs/remote/messaging/worker/ssl/SSLClient.java:292-295 | no contract; the answer in a line read by the award loop, which HandshakeResends states |
| SslClient.Disconnected | src/main/java/ml/karmaconfigs/remote/messaging/worker/ssl/SSLClient.java:470-478 | no contract; the state a disconnect leaves, which ServerDisconnects states |
| TcpServer.AcceptUtf | src/main/java/ml/karmaconfigs/remote/messaging/worker/tcp/TCPServer.java:170 | writeUTF("accept") writes a two-byte length of 6 and the six ASCII bytes |
| TcpServer.AcceptReply | src/main/java/ml/karmaconfigs/remote/messaging/worker/tcp/TCPServer.java:168-171 | the accept reply is the byte true, writeUTF("accept") and writeUTF of the server MAC, with no MAC in front; it exists exactly when the MAC can be encoded |
| TcpServer.Reply | src/main/java/ml/karmaconfigs/remote/messaging/worker/tcp/TCPServer.java:166-176 | putting a reply into a buffer of the given capacity and writing it to the channel writes it exactly when it was built, fits and the channel's write succeeds; otherwise the put or the write throws and nothing is written |
| TcpServer.FileClient | src/main/java/ml/karmaconfigs/remote/messaging/worker/tcp/TCPServer.java:552-560 | the handle filed under the address is returned unchanged when there is one; otherwise a new handle named after the address with the frame's MAC is filed there; nothing else changes |
| TcpServer.KeptFromIsSuffix | src/main/java/ml/karmaconfigs/remote/messaging/worker/tcp/TCPServer.java:289-301 | the bytes kept from the buffer are all of it for an offset of 0 or less, the suffix from the offset within its bounds, and none past its end |
| TcpServer.KeptFromClamped | src/main/java/ml/karmaconfigs/remote/messaging/worker/tcp/TCPServer.java:292-297 | the bytes kept are the buffer from the offset clamped into its bounds |
| TcpServer.Received | src/main/java/ml/karmaconfigs/remote/messaging/worker/tcp/TCPServer.java:137-138 | a read into the cleared buffer overwrites its front with the bytes read and leaves the rest as it was, keeping the buffer's size |
| TcpServer.SendsAppend | src/main/java/ml/karmaconfigs/remote/messaging/worker/tcp/TCPServer.java:467-469 | one more client visited adds its write after the writes of the earlier ones |
| TcpServer.SendsTo | src/main/java/ml/karmaconfigs/remote/messaging/worker/tcp/TCPServer.java:467-469 | every write of a send loop goes to a visited client as a data frame under its MAC |
| TcpServer.NoticesParts | src/main/java/ml/karmaconfigs/remote/messaging/worker/tcp/TCPServer.java:479-485 | a send loop throws exactly when its selection does |
| TcpServer.UnBanStep | src/main/java/ml/karmaconfigs/remote/messaging/worker/tcp/TCPServer.java:538-541 | unBan removes the listed MACs from the banned set and changes nothing else |
| TcpServer.Closed | src/main/java/ml/karmaconfigs/remote/messaging/worker/tcp/TCPServer.java:408-416 | close clears operative; clients, connections and bans stay |
| TcpServer.ControlFrameParses | src/main/java/ml/karmaconfigs/remote/messaging/worker/tcp/TCPServer.java:144-150 | a control frame as a client writes it, read back from the buffer whatever follows it, gives its MAC, command and argument |
| TcpServer.ParseControl | src/main/java/ml/karmaconfigs/remote/messaging/worker/tcp/TCPServer.java:144-150 | three UTF fields with a true byte after the first are read as a control frame |
| TcpServer.DataFrameParses | src/main/java/ml/karmaconfigs/remote/messaging/worker/tcp/TCPServer.java:144-148 | a data frame read back from the buffer gives its MAC, then the offset it carries, which points just past itself at the message and what follows |
| TcpServer.ReceivedFrame | src/main/java/ml/karmaconfigs/remote/messaging/worker/tcp/TCPServer.java:137-138 | after reading a whole frame that fits, the buffer is the frame followed by the old buffer's tail |
| TcpServer.FrameKeepsValid | src/main/java/ml/karmaconfigs/remote/messaging/worker/tcp/TCPServer.java:135-343 | one pass keeps the buffer at 4056 bytes, every handle with a MAC, and every connected address with a handle |
| TcpServer.CommandKeepsValid | src/main/java/ml/karmaconfigs/remote/messaging/worker/tcp/TCPServer.java:152-285 | the command switch keeps that invariant, since every handle it files carries the sender's MAC |
| TcpServer.ControlFrameHandled | src/main/java/ml/karmaconfigs/remote/messaging/worker/tcp/TCPServer.java:137-152 | a control frame read whole into the buffer files its sender and goes to the switch on the lower-cased command |
| TcpServer.ConnectOutcome | src/main/java/ml/karmaconfigs/remote/messaging/worker/tcp/TCPServer.java:153-176 | a connect from an unbanned MAC files the handle under the address with the name asked for, adds the address to connections, and fires the connect event before the accept reply, which is missing when it cannot be written; there is no access key |
| TcpServer.ConnectBanned | src/main/java/ml/karmaconfigs/remote/messaging/worker/tcp/TCPServer.java:177-189 | a connect from a banned MAC only hears the ban text; the sender is filed as any sender is and connections stays |
| TcpServer.CommandBeforeConnect | src/main/java/ml/karmaconfigs/remote/messaging/worker/tcp/TCPServer.java:191-285 | before its connect, a sender's rename, disconnect or other command gets the matching failed reply and nothing changes but the sender lookup and the buffer |
| TcpServer.DataBeforeConnect | src/main/java/ml/karmaconfigs/remote/messaging/worker/tcp/TCPServer.java:321-339 | a data frame before connect gets failed/message with the not-connected text |
| TcpServer.RenameWithoutCollisionCheck | src/main/java/ml/karmaconfigs/remote/messaging/worker/tcp/TCPServer.java:191-215 | a connected sender's rename takes the new name even when another client carries it, fires the command event, then writes success/rename with the name |
| TcpServer.DisconnectWithoutReply | src/main/java/ml/karmaconfigs/remote/messaging/worker/tcp/TCPServer.java:233-243 | a connected sender's disconnect removes its handle and its address and fires the disconnect event with its argument, and writes nothing back |
| TcpServer.DataDeliversStaleTail | src/main/java/ml/karmaconfigs/remote/messaging/worker/tcp/TCPServer.java:288-320 | a connected sender's data frame is acknowledged, then the listeners get every byte from the frame's offset to the end of the 4056-byte buffer: the message followed by what earlier reads left behind; if the acknowledgement cannot be built, does not fit or is not written, nothing is delivered |
| TcpServer.EmptyReadRepeats | src/main/java/ml/karmaconfigs/remote/messaging/worker/tcp/TCPServer.java:135-138 | a read of no bytes leaves the buffer as it was, so the previous frame is handled again |
| TcpServer.NoMissingMac | src/main/java/ml/karmaconfigs/remote/messaging/worker/tcp/TCPServer.java:496-497 | on a valid server no selection loop meets a handle without a MAC |
| TcpServer.BanKeepsClients | src/main/java/ml/karmaconfigs/remote/messaging/worker/tcp/TCPServer.java:492-509 | ban only adds the MACs to the banned set and never throws on a valid server |
| TcpServer.NoticesGoTo | src/main/java/ml/karmaconfigs/remote/messaging/worker/tcp/TCPServer.java:496-506 | every write of a send loop goes to a client the loop's test picked, as a data frame under its MAC |
| TcpServer.BanNoticesGoToBanned | src/main/java/ml/karmaconfigs/remote/messaging/worker/tcp/TCPServer.java:492-509 | every write of a ban goes to a client whose MAC is now banned, as a data frame under that MAC carrying the failed/disconnect ban notice |
| TcpServer.KickNeverThrows | src/main/java/ml/karmaconfigs/remote/messaging/worker/tcp/TCPServer.java:515-532 | whatever the iteration order, kick never throws once its notice can be built; KickNotifiesListed states whom it writes to |
| TcpServer.BanThenUnBan | src/main/java/ml/karmaconfigs/remote/messaging/worker/tcp/TCPServer.java:492-541 | banning then unbanning the same MACs leaves banned exactly the earlier bans minus those MACs |
| TcpServer.BroadcastReachesAll | src/main/java/ml/karmaconfigs/remote/messaging/worker/tcp/TCPServer.java:465-470 | over all the clients in the iteration order, broadcast never throws, writes in that order, and every client whose data frame fits the buffer and whose channel takes the write is sent it |
| TcpServer.RedirectNeverThrows | src/main/java/ml/karmaconfigs/remote/messaging/worker/tcp/TCPServer.java:478-486 | redirect on a valid server never throws |
| TcpServer.RedirectPicks | src/main/java/ml/karmaconfigs/remote/messaging/worker/tcp/TCPServer.java:478-486 | on a valid server, redirect over all the clients picks exactly the clients whose name or MAC is the target name |
| TcpServer.Server.constructor | src/main/java/ml/karmaconfigs/remote/messaging/worker/tcp/TCPServer.java:55-76 | a new server has no clients, connections or bans, is operative, and has a zeroed 4056-byte buffer |
| TcpServer.Server.GetClients | src/main/java/ml/karmaconfigs/remote/messaging/worker/tcp/TCPServer.java:390-393 | getClients holds exactly the handles filed in clients |
| TcpServer.Server.Start | src/main/java/ml/karmaconfigs/remote/messaging/worker/tcp/TCPServer.java:119-128 | start reports whether binding succeeded |
| TcpServer.Server.Receive | src/main/java/ml/karmaconfigs/remote/messaging/worker/tcp/TCPServer.java:137-138 | the read puts the received bytes at the front of the buffer array, as Received says |
| TcpServer.Server.Respond | src/main/java/ml/karmaconfigs/remote/messaging/worker/tcp/TCPServer.java:166-176 | writing a reply, whose channel write succeeds or fails as given, changes no field and appends what Reply gives, throwing when Reply says |
| TcpServer.Server.Fire | src/main/java/ml/karmaconfigs/remote/messaging/worker/tcp/TCPServer.java:163-164 | an event is appended to the effects and nothing else changes |
| TcpServer.Server.GetClient | src/main/java/ml/karmaconfigs/remote/messaging/worker/tcp/TCPServer.java:552-560 | the lookup returns the handle and leaves the fields as FileClient says |
| TcpServer.Server.Connect | src/main/java/ml/karmaconfigs/remote/messaging/worker/tcp/TCPServer.java:153-190 | the connect case leaves the fields, effects and throw as ConnectStep says |
| TcpServer.Server.Rename | src/main/java/ml/karmaconfigs/remote/messaging/worker/tcp/TCPServer.java:191-232 | the rename case leaves the fields, effects and throw as RenameStep says |
| TcpServer.Server.Disconnect | src/main/java/ml/karmaconfigs/remote/messaging/worker/tcp/TCPServer.java:233-259 | the disconnect case leaves the fields, effects and throw as DisconnectStep says |
| TcpServer.Server.Unknown | src/main/java/ml/karmaconfigs/remote/messaging/worker/tcp/TCPServer.java:260-285 | the default case leaves the fields, effects and throw as UnknownStep says |
| TcpServer.Server.SliceFrom | src/main/java/ml/karmaconfigs/remote/messaging/worker/tcp/TCPServer.java:289-301 | the two copy loops deliver every buffer byte at an index of at least the offset, in order |
| TcpServer.Server.Data | src/main/java/ml/karmaconfigs/remote/messaging/worker/tcp/TCPServer.java:287-339 | the data branch, whose acknowledgement write succeeds or fails as given, leaves the fields, effects and throw as DataStep says, so DataEventFollowsAck applies: the message event fires exactly when the acknowledgement was written |
| TcpServer.Server.HandleFrame | src/main/java/ml/karmaconfigs/remote/messaging/worker/tcp/TCPServer.java:135-343 | one pass of a channel's loop, the read into the shared buffer included, leaves the fields and effects as Frame says |
| TcpServer.Server.Handle | src/main/java/ml/karmaconfigs/remote/messaging/worker/tcp/TCPServer.java:140-340 | reading the frame in the buffer and acting on it leaves the fields, effects and throw as HandleStep says |
| TcpServer.Server.Command | src/main/java/ml/karmaconfigs/remote/messaging/worker/tcp/TCPServer.java:152-285 | the switch on the lower-cased command leaves the fields, effects and throw as CommandStep says |
| TcpServer.Server.NotifyEach | src/main/java/ml/karmaconfigs/remote/messaging/worker/tcp/TCPServer.java:467-469 | a send loop changes no field and appends exactly what Notices gives |
| TcpServer.Server.NotifyLoop | src/main/java/ml/karmaconfigs/remote/messaging/worker/tcp/TCPServer.java:480-484 | the loop over the clients in iteration order appends the writes of the clients the selector picks and stops at the first throw |
| TcpServer.Server.SendTo | src/main/java/ml/karmaconfigs/remote/messaging/worker/tcp/TCPServer.java:482 | sendMessage to a picked client appends the write Sent gives: its data frame when it fits and the channel takes the write, and nothing when sendMessage returns false |
| TcpServer.Server.NoticeEach | src/main/java/ml/karmaconfigs/remote/messaging/worker/tcp/TCPServer.java:496-507 | the loop of ban and kick, building the notice for each client picked, appends what NoticeLoop gives |
| TcpServer.Server.Ban | src/main/java/ml/karmaconfigs/remote/messaging/worker/tcp/TCPServer.java:492-509 | ban, looping over every client once, leaves the fields, writes and throw as BanStep says, so BanNotifiesBanned applies |
| TcpServer.Server.Kick | src/main/java/ml/karmaconfigs/remote/messaging/worker/tcp/TCPServer.java:515-532 | kick, looping over every client once, changes no field and appends the writes KickStep gives, so KickNotifiesListed applies |
| TcpServer.Server.UnBan | src/main/java/ml/karmaconfigs/remote/messaging/worker/tcp/TCPServer.java:538-541 | unBan leaves the fields as UnBanStep says |
| TcpServer.Server.Redirect | src/main/java/ml/karmaconfigs/remote/messaging/worker/tcp/TCPServer.java:478-486 | redirect, looping over every client once, changes no field and appends the writes RedirectStep gives, so RedirectReaches and RedirectPicks apply |
| TcpServer.Server.Broadcast | src/main/java/ml/karmaconfigs/remote/messaging/worker/tcp/TCPServer.java:465-470 | broadcast, looping over every client once, changes no field and appends the writes BroadcastStep gives, so BroadcastReachesAll applies |
| TcpServer.Server.Close | src/main/java/ml/karmaconfigs/remote/messaging/worker/tcp/TCPServer.java:408-416 | close leaves the fields as Closed says |
| TcpServer.SendsReach | src/main/java/ml/karmaconfigs/remote/messaging/worker/tcp/TCPServer.java:467-469 | every visited client whose data frame fits the buffer and whose channel takes the write is sent that frame |
| TcpServer.SendsFit | src/main/java/ml/karmaconfigs/remote/messaging/worker/tcp/TCPServer.java:467-469 | every write of a send loop is the data frame of a visited client whose frame fits the buffer and whose channel took the write |
| TcpServer.NoticesExactly | src/main/java/ml/karmaconfigs/remote/messaging/worker/tcp/TCPServer.java:480-484 | over all the clients, a send loop throws exactly when its test throws for some client; every write goes to an accepted client whose frame fits and whose channel takes the write, and without a throw every such client is written to |
| TcpServer.BanNotifiesBanned | src/main/java/ml/karmaconfigs/remote/messaging/worker/tcp/TCPServer.java:492-509 | over all the clients, a ban whose notice can be built throws exactly when some client has no MAC, and otherwise sends the notice to every client whose MAC is now banned, whose frame fits and whose channel takes the write; a notice that cannot be built is never written |
| TcpServer.KickNotifiesListed | src/main/java/ml/karmaconfigs/remote/messaging/worker/tcp/TCPServer.java:515-532 | over all the clients, a kick whose notice can be built never throws and sends it to exactly the clients whose MAC it lists, whose frame fits and whose channel takes the write; without a notice nothing is written |
| TcpServer.RedirectReaches | src/main/java/ml/karmaconfigs/remote/messaging/worker/tcp/TCPServer.java:478-486 | over all the clients, redirect throws exactly when a client not named after the target has no MAC; every write goes to a client whose name or MAC is the target, and without a throw every such client whose frame fits and whose channel takes the write is written to |
| TcpServer.ParseFrame | src/main/java/ml/karmaconfigs/remote/messaging/worker/tcp/TCPServer.java:144-150 | no contract; the reads at the start of a pass, which ControlFrameParses and DataFrameParses state |
| TcpServer.KeptFrom | src/main/java/ml/karmaconfigs/remote/messaging/worker/tcp/TCPServer.java:289-301 | no contract; the reference definition of the delivered bytes, which KeptFromIsSuffix states |
| TcpServer.NoticeFrame | src/main/java/ml/karmaconfigs/remote/messaging/worker/tcp/TCPServer.java:498-503 | no contract; the failed/disconnect notice under the server MAC, built for each client picked |
| TcpServer.NoticeLoop | src/main/java/ml/karmaconfigs/remote/messaging/worker/tcp/TCPServer.java:496-507 | no contract; the loop of ban and kick, which BanNotifiesBanned and KickNotifiesListed state |
| TcpServer.Valid | src/main/java/ml/karmaconfigs/remote/messaging/worker/tcp/TCPServer.java:135-343 | no contract; the invariant FrameKeepsValid states every pass keeps |
| TcpServer.ConnectStep | src/main/java/ml/karmaconfigs/remote/messaging/worker/tcp/TCPServer.java:153-190 | no contract; the connect case, whose outcomes ConnectOutcome and ConnectBanned state |
| TcpServer.RenameStep | src/main/java/ml/karmaconfigs/remote/messaging/worker/tcp/TCPServer.java:191-232 | no contract; the rename case, whose outcome RenameWithoutCollisionCheck states |
| TcpServer.DisconnectStep | src/main/java/ml/karmaconfigs/remote/messaging/worker/tcp/TCPServer.java:233-259 | no contract; the disconnect case, whose outcome DisconnectWithoutReply states |
| TcpServer.UnknownStep | src/main/java/ml/karmaconfigs/remote/messaging/worker/tcp/TCPServer.java:260-285 | no contract; the default case, whose non-member branch CommandBeforeConnect states |
| TcpServer.DataStep | src/main/java/ml/karmaconfigs/remote/messaging/worker/tcp/TCPServer.java:287-339 | no contract; the data branch, whose outcomes DataDeliversStaleTail, DataEventFollowsAck and DataBeforeConnect state |
| TcpServer.CommandStep | src/main/java/ml/karmaconfigs/remote/messaging/worker/tcp/TCPServer.java:152 | no contract; the switch on the lower-cased command; CommandKeepsValid states the invariant it keeps |
| TcpServer.HandleStep | src/main/java/ml/karmaconfigs/remote/messaging/worker/tcp/TCPServer.java:140-340 | no contract; parsing and acting on the buffer; ControlFrameHandled states how a control frame goes through it |
| TcpServer.BanStep | src/main/java/ml/karmaconfigs/remote/messaging/worker/tcp/TCPServer.java:492-509 | no contract; ban, whose properties BanKeepsClients, BanNotifiesBanned and BanThenUnBan state |
| TcpServer.KickStep | src/main/java/ml/karmaconfigs/remote/messaging/worker/tcp/TCPServer.java:515-532 | no contract; kick, whose properties KickNeverThrows and KickNotifiesListed state |
| TcpServer.RedirectStep | src/main/java/ml/karmaconfigs/remote/messaging/worker/tcp/TCPServer.java:478-486 | no contract; redirect, whose properties RedirectReaches, RedirectPicks and RedirectNeverThrows state |
| TcpServer.BroadcastStep | src/main/java/ml/karmaconfigs/remote/messaging/worker/tcp/TCPServer.java:465-470 | no contract; broadcast, whose properties BroadcastReachesAll states |
| TcpServer.Notices | src/main/java/ml/karmaconfigs/remote/messaging/worker/tcp/TCPServer.java:480-484 | no contract; the writes of a send loop, which NoticesExactly states |
| TcpServer.Sends | src/main/java/ml/karmaconfigs/remote/messaging/worker/tcp/TCPServer.java:467-469 | no contract; the writes to the clients in turn, which SendsTo, SendsFit and SendsReach state |
| TcpServer.DataEventFollowsAck | src/main/java/ml/karmaconfigs/remote/messaging/worker/tcp/TCPServer.java:288-320 | for a connected sender, the message event fires exactly when the acknowledgement is written, right after it; when the offset cannot be read, or the acknowledgement cannot be built, does not fit or is not written, the pass throws having written and fired nothing |
| TcpServer.Fits | src/main/java/ml/karmaconfigs/remote/messaging/worker/tcp/TCPServer.java:467-469 | no contract; the client has a MAC and its data frame fits the 4056-byte buffer |
| TcpServer.Sent | src/main/java/ml/karmaconfigs/remote/messaging/worker/tcp/TCPServer.java:482 | no contract; the write sendMessage makes to one client, which SendsReach and SendsFit state |
| TcpServer.Frame | src/main/java/ml/karmaconfigs/remote/messaging/worker/tcp/TCPServer.java:135-343 | no contract; one pass of a channel's loop, which FrameKeepsValid and ControlFrameHandled state |
| TcpServer.Address | src/main/java/ml/karmaconfigs/remote/messaging/worker/tcp/TCPServer.java:142 | no contract; the address a channel's frames are filed under, which ControlFrameHandled and ConnectOutcome state |
| TcpServer.LookedUp | src/main/java/ml/karmaconfigs/remote/messaging/worker/tcp/TCPServer.java:140-143 | no contract; the sender lookup of a frame, which ConnectBanned and CommandBeforeConnect state |
| TcpClient.ConnectUtf | src/main/java/ml/karmaconfigs/remote/messaging/worker/tcp/TCPClient.java:150 | writeUTF("connect") writes a two-byte length of 7 and the seven ASCII bytes |
| TcpClient.RenameUtf | src/main/java/ml/karmaconfigs/remote/messaging/worker/tcp/TCPClient.java:339 | writeUTF("rename") writes a two-byte length of 6 and the six ASCII bytes |
| TcpClient.DisconnectUtf | src/main/java/ml/karmaconfigs/remote/messaging/worker/tcp/TCPClient.java:391 | writeUTF("disconnect") writes a two-byte length of 10 and the ten ASCII bytes |
| TcpClient.RequestUtf | src/main/java/ml/karmaconfigs/remote/messaging/worker/tcp/TCPClient.java:392 | writeUTF of the disconnect reason writes a two-byte length of 25 and its ASCII bytes |
| TcpClient.AsciiText | src/main/java/ml/karmaconfigs/remote/messaging/worker/tcp/TCPClient.java:150 | an ASCII text shorter than 256 characters is written by writeUTF as a zero byte, its length, then its bytes |
| TcpClient.KeywordFrame | src/main/java/ml/karmaconfigs/remote/messaging/worker/tcp/TCPClient.java:147-151 | a control frame with an encoded command is writeUTF(mac), the byte true, the command's bytes and writeUTF(argument); it exists exactly when the MAC and the argument can be encoded |
| TcpClient.FramesAreControl | src/main/java/ml/karmaconfigs/remote/messaging/worker/tcp/TCPClient.java:147-151 | the connect and rename frames are the control frames of the commands connect and rename with the name as argument |
| TcpClient.DisconnectIsControl | src/main/java/ml/karmaconfigs/remote/messaging/worker/tcp/TCPClient.java:388-392 | the disconnect frame is the control frame of disconnect with the reason as argument |
| TcpClient.DisconnectControl | src/main/java/ml/karmaconfigs/remote/messaging/worker/tcp/TCPClient.java:388-392 | with the command and reason bytes given, the disconnect frame is their control frame |
| TcpClient.ControlLaidOut | src/main/java/ml/karmaconfigs/remote/messaging/worker/tcp/TCPClient.java:336-340 | a frame laid out as writeUTF(mac), true, writeUTF(command), writeUTF(argument) is the control frame of those texts |
| TcpClient.KeywordControl | src/main/java/ml/karmaconfigs/remote/messaging/worker/tcp/TCPClient.java:147-151 | the control frame of a command equals the keyword frame of the command's encoded bytes |
| TcpClient.Writes | src/main/java/ml/karmaconfigs/remote/messaging/worker/tcp/TCPClient.java:168-175 | writing a list of frames gives one write per frame, each frame in its position |
| TcpClient.Drainable | src/main/java/ml/karmaconfigs/remote/messaging/worker/tcp/TCPClient.java:196-203 | a drain writes the frames in order up to the first one that cannot be put into the 2048-byte buffer and written, which throws |
| TcpClient.Filled | src/main/java/ml/karmaconfigs/remote/messaging/worker/tcp/TCPClient.java:142-143 | the array of a 1024-byte read buffer holds the bytes read, then zeros, and is always 1024 bytes long |
| TcpClient.FlagThenFields | src/main/java/ml/karmaconfigs/remote/messaging/worker/tcp/TCPClient.java:205-214 | in a reply that begins with a true flag and three writeUTF texts, each text sits at the position the earlier ones end |
| TcpClient.FlagSlices | src/main/java/ml/karmaconfigs/remote/messaging/worker/tcp/TCPClient.java:205-214 | the slices of that reply after the flag are the three encodings, in order |
| TcpClient.FilledPrefix | src/main/java/ml/karmaconfigs/remote/messaging/worker/tcp/TCPClient.java:142-143 | the array of a read of at most 1024 bytes is those bytes followed by the rest of the array |
| TcpClient.AnswerToText | src/main/java/ml/karmaconfigs/remote/messaging/worker/tcp/TCPClient.java:161-163 | a reply that begins with true and writeUTF(text) is an accept exactly when the text is accept in any case |
| TcpClient.ZeroFlagIgnored | src/main/java/ml/karmaconfigs/remote/messaging/worker/tcp/TCPClient.java:162 | a reply whose first byte is 0 leaves the award loop waiting and is ignored by the operative loop |
| TcpClient.RenameConfirmed | src/main/java/ml/karmaconfigs/remote/messaging/worker/tcp/TCPClient.java:205-219 | a reply true, success, rename and a name, in any case, sets the client's name to that name and changes nothing else |
| TcpClient.ServeReacts | src/main/java/ml/karmaconfigs/remote/messaging/worker/tcp/TCPClient.java:204-206 | a read of some bytes in the operative loop is handled by the reaction to the read array |
| TcpClient.Renamed | src/main/java/ml/karmaconfigs/remote/messaging/worker/tcp/TCPClient.java:206-214 | the reads of a reply laid out as true, success, rename and a name take that name |
| TcpClient.SplitAt | src/main/java/ml/karmaconfigs/remote/messaging/worker/tcp/TCPClient.java:196-203 | the multiset of a queue order is that of the frames written plus those left |
| TcpClient.WrittenFrom | src/main/java/ml/karmaconfigs/remote/messaging/worker/tcp/TCPClient.java:196-203 | every effect of writing a list of frames is a write of one of them |
| TcpClient.DrainWritesQueued | src/main/java/ml/karmaconfigs/remote/messaging/worker/tcp/TCPClient.java:196-203 | every frame a drain writes comes from the queue, exactly those frames leave it, and nothing but the queue changes |
| TcpClient.DrainAll | src/main/java/ml/karmaconfigs/remote/messaging/worker/tcp/TCPClient.java:196-203 | a drain writes the whole queue and empties it exactly when every queued frame can be put and written |
| TcpClient.OversizedFrameStalls | src/main/java/ml/karmaconfigs/remote/messaging/worker/tcp/TCPClient.java:196-203 | a queued frame over 2048 bytes makes every drain throw, whatever the order, so it stays queued |
| TcpClient.ConnectSent | src/main/java/ml/karmaconfigs/remote/messaging/worker/tcp/TCPClient.java:145-158 | the pass of the award loop that finds tryingConnect set writes the connect frame and clears it |
| TcpClient.ConnectSentOnce | src/main/java/ml/karmaconfigs/remote/messaging/worker/tcp/TCPClient.java:141-187 | once tryingConnect is clear no pass of the award loop sets it again, and every frame such a pass writes comes from the queue: the connect frame goes out once per connect |
| TcpClient.AcceptFromQueue | src/main/java/ml/karmaconfigs/remote/messaging/worker/tcp/TCPClient.java:163-182 | an accept writes only queued frames and leaves tryingConnect as it was |
| TcpClient.TryingConnectStaysClear | src/main/java/ml/karmaconfigs/remote/messaging/worker/tcp/TCPClient.java:191-265 | the operative loop never sets tryingConnect |
| TcpClient.CallsChangeOnlyQueue | src/main/java/ml/karmaconfigs/remote/messaging/worker/tcp/TCPClient.java:334-401 | rename and send change at most the queue, and close at most the queue and instant_close |
| TcpClient.DeliverOnlyQueue | src/main/java/ml/karmaconfigs/remote/messaging/worker/tcp/TCPClient.java:342-354 | the try of rename and send changes at most the queue |
| TcpClient.AcceptDrains | src/main/java/ml/karmaconfigs/remote/messaging/worker/tcp/TCPClient.java:163-182 | an accept writes the whole queue when every frame fits and can be written, then the client is operative and no longer awarded, and close runs when instant_close is set |
| TcpClient.AcceptAll | src/main/java/ml/karmaconfigs/remote/messaging/worker/tcp/TCPClient.java:168-182 | the accept branch with every queued frame writable empties the queue, writes it in order and turns the client operative |
| TcpClient.AcceptEffects | src/main/java/ml/karmaconfigs/remote/messaging/worker/tcp/TCPClient.java:168-175 | an accept whose drain goes through has the drain's writes as its effects |
| TcpClient.AwaitAccepts | src/main/java/ml/karmaconfigs/remote/messaging/worker/tcp/TCPClient.java:160-163 | the pass of the award loop that reads an accept runs the accept branch |
| TcpClient.AcceptThrows | src/main/java/ml/karmaconfigs/remote/messaging/worker/tcp/TCPClient.java:168-176 | an accept whose drain throws writes the frames before the failing one, ends the thread with the future completed false, and leaves the client not operative |
| TcpClient.OtherRepliesWait | src/main/java/ml/karmaconfigs/remote/messaging/worker/tcp/TCPClient.java:160-186 | any other reply changes nothing in the award loop, or ends the thread when reading it throws |
| TcpClient.ZeroReadDrains | src/main/java/ml/karmaconfigs/remote/messaging/worker/tcp/TCPClient.java:193-203 | while operative, a read of no bytes writes every queued frame up to the first that throws, removing each, and only a throw ends the loop |
| TcpClient.OperativeStays | src/main/java/ml/karmaconfigs/remote/messaging/worker/tcp/TCPClient.java:141-265 | neither loop clears operative once set; the operative loop ends only on a read that throws, a drain that throws or a reply whose reads throw |
| TcpClient.CloseQueues | src/main/java/ml/karmaconfigs/remote/messaging/worker/tcp/TCPClient.java:384-401 | close while operative only queues the disconnect frame; close before that only sets instant_close |
| TcpClient.UnguardedWrites | src/main/java/ml/karmaconfigs/remote/messaging/worker/tcp/TCPClient.java:334-379 | rename and send look at no connection flag: the frame is written when it fits and the write succeeds, and queued otherwise; rename does not change the name |
| TcpClient.OverflowingRenameStops | src/main/java/ml/karmaconfigs/remote/messaging/worker/tcp/TCPClient.java:334-354 | a rename whose frame overflows the 2048-byte buffer queues it, so the next read of no bytes in the operative loop throws and ends the thread |
| TcpClient.Client.constructor | src/main/java/ml/karmaconfigs/remote/messaging/worker/tcp/TCPClient.java:41-63 | a new client has the random name, every flag but tryingConnect down, an empty queue and no thread |
| TcpClient.Client.GetName | src/main/java/ml/karmaconfigs/remote/messaging/worker/tcp/TCPClient.java:280-283 | getName is the current client name |
| TcpClient.Client.Debug | src/main/java/ml/karmaconfigs/remote/messaging/worker/tcp/TCPClient.java:98-102 | debug sets only the debug flag |
| TcpClient.Client.Emit | src/main/java/ml/karmaconfigs/remote/messaging/worker/tcp/TCPClient.java:189 | an effect is appended and no field changes |
| TcpClient.Client.Connect | src/main/java/ml/karmaconfigs/remote/messaging/worker/tcp/TCPClient.java:110-114 | connect starts the thread whatever the state |
| TcpClient.Client.Opened | src/main/java/ml/karmaconfigs/remote/messaging/worker/tcp/TCPClient.java:120-135 | opening the channel leaves the fields and effects as OpenStep says |
| TcpClient.Client.Die | src/main/java/ml/karmaconfigs/remote/messaging/worker/tcp/TCPClient.java:266-268 | the catch around both loops completes the future false and ends the thread |
| TcpClient.Client.ComposeControl | src/main/java/ml/karmaconfigs/remote/messaging/worker/tcp/TCPClient.java:336-340 | building a control frame succeeds exactly when ControlFrame exists, and then gives it |
| TcpClient.Client.ComposeConnect | src/main/java/ml/karmaconfigs/remote/messaging/worker/tcp/TCPClient.java:147-151 | building the connect frame succeeds exactly when ConnectFrame exists, and then gives it |
| TcpClient.Client.ComposeRename | src/main/java/ml/karmaconfigs/remote/messaging/worker/tcp/TCPClient.java:336-340 | building the rename frame succeeds exactly when RenameFrame exists, and then gives it |
| TcpClient.Client.ComposeDisconnect | src/main/java/ml/karmaconfigs/remote/messaging/worker/tcp/TCPClient.java:388-392 | building the disconnect frame succeeds exactly when DisconnectFrame exists, and then gives it |
| TcpClient.Client.ComposeData | src/main/java/ml/karmaconfigs/remote/messaging/worker/tcp/TCPClient.java:364-368 | building the data frame succeeds exactly when DataFrame exists, and then gives it |
| TcpClient.Client.AwaitPass | src/main/java/ml/karmaconfigs/remote/messaging/worker/tcp/TCPClient.java:141-187 | one pass of the award loop leaves the fields and effects as AwaitStep says |
| TcpClient.Client.SendConnectFrame | src/main/java/ml/karmaconfigs/remote/messaging/worker/tcp/TCPClient.java:145-158 | the connect frame is written as SendConnect says |
| TcpClient.Client.TakeAccept | src/main/java/ml/karmaconfigs/remote/messaging/worker/tcp/TCPClient.java:163-182 | the accept branch leaves the fields and effects as Accept says |
| TcpClient.Client.DrainQueue | src/main/java/ml/karmaconfigs/remote/messaging/worker/tcp/TCPClient.java:168-175 | the loop over the queue leaves the fields, effects and throw as Drain says |
| TcpClient.Client.WriteEach | src/main/java/ml/karmaconfigs/remote/messaging/worker/tcp/TCPClient.java:196-203 | the loop writes exactly the drainable frames in order and leaves the rest |
| TcpClient.Client.ServePass | src/main/java/ml/karmaconfigs/remote/messaging/worker/tcp/TCPClient.java:191-265 | one pass of the operative loop leaves the fields and effects as ServeStep says |
| TcpClient.Client.Put | src/main/java/ml/karmaconfigs/remote/messaging/worker/tcp/TCPClient.java:342-354 | putting and writing a frame, or queueing it on a throw, is as Deliver says |
| TcpClient.Client.Rename | src/main/java/ml/karmaconfigs/remote/messaging/worker/tcp/TCPClient.java:334-355 | rename leaves the fields, effects and throw as RenameStep says |
| TcpClient.Client.Send | src/main/java/ml/karmaconfigs/remote/messaging/worker/tcp/TCPClient.java:362-379 | send leaves the fields, effects and throw as SendStep says |
| TcpClient.Client.Close | src/main/java/ml/karmaconfigs/remote/messaging/worker/tcp/TCPClient.java:384-401 | close leaves the fields as CloseStep says |
| TcpClient.AwaitStep | src/main/java/ml/karmaconfigs/remote/messaging/worker/tcp/TCPClient.java:141-187 | no contract; one pass of the award loop, which AwaitAccepts states for an accept |
| TcpClient.ServeStep | src/main/java/ml/karmaconfigs/remote/messaging/worker/tcp/TCPClient.java:191-265 | no contract; one pass of the operative loop, which ServeReacts states for a read of some bytes |
| TcpClient.ReactionTo | src/main/java/ml/karmaconfigs/remote/messaging/worker/tcp/TCPClient.java:204-262 | no contract; the reads and the switch of the operative loop on a reply |
| TcpClient.SendStep | src/main/java/ml/karmaconfigs/remote/messaging/worker/tcp/TCPClient.java:362-379 | no contract; send: a data frame under the client's MAC, queued when the write fails |
| TcpClient.CloseStep | src/main/java/ml/karmaconfigs/remote/messaging/worker/tcp/TCPClient.java:384-401 | no contract; close, which CloseQueues states |
| TcpClient.ConnectStep | src/main/java/ml/karmaconfigs/remote/messaging/worker/tcp/TCPClient.java:110-114 | no contract; `connect()` with no guard, which Client.Connect states |
| TcpClient.OpenStep | src/main/java/ml/karmaconfigs/remote/messaging/worker/tcp/TCPClient.java:120-135 | no contract; opening the channel and waiting for `finishConnect`, which Client.Opened states |
| TcpClient.AnswerTo | src/main/java/ml/karmaconfigs/remote/messaging/worker/tcp/TCPClient.java:160-163 | no contract; what the award loop reads in a reply, which AnswerToText, ZeroFlagIgnored, AwaitAccepts and OtherRepliesWait state |
| TcpClient.SendConnect | src/main/java/ml/karmaconfigs/remote/messaging/worker/tcp/TCPClient.java:145-158 | no contract; writing the connect frame, which ConnectSent states |
| TcpClient.Accept | src/main/java/ml/karmaconfigs/remote/messaging/worker/tcp/TCPClient.java:163-182 | no contract; an accept draining the queue, which AcceptFromQueue, AcceptAll and AcceptEffects state |
| TcpClient.React | src/main/java/ml/karmaconfigs/remote/messaging/worker/tcp/TCPClient.java:204-262 | no contract; carrying out a reaction of the operative loop, which ServeReacts states |
| TcpClient.Deliver | src/main/java/ml/karmaconfigs/remote/messaging/worker/tcp/TCPClient.java:342-354 | no contract; queueing a frame, which DeliverOnlyQueue states |
| TcpClient.RenameStep | src/main/java/ml/karmaconfigs/remote/messaging/worker/tcp/TCPClient.java:334-355 | no contract; `rename`, which CallsChangeOnlyQueue, UnguardedWrites and OverflowingRenameStops state |
| TcpClient.ConnectFrame | src/main/java/ml/karmaconfigs/remote/messaging/worker/tcp/TCPClient.java:147-151 | no contract; the connect request, which FramesAreControl states is a control frame |
| TcpClient.RenameFrame | src/main/java/ml/karmaconfigs/remote/messaging/worker/tcp/TCPClient.java:336-340 | no contract; the rename request, which FramesAreControl states is a control frame |
| TcpClient.DisconnectFrame | src/main/java/ml/karmaconfigs/remote/messaging/worker/tcp/TCPClient.java:388-392 | no contract; the disconnect request, which DisconnectIsControl states is a control frame |
| TcpClient.Drain | src/main/java/ml/karmaconfigs/remote/messaging/worker/tcp/TCPClient.java:194-203 | no contract; writing the queue until a write throws, which DrainWritesQueued and DrainAll state |
| TcpClient.Fail | src/main/java/ml/karmaconfigs/remote/messaging/worker/tcp/TCPClient.java:266-268 | no contract; the exception path of the thread, completing the future with false |
| TcpClient.LeaveAwait | src/main/java/ml/karmaconfigs/remote/messaging/worker/tcp/TCPClient.java:187-191 | no contract; leaving the award loop, completing the future with true and serving while `operative` is set |
| Sessions.TcpConnectFiled | src/main/java/ml/karmaconfigs/remote/messaging/worker/tcp/TCPServer.java:153-176 | the connect frame a TCP client writes, read whole by a TCP server that has not banned its MAC, files the client under its address with the name it asked for, makes the address a connection, and is answered with the connect event and the accept reply |
| Sessions.ConnectKeyword | src/main/java/ml/karmaconfigs/remote/messaging/worker/tcp/TCPServer.java:152-176 | any command that encodes as the connect keyword and lower-cases to connect is handled as a connect |
| Sessions.TcpRenameFiled | src/main/java/ml/karmaconfigs/remote/messaging/worker/tcp/TCPServer.java:191-215 | the rename frame of a connected TCP client renames its handle on the server and is answered with success/rename and the new name |
| Sessions.RenameKeyword | src/main/java/ml/karmaconfigs/remote/messaging/worker/tcp/TCPServer.java:191-215 | any command that encodes as the rename keyword and lower-cases to rename is handled as a rename |
| Sessions.TcpDisconnectLeaves | src/main/java/ml/karmaconfigs/remote/messaging/worker/tcp/TCPClient.java:384-395 | the disconnect frame that close queues, once written, takes a connected client off the server with the reason Client disconnect request, and nothing is written back |
| Sessions.LowerDisconnect | src/main/java/ml/karmaconfigs/remote/messaging/worker/tcp/TCPServer.java:152 | the server's toLowerCase leaves disconnect as it is |
| Sessions.DisconnectKeyword | src/main/java/ml/karmaconfigs/remote/messaging/worker/tcp/TCPServer.java:233-243 | a frame with the disconnect keyword and reason bytes removes a connected client's handle and address and fires the disconnect event |
| Sessions.ShortMacZero | src/main/java/ml/karmaconfigs/remote/messaging/worker/tcp/TCPServer.java:181 | writeUTF of a MAC shorter than 256 bytes starts with a zero byte |
| Sessions.AcceptReplyRead | src/main/java/ml/karmaconfigs/remote/messaging/worker/tcp/TCPClient.java:160-163 | the TCP server's accept reply, read by the TCP client's award loop, is an accept |
| Sessions.TcpHandshake | src/main/java/ml/karmaconfigs/remote/messaging/worker/tcp/TCPClient.java:160-182 | a TCP client waiting for its answer, whose queue can all be written, writes its queue and becomes operative on the server's accept reply |
| Sessions.MacFirstIsPlain | src/main/java/ml/karmaconfigs/remote/messaging/worker/tcp/TCPClient.java:162 | anything that starts with writeUTF of a short MAC reads in the TCP client as a false flag: no answer in the award loop, and only logged in the operative loop |
| Sessions.RenameReplyIgnored | src/main/java/ml/karmaconfigs/remote/messaging/worker/tcp/TCPClient.java:205-214 | the TCP server's success/rename reply starts with its MAC, so it never reaches the client's rename branch: the operative client changes nothing |
| Sessions.NoticesArePlain | src/main/java/ml/karmaconfigs/remote/messaging/worker/tcp/TCPServer.java:496-506 | every write of the TCP server's notify loops is a data frame under a client's MAC, which a TCP client with a short MAC only logs: a banned or kicked TCP client is not told to go |
| Sessions.DataFramePlain | src/main/java/ml/karmaconfigs/remote/messaging/worker/tcp/TCPClient.java:206 | a data frame under a short MAC, read by the TCP client, is ignored |
| Sessions.SslNoticeIsData | src/main/java/ml/karmaconfigs/remote/messaging/worker/ssl/SSLServer.java:879-894 | if an SSL ban or kick notice is read as a line (it is written without a line terminator), the SSL client treats it as plain data under the client's own MAC: delivered to the listeners when that MAC is the one recorded for the server, ignored otherwise, never a disconnect |
| Sessions.SslKickedStays | src/main/java/ml/karmaconfigs/remote/messaging/worker/ssl/SSLClient.java:365-367 | an operative SSL client that reads such a notice as a line changes no field, so it stays operative with its socket open |


## Left out

Not modelled:

- Sockets, TLS and threads. Socket and TLS setup, key stores, the accept loops and the reader threads are I/O and credential plumbing. Every read is a parameter: bytes, end of stream, or a failed read. Writes are parameters as follows. The TCP server's one reply write per pass is `channelOk`; when it throws, the rest of the pass is skipped, which for a data frame is the `ClientMessageEvent` fired after the acknowledgement. The ban, kick, redirect and broadcast loops of both servers take `failing`, the sockets whose `sendMessage` write throws, so that `sendMessage` returns false for them. The clients' writes take `writable` or `streamOk`. The SSL server's replies go through a `PrintWriter`, which swallows write errors, so they always succeed; a `getOutputStream` that throws on a socket closed during the pass is not modelled. Partial writes are not modelled.
- Concurrency. Every thread runs sequentially, one frame or one call at a time. Not modelled:
  - `ConcurrentHashMap` behaviour under concurrent access;
  - the busy-wait loops in redirect and broadcast, and the waits on `processed`;
  - the completion order of `LateScheduler` and `CompletableFuture`. A completion is an effect in the trace.
- Timers. Each one-second tick of the SSL client's disconnect countdown, which runs ten ticks, is an explicit `Tick` call. No clock is modelled.
- Static fields. The TCP workers keep their state in static fields, shared by every instance. The model has one client and one server per state value, so sharing between instances is not modelled.
- `getMAC`. It reads the network interfaces and can call `System.exit`. The local MAC is a constructor parameter.
- `getHost` on the workers, and `isConnected`. The first is a DNS lookup and the second is a socket read.
- `getServer` and `getWorkLevel` on the clients. They return fixed values and state no property.
- Serialization. `StringUtils.serialize`/`loadUnsafe`, Base64 and all of `MessagePacker` are foreign library code. A compiled SSL message is represented by the payload it encodes, and the outcome of decoding one (a payload, bad Base64, or a failed load) is a parameter.
- `MessageOutput(bytes, type)`'s affiliate is therefore a parameter, and only the given merge type is stated about it.
- `MessageInput.clone`. Its result depends on how the shaded map library treats null. That library is not part of this model.
- How `new String(bytes, UTF_8)` decodes the bytes of a TCP message. The event carries the raw bytes.
- Null values written into a `MessageDataOutput`. Its maps refuse null, so `write(key, null)` throws a `NullPointerException`, and the model's write methods take only non-null values. The one null write the core makes itself is the MAC of a handle that has none in `sendMessage`. That write is modelled as the failure it causes.
- The value of a `java.lang.Number`. A `Double`, `Long`, `BigDecimal` or any other `Number` stored with `write(key, Number)` is an uninterpreted `int` token in the model (`JNumber`, the `numbers` namespace, `WriteNumber`, `GetNumber`). Nothing in the core does arithmetic on these values or compares them; it only stores, removes, merges and returns them.
- `toString` of the handles and events.
- Logging and console output.
- Ban persistence: `exportBans` and `loadBans`. These are file I/O. After its file is read, `loadBans` is `ban` applied to each entry, and that is what `Ban` models.
- The legacy UDP transport and the factories. The UDP classes are datagram wrappers that the factories refuse, and the factories and platform interfaces only forward constructors.
- The SSL certificate location, ciphers and protocol settings. They only configure TLS.
- Event classes and `DisconnectReason`. They are plain data holders, represented as constructors of the effect trace.
- `toLowerCase` in the Turkish locale; elsewhere, only the characters that can lower-case to an ASCII letter are modelled. Those are enough for every comparison the core makes.
- A lone UTF-16 surrogate. Java strings are Dafny strings, which consist of Unicode scalar values. So `readUTF` of bytes that decode to a lone surrogate is modelled as a failed read, where Java would return a string holding it.

Members stated weaker than the source:

- TcpServer.Server.Start: states only that it reports whether binding succeeded. The selector, the channel loop and its threads are not modelled; each pass of that loop is `HandleFrame`.
- SslServer.Server.Start: states the flags and the result. The TLS setup and the threads it starts are not modelled.
- SslServer.Server.Redirect: the wait for the queue to empty is not modelled, since the queue is never filled sequentially (`SslServer` proves this).
- SslServer.Server.Broadcast: the wait for the queue to empty is not modelled, for the same reason.
