/**
 * The `java.io.DataOutput` / `DataInput` encodings the TCP workers put on
 * the wire: `writeUTF` / `readUTF` (a two-byte length followed by the
 * string's UTF-16 units in modified UTF-8), `writeBoolean` / `readBoolean`
 * and big-endian two's-complement `writeInt` / `readInt`.
 */
module JavaIo {
  import opened Common

  /** An octet on the wire, as the unsigned value 0..255. */
  newtype byte = x: int | 0 <= x < 256

  /** A Java `int`. */
  newtype int32 = x: int | -0x8000_0000 <= x < 0x8000_0000

  /** A UTF-16 code unit, i.e. a Java `char`. */
  type Unit = u: int | 0 <= u < 0x1_0000

  /** The value Java sees when it reads this octet as a (signed) `byte`. */
  function Signed(b: byte): (v: int)
    ensures -128 <= v < 128
    ensures v % 256 == b as int % 256
  {
    if b < 128 then b as int else b as int - 256
  }

  // ---------------------------------------------------------------------
  // Strings as UTF-16 units

  predicate IsHighSurrogate(u: int) { 0xD800 <= u < 0xDC00 }
  predicate IsLowSurrogate(u: int) { 0xDC00 <= u < 0xE000 }

  /** The UTF-16 units of one character: one unit, or a surrogate pair above U+FFFF. */
  function CharUnits(c: char): (us: seq<Unit>)
    ensures c as int < 0x1_0000 ==> us == [c as int]
    ensures c as int >= 0x1_0000 ==>
      |us| == 2 && IsHighSurrogate(us[0]) && IsLowSurrogate(us[1]) &&
      0x1_0000 + (us[0] as int - 0xD800) * 0x400 + (us[1] as int - 0xDC00) == c as int
  {
    var v := c as int;
    if v < 0x1_0000 then [v]
    else
      var w := v - 0x1_0000;
      [0xD800 + w / 0x400, 0xDC00 + w % 0x400]
  }

  /** The UTF-16 form of a string, as Java stores it. */
  function ToUtf16(s: string): seq<Unit>
  {
    if s == [] then [] else CharUnits(s[0]) + ToUtf16(s[1..])
  }

  /** The character a surrogate pair stands for. */
  function Pair(hi: Unit, lo: Unit): (c: char)
    requires IsHighSurrogate(hi) && IsLowSurrogate(lo)
    ensures c as int == 0x1_0000 + (hi as int - 0xD800) * 0x400 + (lo as int - 0xDC00)
  {
    (0x1_0000 + (hi as int - 0xD800) * 0x400 + (lo as int - 0xDC00)) as char
  }

  /** Prepends a decoded element to a decoding result that may have failed. */
  function Cons<T>(x: T, r: Option<seq<T>>): (res: Option<seq<T>>)
    ensures res.Some? <==> r.Some?
    ensures res.Some? ==> res.value == [x] + r.value
  {
    match r
    case None => None
    case Some(xs) => Some([x] + xs)
  }

  /**
   * The string whose UTF-16 form is `us`, pairing surrogates; a surrogate
   * without its partner has no counterpart among Dafny's characters, so it
   * makes the conversion fail.
   */
  function FromUtf16(us: seq<Unit>): Option<string>
    decreases |us|
  {
    if us == [] then Some([])
    else if IsHighSurrogate(us[0]) then
      if |us| >= 2 && IsLowSurrogate(us[1]) then
        Cons(Pair(us[0], us[1]), FromUtf16(us[2..]))
      else None
    else if IsLowSurrogate(us[0]) then None
    else Cons(us[0] as char, FromUtf16(us[1..]))
  }

  /** Converting a string to UTF-16 and back gives the string again. */
  lemma {:induction false} Utf16RoundTrip(s: string)
    ensures FromUtf16(ToUtf16(s)) == Some(s)
  {
    if s != [] {
      Utf16RoundTrip(s[1..]);
      var us := CharUnits(s[0]);
      assert ToUtf16(s) == us + ToUtf16(s[1..]);
      var all := us + ToUtf16(s[1..]);
      assert [s[0]] + s[1..] == s;
      if s[0] as int < 0x1_0000 {
        assert all[0] == s[0] as int;
        assert !IsHighSurrogate(all[0]) && !IsLowSurrogate(all[0]);
        assert all[1..] == ToUtf16(s[1..]);
        assert (all[0] as char) == s[0];
      } else {
        assert all[2..] == ToUtf16(s[1..]);
        assert Pair(all[0], all[1]) == s[0];
      }
    }
  }

  // ---------------------------------------------------------------------
  // Modified UTF-8

  /**
   * One UTF-16 unit in modified UTF-8: 0x01..0x7F as one byte, 0x00 and
   * 0x80..0x7FF as two, everything else (surrogates included) as three.
   */
  function UnitBytes(u: Unit): (bs: seq<byte>)
    ensures 1 <= |bs| <= 3
  {
    if 1 <= u <= 0x7F then [u as byte]
    else if u <= 0x7FF then [(0xC0 + u / 0x40) as byte, (0x80 + u % 0x40) as byte]
    else [(0xE0 + u / 0x1000) as byte, (0x80 + (u / 0x40) % 0x40) as byte, (0x80 + u % 0x40) as byte]
  }

  function EncodeUnits(us: seq<Unit>): (bs: seq<byte>)
    ensures |us| <= |bs| <= 3 * |us|
  {
    if us == [] then [] else UnitBytes(us[0]) + EncodeUnits(us[1..])
  }

  /** A text of ASCII characters other than NUL. */
  predicate IsAscii(s: string)
  {
    forall i :: 0 <= i < |s| ==> 1 <= s[i] as int <= 0x7F
  }

  /** Such a text's bytes: one per character, its code. */
  function AsciiBytes(s: string): seq<byte>
    requires IsAscii(s)
  {
    seq(|s|, i requires 0 <= i < |s| => s[i] as int as byte)
  }

  predicate IsContinuation(b: byte) { 0x80 <= b < 0xC0 }

  /**
   * The modified UTF-8 decoder of `DataInputStream.readUTF`: a byte whose
   * top nibble is 0..7 is a unit by itself; 12 or 13 starts a two-byte
   * group and 14 a three-byte group, whose other bytes must be 10xxxxxx;
   * a group cut short, a bad continuation byte or a top nibble of 8..11 or
   * 15 is malformed input. Over-long forms are accepted as Java does.
   */
  function DecodeUnits(bs: seq<byte>): Option<seq<Unit>>
    decreases |bs|
  {
    if bs == [] then Some([])
    else
      var c := bs[0] as int;
      if c < 0x80 then Cons(c, DecodeUnits(bs[1..]))
      else if 0xC0 <= c < 0xE0 then
        if |bs| < 2 || !IsContinuation(bs[1]) then None
        else Cons((c - 0xC0) * 0x40 + (bs[1] as int - 0x80), DecodeUnits(bs[2..]))
      else if 0xE0 <= c < 0xF0 then
        if |bs| < 3 || !IsContinuation(bs[1]) || !IsContinuation(bs[2]) then None
        else Cons((c - 0xE0) * 0x1000 + (bs[1] as int - 0x80) * 0x40 + (bs[2] as int - 0x80), DecodeUnits(bs[3..]))
      else None
  }

  lemma ThreeByteSplit(u: int)
    requires 0 <= u < 0x1_0000
    ensures u / 0x1000 < 16
    ensures (u / 0x1000) * 0x1000 + ((u / 0x40) % 0x40) * 0x40 + u % 0x40 == u
  {
    var q := u / 0x40;
    assert u == q * 0x40 + u % 0x40;
    assert q == (q / 0x40) * 0x40 + q % 0x40;
    assert q / 0x40 == u / 0x1000;
  }

  /** Decoding the bytes of one unit in front of anything else yields that unit first. */
  lemma DecodeUnitFirst(u: Unit, rest: seq<byte>)
    ensures DecodeUnits(UnitBytes(u) + rest) == Cons(u, DecodeUnits(rest))
  {
    var bs := UnitBytes(u) + rest;
    if 1 <= u <= 0x7F {
      assert bs[1..] == rest;
    } else if u <= 0x7FF {
      assert bs[2..] == rest;
    } else {
      ThreeByteSplit(u);
      assert bs[3..] == rest;
    }
  }

  /** Decoding undoes encoding. */
  lemma {:induction false} UnitsRoundTrip(us: seq<Unit>)
    ensures DecodeUnits(EncodeUnits(us)) == Some(us)
  {
    if us != [] {
      UnitsRoundTrip(us[1..]);
      DecodeUnitFirst(us[0], EncodeUnits(us[1..]));
      assert [us[0]] + us[1..] == us;
    }
  }

  // ---------------------------------------------------------------------
  // DataOutput encodings

  const MAX_UTF_LENGTH := 65535

  /**
   * The bytes `writeUTF(s)` appends: a big-endian two-byte count followed by
   * that many bytes of modified UTF-8; None when the count would exceed
   * 65535, where Java throws `UTFDataFormatException` and writes nothing.
   */
  function EncodeUTF(s: string): (r: Option<seq<byte>>)
  {
    var body := EncodeUnits(ToUtf16(s));
    if |body| > MAX_UTF_LENGTH then None
    else Some([(|body| / 256) as byte, (|body| % 256) as byte] + body)
  }

  /** `writeUTF` of a short ASCII text: its length in one byte after a zero byte, then one byte per character. */
  lemma AsciiUTF(s: string)
    requires IsAscii(s) && |s| < 256
    ensures EncodeUTF(s) == Some([0, |s| as byte] + AsciiBytes(s))
  {
    AsciiEncodes(s);
  }

  /** Modified UTF-8 writes each character of an ASCII text as the one byte of its code. */
  lemma {:induction false} AsciiEncodes(s: string)
    requires IsAscii(s)
    ensures EncodeUnits(ToUtf16(s)) == AsciiBytes(s)
    decreases |s|
  {
    if s != [] {
      AsciiEncodes(s[1..]);
      assert AsciiBytes(s) == [s[0] as int as byte] + AsciiBytes(s[1..]);
    }
  }

  /** The byte `writeBoolean(b)` appends. */
  function EncodeBoolean(b: bool): seq<byte>
  {
    [if b then 1 else 0]
  }

  /** The two's-complement value of a Java `int`, 0 .. 2^32 - 1. */
  function Unsigned32(v: int32): (u: int)
    ensures 0 <= u < 0x1_0000_0000
    ensures u % 0x1_0000_0000 == v as int % 0x1_0000_0000
  {
    if v < 0 then v as int + 0x1_0000_0000 else v as int
  }

  /** The four bytes `writeInt(v)` appends, most significant first. */
  function EncodeInt(v: int32): (r: seq<byte>)
    ensures |r| == 4
  {
    var u := Unsigned32(v);
    [(u / 0x100_0000) as byte, (u / 0x1_0000 % 0x100) as byte, (u / 0x100 % 0x100) as byte, (u % 0x100) as byte]
  }

  // ---------------------------------------------------------------------
  // DataInput over a byte array

  /** A `ByteArrayDataInput`: the array and the position of the next read. */
  datatype Reader = Reader(buf: seq<byte>, pos: nat)

  /** `readBoolean`: the next byte is true unless it is 0; None at the end of the input. */
  function ReadBoolean(r: Reader): Option<(bool, Reader)>
  {
    if r.pos + 1 > |r.buf| then None
    else Some((r.buf[r.pos] != 0, Reader(r.buf, r.pos + 1)))
  }

  /** `readInt`: four big-endian bytes as a signed 32-bit value. */
  function ReadInt(r: Reader): Option<(int32, Reader)>
  {
    if r.pos + 4 > |r.buf| then None
    else
      var u := r.buf[r.pos] as int * 0x100_0000 + r.buf[r.pos + 1] as int * 0x1_0000
             + r.buf[r.pos + 2] as int * 0x100 + r.buf[r.pos + 3] as int;
      Some(((if u >= 0x8000_0000 then u - 0x1_0000_0000 else u) as int32, Reader(r.buf, r.pos + 4)))
  }

  /**
   * `readUTF`: a two-byte count, then that many bytes decoded as modified
   * UTF-8. None where Java throws: too few bytes left for the count or the
   * body (`EOFException`), malformed input (`UTFDataFormatException`), and
   * an unpaired surrogate, which a Dafny string cannot hold.
   */
  function ReadUTF(r: Reader): Option<(string, Reader)>
  {
    if r.pos + 2 > |r.buf| then None
    else
      var len := r.buf[r.pos] as int * 256 + r.buf[r.pos + 1] as int;
      var end := r.pos + 2 + len;
      if end > |r.buf| then None
      else
        match DecodeModified(r.buf[r.pos + 2 .. end])
        case None => None
        case Some(s) => Some((s, Reader(r.buf, end)))
  }

  /** The text a body of modified UTF-8 stands for; None where `readUTF` throws. */
  function DecodeModified(body: seq<byte>): Option<string>
  {
    match DecodeUnits(body)
    case None => None
    case Some(units) => FromUtf16(units)
  }

  /** Reading the bytes of `writeBoolean(b)` yields b and moves past them. */
  lemma ReadBooleanAfterWrite(pre: seq<byte>, b: bool, rest: seq<byte>)
    ensures ReadBoolean(Reader(pre + EncodeBoolean(b) + rest, |pre|))
         == Some((b, Reader(pre + EncodeBoolean(b) + rest, |pre| + 1)))
  {
    assert (pre + EncodeBoolean(b) + rest)[|pre|] == EncodeBoolean(b)[0];
  }

  /** Reading the bytes of `writeInt(v)` yields v and moves past them. */
  lemma ReadIntAfterWrite(pre: seq<byte>, v: int32, rest: seq<byte>)
    ensures ReadInt(Reader(pre + EncodeInt(v) + rest, |pre|))
         == Some((v, Reader(pre + EncodeInt(v) + rest, |pre| + 4)))
  {
    var buf := pre + EncodeInt(v) + rest;
    var e := EncodeInt(v);
    assert buf[|pre|] == e[0] && buf[|pre| + 1] == e[1] && buf[|pre| + 2] == e[2] && buf[|pre| + 3] == e[3];
    FourByteSplit(Unsigned32(v));
  }

  lemma FourByteSplit(u: int)
    requires 0 <= u < 0x1_0000_0000
    ensures u / 0x100_0000 < 0x100
    ensures (u / 0x100_0000) * 0x100_0000 + (u / 0x1_0000 % 0x100) * 0x1_0000 + (u / 0x100 % 0x100) * 0x100 + u % 0x100 == u
  {
    var q1 := u / 0x100;
    assert u == q1 * 0x100 + u % 0x100;
    var q2 := q1 / 0x100;
    assert q1 == q2 * 0x100 + q1 % 0x100;
    assert q2 == u / 0x1_0000;
    var q3 := q2 / 0x100;
    assert q2 == q3 * 0x100 + q2 % 0x100;
    assert q3 == u / 0x100_0000;
  }

  /** Reading the bytes of `writeUTF(s)` yields s and moves past them. */
  lemma ReadUTFAfterWrite(pre: seq<byte>, s: string, w: seq<byte>, rest: seq<byte>)
    requires EncodeUTF(s) == Some(w)
    ensures ReadUTF(Reader(pre + w + rest, |pre|)) == Some((s, Reader(pre + w + rest, |pre| + |w|)))
  {
    WrittenUTF(s, w);
    ReadUTFIn(pre, w, rest, s);
  }

  /** The bytes of `writeUTF(s)`: a count of the bytes after it, and a body that decodes to s. */
  lemma WrittenUTF(s: string, w: seq<byte>)
    requires EncodeUTF(s) == Some(w)
    ensures UTFField(w, s)
  {
    var units := ToUtf16(s);
    var body := EncodeUnits(units);
    assert w == [(|body| / 256) as byte, (|body| % 256) as byte] + body;
    assert w[2..] == body;
    UnitsRoundTrip(units);
    Utf16RoundTrip(s);
  }

  /** `w` is a field `readUTF` reads as s: a count of the bytes after it, then a body that decodes to s. */
  predicate UTFField(w: seq<byte>, s: string)
  {
    |w| >= 2 && w[0] as int * 256 + w[1] as int == |w| - 2 && DecodeModified(w[2..]) == Some(s)
  }

  /** `readUTF` at the start of `w`, wherever `w` sits in the input. */
  lemma ReadUTFIn(pre: seq<byte>, w: seq<byte>, rest: seq<byte>, s: string)
    requires UTFField(w, s)
    ensures ReadUTF(Reader(pre + w + rest, |pre|)) == Some((s, Reader(pre + w + rest, |pre| + |w|)))
  {
    var buf := pre + w + rest;
    var p := |pre|;
    assert buf[p] == w[0] && buf[p + 1] == w[1];
    assert buf[p + 2 .. p + |w|] == w[2..];
    ReadUTFAt(buf, p, p + |w|, s);
  }

  /** `buf[p..q]` is a field `readUTF` reads as s: a count of the bytes after it, then a body that decodes to s. */
  predicate UTFAt(buf: seq<byte>, p: nat, q: nat, s: string)
  {
    p + 2 <= q <= |buf| && buf[p] as int * 256 + buf[p + 1] as int == q - p - 2 && DecodeModified(buf[p + 2..q]) == Some(s)
  }

  /** `readUTF` at `p` of such a field yields s and stops right after it. */
  lemma ReadUTFAt(buf: seq<byte>, p: nat, q: nat, s: string)
    requires UTFAt(buf, p, q, s)
    ensures ReadUTF(Reader(buf, p)) == Some((s, Reader(buf, q)))
  {
  }

  // ---------------------------------------------------------------------
  // ByteArrayDataOutput

  /** Guava's `ByteArrayDataOutput`: a growing byte array written field by field. */
  class ByteArrayDataOutput {
    var bytes: seq<byte>

    constructor ()
      ensures bytes == []
    {
      bytes := [];
    }

    /** `toByteArray()`: everything written so far. */
    function ToByteArray(): seq<byte>
      reads this
    {
      bytes
    }

    /** `writeUTF`; `ok` is false where Java throws, and then nothing is written. */
    method WriteUTF(s: string) returns (ok: bool)
      modifies this
      ensures ok <==> EncodeUTF(s).Some?
      ensures bytes == if ok then old(bytes) + EncodeUTF(s).value else old(bytes)
    {
      var e := EncodeUTF(s);
      ok := e.Some?;
      if ok {
        bytes := bytes + e.value;
      }
    }

    method WriteBoolean(b: bool)
      modifies this
      ensures bytes == old(bytes) + EncodeBoolean(b)
    {
      bytes := bytes + EncodeBoolean(b);
    }

    method WriteInt(v: int32)
      modifies this
      ensures bytes == old(bytes) + EncodeInt(v)
    {
      bytes := bytes + EncodeInt(v);
    }

    /** `write(byte[])`: the bytes as they are. */
    method Write(data: seq<byte>)
      modifies this
      ensures bytes == old(bytes) + data
    {
      bytes := bytes + data;
    }
  }
}
