/**
 * `DataFixer`: strips every byte whose signed value is not positive from a
 * byte array (zero padding, and every octet of 0x80 and above), keeping
 * the rest in order.
 */
module DataFixer {
  import opened JavaIo

  /** Java's `b > 0` on a signed byte. */
  predicate Kept(b: byte)
  {
    Signed(b) > 0
  }

  /** Reference definition: the bytes of `data` that are kept, in their original order. */
  function Positive(data: seq<byte>): (r: seq<byte>)
    ensures |r| <= |data|
    ensures forall i :: 0 <= i < |r| ==> Kept(r[i]) && 1 <= r[i] <= 127
  {
    if data == [] then []
    else if Kept(data[0]) then [data[0]] + Positive(data[1..])
    else Positive(data[1..])
  }

  /** Filtering distributes over concatenation, so the relative order of kept bytes is preserved. */
  lemma {:induction false} PositiveAppend(a: seq<byte>, b: seq<byte>)
    ensures Positive(a + b) == Positive(a) + Positive(b)
  {
    if a != [] {
      PositiveAppend(a[1..], b);
      assert (a + b)[1..] == a[1..] + b;
    } else {
      assert a + b == b;
    }
  }

  /** Every kept byte survives with its multiplicity and every other byte is gone. */
  lemma {:induction false} PositiveCounts(data: seq<byte>, b: byte)
    ensures multiset(Positive(data))[b] == if Kept(b) then multiset(data)[b] else 0
  {
    if data != [] {
      PositiveCounts(data[1..], b);
      assert data == [data[0]] + data[1..];
      assert multiset(data) == multiset([data[0]]) + multiset(data[1..]);
    }
  }

  /** Data that is already clean passes unchanged. */
  lemma {:induction false} PositiveOfClean(data: seq<byte>)
    requires forall i :: 0 <= i < |data| ==> Kept(data[i])
    ensures Positive(data) == data
  {
    if data != [] {
      PositiveOfClean(data[1..]);
      assert [data[0]] + data[1..] == data;
    }
  }

  /** Fixing twice is fixing once. */
  lemma PositiveIdempotent(data: seq<byte>)
    ensures Positive(Positive(data)) == Positive(data)
  {
    PositiveOfClean(Positive(data));
  }

  /**
   * `fixByteData`: the first loop collects the kept bytes into a list, the
   * second copies the list into a new array of exactly its size.
   */
  method FixByteData(data: seq<byte>) returns (fixed: seq<byte>)
    ensures fixed == Positive(data)
  {
    var byteList: seq<byte> := [];
    for i := 0 to |data|
      invariant byteList == Positive(data[..i])
    {
      PositiveAppend(data[..i], [data[i]]);
      assert data[..i + 1] == data[..i] + [data[i]];
      if Signed(data[i]) > 0 {
        byteList := byteList + [data[i]];
      }
    }
    assert data[..|data|] == data;
    var arr := new byte[|byteList|];
    for i := 0 to arr.Length
      invariant arr[..i] == byteList[..i]
    {
      arr[i] := byteList[i];
    }
    assert arr[..] == arr[..arr.Length];
    fixed := arr[..];
  }

  /** A `java.nio.ByteBuffer` over a backing array, with its position and limit. */
  datatype ByteBuffer = ByteBuffer(backing: seq<byte>, position: nat, limit: nat)

  /**
   * `fixBuffer`: fixes the WHOLE backing array, whatever the buffer's
   * position and limit, and wraps the result in a new buffer.
   */
  method FixBuffer(original: ByteBuffer) returns (r: ByteBuffer)
    ensures r.backing == Positive(original.backing)
    ensures r.position == 0 && r.limit == |r.backing|
  {
    var tmp := original.backing;
    var fixed := FixByteData(tmp);
    r := ByteBuffer(fixed, 0, |fixed|);
  }
}
