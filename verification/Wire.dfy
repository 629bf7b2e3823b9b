/**
 * The byte-level layer of the cached metadata: base-128 varints, length-prefixed blobs, and the
 * running digest kept by both ends of the stream (model/Serializer.cc, model/Deserializer.cc).
 *
 * A digest is modelled by the exact sequence of bytes fed to it, which is what a collision-free
 * hash identifies.
 */
module Wire {

  const WORD := 0x1_0000_0000

  type Byte = b: int | 0 <= b < 256
  type UInt32 = n: int | 0 <= n < WORD

  /** The outcome of reading one item.  EndOfData is the DeserializationError (or the *eof answer);
      Overlong is a varint whose shift leaves the 32 bits of an unsigned int, undefined in C++. */
  datatype Read<+T> = Got(value: T, rest: seq<Byte>) | EndOfData | Overlong

  // ----- Specification of the format -----

  function Varint(v: UInt32): (r: seq<Byte>)
    ensures r != []
  {
    if v < 128 then [v] else [v % 128 + 128] + Varint(v / 128)
  }

  /** `bits << offset` for the offsets the reading loop goes through, before truncation. */
  function ShiftLeft(bits: nat, offset: nat): nat
    requires offset in {0, 7, 14, 21, 28}
  {
    if offset == 0 then bits
    else if offset == 7 then 0x80 * bits
    else if offset == 14 then 0x4000 * bits
    else if offset == 21 then 0x20_0000 * bits
    else 0x1000_0000 * bits
  }

  /** One pass of the reading loop per call: `val` holds the `offset` low bits seen so far, so the
      bitwise or of the source is an addition. */
  function ReadVarint(src: seq<Byte>, val: UInt32 := 0, offset: nat := 0): (r: Read<UInt32>)
    requires offset in {0, 7, 14, 21, 28, 35}
    ensures r.Got? ==> |r.rest| < |src|
    decreases |src|
  {
    if offset > 28 then Overlong
    else if src == [] then EndOfData
    else
      var next := Accumulate(val, src[0], offset);
      if src[0] >= 128 then ReadVarint(src[1..], next, offset + 7) else Got(next, src[1..])
  }

  function Accumulate(val: UInt32, b: Byte, offset: nat): UInt32
    requires offset in {0, 7, 14, 21, 28}
  {
    (val + ShiftLeft(b % 128, offset)) % WORD
  }

  /** The length is narrowed to an unsigned int on its way to the stream. */
  function Blob(data: seq<Byte>): seq<Byte> {
    Varint(|data| % WORD) + data
  }

  function ReadBlob(src: seq<Byte>): (r: Read<seq<Byte>>)
    ensures r.Got? ==> |r.value| + |r.rest| < |src|
  {
    match ReadVarint(src)
    case Got(n, rest) => if n <= |rest| then Got(rest[..n], rest[n..]) else EndOfData
    case EndOfData => EndOfData
    case Overlong => Overlong
  }

  // ----- Round trips -----

  /** Taking the low seven bits of `v` as one more group keeps the value being accumulated. */
  lemma NextGroup(v: UInt32, high: nat, low: nat, val: UInt32, offset: nat)
    requires v == 128 * high + low && low < 128 && 0 < high && offset in {0, 7, 14, 21, 28}
    requires val < ShiftLeft(1, offset) && val + ShiftLeft(v, offset) < WORD
    ensures offset < 28
    ensures Accumulate(val, low + 128, offset) == val + ShiftLeft(low, offset) < ShiftLeft(1, offset + 7)
    ensures val + ShiftLeft(v, offset) == val + ShiftLeft(low, offset) + ShiftLeft(high, offset + 7)
  {
  }

  lemma {:induction false} VarintFrom(v: UInt32, tail: seq<Byte>, val: UInt32, offset: nat)
    requires offset in {0, 7, 14, 21, 28}
    requires val < ShiftLeft(1, offset) && val + ShiftLeft(v, offset) < WORD
    ensures ReadVarint(Varint(v) + tail, val, offset) == Got(val + ShiftLeft(v, offset), tail)
    ensures 7 * |Varint(v)| <= 35 - offset
    decreases v
  {
    var src := Varint(v) + tail;
    if v < 128 {
      assert src[0] == v && src[1..] == tail;
      LastGroup(v, val, offset);
    } else {
      var high, low := v / 128, v % 128;
      NextGroup(v, high, low, val, offset);
      assert src[0] == low + 128;
      assert src[1..] == Varint(high) + tail;
      VarintFrom(high, tail, Accumulate(val, low + 128, offset), offset + 7);
    }
  }

  lemma LastGroup(v: UInt32, val: UInt32, offset: nat)
    requires v < 128 && offset in {0, 7, 14, 21, 28} && val + ShiftLeft(v, offset) < WORD
    ensures Accumulate(val, v, offset) == val + ShiftLeft(v, offset)
  {
  }

  /** Every 32-bit value survives the trip in at most five bytes, whatever follows it. */
  lemma VarintRoundTrip(v: UInt32, tail: seq<Byte>)
    ensures ReadVarint(Varint(v) + tail) == Got(v, tail)
    ensures 1 <= |Varint(v)| <= 5
  {
    VarintFrom(v, tail, 0, 0);
  }

  /** A blob survives exactly when its length fits the 32-bit prefix. */
  lemma BlobRoundTrip(data: seq<Byte>, tail: seq<Byte>)
    ensures ReadBlob(Blob(data) + tail) == Got(data, tail) <==> |data| < WORD
  {
    var n := |data| % WORD;
    VarintRoundTrip(n, data + tail);
    assert Blob(data) + tail == Varint(n) + (data + tail);
    var rest := data + tail;
    if |data| < WORD {
      assert rest[..n] == data && rest[n..] == tail;
    } else {
      assert |rest[..n]| == n < |data|;
    }
  }

  /** The number that groups of seven bits stand for, lowest group first. */
  function Number(groups: seq<Byte>): nat {
    if groups == [] then 0 else groups[0] % 128 + 128 * Number(groups[1..])
  }

  /** The encoding is the number in base 128, lowest digit first, in as few bytes as it takes; all bytes but
      the last have the top bit set. */
  lemma {:induction false} VarintIsBase128(v: UInt32)
    ensures var bytes := Varint(v);
      && Number(bytes) == v
      && (forall i :: 0 <= i < |bytes| ==> (bytes[i] >= 128 <==> i + 1 < |bytes|))
      && (|bytes| > 1 ==> bytes[|bytes| - 1] != 0)
    decreases v
  {
    if v >= 128 {
      VarintIsBase128(v / 128);
      assert Varint(v)[1..] == Varint(v / 128);
    }
  }

  /** 300 is written as AC 02. */
  lemma VarintOf300()
    ensures Varint(300) == [0xAC, 0x02]
  {
    assert Varint(2) == [2];
  }

  /** No encoding is a prefix of another: two streams that start with a varint and agree as bytes
      start with the same value. */
  lemma VarintUnambiguous(v: UInt32, w: UInt32, t: seq<Byte>, u: seq<Byte>)
    requires Varint(v) + t == Varint(w) + u
    ensures v == w && t == u
  {
    VarintRoundTrip(v, t);
    VarintRoundTrip(w, u);
  }

  // ----- The two ends of the stream -----

  /** Bytes that reach the digest: all of them while it is enabled, none otherwise. */
  function Digested(enabled: bool, bytes: seq<Byte>): seq<Byte> {
    if enabled then bytes else []
  }

  /** `rest` is what remains of `all`, and exactly the part before it has been digested. */
  ghost predicate Consumes(all: seq<Byte>, hashed: seq<Byte>, enabled: bool, rest: seq<Byte>, hashed': seq<Byte>) {
    && |rest| <= |all| && all[|all| - |rest|..] == rest
    && hashed' == hashed + Digested(enabled, all[..|all| - |rest|])
  }

  lemma ConsumesFurther(all: seq<Byte>, h0: seq<Byte>, enabled: bool, mid: seq<Byte>, h1: seq<Byte>, rest: seq<Byte>,
                        h2: seq<Byte>)
    requires Consumes(all, h0, enabled, mid, h1) && Consumes(mid, h1, enabled, rest, h2)
    ensures Consumes(all, h0, enabled, rest, h2)
  {
    assert all[..|all| - |rest|] == all[..|all| - |mid|] + mid[..|mid| - |rest|];
  }

  /** The pointer-to-id table, shared by a serializer and the serializers nested in it. */
  class ObjMap {
    var ids: map<nat, nat>
    var lastId: nat

    constructor ()
      ensures ids == map[] && lastId == 0
    {
      ids, lastId := map[], 0;
    }
  }

  class Serializer {
    var dst: seq<Byte>
    var hashed: seq<Byte>
    var digestEnabled: bool
    const objMap: ObjMap

    constructor (map0: ObjMap)
      ensures dst == [] && hashed == [] && !digestEnabled && objMap == map0
    {
      dst, hashed, digestEnabled, objMap := [], [], false, map0;
    }

    method WriteUInt(value: UInt32)
      modifies this
      ensures digestEnabled == old(digestEnabled)
      ensures dst == old(dst) + Varint(value)
      ensures hashed == old(hashed) + Digested(digestEnabled, Varint(value))
    {
      if value == 0 {
        Put(0);
        return;
      }
      var val := value;
      while val != 0
        invariant 0 <= val <= value
        invariant digestEnabled == old(digestEnabled)
        invariant val == 0 ==> dst == old(dst) + Varint(value)
        invariant val == 0 ==> hashed == old(hashed) + Digested(digestEnabled, Varint(value))
        invariant val != 0 ==> dst + Varint(val) == old(dst) + Varint(value)
        invariant val != 0 ==> hashed + Digested(digestEnabled, Varint(val))
                               == old(hashed) + Digested(digestEnabled, Varint(value))
      {
        ghost var before := val;
        var b := val % 128;
        val := val / 128;
        if val != 0 {
          b := b + 128;
        }
        assert Varint(before) == [b] + (if val != 0 then Varint(val) else []);
        assert (dst + [b]) + Varint(val) == dst + ([b] + Varint(val));
        assert (hashed + [b]) + Varint(val) == hashed + ([b] + Varint(val));
        Put(b);
      }
    }

    method Put(b: Byte)
      modifies this
      ensures digestEnabled == old(digestEnabled)
      ensures dst == old(dst) + [b]
      ensures hashed == old(hashed) + Digested(digestEnabled, [b])
    {
      dst := dst + [b];
      if digestEnabled {
        hashed := hashed + [b];
      }
    }

    method WriteBlob(data: seq<Byte>)
      modifies this
      ensures digestEnabled == old(digestEnabled)
      ensures dst == old(dst) + Blob(data)
      ensures hashed == old(hashed) + Digested(digestEnabled, Blob(data))
    {
      WriteUInt(|data| % WORD);
      dst := dst + data;
      if digestEnabled {
        hashed := hashed + data;
      }
    }

    /** True when the caller must go on and write the object's body. */
    method WriteObject(o: nat) returns (isNew: bool)
      modifies this, objMap
      ensures digestEnabled == old(digestEnabled)
      ensures isNew == (o !in old(objMap.ids))
      ensures isNew ==> objMap.ids == old(objMap.ids)[o := old(objMap.lastId)]
      ensures objMap.lastId == old(objMap.lastId) + if isNew then 1 else 0
      ensures !isNew ==> objMap.ids == old(objMap.ids)
      ensures var id := Varint((objMap.ids[o] * 2 + if isNew then 1 else 0) % WORD);
              dst == old(dst) + id && hashed == old(hashed) + Digested(digestEnabled, id)
    {
      isNew := o !in objMap.ids;
      if isNew {
        objMap.ids := objMap.ids[o := objMap.lastId];
        objMap.lastId := objMap.lastId + 1;
        WriteUInt((objMap.ids[o] * 2 + 1) % WORD);
      } else {
        WriteUInt(objMap.ids[o] * 2 % WORD);
      }
    }
  }

  class Deserializer {
    var src: seq<Byte>
    var eof: bool
    var hashed: seq<Byte>
    var digestEnabled: bool

    constructor (data: seq<Byte>)
      ensures src == data && !eof && hashed == [] && !digestEnabled
    {
      src, eof, hashed, digestEnabled := data, false, [], false;
    }

    /** Exactly the bytes consumed reach the digest.  The end of the data is noticed one byte late:
        get() first answers 0xff, which is digested and discarded. */
    method ReadUInt() returns (r: Read<UInt32>)
      modifies this
      ensures digestEnabled == old(digestEnabled)
      ensures old(eof) ==> r == EndOfData && src == old(src) && hashed == old(hashed) && eof
      ensures !old(eof) ==> r == ReadVarint(old(src))
      ensures r.Got? ==> src == r.rest && !eof && |src| < |old(src)|
      ensures r.Got? ==> Consumes(old(src), old(hashed), digestEnabled, src, hashed)
    {
      hide Accumulate, ShiftLeft;
      var b: Byte, val: UInt32, offset := 0x80, 0, 0;
      ghost var all := src;
      ghost var used := 0;
      while b >= 128
        invariant digestEnabled == old(digestEnabled)
        invariant 0 <= used <= |all| && src == all[used..]
        invariant offset in {0, 7, 14, 21, 28, 35}
        invariant old(eof) ==> eof && used == 0 && b >= 128 && hashed == old(hashed)
        invariant !old(eof) && eof ==> b >= 128 && ReadVarint(all) == EndOfData
        invariant !eof && b >= 128 ==> ReadVarint(src, val, offset) == ReadVarint(all)
        invariant b < 128 ==> ReadVarint(all) == Got(val, src) && !eof && used > 0
        invariant !eof ==> hashed == old(hashed) + Digested(digestEnabled, all[..used])
        decreases b >= 128, !eof, |src|
      {
        if eof {
          return EndOfData;
        }
        if offset > 28 {
          return Overlong;
        }
        if src == [] {
          eof := true;
          b := 255;
        } else {
          b := src[0];
          src := src[1..];
          assert all[..used + 1] == all[..used] + [b];
          used := used + 1;
        }
        if digestEnabled {
          hashed := hashed + [b];
        }
        val := Accumulate(val, b, offset);
        offset := offset + 7;
      }
      assert all[..used] == all[..|all| - |src|];
      r := Got(val, src);
    }

    method ReadBytes() returns (r: Read<seq<Byte>>)
      modifies this
      ensures digestEnabled == old(digestEnabled)
      ensures old(eof) ==> r == EndOfData
      ensures !old(eof) ==> r == ReadBlob(old(src))
      ensures r.Got? ==> src == r.rest && !eof && |src| < |old(src)|
      ensures r.Got? ==> Consumes(old(src), old(hashed), digestEnabled, src, hashed)
    {
      hide ReadVarint;
      ghost var all := src;
      var size := ReadUInt();
      match size {
        case EndOfData => return EndOfData;
        case Overlong => return Overlong;
        case Got(n, rest) =>
          ghost var start := |all| - |src|;
          if n > |src| {
            eof := true;
            return EndOfData;
          }
          var data := src[..n];
          assert all[..start + n] == all[..start] + data;
          src := src[n..];
          if digestEnabled {
            hashed := hashed + data;
          }
          r := Got(data, src);
      }
    }
  }
}
