/** Length-prefixed messages (util/protolib.py).

Each message is written as the base 128 varint of its length followed by its bytes; see
the section "Base 128 Varints" of the Protocol Buffers Encoding specification.  Messages
are their serialized bytes.
 */
module Framing {
  import opened Arith
  import opened Bits

  type Byte = b: int | 0 <= b < 256

  const TWO32 := 0x1_0000_0000
  const TWO63 := 0x8000_0000_0000_0000
  const TWO64 := 0x1_0000_0000_0000_0000

  // ---- Specification ----

  function Encode(v: nat): (bytes: seq<Byte>)
    ensures bytes != []
  {
    if v < 128 then [v] else [128 + v % 128] + Encode(v / 128)
  }

  /** What the decoder makes of the number it has assembled: the low 32 bits, taken as
      negative if the number did not fit a signed 64-bit integer. */
  function Narrow(v: nat): int {
    if v < TWO63 then v % TWO32 else v % TWO32 - TWO32
  }

  /** `Varint(value, next)` ends before position `next`. */
  datatype Read = EndOfFile | TooLong | Varint(value: int, next: nat)

  function Decode(data: seq<Byte>, pos: nat, shift: nat, result: nat): Read
    requires pos <= |data|
    decreases |data| - pos
  {
    if pos == |data| then EndOfFile
    else
      var b := data[pos];
      var r := result + Shl(b % 128, shift);
      if b < 128 then Varint(Narrow(r), pos + 1)
      else if shift + 7 >= 64 then TooLong
      else Decode(data, pos + 1, shift + 7, r)
  }

  /** The bytes a file read of `size` returns: everything left if `size` is negative. */
  function Take(data: seq<Byte>, pos: nat, size: int): seq<Byte>
    requires pos <= |data|
  {
    if size < 0 || pos + size > |data| then data[pos..] else data[pos..pos + size]
  }

  datatype Message = NoMessage | Message(bytes: seq<Byte>, next: nat)

  function DecodeMessage(data: seq<Byte>, pos: nat): (m: Message)
    requires pos <= |data|
    ensures m.Message? ==> pos < m.next <= |data|
  {
    var r := Decode(data, pos, 0, 0);
    DecodeAdvances(data, pos, 0, 0);
    if r.Varint? && r.value != 0 then
      var bytes := Take(data, r.next, r.value);
      Message(bytes, r.next + |bytes|)
    else NoMessage
  }

  lemma {:induction false} DecodeAdvances(data: seq<Byte>, pos: nat, shift: nat, result: nat)
    requires pos <= |data| && shift < 64
    ensures
      var r := Decode(data, pos, shift, result);
      && (r.Varint? ==> pos < r.next <= |data|)
      && (r.TooLong? ==> pos + (70 - shift) / 7 <= |data|)
    decreases |data| - pos
  {
    if pos < |data| && data[pos] >= 128 && shift + 7 < 64 {
      DecodeAdvances(data, pos + 1, shift + 7, result + Shl(data[pos] % 128, shift));
    }
  }

  /** Where reading stops: at the end of the file, or after ten bytes, or after the varint. */
  function AfterVarint(data: seq<Byte>, pos: nat, r: Read): nat {
    match r
    case EndOfFile => |data|
    case TooLong => pos + 10
    case Varint(_, next) => next
  }

  /** Where an attempt to read a message stops. */
  function AfterMessage(data: seq<Byte>, pos: nat): (next: nat)
    requires pos <= |data|
    ensures next <= |data|
  {
    DecodeAdvances(data, pos, 0, 0);
    match DecodeMessage(data, pos)
    case Message(_, next) => next
    case NoMessage => AfterVarint(data, pos, Decode(data, pos, 0, 0))
  }

  /** Decoding messages until there is none. */
  function DecodeAll(data: seq<Byte>, pos: nat): seq<seq<Byte>>
    requires pos <= |data|
    decreases |data| - pos
  {
    match DecodeMessage(data, pos)
    case NoMessage => []
    case Message(bytes, next) => [bytes] + DecodeAll(data, next)
  }

  function Frame(m: seq<Byte>): seq<Byte> {
    Encode(|m|) + m
  }

  function EncodeAll(ms: seq<seq<Byte>>): seq<Byte> {
    if ms == [] then [] else Frame(ms[0]) + EncodeAll(ms[1..])
  }

  // ---- The scripts' loops ----

  /** An open file: its bytes and the position to read from. */
  class File {
    var data: seq<Byte>
    var pos: nat

    ghost predicate Valid()
      reads this
    {
      pos <= |data|
    }

    constructor (data: seq<Byte>)
      ensures Valid() && this.data == data && pos == 0
    {
      this.data, pos := data, 0;
    }

    method ReadBytes(size: int) returns (bytes: seq<Byte>)
      requires Valid()
      modifies this`pos
      ensures Valid() && bytes == Take(data, old(pos), size) && pos == old(pos) + |bytes|
    {
      bytes := Take(data, pos, size);
      pos := pos + |bytes|;
    }

    method Write(bytes: seq<Byte>)
      modifies this`data
      ensures data == old(data) + bytes
    {
      data := data + bytes;
    }
  }

  lemma Pow2Values()
    ensures Pow2(7) == 128 && Pow2(32) == TWO32
  {
    assert Pow2(4) == 16;
    assert Pow2(8) == 256;
    Pow2Add(8, 8);
    Pow2Add(16, 16);
  }

  lemma LowBits(v: nat)
    ensures BitAnd(v, 0x7F) == v % 128
  {
    Pow2Values();
    AndLowMask(v, 7);
  }

  lemma Continued(bits: nat)
    requires bits < 128
    ensures BitOr(bits, 0x80) == 128 + bits
  {
    Pow2Values();
    OrDisjoint(bits, 1, 7);
    ShlIsMul(1, 7);
  }

  lemma EncodeStep(v: nat, bits: nat)
    requires v > 0 && bits < 128
    ensures Encode(128 * v + bits) == [128 + bits] + Encode(v)
  {
    DivModUnique(128 * v + bits, 128, v, bits);
  }

  lemma NarrowLow(v: nat)
    ensures BitAnd(v, 0xFFFF_FFFF) == v % TWO32
  {
    Pow2Values();
    AndLowMask(v, 32);
  }

  lemma NarrowHigh(v: nat)
    ensures BitOr(v - TWO64, 0 - TWO32) == v % TWO32 - TWO32
  {
    Pow2Values();
    OrHighMask(v - TWO64, 32);
    assert v == v / TWO32 * TWO32 + v % TWO32;
    ModUnique(v - TWO64, TWO32, v / TWO32 - TWO32, v % TWO32);
  }

  /** `_EncodeVarint32`. */
  method EncodeVarint32(out: File, value: nat)
    modifies out`data
    ensures out.data == old(out.data) + Encode(value)
  {
    var bits: nat, v: nat := LowSeven(value), value / 128;
    ghost var before, rest := out.data, value;
    while v != 0
      invariant bits < 128 && rest == 128 * v + bits
      invariant out.data + Encode(rest) == before + Encode(value)
    {
      EncodeStep(v, bits);
      AppendFirst(out.data, 128 + bits, Encode(v));
      Continued(bits);
      out.Write([BitOr(bits, 0x80)]);
      rest := v;
      bits, v := LowSeven(v), v / 128;
    }
    out.Write([bits]);
  }

  /** The low seven bits. */
  function LowSeven(v: nat): (bits: nat)
    ensures bits == v % 128
  {
    LowBits(v);
    BitAnd(v, 0x7F)
  }

  lemma AppendFirst(data: seq<Byte>, b: Byte, rest: seq<Byte>)
    ensures data + ([b] + rest) == data + [b] + rest
  {
  }

  method EncodeMessage(out: File, message: seq<Byte>)
    modifies out`data
    ensures out.data == old(out.data) + Frame(message)
  {
    EncodeVarint32(out, |message|);
    out.Write(message);
    assert old(out.data) + Encode(|message|) + message == old(out.data) + (Encode(|message|) + message);
  }

  lemma AccumulateBits(result: nat, b: Byte, shift: nat)
    requires result < Pow2(shift)
    ensures BitOr(result, Shl(b % 128, shift)) == result + Shl(b % 128, shift) < Pow2(shift + 7)
    ensures BitAnd(b, 0x7F) == b % 128
    ensures BitAnd(b, 0x80) == 0 <==> b < 128
  {
    LowBits(b);
    OrDisjoint(result, b % 128, shift);
    ShlIsMul(b % 128, shift);
    Pow2Values();
    Pow2Add(7, shift);
    MulMono(b % 128, 127, Pow2(shift));
    TopBit(b);
  }

  lemma TopBit(b: Byte)
    ensures BitAnd(b, 0x80) == 0 <==> b < 128
  {
    Pow2Values();
    AndTopBit(b, 7);
  }

  /** The two ways of narrowing, as the script writes them. */
  lemma NarrowedBits(v: nat)
    ensures v > 0x7FFF_FFFF_FFFF_FFFF ==> BitOr(v - TWO64, 0 - TWO32) == Narrow(v)
    ensures v <= 0x7FFF_FFFF_FFFF_FFFF ==> BitAnd(v, 0xFFFF_FFFF) == Narrow(v)
  {
    NarrowLow(v);
    NarrowHigh(v);
  }

  method NarrowValue(v: nat) returns (value: int)
    ensures value == Narrow(v)
  {
    NarrowedBits(v);
    value := if v > 0x7FFF_FFFF_FFFF_FFFF then BitOr(v - TWO64, 0 - TWO32) else BitAnd(v, 0xFFFF_FFFF);
  }

  /** One byte of a varint: its bits, and whether it is the last. */
  method AddBits(result: nat, b: Byte, shift: nat) returns (more: nat, last: bool)
    requires result < Pow2(shift)
    ensures more == result + Shl(b % 128, shift) < Pow2(shift + 7)
    ensures last <==> b < 128
  {
    AccumulateBits(result, b, shift);
    more, last := BitOr(result, Shl(BitAnd(b, 0x7F), shift)), BitAnd(b, 0x80) == 0;
  }

  /** `_DecodeVarint32`.  The loop ends after at most ten bytes. */
  method DecodeVarint32(f: File) returns (r: Read)
    requires f.Valid()
    modifies f`pos
    ensures f.Valid() && r == Decode(f.data, old(f.pos), 0, 0)
    ensures f.pos <= old(f.pos) + 10
    ensures f.pos == AfterVarint(f.data, old(f.pos), r)
  {
    var result: nat, shift: nat := 0, 0;
    while true
      invariant f.Valid() && old(f.pos) <= f.pos
      invariant shift == 7 * (f.pos - old(f.pos)) && shift < 64
      invariant result < Pow2(shift)
      invariant Decode(f.data, f.pos, shift, result) == Decode(f.data, old(f.pos), 0, 0)
      decreases |f.data| - f.pos
    {
      var c := f.ReadBytes(1);
      if |c| == 0 {
        return EndOfFile;
      }
      var last;
      result, last := AddBits(result, c[0], shift);
      if last {
        var value := NarrowValue(result);
        return Varint(value, f.pos);
      }
      shift := shift + 7;
      if shift >= 64 {
        return TooLong;
      }
    }
  }

  /** `decodeMessage`: end of file, a zero length and an overlong length all mean that
      there is no message. */
  method ReadMessage(f: File) returns (m: Message)
    requires f.Valid()
    modifies f`pos
    ensures f.Valid() && m == DecodeMessage(f.data, old(f.pos))
    ensures f.pos == AfterMessage(f.data, old(f.pos))
  {
    var r := DecodeVarint32(f);
    if !r.Varint? || r.value == 0 {
      return NoMessage;
    }
    var bytes := f.ReadBytes(r.value);
    m := Message(bytes, f.pos);
  }

  // ---- A varint decodes to itself ----

  const TWO70 := 0x40_0000_0000_0000_0000

  lemma {:induction false} ShlSplit(v: nat, shift: nat)
    ensures Shl(v % 128, shift) + Shl(v / 128, shift + 7) == Shl(v, shift)
  {
    if shift == 0 {
      ShlIsMul(v / 128, 7);
      Pow2Values();
    } else {
      ShlSplit(v, shift - 1);
    }
  }

  /** Decoding reads exactly the encoding, if it is short enough. */
  lemma {:induction false} DecodeEncoded(data: seq<Byte>, pos: nat, shift: nat, result: nat, v: nat)
    requires pos + |Encode(v)| <= |data| && data[pos..pos + |Encode(v)|] == Encode(v) && shift < 64
    ensures Decode(data, pos, shift, result)
         == if shift + 7 * (|Encode(v)| - 1) < 64
            then Varint(Narrow(result + Shl(v, shift)), pos + |Encode(v)|) else TooLong
    decreases v
  {
    var e := Encode(v);
    assert data[pos] == e[0];
    if v >= 128 {
      var rest := Encode(v / 128);
      assert e[1..] == rest && data[pos + 1..pos + 1 + |rest|] == data[pos..pos + |e|][1..];
      assert (128 + v % 128) % 128 == v % 128;
      if shift + 7 < 64 {
        DecodeEncoded(data, pos + 1, shift + 7, result + Shl(v % 128, shift), v / 128);
        ShlSplit(v, shift);
      }
    }
  }

  lemma {:induction false} EncodeLength(v: nat, n: nat)
    requires n >= 1
    ensures |Encode(v)| <= n <==> v < Pow2(7 * n)
    decreases n
  {
    Pow2Values();
    if n == 1 {
      assert v >= 128 ==> Encode(v / 128) != [];
    } else {
      Pow2Add(7, 7 * (n - 1));
      var p := Pow2(7 * (n - 1));
      assert Pow2(7 * n) == 128 * p;
      if v < 128 {
        MulMono(1, p, 128);
      } else {
        EncodeLength(v / 128, n - 1);
        DivLess(v, 128, p);
      }
    }
  }

  lemma DivLess(v: nat, s: nat, p: nat)
    requires s > 0
    ensures v / s < p <==> v < s * p
  {
    assert v == v / s * s + v % s;
    if v / s < p {
      MulMono(v / s + 1, p, s);
    } else {
      MulMono(p, v / s, s);
    }
  }

  lemma Pow70()
    ensures Pow2(70) == TWO70
  {
    Pow2Values();
    Pow2Add(32, 32);
    assert Pow2(6) == 64;
    Pow2Add(64, 6);
  }

  lemma DecodeLength(data: seq<Byte>, pos: nat, v: nat)
    requires pos + |Encode(v)| <= |data| && data[pos..pos + |Encode(v)|] == Encode(v)
    ensures Decode(data, pos, 0, 0) == if v < TWO70 then Varint(Narrow(v), pos + |Encode(v)|) else TooLong
  {
    DecodeEncoded(data, pos, 0, 0, v);
    EncodeLength(v, 10);
    Pow70();
  }

  /** The number that seven bits of each byte make up, the lowest first. */
  function Base128(bytes: seq<Byte>): nat {
    if bytes == [] then 0 else bytes[0] % 128 + 128 * Base128(bytes[1..])
  }

  /** The encoding is the base 128 varint of the number: its digits from the lowest on, all but
      the last with the top bit set, and no more of them than needed. */
  lemma {:induction false} EncodeMeans(v: nat)
    ensures
      var e := Encode(v);
      && Base128(e) == v
      && (forall k :: 0 <= k < |e| - 1 ==> e[k] >= 128)
      && e[|e| - 1] < 128
      && (|e| > 1 ==> e[|e| - 1] > 0)
  {
    if v >= 128 {
      EncodeMeans(v / 128);
      var e, rest := Encode(v), Encode(v / 128);
      assert e[1..] == rest;
      assert forall k :: 1 <= k < |e| ==> e[k] == rest[k - 1];
    }
  }

  // ---- A sequence of messages ----

  /** The lengths that survive: non-empty and below 4 GiB.  A last message so long that its
      length turns negative is read to the end of the file, so it survives too. */
  predicate Survives(length: nat, last: bool) {
    0 < length < TWO32 || (last && TWO63 <= length < TWO70)
  }

  predicate Framable(ms: seq<seq<Byte>>) {
    ms != [] ==> Survives(|ms[0]|, |ms| == 1) && Framable(ms[1..])
  }

  /** What is read when a message of length `length` should start at `at`. */
  function MessageAt(data: seq<Byte>, at: nat, length: nat): Message
    requires at <= |data|
  {
    if length >= TWO70 || Narrow(length) == 0 then NoMessage
    else var bytes := Take(data, at, Narrow(length)); Message(bytes, at + |bytes|)
  }

  lemma FirstMessage(data: seq<Byte>, pos: nat, m: seq<Byte>, rest: seq<Byte>) returns (at: nat)
    requires pos <= |data| && data[pos..] == Encode(|m|) + m + rest
    ensures at <= |data| && data[at..] == m + rest
    ensures DecodeMessage(data, pos) == MessageAt(data, at, |m|)
  {
    var e := Encode(|m|);
    at := pos + |e|;
    assert data[pos..at] == data[pos..][..|e|] == e;
    assert data[at..] == data[pos..][|e|..] == m + rest;
    DecodeLength(data, pos, |m|);
  }

  lemma NarrowCases(v: nat)
    ensures v < TWO32 ==> Narrow(v) == v
    ensures TWO32 <= v < TWO63 ==> 0 <= Narrow(v) < TWO32
    ensures TWO63 <= v ==> Narrow(v) < 0
  {
  }

  lemma TakeShort(data: seq<Byte>, at: nat, m: seq<Byte>, rest: seq<Byte>, size: nat)
    requires at <= |data| && data[at..] == m + rest && size <= |m|
    ensures Take(data, at, size) == m[..size] && (size == |m| ==> data[at + size..] == rest)
  {
    assert data[at..at + size] == data[at..][..size];
    assert data[at + size..] == data[at..][size..];
  }

  /** A surviving message is read back and leaves the rest of the file. */
  lemma ReadsBack(data: seq<Byte>, at: nat, m: seq<Byte>, rest: seq<Byte>)
    requires at <= |data| && data[at..] == m + rest && Survives(|m|, rest == [])
    ensures
      var d := MessageAt(data, at, |m|);
      d.Message? && d.bytes == m && d.next <= |data| && data[d.next..] == rest
  {
    NarrowCases(|m|);
    if |m| < TWO32 {
      TakeShort(data, at, m, rest, |m|);
    }
  }

  /** Any other message is not. */
  lemma Mangled(data: seq<Byte>, at: nat, m: seq<Byte>, rest: seq<Byte>)
    requires at <= |data| && data[at..] == m + rest && !Survives(|m|, rest == [])
    ensures var d := MessageAt(data, at, |m|); d.Message? ==> d.bytes != m
  {
    NarrowCases(|m|);
    if TWO32 <= |m| < TWO63 {
      TakeShort(data, at, m, rest, Narrow(|m|));
    }
  }

  lemma {:induction false} DecodesFrom(data: seq<Byte>, pos: nat, ms: seq<seq<Byte>>)
    requires pos <= |data| && data[pos..] == EncodeAll(ms)
    ensures DecodeAll(data, pos) == ms <==> Framable(ms)
    decreases |ms|
  {
    if ms == [] {
    } else {
      var m, rest := ms[0], EncodeAll(ms[1..]);
      assert data[pos..] == Encode(|m|) + m + rest;
      assert |ms| > 1 ==> rest != [];
      var at := FirstMessage(data, pos, m, rest);
      var d := MessageAt(data, at, |m|);
      if Survives(|m|, rest == []) {
        ReadsBack(data, at, m, rest);
        DecodesFrom(data, d.next, ms[1..]);
        assert ([m] + DecodeAll(data, d.next))[1..] == DecodeAll(data, d.next);
        assert ms == [m] + ms[1..];
      } else {
        Mangled(data, at, m, rest);
      }
    }
  }

  /** Writing messages and decoding until there are none returns exactly those messages if
      and only if every length survives. */
  lemma RoundTripExactly(ms: seq<seq<Byte>>)
    ensures DecodeAll(EncodeAll(ms), 0) == ms <==> Framable(ms)
  {
    assert EncodeAll(ms)[0..] == EncodeAll(ms);
    DecodesFrom(EncodeAll(ms), 0, ms);
  }

  lemma {:induction false} OrdinaryMessages(ms: seq<seq<Byte>>)
    requires forall m <- ms :: 0 < |m| < TWO32
    ensures DecodeAll(EncodeAll(ms), 0) == ms
  {
    OrdinaryFramable(ms);
    RoundTripExactly(ms);
  }

  lemma {:induction false} OrdinaryFramable(ms: seq<seq<Byte>>)
    requires forall m <- ms :: 0 < |m| < TWO32
    ensures Framable(ms)
  {
    if ms == [] {
    } else {
      assert ms[0] in ms;
      OrdinaryFramable(ms[1..]);
    }
  }
}
