/** Vendor TLVs on the wire: the framing of section 3.2.4.1 of SMPP v3.4 (tag and length, two octets each,
    then the body), and the connector rules a message is held to before it is sent. */
module TlvCodec {
  import opened Basics
  import opened Numerals
  import opened Octets
  import opened TlvRules

  datatype Value = Bytes(bytes: seq<byte>) | Number(n: int) | Text(text: string)

  /** A TLV as a Python tuple of four or more, three, two, one or no items. */
  datatype Tlv =
    | Full(tag: int, kind: Option<TlvType>, value: Value)
    | Typed(tag: int, kind: Option<TlvType>, value: Value)
    | Plain(tag: int, value: Value)
    | Bare(tag: int)
    | Empty

  /** A failing conversion: the ValueError or struct.error of the original. */
  datatype Outcome<+T> = Returns(value: T) | Raises

  type Frame = (int, seq<byte>)

  /** `int(tag) & 0xFFFF` */
  function Masked(tag: int): nat { tag % 65536 }

  // ---- Bodies ----

  function Power256(w: nat): nat { if w == 0 then 1 else 256 * Power256(w - 1) }

  /** `struct.pack` of an unsigned big-endian integer of `w` octets. */
  function BigEndian(n: nat, w: nat): (r: seq<byte>)
    ensures |r| == w
  {
    if w == 0 then [] else BigEndian(n / 256, w - 1) + [n % 256]
  }

  /** `int.from_bytes(bytes, 'big')` */
  function FromBigEndian(bytes: seq<byte>): nat {
    if bytes == [] then 0 else FromBigEndian(bytes[..|bytes| - 1]) * 256 + bytes[|bytes| - 1]
  }

  function Width(t: TlvType): nat {
    match t
    case Int1 => 1
    case Int2 => 2
    case Int4 => 4
    case Int8 => 8
    case _ => 0
  }

  function Utf8Char(c: char): seq<byte> {
    var u := c as int;
    if u < 0x80 then [u]
    else if u < 0x800 then [0xC0 + u / 0x40, 0x80 + u % 0x40]
    else if u < 0x10000 then [0xE0 + u / 0x1000, 0x80 + u / 0x40 % 0x40, 0x80 + u % 0x40]
    else [0xF0 + u / 0x40000, 0x80 + u / 0x1000 % 0x40, 0x80 + u / 0x40 % 0x40, 0x80 + u % 0x40]
  }

  function Utf8(s: string): seq<byte> {
    if s == [] then [] else Utf8(s[..|s| - 1]) + Utf8Char(s[|s| - 1])
  }

  /** `int(value)` */
  function AsInt(v: Value): Option<int> {
    match v
    case Number(n) => Some(n)
    case Text(t) => ParseInt(t, 10)
    case Bytes(_) => None
  }

  /** `str(value)`, as octets */
  function AsText(v: Value): seq<byte> {
    match v
    case Number(n) => Utf8(Format(n, 10, false))
    case Text(t) => Utf8(t)
    case Bytes(b) => b
  }

  /** `encode_tlv_value` */
  function Body(v: Value, kind: Option<TlvType>): Outcome<seq<byte>> {
    if v.Bytes? then Returns(v.bytes)
    else if kind.Some? && Width(kind.value) > 0 then
      var n := AsInt(v);
      if n.Some? && 0 <= n.value < Power256(Width(kind.value))
      then Returns(BigEndian(n.value, Width(kind.value)))
      else Raises
    else if kind == Some(COctetString) then Returns(AsText(v) + [0])
    else Returns(AsText(v))
  }

  lemma {:induction false} BigEndianRoundTrip(n: nat, w: nat)
    requires n < Power256(w)
    ensures FromBigEndian(BigEndian(n, w)) == n
  {
    if w > 0 {
      BigEndianRoundTrip(n / 256, w - 1);
      assert BigEndian(n, w)[..w - 1] == BigEndian(n / 256, w - 1);
    }
  }

  lemma {:induction false} BigEndianInverse(bytes: seq<byte>)
    ensures FromBigEndian(bytes) < Power256(|bytes|)
    ensures BigEndian(FromBigEndian(bytes), |bytes|) == bytes
  {
    if bytes != [] {
      BigEndianInverse(bytes[..|bytes| - 1]);
      assert bytes == bytes[..|bytes| - 1] + [bytes[|bytes| - 1]];
    }
  }

  predicate IsInteger(kind: TlvType) { kind in {Int1, Int2, Int4, Int8} }

  /** The integers of each type end here. */
  function Bound(kind: TlvType): nat {
    match kind
    case Int1 => 0x100
    case Int2 => 0x1_0000
    case Int4 => 0x1_0000_0000
    case Int8 => 0x1_0000_0000_0000_0000
    case _ => 0
  }

  lemma Powers()
    ensures Power256(1) == 0x100 && Power256(2) == 0x1_0000 && Power256(4) == 0x1_0000_0000
    ensures Power256(8) == 0x1_0000_0000_0000_0000
  {
    assert Power256(3) == 256 * Power256(2) && Power256(5) == 256 * Power256(4);
    assert Power256(7) == 256 * Power256(6) && Power256(6) == 256 * Power256(5);
  }

  /** An integer body has one, two, four or eight octets, as its type says, and is read back as the
      integer; a body is produced exactly for the integers that fit. */
  lemma IntegerBody(n: int, kind: TlvType)
    requires IsInteger(kind)
    ensures Body(Number(n), Some(kind)).Returns? <==> 0 <= n < Bound(kind)
    ensures Body(Number(n), Some(kind)).Returns? ==>
              var b := Body(Number(n), Some(kind)).value;
              && |b| == (match kind case Int1 => 1 case Int2 => 2 case Int4 => 4 case _ => 8)
              && FromBigEndian(b) == n
  {
    Powers();
    if 0 <= n < Bound(kind) { BigEndianRoundTrip(n, Width(kind)); }
  }

  /** The first octet is the highest. */
  lemma {:induction false} HighestFirst(high: byte, rest: seq<byte>)
    ensures FromBigEndian([high] + rest) == high * Power256(|rest|) + FromBigEndian(rest)
  {
    if rest == [] {
      assert [high] + rest == [high] && [high][..0] == [];
      assert FromBigEndian([high]) == FromBigEndian([high][..0]) * 256 + high;
    } else {
      var n := |rest| - 1;
      HighestFirst(high, rest[..n]);
      assert ([high] + rest)[..|rest|] == [high] + rest[..n];
      assert high * Power256(|rest|) == (high * Power256(n)) * 256;
    }
  }

  /** Octets are taken as they are, whatever the type; text and numbers are written in UTF-8, with a NUL behind them
      for a COctetString; and an integer may be given as the text of one. */
  lemma OtherBodies(bytes: seq<byte>, text: string, n: int, kind: Option<TlvType>)
    ensures Body(Bytes(bytes), kind) == Returns(bytes)
    ensures kind.None? || kind.value.OctetString? ==>
              && Body(Text(text), kind) == Returns(Utf8(text))
              && Body(Number(n), kind) == Returns(Utf8(Format(n, 10, false)))
    ensures kind == Some(COctetString) ==>
              && Body(Text(text), kind) == Returns(Utf8(text) + [0])
              && Body(Number(n), kind) == Returns(Utf8(Format(n, 10, false)) + [0])
    ensures kind.Some? && IsInteger(kind.value) ==>
              Body(Text(text), kind) ==
              if ParseInt(text, 10).Some? then Body(Number(ParseInt(text, 10).value), kind) else Raises
  {
  }

  /** The character that one to four octets stand for in UTF-8 (section 3 of RFC 3629): the first tells how many they
      are, the others start with the bits 10, and the remaining bits are those of the character. */
  function Utf8Value(r: seq<byte>): Option<int> {
    if |r| == 1 && r[0] < 0x80 then Some(r[0])
    else if |r| == 2 && 0xC0 <= r[0] < 0xE0 && Continues(r[1]) then Some((r[0] - 0xC0) as int * 0x40 + Low(r[1]))
    else if |r| == 3 && 0xE0 <= r[0] < 0xF0 && Continues(r[1]) && Continues(r[2]) then
      Some((r[0] - 0xE0) as int * 0x1000 + Low(r[1]) * 0x40 + Low(r[2]))
    else if |r| == 4 && 0xF0 <= r[0] < 0xF8 && Continues(r[1]) && Continues(r[2]) && Continues(r[3]) then
      Some((r[0] - 0xF0) as int * 0x40000 + Low(r[1]) * 0x1000 + Low(r[2]) * 0x40 + Low(r[3]))
    else None
  }

  predicate Continues(b: byte) { 0x80 <= b < 0xC0 }

  function Low(b: byte): int { b as int - 0x80 }

  lemma InSixes(u: nat)
    ensures u == u / 0x40 * 0x40 + u % 0x40
    ensures u / 0x1000 == u / 0x40 / 0x40 && u / 0x40000 == u / 0x1000 / 0x40
  {
  }

  /** Each character is written as the fewest octets that stand for it. */
  lemma Utf8RoundTrip(c: char)
    ensures Utf8Value(Utf8Char(c)) == Some(c as int)
    ensures var u := c as int;
            |Utf8Char(c)| == if u < 0x80 then 1 else if u < 0x800 then 2 else if u < 0x10000 then 3 else 4
  {
    var u := c as int;
    InSixes(u);
    InSixes(u / 0x40);
    InSixes(u / 0x1000);
  }

  // ---- Framing ----

  /** What a tuple puts on the wire; tuples of fewer than two items are skipped. */
  function FrameOf(t: Tlv): Outcome<seq<Frame>> {
    if t.Bare? || t.Empty? then Returns([])
    else
      var body := Body(t.value, if t.Plain? then None else t.kind);
      if body.Raises? || |body.value| > 65535 then Raises
      else Returns([(Masked(t.tag), body.value)])
  }

  /** A tuple of three is one of four without its length, a pair is one without a type, and shorter ones leave
      nothing. */
  lemma TupleShapes(tag: int, kind: Option<TlvType>, v: Value)
    ensures FrameOf(Typed(tag, kind, v)) == FrameOf(Full(tag, kind, v))
    ensures FrameOf(Plain(tag, v)) == FrameOf(Full(tag, None, v))
    ensures FrameOf(Bare(tag)) == FrameOf(Empty) == Returns([])
    ensures FrameOf(Full(tag, kind, v)).Raises? <==> Body(v, kind).Raises? || |Body(v, kind).value| > 0xFFFF
    ensures FrameOf(Full(tag, kind, v)).Returns? ==>
              var fs := FrameOf(Full(tag, kind, v)).value;
              && |fs| == 1 && fs[0].1 == Body(v, kind).value
              && 0 <= fs[0].0 < 0x1_0000 && (tag - fs[0].0) % 0x1_0000 == 0
  {
  }

  /** A frame on the wire: the tag and the length, two octets each, higher one first, and the body. */
  lemma WireIs(f: Frame)
    requires 0 <= f.0 < 65536 && |f.1| <= 65535
    ensures WireOf(f) == [f.0 / 256, f.0 % 256, |f.1| / 256, |f.1| % 256] + f.1
  {
    TwoOctetsOf(f.0);
    TwoOctetsOf(|f.1|);
  }

  lemma TwoOctetsOf(n: nat)
    requires n < 65536
    ensures BigEndian(n, 2) == [n / 256, n % 256]
  {
    assert BigEndian(n / 256, 1) == BigEndian(n / 256 / 256, 0) + [n / 256 % 256];
  }

  function Frames(tlvs: seq<Tlv>): Outcome<seq<Frame>> {
    if tlvs == [] then Returns([])
    else
      var before, last := Frames(tlvs[..|tlvs| - 1]), FrameOf(tlvs[|tlvs| - 1]);
      if before.Raises? || last.Raises? then Raises else Returns(before.value + last.value)
  }

  function WireOf(f: Frame): seq<byte>
    requires 0 <= f.0 < 65536 && |f.1| <= 65535
  {
    BigEndian(f.0, 2) + BigEndian(|f.1|, 2) + f.1
  }

  predicate Framable(fs: seq<Frame>) { forall i :: 0 <= i < |fs| ==> 0 <= fs[i].0 < 65536 && |fs[i].1| <= 65535 }

  function Wire(fs: seq<Frame>): seq<byte>
    requires Framable(fs)
  {
    if fs == [] then [] else WireOf(fs[0]) + Wire(fs[1..])
  }

  /** Headers and bodies read off the wire until it is used up; `None` when it ends inside one. */
  function Read(wire: seq<byte>): Option<seq<Frame>> {
    if wire == [] then Some([])
    else if |wire| < 4 then None
    else
      var n := FromBigEndian(wire[2..4]);
      if |wire| < 4 + n then None
      else
        var rest := Read(wire[4 + n..]);
        if rest.None? then None else Some([(FromBigEndian(wire[..2]), wire[4..4 + n])] + rest.value)
  }

  lemma {:induction false} ReadWire(fs: seq<Frame>)
    requires Framable(fs)
    ensures Read(Wire(fs)) == Some(fs)
  {
    if fs != [] {
      var w, f := Wire(fs), fs[0];
      assert Power256(2) == 65536;
      BigEndianRoundTrip(f.0, 2);
      BigEndianRoundTrip(|f.1|, 2);
      assert w[..2] == BigEndian(f.0, 2) && w[2..4] == BigEndian(|f.1|, 2);
      assert w[4..4 + |f.1|] == f.1 && w[4 + |f.1|..] == Wire(fs[1..]);
      ReadWire(fs[1..]);
      assert fs == [f] + fs[1..];
    }
  }

  /** The octets of the first frame of a wire. */
  lemma FirstFrame(wire: seq<byte>, n: nat)
    requires |wire| >= 4 && n == FromBigEndian(wire[2..4]) && |wire| >= 4 + n
    ensures FromBigEndian(wire[..2]) < 65536 && n <= 65535
    ensures WireOf((FromBigEndian(wire[..2]), wire[4..4 + n])) == wire[..4 + n]
  {
    assert Power256(2) == 65536;
    BigEndianInverse(wire[..2]);
    BigEndianInverse(wire[2..4]);
    assert wire[..2] + wire[2..4] + wire[4..4 + n] == wire[..4 + n];
  }

  lemma {:induction false} WireRead(wire: seq<byte>)
    requires Read(wire).Some?
    ensures Framable(Read(wire).value) && Wire(Read(wire).value) == wire
  {
    if wire != [] {
      var n := FromBigEndian(wire[2..4]);
      var fs := Read(wire).value;
      FirstFrame(wire, n);
      WireRead(wire[4 + n..]);
      assert fs[1..] == Read(wire[4 + n..]).value;
      assert wire == wire[..4 + n] + wire[4 + n..];
    }
  }

  lemma {:induction false} FramesFramable(tlvs: seq<Tlv>)
    requires Frames(tlvs).Returns?
    ensures Framable(Frames(tlvs).value)
  {
    if tlvs != [] { FramesFramable(tlvs[..|tlvs| - 1]); }
  }

  lemma {:induction false} WireAppend(fs: seq<Frame>, gs: seq<Frame>)
    requires Framable(fs) && Framable(gs)
    ensures Framable(fs + gs) && Wire(fs + gs) == Wire(fs) + Wire(gs)
  {
    if fs == [] {
      assert fs + gs == gs;
    } else {
      WireAppend(fs[1..], gs);
      var a, b, c := WireOf(fs[0]), Wire(fs[1..]), Wire(gs);
      assert (fs + gs)[0] == fs[0] && (fs + gs)[1..] == fs[1..] + gs;
      assert a + (b + c) == a + b + c;
    }
  }

  lemma {:induction false} RaiseSticks(tlvs: seq<Tlv>, i: nat)
    requires i <= |tlvs| && Frames(tlvs[..i]).Raises?
    ensures Frames(tlvs).Raises?
  {
    if i == |tlvs| {
      assert tlvs[..i] == tlvs;
    } else {
      assert tlvs[..|tlvs| - 1][..i] == tlvs[..i];
      RaiseSticks(tlvs[..|tlvs| - 1], i);
    }
  }

  lemma FramesNext(tlvs: seq<Tlv>, i: nat, fs: seq<Frame>)
    requires i < |tlvs| && Frames(tlvs[..i]) == Returns(fs)
    ensures var f := FrameOf(tlvs[i]);
            Frames(tlvs[..i + 1]) == if f.Raises? then Raises else Returns(fs + f.value)
  {
    assert tlvs[..i + 1][..i] == tlvs[..i];
  }

  lemma WireNext(fs: seq<Frame>, f: Frame)
    requires Framable(fs) && 0 <= f.0 < 65536 && |f.1| <= 65535
    ensures Framable(fs + [f])
    ensures Wire(fs + [f]) == Wire(fs) + (BigEndian(f.0, 2) + BigEndian(|f.1|, 2)) + f.1
  {
    WireAppend(fs, [f]);
    var none: seq<Frame> := [];
    assert [f][1..] == none;
    assert Wire([f]) == WireOf(f) + [];
  }

  /** `encode_custom_tlvs`: what it returns is read back as exactly the masked tags and bodies of the list, in
      order; and it raises exactly when some value cannot be encoded or its body exceeds 65535 octets. */
  method EncodeCustomTlvs(tlvs: seq<Tlv>) returns (out: Outcome<seq<byte>>)
    ensures out.Raises? <==> Frames(tlvs).Raises?
    ensures out.Returns? ==> Read(out.value) == Some(Frames(tlvs).value)
  {
    var bytes: seq<byte> := [];
    ghost var fs: seq<Frame> := [];
    for i := 0 to |tlvs|
      invariant Frames(tlvs[..i]) == Returns(fs)
      invariant Framable(fs) && bytes == Wire(fs)
    {
      var t := tlvs[i];
      FramesNext(tlvs, i, fs);
      if t.Bare? || t.Empty? {
        assert fs + [] == fs;
        continue;
      }
      var kind := if t.Plain? then None else t.kind;
      var body := Body(t.value, kind);
      if body.Raises? || |body.value| > 65535 {
        RaiseSticks(tlvs, i + 1);
        return Raises;
      }
      WireNext(fs, (Masked(t.tag), body.value));
      bytes := bytes + (BigEndian(Masked(t.tag), 2) + BigEndian(|body.value|, 2));
      bytes := bytes + body.value;
      fs := fs + [(Masked(t.tag), body.value)];
    }
    assert tlvs[..|tlvs|] == tlvs;
    ReadWire(fs);
    out := Returns(bytes);
  }

  /** The tuples the decoder attaches to a received PDU. */
  function Captured(fs: seq<Frame>): (r: seq<Tlv>)
    ensures |r| == |fs|
  {
    if fs == [] then []
    else Captured(fs[..|fs| - 1]) + [CapturedOne(fs[|fs| - 1])]
  }

  function CapturedOne(f: Frame): Tlv { Full(f.0, Some(OctetString), Bytes(f.1)) }

  lemma CapturedFrame(f: Frame)
    requires 0 <= f.0 < 65536 && |f.1| <= 65535
    ensures FrameOf(CapturedOne(f)) == Returns([f])
  {
  }

  lemma {:induction false} CapturedFrames(fs: seq<Frame>)
    requires Framable(fs)
    ensures Frames(Captured(fs)) == Returns(fs)
  {
    if fs != [] {
      var n := |fs| - 1;
      CapturedFrames(fs[..n]);
      CapturedFrame(fs[n]);
      assert Captured(fs)[..n] == Captured(fs[..n]);
      assert fs == fs[..n] + [fs[n]];
    }
  }

  /** Forwarding changes nothing: TLVs captured from any well-formed octets are encoded as those octets. */
  lemma CaptureThenEncode(wire: seq<byte>)
    requires Read(wire).Some?
    ensures Frames(Captured(Read(wire).value)) == Returns(Read(wire).value)
    ensures Framable(Read(wire).value) && Wire(Read(wire).value) == wire
  {
    WireRead(wire);
    CapturedFrames(Read(wire).value);
  }
}
