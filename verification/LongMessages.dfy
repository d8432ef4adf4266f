/** Contents too long for one short message: how `SubmitSM` cuts them into parts, marked either by a user
    data header (section 9.2.3.24.1 of 3GPP TS 23.040) or by the SAR options (sections 5.3.2.22 to 5.3.2.24
    of SMPP v3.4). */
module LongMessages {
  import opened Basics
  import opened Octets

  datatype Coding = Bits7 | Bits8 | Bits16

  datatype Split = Sar | Udh | Unmarked

  datatype SarParams = SarParams(ref: nat, total: nat, seqnum: nat)

  /** The parameters of a submit_sm that splitting sets. */
  datatype Part = Part(sar: Option<SarParams>, udhi: bool, moreToSend: Option<bool>, shortMessage: seq<byte>)

  function CodingOf(dataCoding: int): Coding {
    if dataCoding in {3, 6, 7, 10} then Bits8
    else if dataCoding in {2, 4, 5, 8, 9, 13, 14} then Bits16
    else Bits7
  }

  /** Greatest content length, in characters, for one message and for one part of several. */
  function MaxSmLength(c: Coding): nat {
    match c case Bits7 => 160 case Bits8 => 140 case Bits16 => 70
  }

  function SlicedMaxSmLength(c: Coding): nat {
    match c case Bits7 => 153 case Bits8 => 140 - 6 case Bits16 => 70 - 3
  }

  /** The content length in characters; half of one when 16-bit content has an odd octet. */
  function SmLength(c: Coding, content: seq<byte>): real {
    if c == Bits16 then |content| as real / 2.0 else |content| as real
  }

  function Ceiling(x: real): int { -((-x).Floor) }

  function PartsNeeded(c: Coding, content: seq<byte>): int {
    Ceiling(SmLength(c, content) / SlicedMaxSmLength(c) as real)
  }

  /** Octets taken by one part. */
  function Stride(c: Coding): nat { match c case Bits7 => 153 case Bits8 => 134 case Bits16 => 134 }

  function Least(a: int, b: int): int { if a < b then a else b }

  /** Splitting works on octets: a content is long when its octets exceed those of one message, and then the
      parts needed are the octets over the stride, rounded up. */
  lemma CountInOctets(c: Coding, content: seq<byte>)
    ensures SmLength(c, content) > MaxSmLength(c) as real <==> |content| > (if c == Bits7 then 160 else 140)
    ensures PartsNeeded(c, content) == (|content| + Stride(c) - 1) / Stride(c)
  {
    match c
    case Bits7 =>
      CeilingIs(|content| as real / 153.0, (|content| + 152) / 153);
    case Bits8 =>
      CeilingIs(|content| as real / 134.0, (|content| + 133) / 134);
    case Bits16 =>
      assert |content| as real / 2.0 / 67.0 == |content| as real / 134.0;
      CeilingIs(|content| as real / 134.0, (|content| + 133) / 134);
  }

  lemma CeilingIs(x: real, n: int)
    requires n as real - 1.0 < x <= n as real
    ensures Ceiling(x) == n
  {
    assert (-x).Floor == -n;
  }

  function Slice(c: Coding, content: seq<byte>, i: nat): seq<byte>
    requires i * Stride(c) <= |content|
  {
    content[i * Stride(c)..Least((i + 1) * Stride(c), |content|)]
  }

  function Marked(split: Split, ref: byte, total: byte, seqnum: byte, body: seq<byte>): Part {
    match split
    case Sar => Part(Some(SarParams(ref, total, seqnum)), false, None, body)
    case Udh => Part(None, true, Some(seqnum < total), [5, 0, 3, ref, total, seqnum] + body)
    case Unmarked => Part(None, false, None, body)
  }

  predicate IsLong(c: Coding, content: seq<byte>) { SmLength(c, content) > MaxSmLength(c) as real }

  function Total(c: Coding, content: seq<byte>, cap: int): int { Least(PartsNeeded(c, content), cap) }

  /** What the content is cut into. */
  function Parts(split: Split, cap: int, ref: byte, c: Coding, content: seq<byte>): (ps: seq<Part>)
    requires 1 <= cap <= 255
    ensures |ps| == if IsLong(c, content) then Total(c, content, cap) else 1
  {
    CountInOctets(c, content);
    if !IsLong(c, content) then [Part(None, false, None, content)]
    else
      var n := Total(c, content, cap);
      seq(n, i requires 0 <= i < n => Marked(split, ref, n, i + 1, Slice(c, content, i)))
  }

  /** The octets a part carries of the content. */
  function BodyOf(p: Part): seq<byte> {
    if p.sar.None? && p.udhi && |p.shortMessage| >= 6 then p.shortMessage[6..] else p.shortMessage
  }

  function Bodies(ps: seq<Part>): seq<byte> {
    if ps == [] then [] else Bodies(ps[..|ps| - 1]) + BodyOf(ps[|ps| - 1])
  }

  lemma PartAt(split: Split, cap: int, ref: byte, c: Coding, content: seq<byte>, i: nat)
    requires 1 <= cap <= 255 && IsLong(c, content) && i < |Parts(split, cap, ref, c, content)|
    ensures i * Stride(c) < |content|
    ensures i < |Parts(split, cap, ref, c, content)| - 1 ==> (i + 1) * Stride(c) < |content|
    ensures BodyOf(Parts(split, cap, ref, c, content)[i]) == Slice(c, content, i)
    ensures |Parts(split, cap, ref, c, content)[i].shortMessage| <= 6 + |Slice(c, content, i)|
    ensures split != Udh ==> Parts(split, cap, ref, c, content)[i].shortMessage == Slice(c, content, i)
  {
    CountInOctets(c, content);
  }

  lemma SliceAppend(c: Coding, content: seq<byte>, i: nat)
    requires i * Stride(c) <= |content|
    ensures content[..i * Stride(c)] + Slice(c, content, i) == content[..Least((i + 1) * Stride(c), |content|)]
  {
  }

  lemma {:induction false} BodiesOfPrefix(split: Split, cap: int, ref: byte, c: Coding, content: seq<byte>, n: nat)
    requires 1 <= cap <= 255 && IsLong(c, content) && n <= |Parts(split, cap, ref, c, content)|
    ensures Bodies(Parts(split, cap, ref, c, content)[..n]) == content[..Least(n * Stride(c), |content|)]
  {
    if n > 0 {
      var ps := Parts(split, cap, ref, c, content);
      BodiesOfPrefix(split, cap, ref, c, content, n - 1);
      assert ps[..n][..n - 1] == ps[..n - 1];
      PartAt(split, cap, ref, c, content, n - 1);
      SliceAppend(c, content, n - 1);
    }
  }

  lemma Reach(c: Coding, content: seq<byte>, n: nat)
    requires n <= PartsNeeded(c, content)
    ensures Least(n * Stride(c), |content|) == if n == PartsNeeded(c, content) then |content| else n * Stride(c)
  {
    CountInOctets(c, content);
    match c {
      case Bits7 => assert n * Stride(c) == n * 153;
      case Bits8 => assert n * Stride(c) == n * 134;
      case Bits16 => assert n * Stride(c) == n * 134;
    }
  }

  /** The parts carry the content, in order and nothing else: all of it when the cap allows, otherwise exactly
      its first cap * stride octets. */
  lemma PartsCarryContent(split: Split, cap: int, ref: byte, c: Coding, content: seq<byte>)
    requires 1 <= cap <= 255
    ensures Bodies(Parts(split, cap, ref, c, content))
         == if IsLong(c, content) && PartsNeeded(c, content) > cap then content[..cap * Stride(c)] else content
  {
    var ps := Parts(split, cap, ref, c, content);
    if IsLong(c, content) {
      BodiesOfPrefix(split, cap, ref, c, content, |ps|);
      assert ps[..|ps|] == ps;
      Reach(c, content, |ps|);
      assert content[..|content|] == content;
    } else {
      assert ps == [Part(None, false, None, content)];
      assert ps[..0] == [];
    }
  }

  /** Every part of a long message is non-empty, fits the 140 octets (160 septets) of a short message together
      with its header, and 16-bit content of even length is never cut inside a character. */
  lemma PartsAreSound(split: Split, cap: int, ref: byte, c: Coding, content: seq<byte>, i: nat)
    requires 1 <= cap <= 255 && i < |Parts(split, cap, ref, c, content)| && IsLong(c, content)
    ensures var p := Parts(split, cap, ref, c, content)[i];
            && 0 < |BodyOf(p)| <= Stride(c)
            && (i < |Parts(split, cap, ref, c, content)| - 1 ==> |BodyOf(p)| == Stride(c))
            && |p.shortMessage| <= (if c == Bits7 then 159 else 140)
            && (c == Bits16 && |content| % 2 == 0 ==> |BodyOf(p)| % 2 == 0)
  {
    PartAt(split, cap, ref, c, content, i);
    SliceSize(c, content, i);
  }

  lemma SliceSize(c: Coding, content: seq<byte>, i: nat)
    requires i * Stride(c) < |content|
    ensures 0 < |Slice(c, content, i)| <= Stride(c)
    ensures (i + 1) * Stride(c) < |content| ==> |Slice(c, content, i)| == Stride(c)
    ensures c == Bits16 && |content| % 2 == 0 ==> |Slice(c, content, i)| % 2 == 0
  {
    match c
    case Bits7 => assert |Slice(c, content, i)| == Least((i + 1) * 153, |content|) - i * 153;
    case Bits8 => assert |Slice(c, content, i)| == Least((i + 1) * 134, |content|) - i * 134;
    case Bits16 => assert |Slice(c, content, i)| == Least((i + 1) * 134, |content|) - i * 134;
  }

  // ---- By data_coding ----

  /** The parts carry the content in runs of `stride` octets, at most `cap` of them; a content of up to `single`
      octets is left whole. */
  predicate CutInto(ps: seq<Part>, content: seq<byte>, single: nat, stride: nat, cap: int)
    requires stride > 0
  {
    if |content| <= single then |ps| == 1 && BodyOf(ps[0]) == content
    else
      && |ps| == Least((|content| + stride - 1) / stride, cap)
      && forall i :: 0 <= i < |ps| ==> RunAt(ps[i], content, stride, i)
  }

  predicate RunAt(p: Part, content: seq<byte>, stride: nat, i: nat) {
    i * stride < |content| && BodyOf(p) == content[i * stride..Least((i + 1) * stride, |content|)]
  }

  /** A part of several says which it is of how many, by SAR options or by a user data header; the last of those with a
      header has no more to send. */
  predicate SaysWhich(p: Part, split: Split, ref: nat, total: nat, seqnum: nat) {
    match split
    case Sar => p.sar == Some(SarParams(ref, total, seqnum)) && !p.udhi && p.moreToSend.None?
    case Udh => && p.sar.None? && p.udhi && p.moreToSend == Some(seqnum != total)
                && |p.shortMessage| >= 6 && p.shortMessage[..6] == [5, 0, 3, ref, total, seqnum]
    case Unmarked => p.sar.None? && !p.udhi && p.moreToSend.None?
  }

  /** The data_coding values whose messages hold 140 octets, and those of them with two octets to a character. */
  predicate HoldsOctets(dataCoding: int) { dataCoding in {2, 3, 4, 5, 6, 7, 8, 9, 10, 13, 14} }

  predicate TwoOctets(dataCoding: int) { dataCoding in {2, 4, 5, 8, 9, 13, 14} }

  function Single(dataCoding: int): nat { if HoldsOctets(dataCoding) then 140 else 160 }

  function Sliced(dataCoding: int): nat { if HoldsOctets(dataCoding) then 134 else 153 }

  /** How a content is cut, for every data_coding value. */
  lemma CutByDataCoding(split: Split, cap: int, ref: byte, dataCoding: int, content: seq<byte>)
    requires 1 <= cap <= 255
    ensures var ps := Parts(split, cap, ref, CodingOf(dataCoding), content);
            && CutInto(ps, content, Single(dataCoding), Sliced(dataCoding), cap)
            && (|content| > Single(dataCoding) ==>
                  forall i :: 0 <= i < |ps| ==> SaysWhich(ps[i], split, ref, |ps|, i + 1))
  {
    var c := CodingOf(dataCoding);
    var ps := Parts(split, cap, ref, c, content);
    CountInOctets(c, content);
    assert Stride(c) == Sliced(dataCoding);
    if IsLong(c, content) {
      forall i | 0 <= i < |ps|
        ensures RunAt(ps[i], content, Sliced(dataCoding), i) && SaysWhich(ps[i], split, ref, |ps|, i + 1)
      {
        PartAt(split, cap, ref, c, content, i);
      }
    }
  }

  /** Several parts are made only of what does not fit one message; none takes more than its stride; and an even content
      cut at even places has no half characters. */
  lemma CutSizes(ps: seq<Part>, content: seq<byte>, single: nat, stride: nat, cap: int, i: nat)
    requires stride > 0 && CutInto(ps, content, single, stride, cap) && i < |ps|
    ensures |ps| > 1 ==> |content| > single && |BodyOf(ps[i])| <= stride
    ensures |content| % 2 == 0 && stride % 2 == 0 ==> |BodyOf(ps[i])| % 2 == 0
  {
    if |content| > single {
      assert RunAt(ps[i], content, stride, i);
      RunSize(ps[i], content, stride, i);
    }
  }

  lemma RunSize(p: Part, content: seq<byte>, stride: nat, i: nat)
    requires RunAt(p, content, stride, i)
    ensures |BodyOf(p)| <= stride
    ensures |content| % 2 == 0 && stride % 2 == 0 ==> |BodyOf(p)| % 2 == 0
  {
    NextStart(i, stride);
    RunSizes(|content|, i * stride, stride);
  }

  lemma NextStart(i: nat, stride: nat)
    ensures (i + 1) * stride == i * stride + stride
    ensures stride % 2 == 0 ==> i * stride % 2 == 0
  {
    if stride % 2 == 0 { assert i * stride == 2 * (i * (stride / 2)); }
  }

  lemma RunSizes(length: nat, start: nat, stride: nat)
    requires start < length
    ensures var n := Least(start + stride, length) - start;
            0 <= n <= stride && (length % 2 == 0 && start % 2 == 0 && stride % 2 == 0 ==> n % 2 == 0)
  {
  }

  /** Part `i` of several: within the octets of its data_coding, without half a character of two octets, and marked if
      the content is long. */
  predicate CutAt(p: Part, split: Split, ref: nat, total: nat, dataCoding: int, content: seq<byte>, i: nat) {
    && (total > 1 ==> |BodyOf(p)| <= Sliced(dataCoding))
    && (TwoOctets(dataCoding) && |content| % 2 == 0 ==> |BodyOf(p)| % 2 == 0)
    && (|content| > Single(dataCoding) ==> SaysWhich(p, split, ref, total, i + 1))
  }

  lemma PartIsCut(split: Split, cap: int, ref: byte, dataCoding: int, content: seq<byte>, i: nat)
    requires 1 <= cap <= 255 && i < |Parts(split, cap, ref, CodingOf(dataCoding), content)|
    ensures var ps := Parts(split, cap, ref, CodingOf(dataCoding), content);
            CutAt(ps[i], split, ref, |ps|, dataCoding, content, i) && (|ps| > 1 ==> |content| > Single(dataCoding))
  {
    CutByDataCoding(split, cap, ref, dataCoding, content);
    CutSizes(Parts(split, cap, ref, CodingOf(dataCoding), content), content, Single(dataCoding), Sliced(dataCoding),
             cap, i);
  }

  lemma PartsAreCut(split: Split, cap: int, ref: byte, dataCoding: int, content: seq<byte>)
    requires 1 <= cap <= 255
    ensures var ps := Parts(split, cap, ref, CodingOf(dataCoding), content);
            && CutInto(ps, content, Single(dataCoding), Sliced(dataCoding), cap)
            && (|ps| > 1 ==> |content| > Single(dataCoding))
            && forall i :: 0 <= i < |ps| ==> CutAt(ps[i], split, ref, |ps|, dataCoding, content, i)
  {
    var ps := Parts(split, cap, ref, CodingOf(dataCoding), content);
    CutByDataCoding(split, cap, ref, dataCoding, content);
    forall i | 0 <= i < |ps| ensures CutAt(ps[i], split, ref, |ps|, dataCoding, content, i) {
      PartIsCut(split, cap, ref, dataCoding, content, i);
    }
    if |ps| > 1 { PartIsCut(split, cap, ref, dataCoding, content, 0); }
  }
}
