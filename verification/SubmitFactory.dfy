/** `SMPPOperationFactory.SubmitSM`: the parts of a content as a chain of submit_sm objects, each pointing to
    the next; and the walk over such a chain that puts the content together again for the log and the bill. */
module SubmitFactory {
  import opened Basics
  import Billing
  import opened Octets
  import opened LongMessages

  class SubmitPdu {
    var params: Part
    var nextPdu: SubmitPdu?

    constructor (params: Part)
      ensures this.params == params && nextPdu == null
    {
      this.params, nextPdu := params, null;
    }
  }

  /** The objects `nodes`, each pointing to the next, hold the parts `ps`. */
  ghost predicate Chain(nodes: seq<SubmitPdu>, ps: seq<Part>)
    reads nodes
  {
    && |nodes| == |ps| > 0
    && (forall i :: 0 <= i < |nodes| ==> nodes[i].params == ps[i])
    && (forall i :: 0 <= i < |nodes| - 1 ==> nodes[i].nextPdu == nodes[i + 1])
    && nodes[|nodes| - 1].nextPdu == null
  }

  /** What the objects hold. */
  ghost function ParamsOf(nodes: seq<SubmitPdu>): seq<Part>
    reads nodes
  {
    if nodes == [] then [] else ParamsOf(nodes[..|nodes| - 1]) + [nodes[|nodes| - 1].params]
  }

  lemma {:induction false} ParamsAre(nodes: seq<SubmitPdu>, ps: seq<Part>)
    requires |nodes| == |ps| && forall i :: 0 <= i < |nodes| ==> nodes[i].params == ps[i]
    ensures ParamsOf(nodes) == ps
  {
    if nodes != [] { ParamsAre(nodes[..|nodes| - 1], ps[..|ps| - 1]); }
  }

  lemma ChainParams(nodes: seq<SubmitPdu>, ps: seq<Part>)
    requires Chain(nodes, ps)
    ensures ParamsOf(nodes) == ps
  {
    ParamsAre(nodes, ps);
  }

  lemma ChainIsCut(nodes: seq<SubmitPdu>, split: Split, cap: int, ref: byte, dataCoding: int, content: seq<byte>)
    requires 1 <= cap <= 255 && Chain(nodes, Parts(split, cap, ref, CodingOf(dataCoding), content))
    ensures CutInto(ParamsOf(nodes), content, Single(dataCoding), Sliced(dataCoding), cap)
    ensures |nodes| > 1 ==> |content| > Single(dataCoding)
    ensures forall i :: 0 <= i < |nodes| ==> CutAt(nodes[i].params, split, ref, |nodes|, dataCoding, content, i)
  {
    ChainParams(nodes, Parts(split, cap, ref, CodingOf(dataCoding), content));
    PartsAreCut(split, cap, ref, dataCoding, content);
  }

  // ---- Reference numbers ----

  function NextRef(last: nat): nat { (if last >= 255 then 0 else last) + 1 }

  /** The reference number of the k-th claim after one that gave `last`. */
  function RefAfter(last: nat, k: nat): nat {
    if k == 0 then last else NextRef(RefAfter(last, k - 1))
  }

  lemma {:induction false} RefClosedForm(last: nat, k: nat)
    requires last <= 255 && k > 0
    ensures RefAfter(last, k) == (last + k - 1) % 255 + 1
  {
    if k > 1 { RefClosedForm(last, k - 1); }
  }

  /** A reference number is not handed out again before 254 others have been, wherever the counter stands. */
  lemma RefsDistinct(last: nat, i: nat, j: nat)
    requires last <= 255 && 0 < i < j < i + 255
    ensures RefAfter(last, i) != RefAfter(last, j)
    ensures 1 <= RefAfter(last, i) <= 255
    ensures RefAfter(last, i + 255) == RefAfter(last, i)
  {
    RefClosedForm(last, i);
    RefClosedForm(last, j);
    RefClosedForm(last, i + 255);
    Residues(last + i - 1, j - i);
  }

  lemma Residues(x: nat, d: nat)
    requires 0 < d < 255
    ensures (x + d) % 255 != x % 255 && (x + 255) % 255 == x % 255
  {
  }

  class OperationFactory {
    const cap: int
    const split: Split
    var lastLongMsgRefNum: nat

    ghost predicate Valid() reads this { 1 <= cap <= 255 && lastLongMsgRefNum <= 255 }

    constructor (cap: int, split: Split)
      requires 1 <= cap <= 255
      ensures Valid() && this.cap == cap && this.split == split && lastLongMsgRefNum == 0
    {
      this.cap, this.split, lastLongMsgRefNum := cap, split, 0;
    }

    method ClaimLongMsgRefNum() returns (ref: byte)
      requires Valid()
      modifies this
      ensures Valid() && ref == lastLongMsgRefNum == NextRef(old(lastLongMsgRefNum))
    {
      if lastLongMsgRefNum >= 255 { lastLongMsgRefNum := 0; }
      lastLongMsgRefNum := lastLongMsgRefNum + 1;
      ref := lastLongMsgRefNum;
    }

    /** A chain of new objects holding the parts in order; a reference is claimed for a long content only. */
    method SubmitSM(content: seq<byte>, dataCoding: int) returns (pdu: SubmitPdu, ghost nodes: seq<SubmitPdu>)
      requires Valid()
      modifies this
      ensures Valid()
      ensures lastLongMsgRefNum == if IsLong(CodingOf(dataCoding), content)
                                   then NextRef(old(lastLongMsgRefNum)) else old(lastLongMsgRefNum)
      ensures Chain(nodes, Parts(split, cap, lastLongMsgRefNum, CodingOf(dataCoding), content))
      ensures pdu == nodes[0] && fresh(nodes)
      // by the data_coding value: what each object of the chain carries, and how it is marked
      ensures CutInto(ParamsOf(nodes), content, Single(dataCoding), Sliced(dataCoding), cap)
      ensures |nodes| > 1 ==> |content| > Single(dataCoding)
      ensures forall i :: 0 <= i < |nodes| ==>
                CutAt(nodes[i].params, split, lastLongMsgRefNum, |nodes|, dataCoding, content, i)
    {
      var c := CodingOf(dataCoding);
      CountInOctets(c, content);
      if SmLength(c, content) > MaxSmLength(c) as real {
        var total := PartsNeeded(c, content);
        if total > cap { total := cap; }
        var ref := ClaimLongMsgRefNum();
        PartsAreSegments(split, cap, ref, c, content);
        pdu, nodes := BuildChain(split, ref, total, c, content, Parts(split, cap, ref, c, content));
      } else {
        pdu := new SubmitPdu(Part(None, false, None, content));
        nodes := [pdu];
      }
      ChainIsCut(nodes, split, cap, lastLongMsgRefNum, dataCoding, content);
    }
  }

  /** Segment `i` of a long content, and the segments as a list. */
  function Segment(split: Split, ref: byte, total: byte, c: Coding, content: seq<byte>, i: nat): Part
    requires i < total && i * Stride(c) <= |content|
  {
    Marked(split, ref, total, i + 1, Slice(c, content, i))
  }

  ghost predicate Segments(ps: seq<Part>, split: Split, ref: byte, total: byte, c: Coding, content: seq<byte>) {
    |ps| == total && forall i :: 0 <= i < total ==> SegmentAt(ps, split, ref, total, c, content, i)
  }

  ghost predicate SegmentAt(ps: seq<Part>, split: Split, ref: byte, total: byte, c: Coding, content: seq<byte>, i: nat)
    requires i < |ps|
  {
    i < total && i * Stride(c) <= |content| && ps[i] == Segment(split, ref, total, c, content, i)
  }

  lemma PartsAreSegments(split: Split, cap: int, ref: byte, c: Coding, content: seq<byte>)
    requires 1 <= cap <= 255 && IsLong(c, content)
    ensures 1 <= Total(c, content, cap) <= 255
    ensures Segments(Parts(split, cap, ref, c, content), split, ref, Total(c, content, cap), c, content)
  {
    CountInOctets(c, content);
    var ps := Parts(split, cap, ref, c, content);
    forall i | 0 <= i < |ps| ensures SegmentAt(ps, split, ref, Total(c, content, cap), c, content, i) {
      PartAt(split, cap, ref, c, content, i);
    }
  }

  /** The octets and markers of segment `i`. */
  method BuildPart(split: Split, ref: byte, total: byte, c: Coding, content: seq<byte>, i: nat) returns (p: Part)
    requires i < total && i * Stride(c) <= |content|
    ensures p == Segment(split, ref, total, c, content, i)
  {
    var shortMessage := content[i * Stride(c)..Least((i + 1) * Stride(c), |content|)];
    p := Part(None, false, None, shortMessage);
    if split == Sar {
      p := p.(sar := Some(SarParams(ref, total, i + 1)));
    } else if split == Udh {
      var udh: seq<byte> := [5];
      udh := udh + [0];
      udh := udh + [3];
      udh := udh + [ref] + [total] + [i + 1];
      assert udh == [5, 0, 3, ref, total, i + 1];
      p := Part(None, true, Some(i + 1 < total), udh + shortMessage);
    }
  }

  /** A new object behind the last of a chain. */
  method AppendPdu(previousPdu: SubmitPdu, part: Part, ghost nodes: seq<SubmitPdu>, ghost ps: seq<Part>)
      returns (tmpPdu: SubmitPdu)
    requires Chain(nodes, ps) && previousPdu == nodes[|nodes| - 1]
    modifies previousPdu`nextPdu
    ensures fresh(tmpPdu) && Chain(nodes + [tmpPdu], ps + [part])
  {
    LastOnlyOnce(nodes, ps);
    tmpPdu := new SubmitPdu(part);
    previousPdu.nextPdu := tmpPdu;
  }

  /** The loop over the segments. */
  method BuildChain(split: Split, ref: byte, total: byte, c: Coding, content: seq<byte>, ghost ps: seq<Part>)
      returns (pdu: SubmitPdu, ghost nodes: seq<SubmitPdu>)
    requires 0 < total && Segments(ps, split, ref, total, c, content)
    ensures Chain(nodes, ps) && pdu == nodes[0] && fresh(nodes)
  {
    assert SegmentAt(ps, split, ref, total, c, content, 0);
    var part := BuildPart(split, ref, total, c, content, 0);
    pdu := new SubmitPdu(part);
    nodes := [pdu];
    assert ps[..1] == [part];
    var tmpPdu := pdu;
    for i := 1 to total
      invariant |nodes| == i && fresh(nodes) && nodes[0] == pdu && tmpPdu == nodes[i - 1]
      invariant Chain(nodes, ps[..i])
    {
      var previousPdu := tmpPdu;
      assert SegmentAt(ps, split, ref, total, c, content, i);
      part := BuildPart(split, ref, total, c, content, i);
      tmpPdu := AppendPdu(previousPdu, part, nodes, ps[..i]);
      nodes := nodes + [tmpPdu];
      assert ps[..i + 1] == ps[..i] + [part];
    }
    assert ps[..total] == ps;
  }

  /** No object of a chain occurs twice in it, so giving the last one a successor changes no other. */
  lemma {:induction false} Distinct(nodes: seq<SubmitPdu>, ps: seq<Part>, i: nat, j: nat)
    requires Chain(nodes, ps) && i < j < |nodes|
    ensures nodes[i] != nodes[j]
    decreases |nodes| - j
  {
    NextOf(nodes, ps, i);
    NextOf(nodes, ps, j);
    if j + 1 < |nodes| { Distinct(nodes, ps, i + 1, j + 1); }
  }

  lemma LastOnlyOnce(nodes: seq<SubmitPdu>, ps: seq<Part>)
    requires Chain(nodes, ps)
    ensures forall i :: 0 <= i < |nodes| - 1 ==> nodes[i] != nodes[|nodes| - 1]
  {
    forall i | 0 <= i < |nodes| - 1 ensures nodes[i] != nodes[|nodes| - 1] {
      Distinct(nodes, ps, i, |nodes| - 1);
    }
  }

  lemma NextOf(nodes: seq<SubmitPdu>, ps: seq<Part>, i: nat)
    requires Chain(nodes, ps) && i < |nodes|
    ensures i + 1 == |nodes| <==> nodes[i].nextPdu == null
    ensures i + 1 < |nodes| ==> nodes[i].nextPdu == nodes[i + 1]
  {
    if i + 1 < |nodes| {
      assert nodes[i].nextPdu == nodes[i + 1];
    } else {
      assert nodes[i] == nodes[|nodes| - 1];
    }
  }

  // ---- Walking the chain ----

  /** How the listener finds a request to be a part: by its SAR options, by its user data header, or not at all. */
  function MarksOf(p: Part): Split {
    if p.sar.Some? then Sar
    else if p.udhi && |p.shortMessage| >= 3 && p.shortMessage[..3] == [5, 0, 3] then Udh
    else Unmarked
  }

  /** By a header exactly if it starts one of a concatenation, whatever follows. */
  lemma MarksIff(p: Part)
    ensures MarksOf(p) == Sar <==> p.sar.Some?
    ensures MarksOf(p) == Udh <==> p.sar.None? && p.udhi && [5, 0, 3] <= p.shortMessage
  {
  }

  function Piece(split: Split, p: Part): seq<byte> {
    if split == Sar then p.shortMessage else if |p.shortMessage| < 6 then [] else p.shortMessage[6..]
  }

  function Pieces(split: Split, ps: seq<Part>): seq<byte> {
    if ps == [] then [] else Pieces(split, ps[..|ps| - 1]) + Piece(split, ps[|ps| - 1])
  }

  /** The content read off the parts of an answered message, and the number of parts billed for: the first part alone
      when it is not marked. */
  function ReadOff(ps: seq<Part>): (seq<byte>, nat)
    requires ps != []
  {
    if MarksOf(ps[0]) == Unmarked then (ps[0].shortMessage, 1) else (Pieces(MarksOf(ps[0]), ps), |ps|)
  }

  lemma {:induction false} PiecesAreBodies(split: Split, ps: seq<Part>)
    requires split != Unmarked && forall i :: 0 <= i < |ps| ==> Piece(split, ps[i]) == BodyOf(ps[i])
    ensures Pieces(split, ps) == Bodies(ps)
  {
    if ps != [] { PiecesAreBodies(split, ps[..|ps| - 1]); }
  }

  lemma MarkedPart(split: Split, ref: byte, total: byte, seqnum: byte, body: seq<byte>)
    requires split != Unmarked
    ensures var p := Marked(split, ref, total, seqnum, body);
            MarksOf(p) == split && Piece(split, p) == BodyOf(p) == body
  {
    if split == Udh {
      var s := [5, 0, 3, ref, total, seqnum] + body;
      assert s[..3] == [5, 0, 3] && s[6..] == body;
    }
  }

  lemma FirstAlone(ps: seq<Part>)
    requires |ps| == 1 && ps[0].sar.None? && !ps[0].udhi
    ensures ReadOff(ps) == (Bodies(ps), 1)
  {
    assert ps[..0] == [] && Bodies(ps[..0]) + BodyOf(ps[0]) == BodyOf(ps[0]);
  }

  lemma MarkedReadOff(ps: seq<Part>, split: Split, ref: byte, total: byte, c: Coding, content: seq<byte>)
    requires split != Unmarked && 0 < total && Segments(ps, split, ref, total, c, content)
    ensures ReadOff(ps) == (Bodies(ps), |ps|)
  {
    forall i | 0 <= i < |ps| ensures MarksOf(ps[i]) == split && Piece(split, ps[i]) == BodyOf(ps[i]) {
      assert SegmentAt(ps, split, ref, total, c, content, i);
      MarkedPart(split, ref, total, i + 1, Slice(c, content, i));
    }
    PiecesAreBodies(split, ps);
  }

  /** The walk reads the whole content the parts carry, and bills for every part, exactly when the parts are marked or
      there is only one. */
  lemma ReadOffIff(split: Split, cap: int, ref: byte, c: Coding, content: seq<byte>)
    requires 1 <= cap <= 255
    ensures var ps := Parts(split, cap, ref, c, content);
            ReadOff(ps) == (Bodies(ps), |ps|) <==> split != Unmarked || |ps| == 1
  {
    var ps := Parts(split, cap, ref, c, content);
    if !IsLong(c, content) {
      FirstAlone(ps);
    } else {
      PartsAreSegments(split, cap, ref, c, content);
      if split != Unmarked {
        MarkedReadOff(ps, split, ref, |ps|, c, content);
      } else {
        assert SegmentAt(ps, split, ref, |ps|, c, content, 0);
        if |ps| == 1 { FirstAlone(ps); }
      }
    }
  }

  /** The walk of `submit_sm_resp_event` over the chain of an answered message: the content it reads, and one amount
      added to the bill for every part it meets. */
  method ConcatChain(pdu: SubmitPdu, amount: real, ghost nodes: seq<SubmitPdu>, ghost ps: seq<Part>)
      returns (content: seq<byte>, total: real)
    requires Chain(nodes, ps) && pdu == nodes[0]
    ensures content == ReadOff(ps).0 && total == Billing.Times(amount, ReadOff(ps).1)
  {
    var p := pdu;
    var split := MarksOf(p.params);
    total := amount;
    assert amount == Billing.Times(amount, 0) + amount;
    if split == Unmarked {
      content := p.params.shortMessage;
      return;
    }
    content := Piece(split, p.params);
    ghost var n := 1;
    assert ps[..1][..0] == [] && ps[..1][0] == ps[0];
    NextOf(nodes, ps, 0);
    while p.nextPdu != null
      invariant 1 <= n <= |nodes| && p == nodes[n - 1]
      invariant p.nextPdu == null <==> n == |nodes|
      invariant n < |nodes| ==> p.nextPdu == nodes[n]
      invariant content == Pieces(split, ps[..n]) && total == Billing.Times(amount, n)
      decreases |nodes| - n
    {
      p := p.nextPdu;
      assert ps[..n + 1][..n] == ps[..n];
      content := content + Piece(split, p.params);
      total := total + amount;
      NextOf(nodes, ps, n);
      n := n + 1;
    }
    assert ps[..n] == ps;
  }
}
