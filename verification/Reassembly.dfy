/** Incoming parts of a long message are kept in a Redis hash, one field per sequence number; when the part
    numbered like the total arrives, the listener tries to put the message together. The hash is not deleted
    afterwards, it only expires. */
module Reassembly {
  import opened Basics
  import opened Octets
  import opened LongMessages

  datatype Kind = BySar | ByUdh

  /** How the listener takes an incoming deliver_sm: on its own, as a part, or (a header cut short) not at all. */
  datatype Detected = Single | PartOf(kind: Kind, ref: nat, total: nat, seqnum: nat) | CutShort

  function Detect(p: Part, class2: bool): Detected {
    if p.sar.Some? then PartOf(BySar, p.sar.value.ref, p.sar.value.total, p.sar.value.seqnum)
    else if p.udhi && !class2 && |p.shortMessage| >= 3 && p.shortMessage[..3] == [5, 0, 3] then
      if |p.shortMessage| < 6 then CutShort
      else PartOf(ByUdh, p.shortMessage[3], p.shortMessage[4], p.shortMessage[5])
    else Single
  }

  type Hash = map<nat, Part>

  datatype Result =
    | Waiting                         // not the highest-numbered part
    | AlreadyThere                    // the field existed, so nothing more is done
    | DataLost                        // the highest-numbered part, with another number of parts stored
    | MissingPart                     // the right number of parts, but not the parts 1 to total
    | Complete(content: seq<byte>)

  function Stripped(kind: Kind, message: seq<byte>): seq<byte> {
    if kind == BySar then message else if |message| < 6 then [] else message[6..]
  }

  predicate HasAll(h: Hash, total: nat) { forall i :: 1 <= i <= total ==> i in h }

  function Concat(kind: Kind, h: Hash, total: nat): seq<byte>
    requires HasAll(h, total)
  {
    if total == 0 then [] else Concat(kind, h, total - 1) + Stripped(kind, h[total].shortMessage)
  }

  /** The arrival of part `p`, numbered `seqnum` of `total`, at a hash. */
  function Arrive(h: Hash, p: Part, kind: Kind, total: nat, seqnum: nat): Result {
    if seqnum in h then AlreadyThere
    else if seqnum != total then Waiting
    else
      var h' := h[seqnum := p];
      if |h'| != total then DataLost
      else if !HasAll(h', total) then MissingPart
      else Complete(Concat(kind, h', total))
  }

  /** The hashes, by connector, reference number and destination address. */
  type Key = (string, nat, string)

  class Listener {
    const cid: string
    var hashes: map<Key, Hash>

    constructor (cid: string)
      ensures this.cid == cid && hashes == map[]
    {
      this.cid, hashes := cid, map[];
    }

    function HashAt(key: Key): Hash reads this { if key in hashes then hashes[key] else map[] }

    /** `concatDeliverSMs` after the `HSET` that precedes it. */
    method Receive(p: Part, destination: string, kind: Kind, ref: nat, total: nat, seqnum: nat) returns (r: Result)
      modifies this
      ensures var key := (cid, ref, destination);
              && hashes == old(hashes)[key := old(HashAt(key))[seqnum := p]]
              && r == Arrive(old(HashAt(key)), p, kind, total, seqnum)
    {
      var key := (cid, ref, destination);
      var h := if key in hashes then hashes[key] else map[];
      var existed := seqnum in h;
      h := h[seqnum := p];
      hashes := hashes[key := h];
      if existed { return AlreadyThere; }
      if seqnum != total { return Waiting; }
      if |h| != total { return DataLost; }
      var content: seq<byte> := [];
      for i := 0 to total
        invariant HasAll(h, i) && content == Concat(kind, h, i)
      {
        if i + 1 !in h { return MissingPart; }
        content := content + Stripped(kind, h[i + 1].shortMessage);
      }
      r := Complete(content);
    }
  }

  // ---- Runs of arrivals ----

  /** The n parts of one message, numbered and marked alike. */
  ghost predicate Message(ps: seq<Part>, kind: Kind, ref: nat, class2: bool) {
    |ps| > 0 && forall i :: 0 <= i < |ps| ==> IsPart(ps, kind, ref, class2, i)
  }

  ghost predicate IsPart(ps: seq<Part>, kind: Kind, ref: nat, class2: bool, i: nat)
    requires i < |ps|
  {
    Detect(ps[i], class2) == PartOf(kind, ref, |ps|, i + 1)
  }

  /** The numbers of parts arriving, of a message of n parts. */
  predicate Numbers(order: seq<nat>, n: nat) { forall i :: 0 <= i < |order| ==> 1 <= order[i] <= n }

  predicate Distinct(order: seq<nat>) { forall i, j :: 0 <= i < j < |order| ==> order[i] != order[j] }

  /** Each of the numbers 1 to n once. */
  predicate Order(order: seq<nat>, n: nat) { |order| == n && Numbers(order, n) && Distinct(order) }

  /** The hash after the first `i` arrivals. */
  function Stored(h: Hash, ps: seq<Part>, order: seq<nat>, i: nat): Hash
    requires i <= |order| && Numbers(order, |ps|)
  {
    if i == 0 then h else Stored(h, ps, order, i - 1)[order[i - 1] := ps[order[i - 1] - 1]]
  }

  /** What the arrival at position `i` brings. */
  function ResultAt(h: Hash, ps: seq<Part>, kind: Kind, order: seq<nat>, i: nat): Result
    requires i < |order| && Numbers(order, |ps|)
  {
    Arrive(Stored(h, ps, order, i), ps[order[i] - 1], kind, |ps|, order[i])
  }

  predicate Within(k: nat, n: nat) { 1 <= k <= n }

  /** The numbers 1 to n. */
  function UpTo(n: nat): set<nat> { set k: nat | 1 <= k <= n && Within(k, n) }

  lemma {:induction false} UpToSize(n: nat)
    ensures |UpTo(n)| == n
  {
    if n > 0 {
      UpToSize(n - 1);
      assert UpTo(n) == UpTo(n - 1) + {n};
    }
  }

  /** The numbers that arrived before position `i`. */
  function Arrived(order: seq<nat>, i: nat): set<nat>
    requires i <= |order|
  {
    if i == 0 then {} else Arrived(order, i - 1) + {order[i - 1]}
  }

  lemma {:induction false} ArrivedAt(order: seq<nat>, i: nat, j: nat)
    requires Distinct(order) && i <= |order| && j < |order|
    ensures order[j] in Arrived(order, i) <==> j < i
  {
    if i > 0 { ArrivedAt(order, i - 1, j); }
  }

  lemma {:induction false} ArrivedWithin(order: seq<nat>, n: nat, i: nat)
    requires Numbers(order, n) && i <= |order|
    ensures Arrived(order, i) <= UpTo(n)
  {
    if i > 0 { ArrivedWithin(order, n, i - 1); }
  }

  lemma {:induction false} ArrivedSize(order: seq<nat>, i: nat)
    requires Distinct(order) && i <= |order|
    ensures |Arrived(order, i)| == i
  {
    if i > 0 {
      ArrivedSize(order, i - 1);
      ArrivedAt(order, i - 1, i - 1);
    }
  }

  /** The fields found at position `i`. */
  lemma {:induction false} StoredKeys(h: Hash, ps: seq<Part>, order: seq<nat>, i: nat)
    requires i <= |order| && Numbers(order, |ps|)
    ensures Stored(h, ps, order, i).Keys == h.Keys + Arrived(order, i)
  {
    if i > 0 { StoredKeys(h, ps, order, i - 1); }
  }

  lemma {:induction false} StoredField(h: Hash, ps: seq<Part>, order: seq<nat>, i: nat, k: nat)
    requires i <= |order| && Numbers(order, |ps|) && (k in h || k in Arrived(order, i))
    ensures k in Stored(h, ps, order, i)
    ensures k in Arrived(order, i) ==> 1 <= k <= |ps| && Stored(h, ps, order, i)[k] == ps[k - 1]
    ensures k !in Arrived(order, i) ==> Stored(h, ps, order, i)[k] == h[k]
  {
    if i > 0 && k != order[i - 1] { StoredField(h, ps, order, i - 1, k); }
  }

  /** The highest-numbered part arrives at position `i` and finds exactly the fields of all the others, whether of its
      own message or left over. */
  ghost predicate FindsTheOthers(h: Hash, order: seq<nat>, n: nat, i: nat)
    requires i < |order| && n > 0
  {
    order[i] == n && h.Keys + Arrived(order, i) == UpTo(n - 1)
  }

  lemma FullIff(keys: set<nat>, n: nat)
    requires n > 0 && n !in keys
    ensures |keys + {n}| == n && UpTo(n) <= keys + {n} <==> keys == UpTo(n - 1)
  {
    UpToSize(n);
    if |keys + {n}| == n && UpTo(n) <= keys + {n} {
      SubsetOfSize(UpTo(n), keys + {n});
      assert forall k :: k in keys <==> k in UpTo(n) && k != n;
    }
    if keys == UpTo(n - 1) { assert keys + {n} == UpTo(n); }
  }

  lemma ArrivalCompletesIff(before: Hash, p: Part, kind: Kind, n: nat, seqnum: nat)
    requires n > 0
    ensures Arrive(before, p, kind, n, seqnum).Complete? <==>
            seqnum == n && before.Keys == UpTo(n - 1)
  {
    assert n !in UpTo(n - 1);
    if seqnum == n && n !in before {
      FullIff(before.Keys, n);
      var after := before[n := p];
      assert after.Keys == before.Keys + {n};
      assert HasAll(after, n) <==> UpTo(n) <= after.Keys;
    }
  }

  /** Whatever the hash holds and in whatever order and number the parts come, an arrival yields a message exactly when
      it is that of the highest-numbered part and finds exactly the other fields. */
  lemma CompleteIff(h: Hash, ps: seq<Part>, kind: Kind, order: seq<nat>, i: nat)
    requires |ps| > 0 && Numbers(order, |ps|) && i < |order|
    ensures ResultAt(h, ps, kind, order, i).Complete? <==> FindsTheOthers(h, order, |ps|, i)
  {
    ArrivalCompletesIff(Stored(h, ps, order, i), ps[order[i] - 1], kind, |ps|, order[i]);
    StoredKeys(h, ps, order, i);
  }

  /** The other outcomes: a number that is there already is passed over, whichever it is; any other but the highest
      waits; and the highest finds too few or too many fields, or as many as it should but not all of 1 to n. */
  lemma IncompleteIff(h: Hash, ps: seq<Part>, kind: Kind, order: seq<nat>, i: nat)
    requires |ps| > 0 && Numbers(order, |ps|) && i < |order|
    ensures var n, found, r := |ps|, h.Keys + Arrived(order, i), ResultAt(h, ps, kind, order, i);
            && (r.AlreadyThere? <==> order[i] in found)
            && (r.Waiting? <==> order[i] !in found && order[i] < n)
            && (r.DataLost? <==> order[i] !in found && order[i] == n && |found| != n - 1)
            && (r.MissingPart? <==> order[i] !in found && order[i] == n && |found| == n - 1 && found != UpTo(n - 1))
  {
    StoredKeys(h, ps, order, i);
    var before := Stored(h, ps, order, i);
    ArrivalCompletesIff(before, ps[order[i] - 1], kind, |ps|, order[i]);
    assert before[order[i] := ps[order[i] - 1]].Keys == before.Keys + {order[i]};
  }

  /** Field `k` as the highest-numbered part finds it: of the new message if it has arrived, else what was left. */
  function FieldFor(h: Hash, ps: seq<Part>, arrived: set<nat>, k: nat): Part
    requires 1 <= k <= |ps| && (k in arrived || k == |ps| || k in h)
  {
    if k in arrived || k == |ps| then ps[k - 1] else h[k]
  }

  predicate Available(h: Hash, ps: seq<Part>, arrived: set<nat>) {
    forall k :: 1 <= k <= |ps| ==> k in arrived || k == |ps| || k in h
  }

  /** What is handed on: the fields one after the other. */
  function Mixture(kind: Kind, h: Hash, ps: seq<Part>, arrived: set<nat>, m: nat): seq<byte>
    requires m <= |ps| && Available(h, ps, arrived)
  {
    if m == 0 then []
    else Mixture(kind, h, ps, arrived, m - 1) + Stripped(kind, FieldFor(h, ps, arrived, m).shortMessage)
  }

  lemma {:induction false} ConcatIsMixture(kind: Kind, h: Hash, ps: seq<Part>, arrived: set<nat>, after: Hash, m: nat)
    requires m <= |ps| && Available(h, ps, arrived) && HasAll(after, |ps|)
    requires forall k :: 1 <= k <= |ps| ==> after[k] == FieldFor(h, ps, arrived, k)
    ensures HasAll(after, m) && Concat(kind, after, m) == Mixture(kind, h, ps, arrived, m)
  {
    if m > 0 { ConcatIsMixture(kind, h, ps, arrived, after, m - 1); }
  }

  lemma OthersAvailable(h: Hash, ps: seq<Part>, order: seq<nat>, i: nat)
    requires |ps| > 0 && Numbers(order, |ps|) && i < |order| && FindsTheOthers(h, order, |ps|, i)
    ensures Available(h, ps, Arrived(order, i))
  {
    forall k: nat | 1 <= k <= |ps| ensures k in Arrived(order, i) || k == |ps| || k in h {
      assert k < |ps| ==> k in UpTo(|ps| - 1);
    }
  }

  lemma FieldFound(h: Hash, ps: seq<Part>, order: seq<nat>, i: nat, k: nat)
    requires |ps| > 0 && Numbers(order, |ps|) && i < |order| && 1 <= k <= |ps|
    requires k in Arrived(order, i) || k == |ps| || k in h
    ensures var after := Stored(h, ps, order, i)[|ps| := ps[|ps| - 1]];
            k in after && after[k] == FieldFor(h, ps, Arrived(order, i), k)
  {
    if k != |ps| { StoredField(h, ps, order, i, k); }
  }

  /** The content of a completed message, field by field. */
  lemma CompleteContent(h: Hash, ps: seq<Part>, kind: Kind, order: seq<nat>, i: nat)
    requires |ps| > 0 && Numbers(order, |ps|) && i < |order| && FindsTheOthers(h, order, |ps|, i)
    ensures Available(h, ps, Arrived(order, i))
    ensures ResultAt(h, ps, kind, order, i) == Complete(Mixture(kind, h, ps, Arrived(order, i), |ps|))
  {
    OthersAvailable(h, ps, order, i);
    CompleteIff(h, ps, kind, order, i);
    var after := Stored(h, ps, order, i)[|ps| := ps[|ps| - 1]];
    forall k: nat | 1 <= k <= |ps| ensures k in after && after[k] == FieldFor(h, ps, Arrived(order, i), k) {
      FieldFound(h, ps, order, i, k);
    }
    ConcatIsMixture(kind, h, ps, Arrived(order, i), after, |ps|);
  }

  /** The fields handed on are all the message's own exactly when its highest-numbered part came last. */
  lemma AllOwnIff(order: seq<nat>, n: nat, i: nat)
    requires n > 0 && Order(order, n) && i < n && order[i] == n
    ensures UpTo(n - 1) <= Arrived(order, i) <==> i == n - 1
    ensures i == n - 1 ==> Arrived(order, i) == UpTo(n - 1)
  {
    ArrivedSize(order, i);
    ArrivedAt(order, i, i);
    ArrivedWithin(order, n, i);
    UpToSize(n - 1);
    assert Arrived(order, i) <= UpTo(n - 1);
    if UpTo(n - 1) <= Arrived(order, i) { SubsetSize(UpTo(n - 1), Arrived(order, i)); }
    if i == n - 1 { SubsetOfSize(Arrived(order, i), UpTo(n - 1)); }
  }

  /** Fields that are the parts of one message make up its content. */
  lemma {:induction false} MixtureIsBodies(kind: Kind, h: Hash, ps: seq<Part>, arrived: set<nat>,
                                           qs: seq<Part>, ref: nat, class2: bool, m: nat)
    requires Available(h, ps, arrived) && Message(qs, kind, ref, class2) && m <= |ps| && m <= |qs|
    requires forall k: nat :: 1 <= k <= m ==> FieldFor(h, ps, arrived, k) == qs[k - 1]
    ensures Mixture(kind, h, ps, arrived, m) == Bodies(qs[..m])
  {
    if m > 0 {
      MixtureIsBodies(kind, h, ps, arrived, qs, ref, class2, m - 1);
      assert qs[..m][..m - 1] == qs[..m - 1];
      assert IsPart(qs, kind, ref, class2, m - 1);
    }
  }

  predicate Below(left: set<nat>, n: nat) { forall k :: k in left ==> 1 <= k < n }

  lemma LastFinds(h: Hash, order: seq<nat>, n: nat)
    requires n > 0 && Order(order, n) && order[n - 1] == n
    ensures FindsTheOthers(h, order, n, n - 1) <==> Below(h.Keys, n)
  {
    AllOwnIff(order, n, n - 1);
    BelowIff(h.Keys, n);
  }

  lemma BelowIff(left: set<nat>, n: nat)
    requires n > 0
    ensures Below(left, n) <==> left + UpTo(n - 1) == UpTo(n - 1)
  {
    if left + UpTo(n - 1) == UpTo(n - 1) {
      assert forall k :: k in left ==> k in UpTo(n - 1);
    }
  }

  /** An arrival hands on the message whole, from its own parts alone, exactly when it is the last, is that of the
      highest-numbered part, and every left-over field has a number below that. */
  lemma ReassembledIff(h: Hash, ps: seq<Part>, kind: Kind, order: seq<nat>, i: nat)
    requires |ps| > 0 && Order(order, |ps|) && i < |ps|
    ensures ResultAt(h, ps, kind, order, i).Complete? && UpTo(|ps| - 1) <= Arrived(order, i)
       <==> i == |ps| - 1 && order[i] == |ps| && Below(h.Keys, |ps|)
  {
    CompleteIff(h, ps, kind, order, i);
    FindsItsOwnIff(h, order, |ps|, i);
  }

  lemma FindsItsOwnIff(h: Hash, order: seq<nat>, n: nat, i: nat)
    requires n > 0 && Order(order, n) && i < n
    ensures FindsTheOthers(h, order, n, i) && UpTo(n - 1) <= Arrived(order, i)
       <==> i == n - 1 && order[i] == n && Below(h.Keys, n)
  {
    if order[i] == n {
      AllOwnIff(order, n, i);
      if i == n - 1 { LastFinds(h, order, n); }
    }
  }

  lemma LastFindsOwn(h: Hash, order: seq<nat>, n: nat)
    requires n > 0 && Order(order, n) && order[n - 1] == n && Below(h.Keys, n)
    ensures FindsTheOthers(h, order, n, n - 1) && Arrived(order, n - 1) == UpTo(n - 1)
  {
    LastFinds(h, order, n);
    AllOwnIff(order, n, n - 1);
  }

  /** And then with its own content. */
  lemma ReassembledContent(h: Hash, ps: seq<Part>, kind: Kind, ref: nat, class2: bool, order: seq<nat>)
    requires Message(ps, kind, ref, class2) && Order(order, |ps|) && order[|ps| - 1] == |ps| && Below(h.Keys, |ps|)
    ensures ResultAt(h, ps, kind, order, |ps| - 1) == Complete(Bodies(ps))
  {
    var n := |ps|;
    assert n > 0;
    LastFindsOwn(h, order, n);
    WholeContent(h, ps, kind, ref, class2, order, n - 1);
  }

  lemma WholeContent(h: Hash, ps: seq<Part>, kind: Kind, ref: nat, class2: bool, order: seq<nat>, i: nat)
    requires Message(ps, kind, ref, class2) && Numbers(order, |ps|) && i < |order|
    requires FindsTheOthers(h, order, |ps|, i) && Arrived(order, i) == UpTo(|ps| - 1)
    ensures ResultAt(h, ps, kind, order, i) == Complete(Bodies(ps))
  {
    CompleteContent(h, ps, kind, order, i);
    OwnFields(h, ps, kind, ref, class2, Arrived(order, i));
  }

  lemma OwnFields(h: Hash, ps: seq<Part>, kind: Kind, ref: nat, class2: bool, arrived: set<nat>)
    requires Message(ps, kind, ref, class2) && arrived == UpTo(|ps| - 1)
    ensures Available(h, ps, arrived) && Mixture(kind, h, ps, arrived, |ps|) == Bodies(ps)
  {
    MixtureIsBodies(kind, h, ps, arrived, ps, ref, class2, |ps|);
    assert ps[..|ps|] == ps;
  }

  /** At an empty hash exactly the last arrival can yield the message, and does exactly when it is that of the
      highest-numbered part. */
  lemma ReassembledOnlyInOrder(ps: seq<Part>, kind: Kind, order: seq<nat>, i: nat)
    requires |ps| > 0 && Order(order, |ps|) && i < |ps|
    ensures ResultAt(map[], ps, kind, order, i).Complete? <==> i == |ps| - 1 && order[i] == |ps|
  {
    var none: Hash := map[];
    CompleteIff(none, ps, kind, order, i);
    if order[i] == |ps| {
      AllOwnIff(order, |ps|, i);
      assert none.Keys + Arrived(order, i) == Arrived(order, i);
    }
  }

  /** The hash holds exactly the fields of a message. */
  ghost predicate HoldsAll(left: Hash, qs: seq<Part>) {
    left.Keys == UpTo(|qs|) && forall k: nat :: 1 <= k <= |qs| ==> k in left && left[k] == qs[k - 1]
  }

  /** Two messages stitched together: when the fields of one are left over, and the highest-numbered part of a longer
      one is first to come, what is handed on is the former content with the new last part. */
  lemma StitchedFromTwo(left: Hash, qs: seq<Part>, ps: seq<Part>, kind: Kind, ref: nat, class2: bool, order: seq<nat>)
    requires Message(qs, kind, ref, class2) && Message(ps, kind, ref, class2) && |ps| == |qs| + 1
    requires HoldsAll(left, qs) && order != [] && Numbers(order, |ps|) && order[0] == |ps|
    ensures ResultAt(left, ps, kind, order, 0) == Complete(Bodies(qs) + BodyOf(ps[|ps| - 1]))
  {
    assert left.Keys + Arrived(order, 0) == left.Keys;
    CompleteContent(left, ps, kind, order, 0);
    FormerFields(left, qs, ps, kind, ref, class2);
    LastStripped(ps, kind, ref, class2);
  }

  lemma FormerFields(left: Hash, qs: seq<Part>, ps: seq<Part>, kind: Kind, ref: nat, class2: bool)
    requires Message(qs, kind, ref, class2) && |ps| == |qs| + 1 && HoldsAll(left, qs)
    ensures Available(left, ps, {}) && Mixture(kind, left, ps, {}, |qs|) == Bodies(qs)
  {
    MixtureIsBodies(kind, left, ps, {}, qs, ref, class2, |qs|);
    assert qs[..|qs|] == qs;
  }

  lemma LastStripped(ps: seq<Part>, kind: Kind, ref: nat, class2: bool)
    requires Message(ps, kind, ref, class2)
    ensures Stripped(kind, ps[|ps| - 1].shortMessage) == BodyOf(ps[|ps| - 1])
  {
    assert IsPart(ps, kind, ref, class2, |ps| - 1);
  }

  /** The fields a message leaves behind, in whatever order it arrived. */
  lemma LeftBehind(ps: seq<Part>, order: seq<nat>)
    requires Order(order, |ps|)
    ensures HoldsAll(Stored(map[], ps, order, |ps|), ps)
  {
    var n := |ps|;
    StoredKeys(map[], ps, order, n);
    AllArrived(order, n);
    forall k: nat | 1 <= k <= n
      ensures k in Stored(map[], ps, order, n) && Stored(map[], ps, order, n)[k] == ps[k - 1]
    {
      StoredField(map[], ps, order, n, k);
    }
  }

  lemma AllArrived(order: seq<nat>, n: nat)
    requires Order(order, n)
    ensures Arrived(order, n) == UpTo(n)
  {
    ArrivedSize(order, n);
    ArrivedWithin(order, n, n);
    UpToSize(n);
    SubsetOfSize(Arrived(order, n), UpTo(n));
  }

  // ---- Recognising parts ----

  /** An incoming message counts as a part exactly when it has the SAR options or, not being of class 2, a user data
      header of a concatenation that is all there; the numbers are those it carries. */
  lemma DetectedIff(p: Part, class2: bool, kind: Kind, ref: nat, total: nat, seqnum: nat)
    ensures Detect(p, class2) == PartOf(kind, ref, total, seqnum) <==>
            || (kind == BySar && p.sar == Some(SarParams(ref, total, seqnum)))
            || (kind == ByUdh && p.sar.None? && p.udhi && !class2 && [5, 0, 3, ref, total, seqnum] <= p.shortMessage)
    ensures Detect(p, class2).CutShort? <==>
            p.sar.None? && p.udhi && !class2 && [5, 0, 3] <= p.shortMessage && |p.shortMessage| < 6
  {
    if |p.shortMessage| >= 6 {
      assert [5, 0, 3, ref, total, seqnum] <= p.shortMessage <==>
             p.shortMessage[..3] == [5, 0, 3] && p.shortMessage[3..6] == [ref, total, seqnum];
    }
  }

  // ---- Splitting and reassembling ----

  function KindOf(split: Split): Kind { if split == Sar then BySar else ByUdh }

  lemma PartIsDetected(split: Split, ref: byte, total: byte, seqnum: byte, body: seq<byte>)
    requires split != Unmarked
    ensures Detect(Marked(split, ref, total, seqnum, body), false) == PartOf(KindOf(split), ref, total, seqnum)
  {
    if split == Udh {
      var s := [5, 0, 3, ref, total, seqnum] + body;
      assert s[..3] == [5, 0, 3] && s[3] == ref && s[4] == total && s[5] == seqnum;
    }
  }

  lemma PartsAreMessage(split: Split, cap: int, ref: byte, c: Coding, content: seq<byte>)
    requires 1 <= cap <= 255 && IsLong(c, content) && split != Unmarked
    ensures Message(Parts(split, cap, ref, c, content), KindOf(split), ref, false)
  {
    CountInOctets(c, content);
    var ps := Parts(split, cap, ref, c, content);
    forall i | 0 <= i < |ps| ensures IsPart(ps, KindOf(split), ref, false, i) {
      PartIsDetected(split, ref, |ps|, i + 1, Slice(c, content, i));
    }
  }

  /** Splitting and then reassembling, in any arrival order that ends with the last part: the identity on
      contents the cap allows, and the first cap * stride octets of the others. */
  lemma SplitThenReassemble(split: Split, cap: int, ref: byte, c: Coding, content: seq<byte>, order: seq<nat>)
    requires 1 <= cap <= 255 && IsLong(c, content) && split != Unmarked
    requires var n := |Parts(split, cap, ref, c, content)|; Order(order, n) && order[n - 1] == n
    ensures var ps := Parts(split, cap, ref, c, content);
            ResultAt(map[], ps, KindOf(split), order, |ps| - 1)
            == Complete(if PartsNeeded(c, content) > cap then content[..cap * Stride(c)] else content)
  {
    var ps := Parts(split, cap, ref, c, content);
    PartsAreMessage(split, cap, ref, c, content);
    ReassembledContent(map[], ps, KindOf(split), ref, false, order);
    PartsCarryContent(split, cap, ref, c, content);
  }

  /** A second message under the same key before the hash expires is put together exactly when it has more
      parts than the first one had: a shorter or equal one is lost without a trace. */
  lemma ReusedReference(qs: seq<Part>, former: seq<nat>, ps: seq<Part>, kind: Kind, order: seq<nat>)
    requires |qs| > 0 && Order(former, |qs|) && |ps| > 0 && Order(order, |ps|) && order[|ps| - 1] == |ps|
    ensures ResultAt(Stored(map[], qs, former, |qs|), ps, kind, order, |ps| - 1).Complete? <==> |ps| > |qs|
  {
    var left := Stored(map[], qs, former, |qs|);
    LeftBehind(qs, former);
    CompleteIff(left, ps, kind, order, |ps| - 1);
    LastFinds(left, order, |ps|);
    assert |qs| in left.Keys;
  }
}
