/** The connector's TLV rules applied to a message before it is sent: missing types are filled in, then the
    list is checked for required tags and greatest body lengths. */
module TlvPolicy {
  import opened Basics
  import opened TlvRules
  import opened TlvCodec

  /** The last tuple carrying a tag, which is the one a dictionary built in order keeps. */
  function Last(tlvs: seq<Tlv>, tag: nat): Option<Tlv> {
    if tlvs == [] then None
    else
      var t := tlvs[|tlvs| - 1];
      if !t.Empty? && Masked(t.tag) == tag then Some(t) else Last(tlvs[..|tlvs| - 1], tag)
  }

  function LastRule(rules: seq<Rule>, tag: nat): Option<Rule> {
    if rules == [] then None
    else if Masked(rules[|rules| - 1].tag) == tag then Some(rules[|rules| - 1])
    else LastRule(rules[..|rules| - 1], tag)
  }

  // ---- Filling in types ----

  /** An untyped tuple of four gets the type of the rule for its tag, or OctetString; the text of an integer
      type becomes an integer. */
  function Resolved(t: Tlv, rules: seq<Rule>): Outcome<Tlv> {
    if !t.Full? || t.kind.Some? then Returns(t)
    else
      var rule := LastRule(rules, Masked(t.tag));
      var kind := if rule.Some? then rule.value.kind else OctetString;
      if Width(kind) > 0 && t.value.Text? then
        var n := ParseNumber(t.value.text);
        if n.None? then Raises else Returns(Full(t.tag, Some(kind), Number(n.value)))
      else Returns(Full(t.tag, Some(kind), t.value))
  }

  /** The last rule for the tag gives the type, text being read as a number for the integer types. */
  lemma ResolvedByRule(tag: int, v: Value, rules: seq<Rule>, i: nat)
    requires i < |rules| && Masked(rules[i].tag) == Masked(tag)
    requires forall j :: i < j < |rules| ==> Masked(rules[j].tag) != Masked(tag)
    ensures Resolved(Full(tag, None, v), rules) ==
            if v.Text? && IsInteger(rules[i].kind) then
              var n := ParseNumber(v.text);
              if n.Some? then Returns(Full(tag, Some(rules[i].kind), Number(n.value))) else Raises
            else Returns(Full(tag, Some(rules[i].kind), v))
  {
    LastRuleIs(rules, Masked(tag), i);
  }

  lemma {:induction false} LastRuleIs(rules: seq<Rule>, tag: nat, i: nat)
    requires i < |rules| && Masked(rules[i].tag) == tag && forall j :: i < j < |rules| ==> Masked(rules[j].tag) != tag
    ensures LastRule(rules, tag) == Some(rules[i])
  {
    if i < |rules| - 1 { LastRuleIs(rules[..|rules| - 1], tag, i); }
  }

  lemma {:induction false} NoLastRule(rules: seq<Rule>, tag: nat)
    requires forall j :: 0 <= j < |rules| ==> Masked(rules[j].tag) != tag
    ensures LastRule(rules, tag).None?
  {
    if rules != [] { NoLastRule(rules[..|rules| - 1], tag); }
  }

  /** Without a rule the type is OctetString; and what has a type, or is shorter than four, stays as it is. */
  lemma ResolvedWithoutRule(t: Tlv, rules: seq<Rule>)
    ensures !t.Full? || t.kind.Some? ==> Resolved(t, rules) == Returns(t)
    ensures t.Full? && t.kind.None? && (forall j :: 0 <= j < |rules| ==> Masked(rules[j].tag) != Masked(t.tag)) ==>
              Resolved(t, rules) == Returns(Full(t.tag, Some(OctetString), t.value))
  {
    if t.Full? && t.kind.None? && forall j :: 0 <= j < |rules| ==> Masked(rules[j].tag) != Masked(t.tag) {
      NoLastRule(rules, Masked(t.tag));
    }
  }

  predicate ResolvedList(tlvs: seq<Tlv>, rules: seq<Rule>, r: seq<Tlv>) {
    |r| == |tlvs| && forall i :: 0 <= i < |tlvs| ==> Resolved(tlvs[i], rules) == Returns(r[i])
  }

  /** `resolve_tlv_types` */
  method ResolveTlvTypes(tlvs: seq<Tlv>, rules: seq<Rule>) returns (r: Outcome<seq<Tlv>>)
    ensures r.Raises? <==> exists i :: 0 <= i < |tlvs| && Resolved(tlvs[i], rules).Raises?
    ensures r.Returns? ==> ResolvedList(tlvs, rules, r.value)
  {
    var ruleMap: map<nat, Rule> := map[];
    for i := 0 to |rules|
      invariant forall tag :: tag in ruleMap <==> LastRule(rules[..i], tag).Some?
      invariant forall tag :: tag in ruleMap ==> LastRule(rules[..i], tag) == Some(ruleMap[tag])
    {
      assert rules[..i + 1][..i] == rules[..i];
      ruleMap := ruleMap[Masked(rules[i].tag) := rules[i]];
    }
    assert rules[..|rules|] == rules;
    var result: seq<Tlv> := [];
    for i := 0 to |tlvs|
      invariant |result| == i && forall k :: 0 <= k < i ==> Resolved(tlvs[k], rules) == Returns(result[k])
    {
      var t := tlvs[i];
      if !t.Full? || t.kind.Some? {
        result := result + [t];
        continue;
      }
      var tag := Masked(t.tag);
      var kind := if tag in ruleMap then ruleMap[tag].kind else OctetString;
      var value := t.value;
      if Width(kind) > 0 && value.Text? {
        var n := ParseNumber(value.text);
        if n.None? { return Raises; }
        value := Number(n.value);
      }
      result := result + [Full(t.tag, Some(kind), value)];
    }
    r := Returns(result);
  }

  // ---- Checking ----

  datatype Verdict = Passed | Missing(tag: nat) | TooLong(tag: nat) | Raised

  /** The type a body is measured with: the tuple's own when it is a tuple of four, else the rule's. */
  function MeasuredAs(t: Tlv, r: Rule): Option<TlvType> {
    if t.Full? && t.kind.Some? then t.kind else Some(r.kind)
  }

  predicate Meets(tlvs: seq<Tlv>, r: Rule) {
    var t := Last(tlvs, Masked(r.tag));
    if t.None? then !r.required
    else r.length.None? || t.value.Bare? || t.value.Empty?
         || (var b := Body(t.value.value, MeasuredAs(t.value, r)); b.Returns? && |b.value| <= r.length.value)
  }

  /** The verdict on a rule that is not met. */
  function FaultOf(tlvs: seq<Tlv>, r: Rule): Verdict {
    var t := Last(tlvs, Masked(r.tag));
    if t.None? then Missing(Masked(r.tag))
    else if t.value.Bare? || t.value.Empty? || Body(t.value.value, MeasuredAs(t.value, r)).Returns? then
      TooLong(Masked(r.tag))
    else Raised
  }

  predicate Carries(t: Tlv, tag: nat) { !t.Empty? && Masked(t.tag) == tag }

  /** The fault named for a rule that is not met: missing exactly if no tuple carries its tag; else the value of the
      last that does cannot be encoded, or is too long. */
  lemma FaultIs(tlvs: seq<Tlv>, r: Rule)
    requires !Meets(tlvs, r)
    ensures FaultOf(tlvs, r) == Missing(Masked(r.tag)) <==>
            forall i :: 0 <= i < |tlvs| ==> !Carries(tlvs[i], Masked(r.tag))
    ensures FaultOf(tlvs, r).Missing? ==> r.required
    ensures FaultOf(tlvs, r) == TooLong(Masked(r.tag)) <==>
            exists i: nat :: i < |tlvs| && IsLast(tlvs, Masked(r.tag), i) && BodyLength(tlvs[i], r).Some?
    ensures FaultOf(tlvs, r).Raised? <==>
            exists i: nat :: i < |tlvs| && IsLast(tlvs, Masked(r.tag), i) && BodyLength(tlvs[i], r).None?
  {
    var tag := Masked(r.tag);
    if Last(tlvs, tag).Some? {
      var i := LastAt(tlvs, tag);
      assert Carries(tlvs[i], tag) && IsLast(tlvs, tag, i);
      forall k: nat | k < |tlvs| && IsLast(tlvs, tag, k) ensures k == i {
        OnlyLast(tlvs, tag, i, k);
      }
    } else {
      forall i: nat | i < |tlvs| ensures !Carries(tlvs[i], tag) {
        if Carries(tlvs[i], tag) { SomeLast(tlvs, tag, i); }
      }
    }
  }

  /** The tuple at position `i` is the last with the tag. */
  predicate IsLast(tlvs: seq<Tlv>, tag: nat, i: nat)
    requires i < |tlvs|
  {
    Carries(tlvs[i], tag) && forall j :: i < j < |tlvs| ==> !Carries(tlvs[j], tag)
  }

  lemma OnlyLast(tlvs: seq<Tlv>, tag: nat, i: nat, k: nat)
    requires i < |tlvs| && k < |tlvs| && IsLast(tlvs, tag, i) && IsLast(tlvs, tag, k)
    ensures i == k
  {
  }

  /** The length a tuple's value has for a rule, if it can be encoded. */
  function BodyLength(t: Tlv, r: Rule): Option<nat> {
    if t.Bare? || t.Empty? then Some(0)
    else
      var b := Body(t.value, if t.Full? && t.kind.Some? then t.kind else Some(r.kind));
      if b.Returns? then Some(|b.value|) else None
  }

  predicate FirstUnmet(tlvs: seq<Tlv>, rules: seq<Rule>, i: nat) {
    i < |rules| && !Meets(tlvs, rules[i]) && forall k :: 0 <= k < i ==> Meets(tlvs, rules[k])
  }

  /** `validate_custom_tlvs`: passes exactly when the last tuple of every tag meets every rule for it, and otherwise
      names the fault of the first rule that is not met. */
  method ValidateCustomTlvs(tlvs: seq<Tlv>, rules: seq<Rule>) returns (v: Verdict)
    ensures v.Passed? <==> forall i :: 0 <= i < |rules| ==> Meets(tlvs, rules[i])
    ensures !v.Passed? ==> exists i: nat :: FirstUnmet(tlvs, rules, i) && v == FaultOf(tlvs, rules[i])
  {
    var byTag: map<nat, Tlv> := map[];
    for i := 0 to |tlvs|
      invariant forall tag :: tag in byTag <==> Last(tlvs[..i], tag).Some?
      invariant forall tag :: tag in byTag ==> Last(tlvs[..i], tag) == Some(byTag[tag])
    {
      assert tlvs[..i + 1][..i] == tlvs[..i];
      if !tlvs[i].Empty? { byTag := byTag[Masked(tlvs[i].tag) := tlvs[i]]; }
    }
    assert tlvs[..|tlvs|] == tlvs;
    for i := 0 to |rules|
      invariant forall k :: 0 <= k < i ==> Meets(tlvs, rules[k])
    {
      var r := rules[i];
      var tag := Masked(r.tag);
      if tag !in byTag {
        if r.required {
          assert FirstUnmet(tlvs, rules, i);
          return Missing(tag);
        }
        continue;
      }
      var present := byTag[tag];
      if r.length.None? || present.Bare? || present.Empty? { continue; }
      var body := Body(present.value, MeasuredAs(present, r));
      if body.Raises? {
        assert FirstUnmet(tlvs, rules, i);
        return Raised;
      }
      if |body.value| > r.length.value {
        assert FirstUnmet(tlvs, rules, i);
        return TooLong(tag);
      }
    }
    v := Passed;
  }

  // ---- What validation is worth ----

  lemma {:induction false} LastPrepend(t: Tlv, tlvs: seq<Tlv>, tag: nat)
    requires Last(tlvs, tag).Some? || t.Empty? || Masked(t.tag) != tag
    ensures Last([t] + tlvs, tag) == Last(tlvs, tag)
  {
    var n := |tlvs| - 1;
    if tlvs == [] {
      assert ([t] + tlvs)[..0] == [];
    } else {
      assert ([t] + tlvs)[..n + 1] == [t] + tlvs[..n];
      assert ([t] + tlvs)[n + 1] == tlvs[n];
      if tlvs[n].Empty? || Masked(tlvs[n].tag) != tag { LastPrepend(t, tlvs[..n], tag); }
    }
  }

  /** A TLV followed by another of the same tag is not checked at all: whatever its length, every rule is met
      with it exactly when it is met without it. */
  lemma EarlierDuplicateUnchecked(t: Tlv, tlvs: seq<Tlv>, r: Rule)
    requires !t.Empty? && Last(tlvs, Masked(t.tag)).Some?
    ensures Meets([t] + tlvs, r) <==> Meets(tlvs, r)
  {
    LastPrepend(t, tlvs, Masked(r.tag));
  }

  predicate AllTyped(tlvs: seq<Tlv>) { forall i :: 0 <= i < |tlvs| ==> tlvs[i].Full? && tlvs[i].kind.Some? }

  predicate DistinctTags(tlvs: seq<Tlv>) {
    forall i, j :: 0 <= i < j < |tlvs| && !tlvs[i].Empty? && !tlvs[j].Empty? ==>
                     Masked(tlvs[i].tag) != Masked(tlvs[j].tag)
  }

  lemma {:induction false} LastIsIt(tlvs: seq<Tlv>, i: nat)
    requires DistinctTags(tlvs) && i < |tlvs| && !tlvs[i].Empty?
    ensures Last(tlvs, Masked(tlvs[i].tag)) == Some(tlvs[i])
  {
    if i < |tlvs| - 1 { LastIsIt(tlvs[..|tlvs| - 1], i); }
  }

  lemma {:induction false} FrameComesFrom(tlvs: seq<Tlv>, k: nat) returns (i: nat)
    requires Frames(tlvs).Returns? && k < |Frames(tlvs).value|
    ensures i < |tlvs| && FrameOf(tlvs[i]) == Returns([Frames(tlvs).value[k]])
  {
    var n := |tlvs| - 1;
    if k < |Frames(tlvs[..n]).value| {
      i := FrameComesFrom(tlvs[..n], k);
    } else {
      i := n;
    }
  }

  lemma {:induction false} LastHasFrame(tlvs: seq<Tlv>, tag: nat) returns (k: nat)
    requires AllTyped(tlvs) && Frames(tlvs).Returns? && Last(tlvs, tag).Some?
    ensures k < |Frames(tlvs).value| && Frames(tlvs).value[k].0 == tag
  {
    var n := |tlvs| - 1;
    if Masked(tlvs[n].tag) == tag {
      k := |Frames(tlvs[..n]).value|;
    } else {
      k := LastHasFrame(tlvs[..n], tag);
    }
  }

  /** The rules of one connector, as the receiver of the octets sees them. */
  predicate Obeyed(fs: seq<Frame>, r: Rule) {
    && (r.required ==> exists k :: 0 <= k < |fs| && fs[k].0 == Masked(r.tag))
    && (r.length.Some? ==> forall k :: 0 <= k < |fs| && fs[k].0 == Masked(r.tag) ==> |fs[k].1| <= r.length.value)
  }

  /** With no tag carried twice, a list passes exactly the rules it obeys on the wire: reading the octets back finds
      every required tag, and no body longer than its rule allows. */
  lemma PolicyHoldsOnTheWire(tlvs: seq<Tlv>, r: Rule)
    requires AllTyped(tlvs) && DistinctTags(tlvs) && Frames(tlvs).Returns?
    ensures Meets(tlvs, r) <==> Obeyed(Frames(tlvs).value, r)
  {
    if Meets(tlvs, r) { MetIsObeyed(tlvs, r); } else { UnmetIsDisobeyed(tlvs, r); }
  }

  lemma UnmetIsDisobeyed(tlvs: seq<Tlv>, r: Rule)
    requires AllTyped(tlvs) && Frames(tlvs).Returns? && !Meets(tlvs, r)
    ensures !Obeyed(Frames(tlvs).value, r)
  {
    var fs := Frames(tlvs).value;
    if Last(tlvs, Masked(r.tag)).None? {
      forall k | 0 <= k < |fs| ensures fs[k].0 != Masked(r.tag) {
        var i := FrameComesFrom(tlvs, k);
        if fs[k].0 == Masked(r.tag) { SomeLast(tlvs, Masked(r.tag), i); }
      }
    } else {
      var i := LastAt(tlvs, Masked(r.tag));
      var k := FrameOfTuple(tlvs, i);
      assert fs[k].0 == Masked(r.tag) && |fs[k].1| > r.length.value;
    }
  }

  lemma MetIsObeyed(tlvs: seq<Tlv>, r: Rule)
    requires AllTyped(tlvs) && DistinctTags(tlvs) && Frames(tlvs).Returns? && Meets(tlvs, r)
    ensures Obeyed(Frames(tlvs).value, r)
  {
    var fs := Frames(tlvs).value;
    if r.required { var k := LastHasFrame(tlvs, Masked(r.tag)); }
    if r.length.Some? {
      forall k | 0 <= k < |fs| && fs[k].0 == Masked(r.tag)
        ensures |fs[k].1| <= r.length.value
      {
        var i := FrameComesFrom(tlvs, k);
        LastIsIt(tlvs, i);
      }
    }
  }

  /** The frame at which the tuple at position `i` is found. */
  lemma {:induction false} FrameOfTuple(tlvs: seq<Tlv>, i: nat) returns (k: nat)
    requires AllTyped(tlvs) && Frames(tlvs).Returns? && i < |tlvs|
    ensures k < |Frames(tlvs).value| && FrameOf(tlvs[i]) == Returns([Frames(tlvs).value[k]])
  {
    var n := |tlvs| - 1;
    if i == n {
      k := |Frames(tlvs[..n]).value|;
    } else {
      k := FrameOfTuple(tlvs[..n], i);
    }
  }

  /** An earlier TLV of the rule's tag with a body longer than the rule allows. */
  predicate OversizedDuplicate(tlvs: seq<Tlv>, r: Rule, i: nat) {
    && i < |tlvs| && tlvs[i].Full? && tlvs[i].kind.Some? && Masked(tlvs[i].tag) == Masked(r.tag)
    && (exists j :: i < j < |tlvs| && !tlvs[j].Empty? && Masked(tlvs[j].tag) == Masked(r.tag))
    && r.length.Some?
    && var b := Body(tlvs[i].value, tlvs[i].kind); b.Returns? && |b.value| > r.length.value
  }

  /** The last tuple of a tag, by position. */
  lemma {:induction false} LastAt(tlvs: seq<Tlv>, tag: nat) returns (i: nat)
    requires Last(tlvs, tag).Some?
    ensures i < |tlvs| && Last(tlvs, tag) == Some(tlvs[i]) && !tlvs[i].Empty? && Masked(tlvs[i].tag) == tag
    ensures forall j :: i < j < |tlvs| && !tlvs[j].Empty? ==> Masked(tlvs[j].tag) != tag
  {
    var n := |tlvs| - 1;
    if !tlvs[n].Empty? && Masked(tlvs[n].tag) == tag {
      i := n;
    } else {
      i := LastAt(tlvs[..n], tag);
      assert forall j :: 0 <= j < n ==> tlvs[..n][j] == tlvs[j];
    }
  }

  lemma {:induction false} SomeLast(tlvs: seq<Tlv>, tag: nat, i: nat)
    requires i < |tlvs| && !tlvs[i].Empty? && Masked(tlvs[i].tag) == tag
    ensures Last(tlvs, tag).Some?
  {
    if i < |tlvs| - 1 { SomeLast(tlvs[..|tlvs| - 1], tag, i); }
  }

  /** Of a list that meets a rule, a body too long for it on the wire comes from an earlier duplicate. */
  lemma TooLongIsDuplicate(tlvs: seq<Tlv>, r: Rule, k: nat) returns (i: nat)
    requires AllTyped(tlvs) && Frames(tlvs).Returns? && Meets(tlvs, r) && r.length.Some?
    requires k < |Frames(tlvs).value| && Frames(tlvs).value[k].0 == Masked(r.tag)
    requires |Frames(tlvs).value[k].1| > r.length.value
    ensures OversizedDuplicate(tlvs, r, i)
  {
    i := FrameComesFrom(tlvs, k);
    SomeLast(tlvs, Masked(r.tag), i);
    var last := LastAt(tlvs, Masked(r.tag));
    assert i != last;
  }

  /** What validation is worth on the wire: a list of typed tuples that meets a rule obeys it there exactly when it has
      no earlier TLV of that tag with too long a body. */
  lemma ObeyedIff(tlvs: seq<Tlv>, r: Rule)
    requires AllTyped(tlvs) && Frames(tlvs).Returns? && Meets(tlvs, r)
    ensures Obeyed(Frames(tlvs).value, r) <==> !exists i: nat :: OversizedDuplicate(tlvs, r, i)
  {
    var fs := Frames(tlvs).value;
    if i: nat :| OversizedDuplicate(tlvs, r, i) {
      var k := FrameOfTuple(tlvs, i);
      assert fs[k].0 == Masked(r.tag) && |fs[k].1| > r.length.value;
    } else {
      if r.required { var k := LastHasFrame(tlvs, Masked(r.tag)); }
      if r.length.Some? {
        forall k | 0 <= k < |fs| && fs[k].0 == Masked(r.tag) ensures |fs[k].1| <= r.length.value {
          if |fs[k].1| > r.length.value { var i := TooLongIsDuplicate(tlvs, r, k); }
        }
      }
    }
  }

  /** Such lists there are: two octets and then one under tag 5, against a rule of one octet, are valid and break it. */
  lemma ValidListBreaksRule()
    ensures var r := Rule(5, OctetString, Some(1), false);
            var tlvs := [Full(5, Some(OctetString), Bytes([1, 2]))] + [Full(5, Some(OctetString), Bytes([1]))];
            && AllTyped(tlvs) && Frames(tlvs).Returns? && Meets(tlvs, r) && !Obeyed(Frames(tlvs).value, r)
  {
    var r := Rule(5, OctetString, Some(1), false);
    var first, second := Full(5, Some(OctetString), Bytes([1, 2])), Full(5, Some(OctetString), Bytes([1]));
    var tlvs := [first] + [second];
    assert FrameOf(first) == Returns([(5, [1, 2])]) && FrameOf(second) == Returns([(5, [1])]);
    assert tlvs[..1] == [first] && [first][..0] == [];
    assert Frames([first]) == Returns([] + [(5, [1, 2])]);
    assert Last(tlvs, 5) == Some(second);
    assert OversizedDuplicate(tlvs, r, 0) by { assert 0 < 1 < |tlvs| && Masked(tlvs[1].tag) == 5; }
    ObeyedIff(tlvs, r);
  }

  /** Resolve, validate, encode: for any list of tuples of four without a repeated tag that is valid,
      the octets read back as frames that obey every rule of the connector. */
  lemma CheckedListObeysRules(tlvs: seq<Tlv>, rules: seq<Rule>, typed: seq<Tlv>)
    requires DistinctTags(tlvs) && forall i :: 0 <= i < |tlvs| ==> tlvs[i].Full?
    requires ResolvedList(tlvs, rules, typed) && Frames(typed).Returns?
    requires forall i :: 0 <= i < |rules| ==> Meets(typed, rules[i])
    ensures Framable(Frames(typed).value) && Read(Wire(Frames(typed).value)).Some?
    ensures forall i :: 0 <= i < |rules| ==> Obeyed(Read(Wire(Frames(typed).value)).value, rules[i])
  {
    FramesFramable(typed);
    ReadWire(Frames(typed).value);
    forall i | 0 <= i < |typed|
      ensures typed[i].Full? && typed[i].kind.Some? && typed[i].tag == tlvs[i].tag
    {
      assert Resolved(tlvs[i], rules) == Returns(typed[i]);
    }
    forall i | 0 <= i < |rules| ensures Obeyed(Frames(typed).value, rules[i]) {
      PolicyHoldsOnTheWire(typed, rules[i]);
    }
  }
}
