/** The throughput quota of the SMPP server and the HTTP API: a submission is refused when it comes less than a period
    after the last accepted one. Times are microseconds; the clock does not run backwards. */
module Throttle {
  import opened Basics

  /** A duration given as a fraction of a microsecond is rounded to the nearest, halves to the even one. */
  function RoundHalfEven(x: real): (n: int)
    ensures x - 0.5 <= n as real <= x + 0.5
    ensures n as real == x + 0.5 || n as real == x - 0.5 ==> n % 2 == 0
  {
    var f := x.Floor;
    var rest := x - f as real;
    if rest < 0.5 || (rest == 0.5 && f % 2 == 0) then f else f + 1
  }

  /** The least time between two submissions at `quota` a second. */
  function Period(quota: real): (p: nat)
    requires quota > 0.0
    ensures 1000000.0 / quota - 0.5 <= p as real <= 1000000.0 / quota + 0.5
  {
    RoundHalfEven(1000000.0 / quota)
  }

  /** An attempt reads the clock when it is checked and again when it is accepted. */
  datatype Attempt = Attempt(checked: int, stamped: int)

  predicate Allowed(period: nat, last: Option<int>, now: int) { last.Some? ==> now - last.value >= period }

  predicate Monotonic(attempts: seq<Attempt>) {
    && (forall i :: 0 <= i < |attempts| ==> attempts[i].checked <= attempts[i].stamped)
    && (forall i, j :: 0 <= i < j < |attempts| ==> attempts[i].stamped <= attempts[j].checked)
  }

  /** The stamps of the accepted attempts, in order. */
  function Stamps(period: nat, attempts: seq<Attempt>): seq<int> {
    if attempts == [] then []
    else
      var before := Stamps(period, attempts[..|attempts| - 1]);
      var a := attempts[|attempts| - 1];
      if Allowed(period, Last(before), a.checked) then before + [a.stamped] else before
  }

  function Last(stamps: seq<int>): Option<int> {
    if stamps == [] then None else Some(stamps[|stamps| - 1])
  }

  class Gate {
    const quota: Option<real>
    var last: Option<int>

    constructor (quota: Option<real>)
      ensures this.quota == quota && last == None
    {
      this.quota, last := quota, None;
    }

    /** No quota, or a quota of zero, refuses nothing. A refused attempt leaves no stamp. */
    method Submit(a: Attempt) returns (accepted: bool)
      modifies this`last
      ensures accepted <==> (quota.Some? && quota.value > 0.0 ==> Allowed(Period(quota.value), old(last), a.checked))
      ensures last == if accepted then Some(a.stamped) else old(last)
    {
      if quota.Some? && quota.value > 0.0 && last.Some? {
        var delay := a.checked - last.value;
        if delay < Period(quota.value) { return false; }
      }
      last := Some(a.stamped);
      accepted := true;
    }

    /** A whole history of attempts is stamped as `Stamps` says. */
    method SubmitAll(attempts: seq<Attempt>) returns (stamps: seq<int>)
      requires quota.Some? && quota.value > 0.0 && last == None
      modifies this`last
      ensures stamps == Stamps(Period(quota.value), attempts) && last == Last(stamps)
    {
      stamps := [];
      for i := 0 to |attempts|
        invariant stamps == Stamps(Period(quota.value), attempts[..i]) && last == Last(stamps)
      {
        assert attempts[..i + 1][..i] == attempts[..i];
        var accepted := Submit(attempts[i]);
        if accepted { stamps := stamps + [attempts[i].stamped]; }
      }
      assert attempts[..|attempts|] == attempts;
    }
  }

  /** Accepted submissions are at least a period apart. */
  lemma {:induction false} StampsApart(period: nat, attempts: seq<Attempt>, i: nat)
    requires Monotonic(attempts) && i + 1 < |Stamps(period, attempts)|
    ensures Stamps(period, attempts)[i + 1] - Stamps(period, attempts)[i] >= period
  {
    var before := attempts[..|attempts| - 1];
    if i + 1 < |Stamps(period, before)| { StampsApart(period, before, i); }
  }

  lemma {:induction false} StampsFarApart(period: nat, attempts: seq<Attempt>, i: nat, j: nat)
    requires Monotonic(attempts) && i <= j < |Stamps(period, attempts)|
    ensures Stamps(period, attempts)[j] - Stamps(period, attempts)[i] >= (j - i) * period
  {
    if i < j {
      StampsFarApart(period, attempts, i, j - 1);
      StampsApart(period, attempts, j - 1);
      assert (j - i) * period == (j - 1 - i) * period + period;
    }
  }

  lemma {:induction false} AtLeast(k: nat, d: nat)
    requires k >= 1
    ensures k * d >= d
  {
    if k > 1 {
      AtLeast(k - 1, d);
      assert k * d == (k - 1) * d + d;
    }
  }

  lemma FitsIn(n: nat, d: nat, t: nat)
    requires d > 0 && n * d <= t
    ensures n <= t / d
  {
    var q := t / d;
    assert t == q * d + t % d;
    assert (n - q) * d == n * d - q * d;
    if n > q { AtLeast(n - q, d); }
  }

  /** Whatever the traffic, a window of `length` microseconds lets through at most one submission more than the number
      of periods that fit in it. */
  lemma WindowIsBounded(period: nat, attempts: seq<Attempt>, length: nat, i: nat, j: nat)
    requires Monotonic(attempts) && period > 0 && i < j <= |Stamps(period, attempts)|
    requires Stamps(period, attempts)[j - 1] - Stamps(period, attempts)[i] <= length
    ensures j - i <= length / period + 1
  {
    StampsFarApart(period, attempts, i, j - 1);
    FitsIn(j - 1 - i, period, length);
  }

  /** A submission that comes a period or more after every earlier attempt is never refused. */
  lemma {:induction false} PatientIsNeverRefused(period: nat, attempts: seq<Attempt>)
    requires forall i :: 0 < i < |attempts| ==> attempts[i].checked - attempts[i - 1].stamped >= period
    ensures |Stamps(period, attempts)| == |attempts|
    ensures attempts != [] ==> Last(Stamps(period, attempts)) == Some(attempts[|attempts| - 1].stamped)
  {
    if attempts != [] { PatientIsNeverRefused(period, attempts[..|attempts| - 1]); }
  }
}
