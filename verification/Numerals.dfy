/** Numbers as Python writes and reads them: `%x`, `%X` and `str` of an int, `int(text, base)`, and the
    string methods used around them. Texts are ASCII. */
module Numerals {
  import opened Basics

  /** The two bases the gateway uses. */
  predicate Base(b: int) { b == 10 || b == 16 }

  function Upper(s: string): (r: string)
    ensures |r| == |s|
  {
    seq(|s|, i requires 0 <= i < |s| => UpperChar(s[i]))
  }

  function UpperChar(c: char): char { if 'a' <= c <= 'z' then c - 'a' + 'A' else c }

  function Lower(s: string): (r: string)
    ensures |r| == |s|
  {
    seq(|s|, i requires 0 <= i < |s| => LowerChar(s[i]))
  }

  function LowerChar(c: char): char { if 'A' <= c <= 'Z' then c - 'A' + 'a' else c }

  /** Upper and lower case are the two cases of the same letters. */
  lemma TwoCases(c: char)
    ensures UpperChar(LowerChar(c)) == UpperChar(c) && LowerChar(UpperChar(c)) == LowerChar(c)
    ensures UpperChar(c) != LowerChar(c) <==> 'a' <= c <= 'z' || 'A' <= c <= 'Z'
  {
  }

  /** `lstrip('0')` */
  function DropZeros(s: string): string {
    if s != [] && s[0] == '0' then DropZeros(s[1..]) else s
  }

  predicate IsSpace(c: char) { c == ' ' || '\t' <= c <= '\r' || (0x1c as char) <= c <= (0x1f as char) }

  function DropSpaces(s: string): string {
    if s != [] && IsSpace(s[0]) then DropSpaces(s[1..]) else s
  }

  function DropSpacesRight(s: string): string {
    if s != [] && IsSpace(s[|s| - 1]) then DropSpacesRight(s[..|s| - 1]) else s
  }

  /** `strip()` */
  function Strip(s: string): string { DropSpacesRight(DropSpaces(s)) }

  // ---- Digits ----

  function DigitValue(c: char): Option<nat> {
    if '0' <= c <= '9' then Some((c - '0') as int)
    else if 'a' <= c <= 'f' then Some((c - 'a') as int + 10)
    else if 'A' <= c <= 'F' then Some((c - 'A') as int + 10)
    else None
  }

  predicate IsDigit(c: char, b: int) { DigitValue(c).Some? && DigitValue(c).value < b }

  predicate IsNumeral(s: string, b: int) { forall i :: 0 <= i < |s| ==> IsDigit(s[i], b) }

  function DigitChar(d: nat, upper: bool): char
    requires d < 16
  {
    if d < 10 then '0' + d as char else (if upper then 'A' else 'a') + (d - 10) as char
  }

  function Value(s: string, b: int): nat
    requires Base(b) && IsNumeral(s, b)
  {
    if s == [] then 0 else Value(s[..|s| - 1], b) * b + DigitValue(s[|s| - 1]).value
  }

  function Show(n: nat, b: int, upper: bool): (s: string)
    requires Base(b)
    ensures |s| > 0 && IsNumeral(s, b)
    ensures n > 0 ==> s[0] != '0'
  {
    if n < b then [DigitChar(n, upper)] else Show(n / b, b, upper) + [DigitChar(n % b, upper)]
  }

  /** `'%x' % i`, `'%X' % i` and `str(i)` */
  function Format(i: int, b: int, upper: bool): string
    requires Base(b)
  {
    if i < 0 then "-" + Show(-i, b, upper) else Show(i, b, upper)
  }

  lemma DigitRoundTrip(d: nat, upper: bool)
    requires d < 16
    ensures DigitValue(DigitChar(d, upper)) == Some(d)
    ensures d > 0 ==> DigitChar(d, upper) != '0'
    ensures UpperChar(DigitChar(d, upper)) == DigitChar(d, true)
  {
  }

  lemma DigitCharBack(c: char)
    requires DigitValue(c).Some?
    ensures DigitValue(c).value < 16 && UpperChar(c) == DigitChar(DigitValue(c).value, true)
  {
  }

  lemma DivMod(x: nat, d: nat, b: int)
    requires Base(b) && d < b
    ensures (x * b + d) / b == x && (x * b + d) % b == d
  {
    if b == 10 { assert (x * 10 + d) / 10 == x; } else { assert (x * 16 + d) / 16 == x; }
  }

  lemma ValueAppend(s: string, c: char, b: int)
    requires Base(b) && IsNumeral(s, b) && IsDigit(c, b)
    ensures IsNumeral(s + [c], b) && Value(s + [c], b) == Value(s, b) * b + DigitValue(c).value
  {
    assert (s + [c])[..|s|] == s;
  }

  lemma {:induction false} ValueShow(n: nat, b: int, upper: bool)
    requires Base(b)
    ensures Value(Show(n, b, upper), b) == n
  {
    if n >= b {
      ValueShow(n / b, b, upper);
      DigitRoundTrip(n % b, upper);
      ValueAppend(Show(n / b, b, upper), DigitChar(n % b, upper), b);
    } else {
      DigitRoundTrip(n, upper);
      ValueAppend([], DigitChar(n, upper), b);
      assert [] + [DigitChar(n, upper)] == Show(n, b, upper);
    }
  }

  lemma {:induction false} ValuePositive(s: string, b: int)
    requires Base(b) && IsNumeral(s, b) && s != [] && s[0] != '0'
    ensures Value(s, b) > 0
  {
    if |s| > 1 { ValuePositive(s[..|s| - 1], b); }
  }

  lemma ShowStep(x: nat, d: nat, b: int)
    requires Base(b) && d < b && x > 0
    ensures Show(x * b + d, b, true) == Show(x, b, true) + [DigitChar(d, true)]
  {
    DivMod(x, d, b);
  }

  lemma UpperAppend(t: string, c: char)
    ensures Upper(t + [c]) == Upper(t) + [UpperChar(c)]
  {
  }

  lemma CanonicalDigit(c: char, b: int)
    requires Base(b) && IsDigit(c, b)
    ensures IsNumeral([c], b) && Upper([c]) == Show(Value([c], b), b, true)
  {
    var d := DigitValue(c).value;
    DigitCharBack(c);
    assert [c][..0] == [] && [c][0] == c;
    assert Value([c], b) == d;
    assert Show(d, b, true) == [DigitChar(d, true)];
    assert Upper([c]) == [UpperChar(c)];
  }

  lemma CanonicalStep(t: string, c: char, b: int)
    requires Base(b) && IsNumeral(t, b) && IsDigit(c, b) && Value(t, b) > 0
    requires Upper(t) == Show(Value(t, b), b, true)
    ensures IsNumeral(t + [c], b) && Upper(t + [c]) == Show(Value(t + [c], b), b, true)
  {
    ValueAppend(t, c, b);
    UpperAppend(t, c);
    DigitCharBack(c);
    ShowStep(Value(t, b), DigitValue(c).value, b);
  }

  /** A numeral without leading zeros is, up to case, the one printed for its value. */
  lemma {:induction false} CanonicalNumeral(s: string, b: int)
    requires Base(b) && IsNumeral(s, b) && s != [] && s[0] != '0'
    ensures Upper(s) == Show(Value(s, b), b, true)
  {
    var n := |s| - 1;
    if n > 0 {
      CanonicalNumeral(s[..n], b);
      ValuePositive(s[..n], b);
      CanonicalStep(s[..n], s[n], b);
      assert s == s[..n] + [s[n]];
    } else {
      CanonicalDigit(s[0], b);
      assert s == [s[0]];
    }
  }

  lemma {:induction false} ValueDropsZero(s: string, b: int)
    requires Base(b) && IsNumeral(s, b) && s != [] && s[0] == '0'
    ensures Value(s[1..], b) == Value(s, b)
  {
    if |s| > 1 {
      ValueDropsZero(s[..|s| - 1], b);
      assert s[..|s| - 1][1..] == s[1..][..|s| - 2];
    } else {
      assert s[..0] == [];
    }
  }

  lemma {:induction false} DropZerosKeepsValue(s: string, b: int)
    requires Base(b) && IsNumeral(s, b)
    ensures IsNumeral(DropZeros(s), b) && Value(DropZeros(s), b) == Value(s, b)
    ensures DropZeros(s) != [] ==> DropZeros(s)[0] != '0'
  {
    if s != [] && s[0] == '0' {
      ValueDropsZero(s, b);
      DropZerosKeepsValue(s[1..], b);
    }
  }

  lemma {:induction false} DropZerosUpper(s: string)
    ensures DropZeros(Upper(s)) == Upper(DropZeros(s))
  {
    if s != [] && s[0] == '0' {
      assert Upper(s)[1..] == Upper(s[1..]);
      DropZerosUpper(s[1..]);
    }
  }

  // ---- int(text, base) ----

  /** Digits with single underscores between them. */
  function Underscored(s: string, b: int): Option<nat>
    requires Base(b)
  {
    if s == [] || !IsDigit(s[|s| - 1], b) then None
    else if |s| == 1 then Some(DigitValue(s[0]).value)
    else
      var rest := if s[|s| - 2] == '_' then Underscored(s[..|s| - 2], b) else Underscored(s[..|s| - 1], b);
      if rest.None? then None else Some(rest.value * b + DigitValue(s[|s| - 1]).value)
  }

  predicate HasHexPrefix(s: string) { |s| >= 2 && s[0] == '0' && (s[1] == 'x' || s[1] == 'X') }

  /** An unsigned literal; in base 16 it may start with 0x, and with an underscore after that. */
  function Unsigned(s: string, b: int): Option<nat>
    requires Base(b)
  {
    if b == 16 && HasHexPrefix(s)
    then Underscored(if |s| > 2 && s[2] == '_' then s[3..] else s[2..], b)
    else Underscored(s, b)
  }

  /** `int(text, b)`; `None` is the ValueError. */
  function ParseInt(text: string, b: int): Option<int>
    requires Base(b)
  {
    var s := Strip(text);
    if s != [] && s[0] == '-' then
      var u := Unsigned(s[1..], b);
      if u.None? then None else Some(-(u.value as int))
    else
      var u := Unsigned(if s != [] && s[0] == '+' then s[1..] else s, b);
      if u.None? then None else Some(u.value)
  }

  lemma {:induction false} UnderscoredNumeral(s: string, b: int)
    requires Base(b) && IsNumeral(s, b) && s != []
    ensures Underscored(s, b) == Some(Value(s, b))
  {
    if |s| > 1 {
      UnderscoredNumeral(s[..|s| - 1], b);
    } else {
      assert s[..0] == [];
    }
  }

  lemma {:induction false} StripNothing(s: string)
    requires s == [] || (!IsSpace(s[0]) && !IsSpace(s[|s| - 1]))
    ensures Strip(s) == s
  {
  }

  /** A plain numeral is read as its value. */
  lemma ParseNumeral(s: string, b: int)
    requires Base(b) && IsNumeral(s, b) && s != []
    ensures ParseInt(s, b) == Some(Value(s, b))
  {
    StripNothing(s);
    UnderscoredNumeral(s, b);
    assert IsDigit(s[0], b);
    if |s| > 1 { assert IsDigit(s[1], b); }
  }

  lemma UnsignedNumeral(s: string, b: int)
    requires Base(b) && IsNumeral(s, b) && s != []
    ensures Unsigned(s, b) == Some(Value(s, b))
  {
    UnderscoredNumeral(s, b);
    assert IsDigit(s[0], b);
    if |s| > 1 { assert IsDigit(s[1], b); }
  }

  /** What is printed for a number is read back as that number. */
  lemma ParseFormat(i: int, b: int, upper: bool)
    requires Base(b)
    ensures ParseInt(Format(i, b, upper), b) == Some(i)
  {
    var n: nat := if i < 0 then -i else i;
    var s := Show(n, b, upper);
    ValueShow(n, b, upper);
    if i < 0 {
      UnsignedNumeral(s, b);
      assert IsDigit(s[|s| - 1], b);
      StripNothing("-" + s);
      assert ("-" + s)[1..] == s;
    } else {
      ParseNumeral(s, b);
    }
  }
}
