/** The text of a connector's TLV rules, as the console shows and accepts it:
    `tag,type,max_length[,required|optional]`, entries separated by semicolons. */
module TlvRules {
  import opened Basics
  import opened Numerals

  datatype TlvType = Int1 | Int2 | Int4 | Int8 | OctetString | COctetString

  /** `length` is the greatest allowed body length, `None` for no limit. */
  datatype Rule = Rule(tag: int, kind: TlvType, length: Option<int>, required: bool)

  datatype Error = BadFormat | BadTag | BadType | BadLength | BadFlag

  datatype Result<+T> = Ok(value: T) | KeyError(error: Error)

  function TypeName(t: TlvType): string {
    match t
    case Int1 => "Int1"
    case Int2 => "Int2"
    case Int4 => "Int4"
    case Int8 => "Int8"
    case OctetString => "OctetString"
    case COctetString => "COctetString"
  }

  function TypeOf(name: string): Option<TlvType> {
    if name == "Int1" then Some(Int1)
    else if name == "Int2" then Some(Int2)
    else if name == "Int4" then Some(Int4)
    else if name == "Int8" then Some(Int8)
    else if name == "OctetString" then Some(OctetString)
    else if name == "COctetString" then Some(COctetString)
    else None
  }

  // ---- Splitting and joining ----

  /** `s.split(c)` */
  function Split(s: string, c: char): (r: seq<string>)
    ensures |r| > 0
  {
    if s == [] then [[]]
    else
      var r := Split(s[1..], c);
      if s[0] == c then [[]] + r else [[s[0]] + r[0]] + r[1..]
  }

  /** `c.join(parts)` */
  function Join(parts: seq<string>, c: char): string
    requires |parts| > 0
  {
    if |parts| == 1 then parts[0] else parts[0] + [c] + Join(parts[1..], c)
  }

  lemma {:induction false} SplitFirst(p: string, c: char, rest: string)
    requires c !in p
    ensures Split(p, c) == [p]
    ensures Split(p + [c] + rest, c) == [p] + Split(rest, c)
  {
    if p == [] {
      assert ([] + [c] + rest)[1..] == rest;
    } else {
      SplitFirst(p[1..], c, rest);
      assert (p + [c] + rest)[1..] == p[1..] + [c] + rest;
      assert [p[0]] + p[1..] == p;
    }
  }

  lemma {:induction false} SplitJoin(parts: seq<string>, c: char)
    requires |parts| > 0 && forall i :: 0 <= i < |parts| ==> c !in parts[i]
    ensures Split(Join(parts, c), c) == parts
  {
    if |parts| == 1 {
      SplitFirst(parts[0], c, []);
    } else {
      SplitJoin(parts[1..], c);
      SplitFirst(parts[0], c, Join(parts[1..], c));
    }
  }

  // ---- Reading ----

  /** A number in hexadecimal after 0x, else in decimal. */
  function ParseNumber(s: string): Option<int> {
    if HasHexPrefix(s) then ParseInt(s, 16) else ParseInt(s, 10)
  }

  function ParseLength(s: string): Result<Option<int>> {
    if s == "" || s == "-" then Ok(None)
    else
      var n := ParseNumber(s);
      if n.None? || n.value <= 0 then KeyError(BadLength) else Ok(Some(n.value))
  }

  function ParseFlag(parts: seq<string>): Result<bool> {
    if |parts| < 4 then Ok(false)
    else
      var flag := Lower(Strip(parts[3]));
      if flag == "required" then Ok(true)
      else if flag == "optional" || flag == "" then Ok(false)
      else KeyError(BadFlag)
  }

  function ParseEntry(entry: string): Result<Rule> { ParseFields(Split(entry, ',')) }

  function ParseFields(parts: seq<string>): Result<Rule> {
    if |parts| < 3 then KeyError(BadFormat)
    else
      var tag := ParseNumber(Strip(parts[0]));
      if tag.None? then KeyError(BadTag)
      else
        var kind := TypeOf(Strip(parts[1]));
        if kind.None? then KeyError(BadType)
        else
          var length := ParseLength(Strip(parts[2]));
          if length.KeyError? then KeyError(length.error)
          else
            var required := ParseFlag(parts);
            if required.KeyError? then KeyError(required.error)
            else Ok(Rule(tag.value, kind.value, length.value, required.value))
  }

  /** The text of a length or of a flag as the reader wants it. */
  predicate LengthText(s: string) {
    s == "" || s == "-" || (ParseNumber(s).Some? && ParseNumber(s).value > 0)
  }

  predicate FlagText(s: string) { Lower(Strip(s)) in {"", "optional", "required"} }

  predicate TypeText(s: string) { s in {"Int1", "Int2", "Int4", "Int8", "OctetString", "COctetString"} }

  /** An entry is accepted exactly if it has three fields or more: a number, the name of a type, a positive length or
      none, and, if there is a fourth, a flag. Each refusal names the first that is wrong. */
  lemma EntryAcceptedIff(parts: seq<string>)
    ensures ParseFields(parts).Ok? <==>
            && |parts| >= 3 && ParseNumber(Strip(parts[0])).Some? && TypeText(Strip(parts[1]))
            && LengthText(Strip(parts[2])) && (|parts| > 3 ==> FlagText(parts[3]))
    ensures ParseFields(parts) == KeyError(BadFormat) <==> |parts| < 3
    ensures ParseFields(parts) == KeyError(BadTag) <==> |parts| >= 3 && ParseNumber(Strip(parts[0])).None?
    ensures ParseFields(parts) == KeyError(BadType) <==>
            |parts| >= 3 && ParseNumber(Strip(parts[0])).Some? && !TypeText(Strip(parts[1]))
    ensures ParseFields(parts) == KeyError(BadLength) <==>
            && |parts| >= 3 && ParseNumber(Strip(parts[0])).Some? && TypeText(Strip(parts[1]))
            && !LengthText(Strip(parts[2]))
  {
  }

  /** What an accepted entry means: an entry of three fields is optional. */
  lemma EntryMeans(parts: seq<string>)
    requires ParseFields(parts).Ok?
    ensures var r := ParseFields(parts).value;
            && Some(r.tag) == ParseNumber(Strip(parts[0]))
            && (r.kind == Int1 <==> Strip(parts[1]) == "Int1") && (r.kind == Int2 <==> Strip(parts[1]) == "Int2")
            && (r.kind == Int4 <==> Strip(parts[1]) == "Int4") && (r.kind == Int8 <==> Strip(parts[1]) == "Int8")
            && (r.kind == OctetString <==> Strip(parts[1]) == "OctetString")
            && (r.kind == COctetString <==> Strip(parts[1]) == "COctetString")
            && (r.length.None? <==> Strip(parts[2]) in {"", "-"})
            && (r.length.Some? ==> r.length == ParseNumber(Strip(parts[2])))
            && (r.required <==> |parts| > 3 && Lower(Strip(parts[3])) == "required")
  {
  }

  /** The entries in order up to the first error; blank entries are skipped. */
  function ParseEntries(entries: seq<string>): Result<seq<Rule>> {
    if entries == [] then Ok([])
    else
      var before := ParseEntries(entries[..|entries| - 1]);
      var entry := Strip(entries[|entries| - 1]);
      if before.KeyError? || entry == "" then before
      else
        var r := ParseEntry(entry);
        if r.KeyError? then KeyError(r.error) else Ok(before.value + [r.value])
  }

  function Parse(text: string): Result<seq<Rule>> {
    if Lower(text) == "none" then Ok([]) else ParseEntries(Split(text, ';'))
  }

  /** Blank entries, as a semicolon at the end leaves one, say nothing. */
  lemma BlankEntrySkipped(before: seq<string>, entry: string)
    requires Strip(entry) == ""
    ensures ParseEntries(before + [entry]) == ParseEntries(before)
  {
    assert (before + [entry])[..|before|] == before;
  }

  lemma {:induction false} ErrorSticks(entries: seq<string>, i: nat)
    requires i <= |entries| && ParseEntries(entries[..i]).KeyError?
    ensures ParseEntries(entries) == ParseEntries(entries[..i])
  {
    if i == |entries| {
      assert entries[..i] == entries;
    } else {
      assert entries[..|entries| - 1][..i] == entries[..i];
      ErrorSticks(entries[..|entries| - 1], i);
    }
  }

  /** `parseTlvString` */
  method ParseTlvString(value: string) returns (r: Result<seq<Rule>>)
    ensures r == Parse(value)
  {
    if Lower(value) == "none" { return Ok([]); }
    var tlvs := [];
    var entries := Split(value, ';');
    for i := 0 to |entries|
      invariant ParseEntries(entries[..i]) == Ok(tlvs)
    {
      assert entries[..i + 1][..i] == entries[..i];
      var entry := Strip(entries[i]);
      if entry == "" { continue; }
      var rule := ParseEntry(entry);
      if rule.KeyError? {
        ErrorSticks(entries, i + 1);
        return KeyError(rule.error);
      }
      tlvs := tlvs + [rule.value];
    }
    assert entries[..|entries|] == entries;
    r := Ok(tlvs);
  }

  // ---- Writing ----

  function Zeros(n: int): string { seq(if n < 0 then 0 else n, _ => '0') }

  /** `'%04X' % tag`: padded with zeros to four characters, the sign among them. */
  function HexTag(tag: int): string {
    if tag < 0 then "-" + Zeros(3 - |Show(-tag, 16, true)|) + Show(-tag, 16, true)
    else Zeros(4 - |Show(tag, 16, true)|) + Show(tag, 16, true)
  }

  function Fields(r: Rule): seq<string> {
    ["0x" + HexTag(r.tag),
     TypeName(r.kind),
     if r.length.None? then "-" else Format(r.length.value, 10, false),
     if r.required then "required" else "optional"]
  }

  function PrintRule(r: Rule): string { Join(Fields(r), ',') }

  function Printed(rules: seq<Rule>): (parts: seq<string>)
    ensures |parts| == |rules|
  {
    if rules == [] then [] else Printed(rules[..|rules| - 1]) + [PrintRule(rules[|rules| - 1])]
  }

  function Print(rules: seq<Rule>): string {
    if rules == [] then "none" else Join(Printed(rules), ';')
  }

  /** The `custom_tlvs` branch of `castOutputToBuiltInType` */
  method PrintTlvs(rules: seq<Rule>) returns (text: string)
    ensures text == Print(rules)
  {
    if rules == [] { return "none"; }
    var parts := [];
    for i := 0 to |rules|
      invariant parts == Printed(rules[..i])
    {
      assert rules[..i + 1][..i] == rules[..i];
      parts := parts + [PrintRule(rules[i])];
    }
    assert rules[..|rules|] == rules;
    text := Join(parts, ';');
  }

  // ---- Round trips ----

  lemma {:induction false} ValueZeros(n: nat, s: string)
    requires IsNumeral(s, 16)
    ensures IsNumeral(Zeros(n) + s, 16) && Value(Zeros(n) + s, 16) == Value(s, 16)
  {
    if n > 0 {
      ValueZeros(n - 1, s);
      assert (Zeros(n) + s)[1..] == Zeros(n - 1) + s;
      ValueDropsZero(Zeros(n) + s, 16);
    } else {
      assert Zeros(n) + s == s;
    }
  }

  lemma HexTagNumeral(tag: int)
    requires tag >= 0
    ensures HexTag(tag) != [] && IsNumeral(HexTag(tag), 16) && Value(HexTag(tag), 16) == tag
  {
    var s := Show(tag, 16, true);
    ValueShow(tag, 16, true);
    ValueZeros(if |s| < 4 then 4 - |s| else 0, s);
  }

  lemma {:induction false} DigitsOf(n: nat, k: nat)
    requires k > 0 && n < Sixteens(k)
    ensures |Show(n, 16, true)| <= k
  {
    if n >= 16 { DigitsOf(n / 16, k - 1); }
  }

  function Sixteens(k: nat): nat { if k == 0 then 1 else 16 * Sixteens(k - 1) }

  /** The tag of a TLV, which has two octets, is printed with four digits; a sign takes the place of one. */
  lemma FourDigits(tag: int)
    requires -0x1000 < tag < 0x1_0000
    ensures |HexTag(tag)| == 4 && (tag < 0 <==> HexTag(tag)[0] == '-')
  {
    assert Sixteens(4) == 16 * Sixteens(3) && Sixteens(3) == 16 * Sixteens(2) && Sixteens(2) == 16 * Sixteens(1);
    if tag < 0 {
      DigitsOf(-tag, 3);
    } else {
      DigitsOf(tag, 4);
      HexTagNumeral(tag);
      assert IsDigit(HexTag(tag)[0], 16);
    }
  }

  lemma PrefixedNumeral(s: string)
    requires IsNumeral(s, 16) && s != []
    ensures Strip("0x" + s) == "0x" + s
    ensures ParseNumber("0x" + s) == Some(Value(s, 16))
  {
    var t := "0x" + s;
    assert IsDigit(s[|s| - 1], 16) && IsDigit(s[0], 16);
    StripNothing(t);
    assert t[2..] == s && t[2] == s[0];
    UnderscoredNumeral(s, 16);
  }

  lemma {:induction false} UnderscoredStart(s: string, b: int)
    requires Base(b) && Underscored(s, b).Some?
    ensures IsDigit(s[0], b)
  {
    if |s| > 1 {
      UnderscoredStart(if s[|s| - 2] == '_' then s[..|s| - 2] else s[..|s| - 1], b);
    }
  }

  /** A negative tag is printed as text the reader refuses. */
  lemma NegativeTagRefused(tag: int)
    requires tag < 0
    ensures ParseNumber(Strip("0x" + HexTag(tag))).None?
  {
    var s := Show(-tag, 16, true);
    var t := "0x" + HexTag(tag);
    assert t[|t| - 1] == s[|s| - 1] && IsDigit(s[|s| - 1], 16);
    StripNothing(t);
    assert t[2] == '-' && t[2..][0] == '-';
    if Underscored(t[2..], 16).Some? { UnderscoredStart(t[2..], 16); }
  }

  lemma NoSeparator(s: string, b: int)
    requires Base(b) && IsNumeral(s, b)
    ensures ',' !in s && ';' !in s
  {
    forall i | 0 <= i < |s| ensures s[i] != ',' && s[i] != ';' {
      assert IsDigit(s[i], b);
    }
  }

  lemma TypeRoundTrip(t: TlvType)
    ensures TypeOf(Strip(TypeName(t))) == Some(t)
    ensures ',' !in TypeName(t) && ';' !in TypeName(t)
  {
    StripNothing(TypeName(t));
  }

  predicate ValidLength(r: Rule) { r.length.None? || r.length.value > 0 }

  lemma LengthRoundTrip(r: Rule)
    requires ValidLength(r)
    ensures ParseLength(Strip(Fields(r)[2])) == Ok(r.length)
    ensures ',' !in Fields(r)[2] && ';' !in Fields(r)[2]
  {
    if r.length.None? {
      StripNothing("-");
    } else {
      var s := Format(r.length.value, 10, false);
      NoSeparator(s, 10);
      ParseFormat(r.length.value, 10, false);
      assert IsDigit(s[0], 10) && IsDigit(s[|s| - 1], 10);
      StripNothing(s);
    }
  }

  lemma FlagRoundTrip(r: Rule)
    ensures ParseFlag(Fields(r)) == Ok(r.required)
    ensures ',' !in Fields(r)[3] && ';' !in Fields(r)[3]
  {
    StripNothing(Fields(r)[3]);
    FlagsAreLower();
  }

  lemma FlagsAreLower()
    ensures Lower("required") == "required" && Lower("optional") == "optional"
  {
  }

  lemma TagField(r: Rule)
    ensures ',' !in Fields(r)[0] && ';' !in Fields(r)[0]
    ensures ParseNumber(Strip(Fields(r)[0])) == if r.tag >= 0 then Some(r.tag) else None
  {
    if r.tag >= 0 {
      HexTagNumeral(r.tag);
      NoSeparator(HexTag(r.tag), 16);
      PrefixedNumeral(HexTag(r.tag));
    } else {
      NegativeTagRefused(r.tag);
      NoSeparator(Show(-r.tag, 16, true), 16);
    }
  }

  lemma {:induction false} JoinHas(parts: seq<string>, c: char, x: char)
    requires |parts| > 0 && x != c && forall i :: 0 <= i < |parts| ==> x !in parts[i]
    ensures x !in Join(parts, c)
  {
    if |parts| > 1 { JoinHas(parts[1..], c, x); }
  }

  lemma FieldsClean(r: Rule)
    requires ValidLength(r)
    ensures forall i :: 0 <= i < 4 ==> ',' !in Fields(r)[i] && ';' !in Fields(r)[i]
  {
    TagField(r);
    TypeRoundTrip(r.kind);
    LengthRoundTrip(r);
    FlagRoundTrip(r);
  }

  lemma FieldsRoundTrip(r: Rule)
    requires ValidLength(r)
    ensures ParseFields(Fields(r)) == if r.tag >= 0 then Ok(r) else KeyError(BadTag)
  {
    TagField(r);
    TypeRoundTrip(r.kind);
    LengthRoundTrip(r);
    FlagRoundTrip(r);
  }

  /** One printed rule is read back as that rule, unless its tag is negative: then it is refused. */
  lemma RuleRoundTrip(r: Rule)
    requires ValidLength(r)
    ensures ';' !in PrintRule(r)
    ensures ParseEntry(PrintRule(r)) == if r.tag >= 0 then Ok(r) else KeyError(BadTag)
  {
    FieldsClean(r);
    SplitJoin(Fields(r), ',');
    JoinHas(Fields(r), ',', ';');
    FieldsRoundTrip(r);
  }

  lemma {:induction false} JoinTail(parts: seq<string>, c: char)
    requires |parts| > 0 && parts[|parts| - 1] != []
    ensures var s, last := Join(parts, c), parts[|parts| - 1];
            s != [] && s[|s| - 1] == last[|last| - 1]
  {
    if |parts| > 1 { JoinTail(parts[1..], c); }
  }

  lemma EntryShape(r: Rule)
    ensures PrintRule(r) != "" && PrintRule(r)[0] == '0' && Strip(PrintRule(r)) == PrintRule(r)
  {
    JoinTail(Fields(r), ',');
    StripNothing(PrintRule(r));
  }

  predicate NoNegativeTag(rules: seq<Rule>) { forall i :: 0 <= i < |rules| ==> rules[i].tag >= 0 }

  predicate ValidLengths(rules: seq<Rule>) { forall i :: 0 <= i < |rules| ==> ValidLength(rules[i]) }

  /** The text of an entry that is read as rule `r`. */
  predicate ReadAs(entry: string, r: Rule) {
    && entry != "" && Strip(entry) == entry && ';' !in entry
    && ParseEntry(entry) == if r.tag >= 0 then Ok(r) else KeyError(BadTag)
  }

  predicate ReadAt(entries: seq<string>, rules: seq<Rule>, i: nat)
    requires i < |entries| && i < |rules|
  {
    ReadAs(entries[i], rules[i])
  }

  lemma AppendReadAs(before: seq<string>, entry: string, rules: seq<Rule>, r: Rule)
    requires ReadAs(entry, r)
    requires ParseEntries(before) == if NoNegativeTag(rules) then Ok(rules) else KeyError(BadTag)
    ensures ParseEntries(before + [entry]) == if NoNegativeTag(rules + [r]) then Ok(rules + [r]) else KeyError(BadTag)
  {
    AppendEntry(before, entry);
    assert NoNegativeTag(rules + [r]) <==> NoNegativeTag(rules) && r.tag >= 0 by {
      assert (rules + [r])[|rules|] == r;
      if NoNegativeTag(rules + [r]) {
        forall i | 0 <= i < |rules| ensures rules[i].tag >= 0 { assert (rules + [r])[i] == rules[i]; }
      }
    }
  }

  lemma {:induction false} EntriesRead(entries: seq<string>, rules: seq<Rule>)
    requires |entries| == |rules| && forall i :: 0 <= i < |rules| ==> ReadAt(entries, rules, i)
    ensures ParseEntries(entries) == if NoNegativeTag(rules) then Ok(rules) else KeyError(BadTag)
  {
    if rules != [] {
      var n := |rules| - 1;
      forall i | 0 <= i < n ensures ReadAt(entries[..n], rules[..n], i) { assert ReadAt(entries, rules, i); }
      EntriesRead(entries[..n], rules[..n]);
      assert ReadAt(entries, rules, n);
      AppendReadAs(entries[..n], entries[n], rules[..n], rules[n]);
      assert entries == entries[..n] + [entries[n]];
      assert rules == rules[..n] + [rules[n]];
    }
  }

  lemma {:induction false} PrintedAt(rules: seq<Rule>, i: nat)
    requires i < |rules|
    ensures Printed(rules)[i] == PrintRule(rules[i])
  {
    if i < |rules| - 1 { PrintedAt(rules[..|rules| - 1], i); }
  }

  lemma AppendEntry(before: seq<string>, entry: string)
    requires entry != "" && Strip(entry) == entry
    ensures ParseEntries(before + [entry])
         == if ParseEntries(before).KeyError? then ParseEntries(before)
            else if ParseEntry(entry).KeyError? then KeyError(ParseEntry(entry).error)
            else Ok(ParseEntries(before).value + [ParseEntry(entry).value])
  {
    assert (before + [entry])[..|before|] == before;
  }

  lemma PrintedIsNotNone(rules: seq<Rule>)
    requires rules != []
    ensures Lower(Print(rules)) != "none"
  {
    PrintedAt(rules, 0);
    EntryShape(rules[0]);
    assert Print(rules)[0] == '0';
    assert Lower(Print(rules))[0] == '0';
  }

  /** Reading the printed form of a rule list gives the list back exactly when no tag is negative; with a
      negative tag it is refused as a bad tag. */
  lemma ParsePrint(rules: seq<Rule>)
    requires ValidLengths(rules)
    ensures Parse(Print(rules)) == if NoNegativeTag(rules) then Ok(rules) else KeyError(BadTag)
  {
    if rules == [] {
      assert Lower("none") == "none";
    } else {
      var entries := Printed(rules);
      PrintedIsNotNone(rules);
      forall i | 0 <= i < |rules| ensures ReadAt(entries, rules, i) && ';' !in entries[i] {
        PrintedAt(rules, i);
        EntryShape(rules[i]);
        RuleRoundTrip(rules[i]);
      }
      EntriesRead(entries, rules);
      SplitJoin(entries, ';');
    }
  }

  lemma EntryLengthValid(entry: string)
    requires ParseEntry(entry).Ok?
    ensures ValidLength(ParseEntry(entry).value)
  {
  }

  lemma {:induction false} ReadLengthsValid(entries: seq<string>)
    requires ParseEntries(entries).Ok?
    ensures ValidLengths(ParseEntries(entries).value)
  {
    if entries != [] {
      ReadLengthsValid(entries[..|entries| - 1]);
      var entry := Strip(entries[|entries| - 1]);
      if entry != "" { EntryLengthValid(entry); }
    }
  }

  /** Printing what was read and reading it again changes nothing, exactly for texts without negative tags. */
  lemma PrintNormalises(text: string)
    requires Parse(text).Ok?
    ensures Parse(Print(Parse(text).value)) == Parse(text)
       <==> NoNegativeTag(Parse(text).value)
  {
    if Lower(text) != "none" { ReadLengthsValid(Split(text, ';')); }
    ParsePrint(Parse(text).value);
  }
}
