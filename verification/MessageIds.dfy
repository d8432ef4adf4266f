/** The upstream centre names a message twice: in the submit_sm_resp and in the receipt, perhaps in
    different bases. Both names are turned into a key; correlation works when the keys agree. */
module MessageIds {
  import opened Numerals

  /** The key stored when a submit_sm_resp is handled. */
  function ResponseKey(text: string): string { DropZeros(Upper(text)) }

  /** The key looked up for a receipt, under the connector's `dlr_msg_id_bases`: 1 for a decimal receipt
      and a hexadecimal response, 2 for the converse, 0 for the same writing in both. A text that is no
      number, and the receipt in a data_sm, are taken as they are. */
  function ReceiptKey(bases: int, deliverSm: bool, text: string): string {
    if deliverSm && bases == 1 && ParseInt(text, 10).Some? then
      DropZeros(Upper(Format(ParseInt(text, 10).value, 16, false)))
    else if deliverSm && bases == 2 && ParseInt(text, 16).Some? then
      Format(ParseInt(text, 16).value, 10, false)
    else
      DropZeros(Upper(text))
  }

  /** The key of a numeral is the canonical writing of its value; zero has the empty key. */
  lemma KeyOfNumeral(s: string, b: int)
    requires Base(b) && IsNumeral(s, b)
    ensures DropZeros(Upper(s)) == if Value(s, b) == 0 then "" else Show(Value(s, b), b, true)
  {
    DropZerosUpper(s);
    DropZerosKeepsValue(s, b);
    var t := DropZeros(s);
    if t != [] {
      ValuePositive(t, b);
      CanonicalNumeral(t, b);
    }
  }

  lemma ShowInjective(m: nat, n: nat, b: int, upper: bool)
    requires Base(b) && Show(m, b, upper) == Show(n, b, upper)
    ensures m == n
  {
    ValueShow(m, b, upper);
    ValueShow(n, b, upper);
  }

  lemma {:induction false} DecimalHasNoCase(n: nat)
    ensures Show(n, 10, false) == Show(n, 10, true)
  {
    if n >= 10 { DecimalHasNoCase(n / 10); }
  }

  /** Two numerals of one base get the same key exactly when they have the same value, whatever their
      leading zeros and letter case. */
  lemma KeysAgreeIffSameNumber(s: string, t: string, b: int)
    requires Base(b) && IsNumeral(s, b) && IsNumeral(t, b)
    ensures ResponseKey(s) == ResponseKey(t) <==> Value(s, b) == Value(t, b)
    ensures ResponseKey(s) == ReceiptKey(0, true, t) <==> Value(s, b) == Value(t, b)
  {
    KeyOfNumeral(s, b);
    KeyOfNumeral(t, b);
    if ResponseKey(s) == ResponseKey(t) && ResponseKey(s) != "" {
      ShowInjective(Value(s, b), Value(t, b), b, true);
    }
  }

  /** A receipt in a data_sm, or one that is no number in the base it should be in, is taken like a response; so is
      every receipt when no bases are configured. */
  lemma TakenAsIs(bases: int, deliverSm: bool, text: string)
    ensures !deliverSm || bases !in {1, 2} || ParseInt(text, if bases == 1 then 10 else 16).None? ==>
              ReceiptKey(bases, deliverSm, text) == ResponseKey(text)
  {
  }

  /** Mode 1: a hexadecimal response and a receipt read as a decimal number correlate exactly when they
      name the same number. */
  lemma HexResponseDecimalReceipt(response: string, receipt: string)
    requires IsNumeral(response, 16) && ParseInt(receipt, 10).Some? && ParseInt(receipt, 10).value >= 0
    ensures ResponseKey(response) == ReceiptKey(1, true, receipt)
       <==> Value(response, 16) == ParseInt(receipt, 10).value
  {
    var n: nat := ParseInt(receipt, 10).value;
    KeyOfNumeral(response, 16);
    KeyOfNumeral(Show(n, 16, false), 16);
    ValueShow(n, 16, false);
    if Value(response, 16) != n && Value(response, 16) != 0 && n != 0
       && Show(Value(response, 16), 16, true) == Show(n, 16, true) {
      ShowInjective(Value(response, 16), n, 16, true);
    }
  }

  /** Mode 2: a decimal response and a receipt read as a hexadecimal number correlate exactly when they name
      the same number and that number is not zero, whose stored key is empty while the receipt's is "0". */
  lemma DecimalResponseHexReceipt(response: string, receipt: string)
    requires IsNumeral(response, 10) && ParseInt(receipt, 16).Some? && ParseInt(receipt, 16).value >= 0
    ensures ResponseKey(response) == ReceiptKey(2, true, receipt)
       <==> Value(response, 10) == ParseInt(receipt, 16).value && Value(response, 10) != 0
  {
    var n: nat := ParseInt(receipt, 16).value;
    KeyOfNumeral(response, 10);
    DecimalHasNoCase(n);
    if Value(response, 10) != 0 && Show(Value(response, 10), 10, true) == Show(n, 10, true) {
      ShowInjective(Value(response, 10), n, 10, true);
    }
  }

  /** The number `n > 0` written with any leading zeros and case, by the centre's response in one base and
      by its receipt in the other (or both in one), under the mode that goes with it. */
  predicate Writes(bases: int, n: nat, response: string, receipt: string) {
    && n > 0
    && IsNumeral(response, if bases == 2 then 10 else 16) && IsNumeral(receipt, if bases == 1 then 10 else 16)
    && Value(response, if bases == 2 then 10 else 16) == n && Value(receipt, if bases == 1 then 10 else 16) == n
  }

  /** In each of the three modes both writings of a positive number lead to one key. */
  lemma KeysMeet(bases: int, n: nat, response: string, receipt: string)
    requires bases in {0, 1, 2} && Writes(bases, n, response, receipt)
    ensures ResponseKey(response) == ReceiptKey(bases, true, receipt)
  {
    var b := if bases == 1 then 10 else 16;
    assert receipt != [] by { assert Value(receipt, b) > 0; }
    ParseNumeral(receipt, b);
    if bases == 0 {
      KeysAgreeIffSameNumber(response, receipt, 16);
    } else if bases == 1 {
      HexResponseDecimalReceipt(response, receipt);
    } else {
      DecimalResponseHexReceipt(response, receipt);
    }
  }
}
