/**
 * The cost coercer `to_number` of `calculate_sum`: a cell is turned into
 * text the way pandas' `astype(str)` does, the separators and currency
 * markers `,`, space, `₩` and `원` are deleted, and what is left is parsed
 * as a number; text that does not parse becomes an absent value.
 */
module Cost {
  import opened Wrappers
  import opened Text

  const Won: char := '\U{20A9}'          // ₩
  const WonSyllable: char := '\U{C6D0}'  // 원

  /** The characters `to_number` deletes before parsing. */
  predicate IsCostMark(c: char) {
    c == ',' || c == ' ' || c == Won || c == WonSyllable
  }

  /** pandas' `astype(str)` on one cell: an empty cell (NaN) becomes the text "nan". */
  function AsStr(v: Option<String>): String {
    match v
    case None => "nan"
    case Some(s) => s
  }

  /** The four `str.replace(mark, "")` passes of `to_number`, in source order. */
  function StripCostMarks(s: String): (r: String)
    ensures forall x :: x in r ==> x in s && !IsCostMark(x)
  {
    DeleteChar(DeleteChar(DeleteChar(DeleteChar(s, ','), ' '), Won), WonSyllable)
  }

  predicate IsDigit(c: char) {
    '0' <= c <= '9'
  }

  predicate AllDigits(s: String) {
    forall i :: 0 <= i < |s| ==> IsDigit(s[i])
  }

  /** The value of a string of decimal digits, most significant first. */
  function DigitsValue(s: String): nat
    requires AllDigits(s)
  {
    if s == [] then 0 else DigitsValue(s[..|s| - 1]) * 10 + (s[|s| - 1] as int - '0' as int)
  }

  /**
   * The part of `pd.to_numeric` this model keeps: an optional sign followed
   * by one or more decimal digits is a number; anything else is absent.
   */
  function ParseInt(s: String): Option<int> {
    if |s| > 1 && (s[0] == '-' || s[0] == '+') && AllDigits(s[1..]) then
      var magnitude: int := DigitsValue(s[1..]);
      Some(if s[0] == '-' then -magnitude else magnitude)
    else if s != [] && AllDigits(s) then Some(DigitsValue(s))
    else None
  }

  /** The ASCII whitespace pandas' numeric parser skips around a number: space, tab, LF, VT, FF, CR. */
  predicate IsAsciiSpace(c: char) {
    c == ' ' || '\t' <= c <= '\r'
  }

  /** ASCII whitespace removed from both ends. */
  function TrimAsciiSpace(s: String): (r: String)
    decreases |s|
  {
    if s != [] && IsAsciiSpace(s[0]) then TrimAsciiSpace(s[1..])
    else if s != [] && IsAsciiSpace(s[|s| - 1]) then TrimAsciiSpace(s[..|s| - 1])
    else s
  }

  /** `pd.to_numeric(..., errors="coerce")` on one string: surrounding ASCII whitespace is skipped. */
  function ParseNumeric(s: String): Option<int> {
    ParseInt(TrimAsciiSpace(s))
  }

  /** `to_number` on one cell. */
  function ToNumber(v: Option<String>): Option<int> {
    ParseNumeric(StripCostMarks(AsStr(v)))
  }

  /** Text that neither starts nor ends with ASCII whitespace. */
  predicate Unpadded(s: String) {
    s == [] || (!IsAsciiSpace(s[0]) && !IsAsciiSpace(s[|s| - 1]))
  }

  lemma TrimUnpadded(s: String)
    requires Unpadded(s)
    ensures TrimAsciiSpace(s) == s
  {
  }

  /** Trimming removes exactly the ASCII whitespace around unpadded text. */
  lemma {:induction false} TrimAsciiPadded(pre: String, s: String, post: String)
    requires forall i :: 0 <= i < |pre| ==> IsAsciiSpace(pre[i])
    requires forall i :: 0 <= i < |post| ==> IsAsciiSpace(post[i])
    requires Unpadded(s)
    ensures TrimAsciiSpace(pre + s + post) == s
    decreases |pre| + |post|
  {
    var all := pre + s + post;
    if pre != [] {
      assert all[0] == pre[0];
      assert all[1..] == pre[1..] + s + post;
      TrimAsciiPadded(pre[1..], s, post);
    } else if post != [] {
      assert all == s + post;
      if s == [] {
        assert all[1..] == [] + [] + post[1..];
        TrimAsciiPadded([], [], post[1..]);
      } else {
        assert all[0] == s[0] && all[|all| - 1] == post[|post| - 1];
        assert all[..|all| - 1] == [] + s + post[..|post| - 1];
        TrimAsciiPadded([], s, post[..|post| - 1]);
      }
    } else {
      assert all == s;
      TrimUnpadded(s);
    }
  }

  /** A character that is not ASCII whitespace survives trimming. */
  lemma {:induction false} TrimKeeps(s: String, k: nat)
    requires k < |s| && !IsAsciiSpace(s[k])
    ensures s[k] in TrimAsciiSpace(s)
    decreases |s|
  {
    if IsAsciiSpace(s[0]) {
      assert s[1..][k - 1] == s[k];
      TrimKeeps(s[1..], k - 1);
    } else if IsAsciiSpace(s[|s| - 1]) {
      assert s[..|s| - 1][k] == s[k];
      TrimKeeps(s[..|s| - 1], k);
    } else {
      assert TrimAsciiSpace(s) == s;
    }
  }

  /** A string holding a character that is neither a digit nor a sign does not parse. */
  lemma ParseIntRejects(s: String, k: nat)
    requires k < |s| && !IsDigit(s[k]) && s[k] != '-' && s[k] != '+'
    ensures ParseInt(s) == None
  {
    if k > 0 {
      assert s[1..][k - 1] == s[k];
    }
  }

  function DigitChar(d: nat): (c: char)
    requires d < 10
    ensures IsDigit(c)
  {
    ('0' as int + d) as char
  }

  /** The decimal numeral of a natural number. */
  function ShowNat(n: nat): (r: String)
    ensures r != [] && AllDigits(r)
  {
    if n < 10 then [DigitChar(n)] else ShowNat(n / 10) + [DigitChar(n % 10)]
  }

  /** The decimal numeral of an integer, with a leading `-` when negative. */
  function ShowInt(n: int): String {
    if n < 0 then "-" + ShowNat(-n) else ShowNat(n)
  }

  /** Three digits with leading zeros, as in the groups of a thousands-separated amount. */
  function Pad3(m: nat): (r: String)
    requires m < 1000
    ensures |r| == 3 && AllDigits(r)
  {
    [DigitChar(m / 100), DigitChar(m / 10 % 10), DigitChar(m % 10)]
  }

  /** An amount written with thousands separators, like "120,000". */
  function Grouped(n: nat): String {
    if n < 1000 then ShowNat(n) else Grouped(n / 1000) + "," + Pad3(n % 1000)
  }

  lemma {:induction false} DigitsValueOfShowNat(n: nat)
    ensures DigitsValue(ShowNat(n)) == n
  {
    var s := ShowNat(n);
    if n >= 10 {
      DigitsValueOfShowNat(n / 10);
      assert s[..|s| - 1] == ShowNat(n / 10);
    }
  }

  /** Parsing a printed integer gives the integer back. */
  lemma ParseShowRoundTrip(n: int)
    ensures ParseInt(ShowInt(n)) == Some(n)
  {
    if n < 0 {
      ParseNegativeNumeral(-n);
    } else {
      ParseNaturalNumeral(n);
    }
  }

  lemma ParseNaturalNumeral(m: nat)
    ensures ParseInt(ShowNat(m)) == Some(m)
  {
    var s := ShowNat(m);
    assert IsDigit(s[0]);
    DigitsValueOfShowNat(m);
  }

  lemma ParseNegativeNumeral(m: nat)
    requires m > 0
    ensures ParseInt("-" + ShowNat(m)) == Some(-(m as int))
  {
    var s := "-" + ShowNat(m);
    assert s[0] == '-' && s[1..] == ShowNat(m);
    DigitsValueOfShowNat(m);
  }

  lemma StripCostMarksSingle(c: char)
    ensures StripCostMarks([c]) == if IsCostMark(c) then [] else [c]
  {
    forall d: char
      ensures DeleteChar([c], d) == (if c == d then [] else [c])
      ensures DeleteChar([], d) == []
    {
      assert [c][1..] == [];
    }
  }

  lemma StripCostMarksConcat(a: String, b: String)
    ensures StripCostMarks(a + b) == StripCostMarks(a) + StripCostMarks(b)
  {
    DeleteCharConcat(a, b, ',');
    var a1, b1 := DeleteChar(a, ','), DeleteChar(b, ',');
    DeleteCharConcat(a1, b1, ' ');
    var a2, b2 := DeleteChar(a1, ' '), DeleteChar(b1, ' ');
    DeleteCharConcat(a2, b2, Won);
    DeleteCharConcat(DeleteChar(a2, Won), DeleteChar(b2, Won), WonSyllable);
  }

  lemma {:induction false} StripCostMarksOfDigits(s: String)
    requires AllDigits(s)
    ensures StripCostMarks(s) == s
  {
    if s != [] {
      assert s == [s[0]] + s[1..];
      StripCostMarksConcat([s[0]], s[1..]);
      StripCostMarksOfDigits(s[1..]);
    }
  }

  /** The decimal digits of the last three places, read off by division and by remainder. */
  lemma ThousandsDigits(n: nat)
    ensures n / 10 / 10 == n / 100 && n / 100 / 10 == n / 1000
    ensures n % 1000 / 100 == n / 100 % 10
    ensures n % 1000 / 10 % 10 == n / 10 % 10
    ensures n % 1000 % 10 == n % 10
  {
    var q, m := n / 1000, n % 1000;
    assert n == 1000 * q + m;
    assert n / 10 == 100 * q + m / 10;
    assert n / 100 == 10 * q + m / 100;
  }

  lemma ShowNatStep(n: nat)
    requires n >= 10
    ensures ShowNat(n) == ShowNat(n / 10) + [DigitChar(n % 10)]
  {
  }

  lemma ShowNatSplit(n: nat)
    requires n >= 1000
    ensures ShowNat(n) == ShowNat(n / 1000) + Pad3(n % 1000)
  {
    ThousandsDigits(n);
    ShowNatStep(n);
    ShowNatStep(n / 10);
    ShowNatStep(n / 100);
  }

  /** Deleting the separators of a thousands-separated amount leaves its plain numeral. */
  lemma {:induction false} StripGrouped(n: nat)
    ensures StripCostMarks(Grouped(n)) == ShowNat(n)
  {
    if n < 1000 {
      StripCostMarksOfDigits(ShowNat(n));
    } else {
      StripGrouped(n / 1000);
      StripCostMarksConcat(Grouped(n / 1000) + ",", Pad3(n % 1000));
      StripCostMarksConcat(Grouped(n / 1000), ",");
      StripCostMarksOfDigits(Pad3(n % 1000));
      ShowNatSplit(n);
    }
  }

  /**
   * A cost written as a thousands-separated amount followed by `원`
   * (such as "120,000원") coerces to that amount.
   */
  lemma ToNumberOfWonAmount(n: nat)
    ensures ToNumber(Some(Grouped(n) + [WonSyllable])) == Some(n)
  {
    StripWonAmount(n);
    ParseShownNat(n);
  }

  /** Cleaning "N,NNN원" leaves the plain numeral of N,NNN. */
  lemma StripWonAmount(n: nat)
    ensures StripCostMarks(Grouped(n) + [WonSyllable]) == ShowNat(n)
  {
    StripCostMarksConcat(Grouped(n), [WonSyllable]);
    StripGrouped(n);
    StripCostMarksSingle(WonSyllable);
  }

  /** The numeric parser reads a printed natural number back. */
  lemma ParseShownNat(n: nat)
    ensures Unpadded(ShowNat(n)) && ParseNumeric(ShowNat(n)) == Some(n)
  {
    var s := ShowNat(n);
    assert IsDigit(s[0]) && IsDigit(s[|s| - 1]);
    TrimUnpadded(s);
    ParseShowRoundTrip(n);
  }

  /**
   * ASCII whitespace around the cell, such as a trailing line break in
   * "95,000원\n", does not change the coerced cost.
   */
  lemma ToNumberIgnoresAsciiPadding(pre: String, x: String, post: String)
    requires forall i :: 0 <= i < |pre| ==> IsAsciiSpace(pre[i])
    requires forall i :: 0 <= i < |post| ==> IsAsciiSpace(post[i])
    requires Unpadded(StripCostMarks(x))
    ensures ToNumber(Some(pre + x + post)) == ToNumber(Some(x))
  {
    StripCostMarksConcat(pre + x, post);
    StripCostMarksConcat(pre, x);
    var sp, sx, sq := StripCostMarks(pre), StripCostMarks(x), StripCostMarks(post);
    assert forall i :: 0 <= i < |sp| ==> sp[i] in pre;
    assert forall i :: 0 <= i < |sq| ==> sq[i] in post;
    TrimAsciiPadded(sp, sx, sq);
    TrimUnpadded(sx);
  }

  /** A won amount with ASCII whitespace around it still coerces to the amount. */
  lemma ToNumberOfPaddedWonAmount(pre: String, n: nat, post: String)
    requires forall i :: 0 <= i < |pre| ==> IsAsciiSpace(pre[i])
    requires forall i :: 0 <= i < |post| ==> IsAsciiSpace(post[i])
    ensures ToNumber(Some(pre + (Grouped(n) + [WonSyllable]) + post)) == Some(n)
  {
    StripWonAmount(n);
    ParseShownNat(n);
    ToNumberIgnoresAsciiPadding(pre, Grouped(n) + [WonSyllable], post);
  }

  /** Cleaning is idempotent on a plain numeral: it coerces to its own value. */
  lemma ToNumberOfNumeral(n: int)
    ensures ToNumber(Some(ShowInt(n))) == Some(n)
  {
    var m: nat := if n < 0 then -n else n;
    if n < 0 {
      StripCostMarksConcat("-", ShowNat(m));
      StripCostMarksSingle('-');
    }
    StripCostMarksOfDigits(ShowNat(m));
    var s := ShowInt(n);
    assert IsDigit(s[|s| - 1]) && (IsDigit(s[0]) || s[0] == '-');
    TrimUnpadded(s);
    ParseShowRoundTrip(n);
  }

  /** A separator or currency marker anywhere in the cell does not change the coerced cost. */
  lemma ToNumberIgnoresMark(a: String, m: char, b: String)
    requires IsCostMark(m)
    ensures ToNumber(Some(a + [m] + b)) == ToNumber(Some(a + b))
  {
    StripCostMarksConcat(a + [m], b);
    StripCostMarksConcat(a, [m]);
    StripCostMarksConcat(a, b);
    StripCostMarksSingle(m);
    assert StripCostMarks(a + [m] + b) == StripCostMarks(a) + StripCostMarks(b);
  }

  /**
   * A cell whose text keeps, after cleaning, a character that is neither a
   * digit nor a sign is absent: coercion never fails with an error.
   */
  lemma NonNumericIsAbsent(v: Option<String>, k: nat)
    requires var s := StripCostMarks(AsStr(v));
             k < |s| && !IsDigit(s[k]) && s[k] != '-' && s[k] != '+' && !IsAsciiSpace(s[k])
    ensures ToNumber(v) == None
  {
    var s := StripCostMarks(AsStr(v));
    TrimKeeps(s, k);
    var t := TrimAsciiSpace(s);
    var j :| 0 <= j < |t| && t[j] == s[k];
    ParseIntRejects(t, j);
  }

  /** An empty cell has no cost. */
  lemma EmptyCellIsAbsent()
    ensures ToNumber(None) == None
  {
    NonNumericIsAbsent(None, 0);
  }
}
