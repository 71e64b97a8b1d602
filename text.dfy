/**
 * Character and string helpers of the keyword-sum computation: Python's
 * `str.lower()`, `str.strip()`, the regular-expression class `\s`, the
 * substring test `pat in text`, and the cell normaliser `norm` that the
 * header scan applies to every cell and every header label.
 */
module Text {
  import opened Wrappers

  type String = seq<char>

  /** The characters that Python's `\s` matches and that `str.strip()` removes. */
  predicate IsSpace(c: char) {
    || ('\t' <= c <= '\r')
    || ('\U{1C}' <= c <= ' ')
    || c == '\U{85}' || c == '\U{A0}' || c == '\U{1680}'
    || ('\U{2000}' <= c <= '\U{200A}')
    || c == '\U{2028}' || c == '\U{2029}' || c == '\U{202F}' || c == '\U{205F}' || c == '\U{3000}'
  }

  predicate IsUpper(c: char) {
    'A' <= c <= 'Z'
  }

  /** `str.lower()` on one character (ASCII letters only). */
  function LowerChar(c: char): (d: char)
    ensures !IsUpper(d)
    ensures IsUpper(c) ==> 'a' <= d <= 'z'
    ensures !IsUpper(c) ==> d == c
  {
    if IsUpper(c) then (c as int + 32) as char else c
  }

  /** `str.lower()`: lower-cases each character, keeping the length. */
  function LowerAll(s: String): String {
    seq(|s|, i requires 0 <= i < |s| => LowerChar(s[i]))
  }

  /** `str.replace(from, to)` for two single characters. */
  function ReplaceChar(s: String, from: char, to: char): String {
    seq(|s|, i requires 0 <= i < |s| => if s[i] == from then to else s[i])
  }

  /** `str.replace(c, "")`: every occurrence of `c` removed, the rest kept in order. */
  function DeleteChar(s: String, c: char): (r: String)
    ensures c !in r
    ensures forall x :: x in r ==> x in s
  {
    if s == [] then []
    else if s[0] == c then DeleteChar(s[1..], c)
    else [s[0]] + DeleteChar(s[1..], c)
  }

  /** `re.sub(r"\s+", "", s)`: every whitespace character removed. */
  function DeleteSpaces(s: String): (r: String)
    ensures forall x :: x in r ==> x in s && !IsSpace(x)
  {
    if s == [] then []
    else if IsSpace(s[0]) then DeleteSpaces(s[1..])
    else [s[0]] + DeleteSpaces(s[1..])
  }

  /** A character that can appear in the output of `Norm`. */
  predicate IsNormChar(c: char) {
    !IsSpace(c) && c != '[' && c != ']' && c != '\U{FF08}' && c != '\U{FF09}' && !IsUpper(c)
  }

  /**
   * The normaliser `norm` of `calculate_sum`, pass by pass: full-width
   * parentheses become ASCII, square brackets are deleted, whitespace is
   * deleted, and the result is lower-cased.
   */
  function Norm(s: String): String {
    var parens := ReplaceChar(ReplaceChar(s, '\U{FF08}', '('), '\U{FF09}', ')');
    var unbracketed := DeleteChar(DeleteChar(parens, '['), ']');
    LowerAll(DeleteSpaces(unbracketed))
  }

  /** `norm` applied to a cell value, where an empty cell (`None`) normalises to "". */
  function NormCell(v: Option<String>): (r: String)
    ensures v.None? ==> r == []
    ensures forall i :: 0 <= i < |r| ==> IsNormChar(r[i])
  {
    match v
    case None => []
    case Some(s) => NormIsNormal(s); Norm(s)
  }

  /** What `norm` does to a single character, independently of its neighbours. */
  function NormChar(c: char): String {
    if IsSpace(c) || c == '[' || c == ']' then []
    else if c == '\U{FF08}' then "("
    else if c == '\U{FF09}' then ")"
    else [LowerChar(c)]
  }

  /** A reference definition of `norm`: the character-wise normalisations concatenated. */
  function NormRef(s: String): String {
    if s == [] then [] else NormChar(s[0]) + NormRef(s[1..])
  }

  lemma ReplaceCharConcat(a: String, b: String, from: char, to: char)
    ensures ReplaceChar(a + b, from, to) == ReplaceChar(a, from, to) + ReplaceChar(b, from, to)
  {
  }

  lemma LowerAllConcat(a: String, b: String)
    ensures LowerAll(a + b) == LowerAll(a) + LowerAll(b)
  {
  }

  lemma {:induction false} DeleteCharConcat(a: String, b: String, c: char)
    ensures DeleteChar(a + b, c) == DeleteChar(a, c) + DeleteChar(b, c)
  {
    if a != [] {
      assert (a + b)[0] == a[0] && (a + b)[1..] == a[1..] + b;
      DeleteCharConcat(a[1..], b, c);
      var h: String := if a[0] == c then [] else [a[0]];
      assert DeleteChar(a + b, c) == h + DeleteChar(a[1..] + b, c);
      assert DeleteChar(a, c) == h + DeleteChar(a[1..], c);
    } else {
      assert a + b == b;
    }
  }

  lemma {:induction false} DeleteSpacesConcat(a: String, b: String)
    ensures DeleteSpaces(a + b) == DeleteSpaces(a) + DeleteSpaces(b)
  {
    if a != [] {
      assert (a + b)[0] == a[0] && (a + b)[1..] == a[1..] + b;
      DeleteSpacesConcat(a[1..], b);
      var h: String := if IsSpace(a[0]) then [] else [a[0]];
      assert DeleteSpaces(a + b) == h + DeleteSpaces(a[1..] + b);
      assert DeleteSpaces(a) == h + DeleteSpaces(a[1..]);
    } else {
      assert a + b == b;
    }
  }

  /** `norm` distributes over concatenation: it never looks at neighbouring characters. */
  lemma NormConcat(a: String, b: String)
    ensures Norm(a + b) == Norm(a) + Norm(b)
  {
    var fw1, fw2 := '\U{FF08}', '\U{FF09}';
    ReplaceCharConcat(a, b, fw1, '(');
    ReplaceCharConcat(ReplaceChar(a, fw1, '('), ReplaceChar(b, fw1, '('), fw2, ')');
    var pa := ReplaceChar(ReplaceChar(a, fw1, '('), fw2, ')');
    var pb := ReplaceChar(ReplaceChar(b, fw1, '('), fw2, ')');
    DeleteCharConcat(pa, pb, '[');
    DeleteCharConcat(DeleteChar(pa, '['), DeleteChar(pb, '['), ']');
    var ua := DeleteChar(DeleteChar(pa, '['), ']');
    var ub := DeleteChar(DeleteChar(pb, '['), ']');
    DeleteSpacesConcat(ua, ub);
    LowerAllConcat(DeleteSpaces(ua), DeleteSpaces(ub));
  }

  /** On a one-character string `norm` does what `NormChar` says. */
  lemma NormSingle(c: char)
    ensures Norm([c]) == NormChar(c)
  {
    var p := ReplaceChar(ReplaceChar([c], '\U{FF08}', '('), '\U{FF09}', ')');
    assert DeleteChar([], '[') == [] && DeleteChar([], ']') == [] && DeleteSpaces([]) == [];
    assert [c][1..] == [];
    assert p[1..] == [];
  }

  /** The pass-by-pass `Norm` equals the character-wise reference `NormRef`. */
  lemma {:induction false} NormMatchesRef(s: String)
    ensures Norm(s) == NormRef(s)
  {
    if s != [] {
      assert s == [s[0]] + s[1..];
      NormConcat([s[0]], s[1..]);
      NormSingle(s[0]);
      NormMatchesRef(s[1..]);
    }
  }

  lemma {:induction false} NormRefIsNormal(s: String)
    ensures forall i :: 0 <= i < |NormRef(s)| ==> IsNormChar(NormRef(s)[i])
  {
    if s != [] {
      NormRefIsNormal(s[1..]);
      var head, tail := NormChar(s[0]), NormRef(s[1..]);
      forall i | 0 <= i < |head + tail|
        ensures IsNormChar((head + tail)[i])
      {
        if i >= |head| {
          assert (head + tail)[i] == tail[i - |head|];
        }
      }
    }
  }

  /** Every character of a normal form is one that `norm` keeps unchanged. */
  lemma NormIsNormal(s: String)
    ensures forall i :: 0 <= i < |Norm(s)| ==> IsNormChar(Norm(s)[i])
  {
    NormMatchesRef(s);
    NormRefIsNormal(s);
  }

  lemma {:induction false} NormRefConcat(a: String, b: String)
    ensures NormRef(a + b) == NormRef(a) + NormRef(b)
  {
    if a != [] {
      assert (a + b)[0] == a[0] && (a + b)[1..] == a[1..] + b;
      NormRefConcat(a[1..], b);
    } else {
      assert a + b == b;
    }
  }

  lemma {:induction false} NormRefOfNormal(s: String)
    requires forall i :: 0 <= i < |s| ==> IsNormChar(s[i])
    ensures NormRef(s) == s
  {
    if s != [] {
      assert IsNormChar(s[0]);
      NormRefOfNormal(s[1..]);
    }
  }

  /** A string made only of characters `norm` keeps unchanged is its own normal form. */
  lemma NormOfNormal(s: String)
    requires forall i :: 0 <= i < |s| ==> IsNormChar(s[i])
    ensures Norm(s) == s
  {
    NormMatchesRef(s);
    NormRefOfNormal(s);
  }

  lemma NormRefSkipsSpace(c: char, t: String)
    requires IsSpace(c)
    ensures NormRef([c] + t) == NormRef(t)
  {
    assert ([c] + t)[1..] == t;
  }

  lemma NormRefJoin(before: String, c: char, after: String)
    requires IsSpace(c)
    requires forall i :: 0 <= i < |before| ==> IsNormChar(before[i])
    requires forall i :: 0 <= i < |after| ==> IsNormChar(after[i])
    ensures NormRef(before + ([c] + after)) == before + after
  {
    NormRefConcat(before, [c] + after);
    NormRefSkipsSpace(c, after);
    NormRefOfNormal(before);
    NormRefOfNormal(after);
  }

  /** `norm` deletes a whitespace character between two pieces of normal text. */
  lemma NormJoinsAroundSpace(before: String, c: char, after: String)
    requires IsSpace(c)
    requires forall i :: 0 <= i < |before| ==> IsNormChar(before[i])
    requires forall i :: 0 <= i < |after| ==> IsNormChar(after[i])
    ensures Norm(before + ([c] + after)) == before + after
  {
    NormMatchesRef(before + ([c] + after));
    NormRefJoin(before, c, after);
  }

  /** Normalising twice is the same as normalising once. */
  lemma NormIdempotent(s: String)
    ensures Norm(Norm(s)) == Norm(s)
  {
    NormIsNormal(s);
    NormOfNormal(Norm(s));
  }

  /**
   * Python's `pat in text` for strings: `pat` occurs in `text` as a
   * contiguous block (the empty pattern occurs everywhere).
   */
  predicate Contains(text: String, pat: String) {
    pat <= text || (|text| > 0 && Contains(text[1..], pat))
  }

  /** `pat` occurs in `text` starting at offset `i`. */
  predicate OccursAt(text: String, pat: String, i: int) {
    0 <= i && i + |pat| <= |text| && text[i..i + |pat|] == pat
  }

  /** `Contains` holds exactly when the pattern occurs at some offset of the text. */
  lemma ContainsIff(text: String, pat: String)
    ensures Contains(text, pat) <==> exists i :: OccursAt(text, pat, i)
  {
    if Contains(text, pat) {
      ContainsHasOffset(text, pat);
    }
    if exists i :: OccursAt(text, pat, i) {
      var i :| OccursAt(text, pat, i);
      OffsetGivesContains(text, pat, i);
    }
  }

  lemma {:induction false} ContainsHasOffset(text: String, pat: String)
    requires Contains(text, pat)
    ensures exists i :: OccursAt(text, pat, i)
  {
    if pat <= text {
      assert OccursAt(text, pat, 0);
    } else {
      ContainsHasOffset(text[1..], pat);
      var i :| OccursAt(text[1..], pat, i);
      assert text[1..][i..i + |pat|] == text[i + 1..i + 1 + |pat|];
      assert OccursAt(text, pat, i + 1);
    }
  }

  lemma {:induction false} OffsetGivesContains(text: String, pat: String, i: int)
    requires OccursAt(text, pat, i)
    ensures Contains(text, pat)
    decreases i
  {
    if i == 0 {
      assert pat <= text;
    } else {
      assert text[1..][i - 1..i - 1 + |pat|] == text[i..i + |pat|];
      OffsetGivesContains(text[1..], pat, i - 1);
    }
  }

  /** Containment is transitive: an occurrence inside an occurrence is an occurrence. */
  lemma ContainsTransitive(text: String, mid: String, pat: String)
    requires Contains(text, mid) && Contains(mid, pat)
    ensures Contains(text, pat)
  {
    ContainsIff(text, mid);
    ContainsIff(mid, pat);
    var i :| OccursAt(text, mid, i);
    var j :| OccursAt(mid, pat, j);
    forall k | 0 <= k < |pat|
      ensures text[i + j + k] == pat[k]
    {
      assert mid[j + k] == pat[k];
      assert text[i + (j + k)] == mid[j + k];
    }
    assert text[i + j..i + j + |pat|] == pat;
    assert OccursAt(text, pat, i + j);
    ContainsIff(text, pat);
  }

  /** `norm` introduces no character outside ASCII: each one in the output is in the input. */
  lemma {:induction false} NormRefIntroducesNothing(s: String, x: char)
    requires x > '\U{7F}' && x in NormRef(s)
    ensures x in s
  {
    if s != [] {
      if x in NormChar(s[0]) {
        assert x == s[0];
      } else {
        NormRefIntroducesNothing(s[1..], x);
      }
    }
  }

  lemma NormIntroducesNothing(s: String, x: char)
    requires x > '\U{7F}' && x !in s
    ensures x !in Norm(s)
  {
    NormMatchesRef(s);
    if x in NormRef(s) {
      NormRefIntroducesNothing(s, x);
    }
  }

  /** A pattern with a character the text lacks does not occur in the text. */
  lemma NotContainsMissingChar(text: String, pat: String, k: nat)
    requires k < |pat| && pat[k] !in text
    ensures !Contains(text, pat)
  {
    ContainsIff(text, pat);
    forall i | 0 <= i && i + |pat| <= |text|
      ensures !OccursAt(text, pat, i)
    {
      assert text[i..i + |pat|][k] == text[i + k];
    }
  }

  /** A prefix of the text occurs in it. */
  lemma ContainsPrefix(text: String, pat: String)
    requires pat <= text
    ensures Contains(text, pat)
  {
  }

  /** `str.lstrip()`: leading whitespace removed. */
  function StripLeft(s: String): String {
    if s != [] && IsSpace(s[0]) then StripLeft(s[1..]) else s
  }

  /** `str.rstrip()`: trailing whitespace removed. */
  function StripRight(s: String): String {
    if s != [] && IsSpace(s[|s| - 1]) then StripRight(s[..|s| - 1]) else s
  }

  predicate AllSpace(s: String) {
    forall i :: 0 <= i < |s| ==> IsSpace(s[i])
  }

  lemma {:induction false} StripLeftSpec(s: String)
    ensures var r := StripLeft(s);
            && (r == [] || !IsSpace(r[0]))
            && |r| <= |s| && r == s[|s| - |r|..] && AllSpace(s[..|s| - |r|])
  {
    if s != [] && IsSpace(s[0]) {
      StripLeftSpec(s[1..]);
      var r := StripLeft(s);
      assert s[..|s| - |r|] == [s[0]] + s[1..][..|s| - 1 - |r|];
    }
  }

  lemma {:induction false} StripRightSpec(s: String)
    ensures var r := StripRight(s);
            && (r == [] || !IsSpace(r[|r| - 1]))
            && |r| <= |s| && r == s[..|r|] && AllSpace(s[|r|..])
  {
    if s != [] && IsSpace(s[|s| - 1]) {
      var t := s[..|s| - 1];
      StripRightSpec(t);
      var r := StripRight(s);
      assert s[|r|..] == t[|r|..] + [s[|s| - 1]];
    }
  }

  /**
   * `str.strip()`: the result is the slice of the input left after removing
   * a whitespace prefix and a whitespace suffix, and it neither starts nor
   * ends with whitespace.
   */
  function Strip(s: String): (r: String)
    ensures r == [] || (!IsSpace(r[0]) && !IsSpace(r[|r| - 1]))
    ensures exists i, j :: 0 <= i <= j <= |s| && r == s[i..j] && AllSpace(s[..i]) && AllSpace(s[j..])
  {
    var l := StripLeft(s);
    StripLeftSpec(s);
    StripRightSpec(l);
    var r := StripRight(l);
    var i := |s| - |l|;
    assert r == s[i..i + |r|];
    assert s[i + |r|..] == l[|r|..];
    r
  }

  /** Stripping an already stripped string changes nothing (`keyword.strip()` after `entry.get().strip()`). */
  lemma StripIdempotent(s: String)
    ensures Strip(Strip(s)) == Strip(s)
  {
    var r := Strip(s);
    if r != [] {
      assert StripLeft(r) == r;
      assert StripRight(r) == r;
    }
  }
}
