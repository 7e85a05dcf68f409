/**
 * The SIM identifier normaliser of sim_comparator.py: a raw spreadsheet cell
 * is turned into one canonical digit string with a leading '0', or rejected.
 * Characters are modelled as Unicode scalars; digits are the ASCII ones.
 */
module Normalizer {
  import opened Wrappers

  /** An ASCII decimal digit. */
  predicate IsDigit(c: char) {
    '0' <= c <= '9'
  }

  predicate AllDigits(s: string) {
    forall i :: 0 <= i < |s| ==> IsDigit(s[i])
  }

  /** The characters Python's `str.strip()` removes, up to U+00A0. */
  predicate IsSpace(c: char) {
    c == ' ' || ('\t' <= c <= '\r') || ('\U{1C}' <= c <= '\U{1F}') || c == '\U{85}' || c == '\U{A0}'
  }

  predicate AllSpace(s: string) {
    forall i :: 0 <= i < |s| ==> IsSpace(s[i])
  }

  /** A canonical identifier: non-empty, digits only, starting with '0'. */
  predicate IsCanonical(s: string) {
    |s| > 0 && AllDigits(s) && s[0] == '0'
  }

  // ---------------------------------------------------------------------------
  // Whitespace trimming (`str.strip()`)
  // ---------------------------------------------------------------------------

  /** Drops leading whitespace. */
  function TrimLeft(s: string): (r: string)
    ensures |r| <= |s|
    ensures r == [] || !IsSpace(r[0])
  {
    if s != [] && IsSpace(s[0]) then TrimLeft(s[1..]) else s
  }

  /** What `TrimLeft` drops is a run of whitespace, and it keeps the rest as it is. */
  lemma {:induction false} TrimLeftSplits(s: string)
    ensures var r := TrimLeft(s);
      r == s[|s| - |r|..] && AllSpace(s[..|s| - |r|])
  {
    if s != [] && IsSpace(s[0]) {
      var r := TrimLeft(s[1..]);
      TrimLeftSplits(s[1..]);
      assert s[..|s| - |r|] == [s[0]] + s[1..][..|s| - 1 - |r|];
    }
  }

  /** Drops trailing whitespace. */
  function TrimRight(s: string): (r: string)
    ensures |r| <= |s|
    ensures r == [] || !IsSpace(r[|r| - 1])
  {
    if s != [] && IsSpace(s[|s| - 1]) then TrimRight(s[..|s| - 1]) else s
  }

  /** What `TrimRight` drops is a run of whitespace, and it keeps the rest as it is. */
  lemma {:induction false} TrimRightSplits(s: string)
    ensures var r := TrimRight(s);
      r == s[..|r|] && AllSpace(s[|r|..])
  {
    if s != [] && IsSpace(s[|s| - 1]) {
      var r := TrimRight(s[..|s| - 1]);
      TrimRightSplits(s[..|s| - 1]);
      assert s[|r|..] == s[..|s| - 1][|r|..] + [s[|s| - 1]];
    }
  }

  /** Python's `str.strip()`: removes whitespace at both ends and nowhere else. */
  function Strip(s: string): (r: string)
    ensures |r| <= |s|
    ensures r == [] || (!IsSpace(r[0]) && !IsSpace(r[|r| - 1]))
  {
    TrimRightSplits(TrimLeft(s));
    TrimRight(TrimLeft(s))
  }

  // ---------------------------------------------------------------------------
  // Removal of ".0" (`str.replace(".0", "")`) and the digit filter
  // ---------------------------------------------------------------------------

  /** `s` contains the two characters ".0" next to each other somewhere. */
  predicate HasDotZero(s: string) {
    |s| >= 2 && ((s[0] == '.' && s[1] == '0') || HasDotZero(s[1..]))
  }

  /**
   * Python's `s.replace(".0", "")`: one left-to-right pass that removes every
   * non-overlapping occurrence; it shortens `s` exactly when `s` holds one.
   */
  function RemoveDotZero(s: string): (r: string)
    ensures |r| <= |s|
    ensures !HasDotZero(s) ==> r == s
    ensures HasDotZero(s) ==> |r| < |s|
  {
    if |s| >= 2 && s[0] == '.' && s[1] == '0' then RemoveDotZero(s[2..])
    else if s == [] then []
    else [s[0]] + RemoveDotZero(s[1..])
  }

  /** `"".join(filter(str.isdigit, s))`: the digits of `s`, in order. */
  function Digits(s: string): (r: string)
    ensures AllDigits(r) && |r| <= |s|
    ensures AllDigits(s) ==> r == s
  {
    if s == [] then []
    else (if IsDigit(s[0]) then [s[0]] else []) + Digits(s[1..])
  }

  // ---------------------------------------------------------------------------
  // Prefix dispatch and the normaliser
  // ---------------------------------------------------------------------------

  /**
   * The first-match-wins prefix rules: "62" becomes "0", a leading '8' gets a
   * '0' in front, a leading '0' is kept, anything else is rejected.
   */
  function ApplyPrefixRule(d: string): (id: Option<string>)
    ensures AllDigits(d) && id.Some? ==> IsCanonical(id.value)
  {
    if |d| >= 2 && d[0] == '6' && d[1] == '2' then Some("0" + d[2..])
    else if |d| >= 1 && d[0] == '8' then Some("0" + d)
    else if |d| >= 1 && d[0] == '0' then Some(d)
    else None
  }

  /**
   * `normalize_sim`: a missing cell gives None; otherwise the cell's text is
   * stripped, cleared of ".0", reduced to its digits and run through the
   * prefix rules. Every identifier it produces is canonical.
   */
  function NormalizeSim(raw: Option<string>): (id: Option<string>)
    ensures raw.None? ==> id.None?
    ensures id.Some? ==> IsCanonical(id.value)
  {
    match raw
    case None => None
    case Some(s) => ApplyPrefixRule(Digits(RemoveDotZero(Strip(s))))
  }

  // ---------------------------------------------------------------------------
  // Lemmas about the string steps
  // ---------------------------------------------------------------------------

  /** A character that does not start ".0" is kept, and the pass goes on after it. */
  lemma RemoveDotZeroKeeps(c: char, t: string)
    requires !(c == '.' && t != [] && t[0] == '0')
    ensures RemoveDotZero([c] + t) == [c] + RemoveDotZero(t)
  {
    assert ([c] + t)[1..] == t;
  }

  /** An occurrence of ".0" at the front is removed, and the pass goes on after it. */
  lemma RemoveDotZeroDrops(t: string)
    ensures RemoveDotZero(".0" + t) == RemoveDotZero(t)
  {
    assert (".0" + t)[2..] == t;
  }

  /**
   * A proof step of `RemoveDotZeroAppend`: stating associativity as a lemma
   * keeps the solver from regrouping every concatenation in that proof.
   */
  lemma AppendAssociates(x: string, y: string, z: string)
    ensures x + (y + z) == (x + y) + z
  {
  }

  /** Removing ".0" works piecewise when no occurrence straddles the seam. */
  lemma {:induction false} RemoveDotZeroAppend(a: string, b: string)
    requires a == [] || b == [] || !(a[|a| - 1] == '.' && b[0] == '0')
    ensures RemoveDotZero(a + b) == RemoveDotZero(a) + RemoveDotZero(b)
  {
    if a == [] {
      assert a + b == b;
    } else if |a| >= 2 && a[0] == '.' && a[1] == '0' {
      var t := a[2..];
      assert a == ".0" + t && a + b == ".0" + (t + b);
      RemoveDotZeroDrops(t);
      RemoveDotZeroDrops(t + b);
      RemoveDotZeroAppend(t, b);
    } else if |a| == 1 && a[0] == '.' && b != [] && b[0] == '0' {
      assert false;
    } else {
      var c, t := a[0], a[1..];
      assert a == [c] + t && a + b == [c] + (t + b);
      assert t != [] ==> (t + b)[0] == t[0];
      RemoveDotZeroKeeps(c, t);
      RemoveDotZeroKeeps(c, t + b);
      RemoveDotZeroAppend(t, b);
      AppendAssociates([c], RemoveDotZero(t), RemoveDotZero(b));
    }
  }

  /** The digit filter distributes over concatenation. */
  lemma {:induction false} DigitsAppend(a: string, b: string)
    ensures Digits(a + b) == Digits(a) + Digits(b)
  {
    if a == [] {
      assert a + b == b;
    } else {
      assert (a + b)[1..] == a[1..] + b;
      DigitsAppend(a[1..], b);
    }
  }

  /** A character that is not a digit is dropped wherever it stands. */
  lemma DigitsDropsNonDigit(a: string, c: char, b: string)
    requires !IsDigit(c)
    ensures Digits(a + [c] + b) == Digits(a + b)
  {
    DigitsAppend(a + [c], b);
    DigitsAppend(a, [c]);
    DigitsAppend(a, b);
    assert Digits([c]) == [] by {
      assert [c][1..] == [];
    }
  }

  /** A digit string holds no '.', so no ".0" either. */
  lemma {:induction false} DigitsHaveNoDotZero(d: string)
    requires AllDigits(d)
    ensures !HasDotZero(d)
  {
    if |d| >= 2 {
      DigitsHaveNoDotZero(d[1..]);
    }
  }

  /** Whitespace holds no digit and no ".0". */
  lemma {:induction false} SpaceIsInert(w: string)
    requires AllSpace(w)
    ensures RemoveDotZero(w) == w && Digits(w) == []
  {
    if w != [] {
      SpaceIsInert(w[1..]);
    }
  }

  /** Whitespace around a cell changes neither its ".0" removal nor its digits. */
  lemma PaddingKeepsDigits(w1: string, s: string, w2: string)
    requires AllSpace(w1) && AllSpace(w2)
    ensures Digits(RemoveDotZero(w1 + s + w2)) == Digits(RemoveDotZero(s))
  {
    SpaceIsInert(w1);
    SpaceIsInert(w2);
    RemoveDotZeroAppend(w1 + s, w2);
    RemoveDotZeroAppend(w1, s);
    DigitsAppend(w1 + RemoveDotZero(s), w2);
    DigitsAppend(w1, RemoveDotZero(s));
    assert Digits(w1 + RemoveDotZero(s) + w2) == Digits(RemoveDotZero(s)) + [];
  }

  /** Stripping never changes which digits survive: `strip()` is redundant. */
  lemma StripKeepsDigits(s: string)
    ensures Digits(RemoveDotZero(Strip(s))) == Digits(RemoveDotZero(s))
  {
    var t := TrimLeft(s);
    var r := TrimRight(t);
    TrimLeftSplits(s);
    TrimRightSplits(t);
    assert s == s[..|s| - |t|] + r + t[|r|..];
    PaddingKeepsDigits(s[..|s| - |t|], r, t[|r|..]);
  }

  /** Stripping a non-blank core out of whitespace padding gives the core back. */
  lemma {:induction false} StripPadding(w1: string, s: string, w2: string)
    requires AllSpace(w1) && AllSpace(w2)
    requires s != [] && !IsSpace(s[0]) && !IsSpace(s[|s| - 1])
    ensures Strip(w1 + s + w2) == s
  {
    TrimLeftPadding(w1, s + w2);
    assert w1 + s + w2 == w1 + (s + w2);
    TrimRightPadding(s, w2);
  }

  lemma {:induction false} TrimLeftPadding(w: string, s: string)
    requires AllSpace(w) && s != [] && !IsSpace(s[0])
    ensures TrimLeft(w + s) == s
  {
    if w != [] {
      assert (w + s)[1..] == w[1..] + s;
      TrimLeftPadding(w[1..], s);
    } else {
      assert w + s == s;
    }
  }

  lemma {:induction false} TrimRightPadding(s: string, w: string)
    requires AllSpace(w) && s != [] && !IsSpace(s[|s| - 1])
    ensures TrimRight(s + w) == s
  {
    if w != [] {
      assert (s + w)[..|s + w| - 1] == s + w[..|w| - 1];
      TrimRightPadding(s, w[..|w| - 1]);
    } else {
      assert s + w == s;
    }
  }

  /** A digit string passes unchanged to the prefix rules. */
  lemma DigitStringReachesPrefixRule(d: string)
    requires AllDigits(d)
    ensures NormalizeSim(Some(d)) == ApplyPrefixRule(d)
  {
    StripKeepsDigits(d);
    DigitsHaveNoDotZero(d);
  }

  // ---------------------------------------------------------------------------
  // Properties of the normaliser
  // ---------------------------------------------------------------------------

  /** Rule 1: the country code "62" is replaced by '0' ("62" alone gives "0"). */
  lemma CountryCodeRule(rest: string)
    requires AllDigits(rest)
    ensures NormalizeSim(Some("62" + rest)) == Some("0" + rest)
  {
    DigitStringReachesPrefixRule("62" + rest);
    assert ("62" + rest)[2..] == rest;
  }

  /** Rule 2: a leading '8' (and no "62") gets a '0' prepended. */
  lemma LeadingEightRule(d: string)
    requires AllDigits(d) && |d| > 0 && d[0] == '8'
    ensures NormalizeSim(Some(d)) == Some("0" + d)
  {
    DigitStringReachesPrefixRule(d);
  }

  /** Rule 3: a digit string that already starts with '0' is kept as it is. */
  lemma LeadingZeroRule(rest: string)
    requires AllDigits(rest)
    ensures NormalizeSim(Some("0" + rest)) == Some("0" + rest)
  {
    DigitStringReachesPrefixRule("0" + rest);
  }

  /** Fall-through: a digit string matching no rule, the empty one included, is rejected. */
  lemma NoRuleRejects(d: string)
    requires AllDigits(d)
    requires d == [] || (d[0] != '0' && d[0] != '8' && !(|d| >= 2 && d[0] == '6' && d[1] == '2'))
    ensures NormalizeSim(Some(d)) == None
  {
    if d == [] {
      DigitStringReachesPrefixRule([]);
    } else {
      DigitStringReachesPrefixRule(d);
    }
  }

  /** Surrounding whitespace has no effect on the normalised identifier. */
  lemma PaddingIsIgnored(w1: string, s: string, w2: string)
    requires AllSpace(w1) && AllSpace(w2)
    ensures NormalizeSim(Some(w1 + s + w2)) == NormalizeSim(Some(s))
  {
    StripKeepsDigits(w1 + s + w2);
    StripKeepsDigits(s);
    PaddingKeepsDigits(w1, s, w2);
  }

  /** The ".0" a numeric spreadsheet cell renders with is dropped before the digit filter. */
  lemma FloatSuffixIsIgnored(d: string)
    requires AllDigits(d)
    ensures NormalizeSim(Some(d + ".0")) == NormalizeSim(Some(d))
  {
    var cell := d + ".0";
    DigitsHaveNoDotZero(d);
    assert RemoveDotZero(cell) == d by {
      RemoveDotZeroAppend(d, ".0");
      assert RemoveDotZero(".0") == [];
    }
    calc {
      NormalizeSim(Some(cell));
      { StripKeepsDigits(cell); }
      ApplyPrefixRule(Digits(RemoveDotZero(cell)));
      ApplyPrefixRule(Digits(RemoveDotZero(d)));
      { StripKeepsDigits(d); }
      NormalizeSim(Some(d));
    }
  }

  /** Normalising a canonical identifier again gives it back unchanged. */
  lemma NormalizeIdempotent(raw: Option<string>)
    requires NormalizeSim(raw).Some?
    ensures NormalizeSim(Some(NormalizeSim(raw).value)) == NormalizeSim(raw)
  {
    var c := NormalizeSim(raw).value;
    DigitStringReachesPrefixRule(c);
  }
}
