/**
 * `SearchTextNormalizer.Normalize`: keeps letters and digits, lower-cased,
 * and turns every other run of characters into one space, with no space at
 * either end. The same function is applied to indexed text and to queries.
 */
module SearchTextNormalizer {
  import opened Chars
  import opened Text

  /** The loop state after a prefix of the input: the builder and `previousWasSpace`. */
  datatype ScanState = ScanState(builder: string, previousWasSpace: bool)

  /** One iteration of the `foreach` loop. */
  function Step(st: ScanState, ch: char): ScanState {
    if IsLetterOrDigit(ch) then ScanState(st.builder + [ToLower(ch)], false)
    else if !st.previousWasSpace then ScanState(st.builder + [' '], true)
    else st
  }

  /** The loop run over `s`, starting with an empty builder and `previousWasSpace` true. */
  function Scan(s: string): ScanState {
    if s == [] then ScanState("", true) else Step(Scan(s[..|s| - 1]), s[|s| - 1])
  }

  /** What `Normalize` returns: blank input gives "", otherwise the scan with a trailing space removed. */
  function Normalized(text: string): string {
    if IsBlank(text) then ""
    else
      var b := Scan(text).builder;
      if |b| > 0 && b[|b| - 1] == ' ' then b[..|b| - 1] else b
  }

  method Normalize(text: string) returns (r: string)
    ensures r == Normalized(text)
  {
    if IsBlank(text) {
      return "";
    }
    var builder := "";
    var previousWasSpace := true;
    for i := 0 to |text|
      invariant Scan(text[..i]) == ScanState(builder, previousWasSpace)
    {
      var ch := text[i];
      assert text[..i + 1][..i] == text[..i];
      if IsLetterOrDigit(ch) {
        builder := builder + [ToLower(ch)];
        previousWasSpace := false;
        continue;
      }
      if !previousWasSpace {
        builder := builder + [' '];
        previousWasSpace := true;
      }
    }
    assert text[..|text|] == text;
    if |builder| > 0 && builder[|builder| - 1] == ' ' {
      builder := builder[..|builder| - 1];
    }
    r := builder;
  }

  /** The lower-cased letters and digits of `s`, in order. */
  function LowerLettersAndDigits(s: string): string {
    if s == [] then ""
    else
      var rest := LowerLettersAndDigits(s[..|s| - 1]);
      if IsLetterOrDigit(s[|s| - 1]) then rest + [ToLower(s[|s| - 1])] else rest
  }

  /** `s` with every space removed. */
  function WithoutSpaces(s: string): string {
    if s == [] then "" else (if s[0] == ' ' then "" else [s[0]]) + WithoutSpaces(s[1..])
  }

  lemma {:induction false} WithoutSpacesAppend(a: string, b: string)
    ensures WithoutSpaces(a + b) == WithoutSpaces(a) + WithoutSpaces(b)
  {
    if a == [] {
      assert a + b == b;
    } else {
      assert (a + b)[1..] == a[1..] + b;
      WithoutSpacesAppend(a[1..], b);
    }
  }

  predicate NoDoubleSpace(s: string) {
    forall i | 0 <= i < |s| - 1 :: !(s[i] == ' ' && s[i + 1] == ' ')
  }

  /** Everything the loop keeps true of its builder. */
  predicate ScanInvariant(s: string, st: ScanState) {
    var b := st.builder;
    && (st.previousWasSpace <==> (b == [] || b[|b| - 1] == ' '))
    && (b == [] || b[0] != ' ')
    && NoDoubleSpace(b)
    && |b| <= |s|
    && WithoutSpaces(b) == LowerLettersAndDigits(s)
    && (forall i | 0 <= i < |b| :: b[i] == ' ' || b[i] in LowerLettersAndDigits(s))
  }

  lemma {:induction false} ScanKeepsInvariant(s: string)
    ensures ScanInvariant(s, Scan(s))
  {
    if s != [] {
      var p := s[..|s| - 1];
      var ch := s[|s| - 1];
      ScanKeepsInvariant(p);
      var st := Scan(p);
      var b := st.builder;
      if IsLetterOrDigit(ch) {
        WithoutSpacesAppend(b, [ToLower(ch)]);
        assert WithoutSpaces([ToLower(ch)]) == [ToLower(ch)];
      } else if !st.previousWasSpace {
        WithoutSpacesAppend(b, [' ']);
        assert WithoutSpaces([' ']) == [];
      }
      var b' := Scan(s).builder;
      forall i | 0 <= i < |b'| ensures b'[i] == ' ' || b'[i] in LowerLettersAndDigits(s) {
        if i < |b| {
          assert b'[i] == b[i];
        }
      }
    }
  }

  /** Whether every character of `s` is a space or a lower-case letter or digit. */
  predicate LowerOrSpace(s: string) {
    forall i | 0 <= i < |s| :: s[i] == ' ' || (IsLetterOrDigit(s[i]) && ToLower(s[i]) == s[i])
  }

  /** The shape of a normalized string: single spaces between lower-case letters and digits. */
  predicate IsCanonical(s: string) {
    && (s == [] || (s[0] != ' ' && s[|s| - 1] != ' '))
    && NoDoubleSpace(s)
    && LowerOrSpace(s)
  }

  lemma {:induction false} LowerLettersAndDigitsAreLower(s: string)
    ensures LowerOrSpace(LowerLettersAndDigits(s))
  {
    if s != [] {
      LowerLettersAndDigitsAreLower(s[..|s| - 1]);
      ToLowerIdempotent(s[|s| - 1]);
    }
  }

  /**
   * What `Normalize` promises: no space at either end, no two spaces in a
   * row, every character a space or the lower case of an input letter or
   * digit, the letters and digits of the input in order once spaces are
   * removed, and never longer than the input.
   */
  lemma NormalizedFacts(text: string)
    ensures var r := Normalized(text);
      && (r == [] || (r[0] != ' ' && r[|r| - 1] != ' '))
      && NoDoubleSpace(r)
      && (forall i | 0 <= i < |r| :: r[i] == ' ' || r[i] in LowerLettersAndDigits(text))
      && WithoutSpaces(r) == LowerLettersAndDigits(text)
      && |r| <= |text|
      && IsCanonical(r)
  {
    var r := Normalized(text);
    if IsBlank(text) {
      BlankHasNoLettersOrDigits(text);
    } else {
      ScanKeepsInvariant(text);
      DropTrailingSpace(Scan(text).builder, LowerLettersAndDigits(text), |text|);
    }
    LowerLettersAndDigitsAreLower(text);
    DrawnFromLower(r, LowerLettersAndDigits(text));
  }

  /**
   * Dropping a trailing space from a builder that starts with no space, has
   * no two spaces in a row and spells `letters` once spaces are removed
   * leaves a string with the same properties and no space at its end.
   */
  lemma DropTrailingSpace(b: string, letters: string, bound: nat)
    requires (b == [] || b[0] != ' ') && NoDoubleSpace(b) && |b| <= bound
    requires WithoutSpaces(b) == letters
    requires forall i | 0 <= i < |b| :: b[i] == ' ' || b[i] in letters
    ensures var r := if |b| > 0 && b[|b| - 1] == ' ' then b[..|b| - 1] else b;
      && (r == [] || (r[0] != ' ' && r[|r| - 1] != ' '))
      && NoDoubleSpace(r)
      && (forall i | 0 <= i < |r| :: r[i] == ' ' || r[i] in letters)
      && WithoutSpaces(r) == letters
      && |r| <= bound
  {
    if |b| > 0 && b[|b| - 1] == ' ' {
      var r := b[..|b| - 1];
      assert b == r + [' '];
      WithoutSpacesAppend(r, [' ']);
      assert WithoutSpaces([' ']) == [];
      assert forall i | 0 <= i < |r| :: r[i] == b[i];
    }
  }

  /** A string of spaces and characters drawn from a lower-case string is lower case. */
  lemma DrawnFromLower(r: string, letters: string)
    requires LowerOrSpace(letters)
    requires forall i | 0 <= i < |r| :: r[i] == ' ' || r[i] in letters
    ensures LowerOrSpace(r)
  {
    forall i | 0 <= i < |r| && r[i] != ' '
      ensures IsLetterOrDigit(r[i]) && ToLower(r[i]) == r[i]
    {
      var k :| 0 <= k < |letters| && letters[k] == r[i];
    }
  }

  lemma {:induction false} BlankHasNoLettersOrDigits(s: string)
    requires IsBlank(s)
    ensures LowerLettersAndDigits(s) == ""
  {
    if s != [] {
      BlankHasNoLettersOrDigits(s[..|s| - 1]);
      LetterOrDigitIsNotWhiteSpace(s[|s| - 1]);
    }
  }

  /** Scanning a canonical string reproduces it prefix by prefix. */
  lemma {:induction false} ScanCanonical(s: string, k: nat)
    requires IsCanonical(s) && k <= |s|
    ensures Scan(s[..k]) == ScanState(s[..k], k == 0 || s[k - 1] == ' ')
  {
    if k > 0 {
      ScanCanonical(s, k - 1);
      assert s[..k][..k - 1] == s[..k - 1];
      var c := s[k - 1];
      if c == ' ' {
        assert k - 1 > 0;
        assert s[k - 2] != ' ';
      }
      assert s[..k] == s[..k - 1] + [c];
    }
  }

  /** A canonical string is left as it is. */
  lemma CanonicalIsFixed(s: string)
    requires IsCanonical(s)
    ensures Normalized(s) == s
  {
    if s != [] {
      LetterOrDigitIsNotWhiteSpace(s[0]);
      ScanCanonical(s, |s|);
      assert s[..|s|] == s;
    }
  }

  /** Normalizing twice is normalizing once. */
  lemma NormalizeIdempotent(text: string)
    ensures Normalized(Normalized(text)) == Normalized(text)
  {
    NormalizedFacts(text);
    CanonicalIsFixed(Normalized(text));
  }
}
