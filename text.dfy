/**
 * The `System.String` operations the modelled code relies on, over `seq<char>`:
 * trimming, blank tests, ordinal substring search, `Split` with
 * `RemoveEmptyEntries | TrimEntries`, invariant casing, `ReplaceLineEndings`
 * and decimal formatting of integers.
 */
module Text {
  import opened Chars
  import opened Wrappers
  import opened Sequences

  /** `string.IsNullOrWhiteSpace` for a non-null string. */
  predicate IsBlank(s: string) {
    forall i | 0 <= i < |s| :: IsWhiteSpace(s[i])
  }

  function TrimStart(s: string): (r: string)
    ensures |r| <= |s| && r == s[|s| - |r|..]
    ensures r == [] || !IsWhiteSpace(r[0])
    ensures forall i | 0 <= i < |s| - |r| :: IsWhiteSpace(s[i])
  {
    if s != [] && IsWhiteSpace(s[0]) then TrimStart(s[1..]) else s
  }

  function TrimEnd(s: string): (r: string)
    ensures |r| <= |s| && r == s[..|r|]
    ensures r == [] || !IsWhiteSpace(r[|r| - 1])
    ensures forall i | |r| <= i < |s| :: IsWhiteSpace(s[i])
  {
    if s != [] && IsWhiteSpace(s[|s| - 1]) then TrimEnd(s[..|s| - 1]) else s
  }

  /** `string.Trim()`: drops leading and trailing white space. */
  function Trim(s: string): string {
    TrimEnd(TrimStart(s))
  }

  predicate IsTrimmed(s: string) {
    s == [] || (!IsWhiteSpace(s[0]) && !IsWhiteSpace(s[|s| - 1]))
  }

  /** Where `Trim` cuts: the leading white space it drops. */
  function TrimOffset(s: string): nat {
    |s| - |TrimStart(s)|
  }

  /** Trimming keeps an infix of `s`, which is itself trimmed. */
  lemma TrimIsTrimmedInfix(s: string)
    ensures TrimOffset(s) + |Trim(s)| <= |s|
    ensures Trim(s) == s[TrimOffset(s)..TrimOffset(s) + |Trim(s)|]
    ensures IsTrimmed(Trim(s))
  {
    var a := TrimStart(s);
    var r := TrimEnd(a);
    assert r == a[..|r|];
    if r != [] {
      assert r[0] == a[0];
    }
  }

  /** Trimming gives the empty string exactly for blank input. */
  lemma TrimEmptyIffBlank(s: string)
    ensures Trim(s) == [] <==> IsBlank(s)
  {
    if Trim(s) != [] {
      TrimIsTrimmedInfix(s);
    }
  }

  /** A trimmed string is its own trim, so trimming is idempotent. */
  lemma TrimOfTrimmed(s: string)
    ensures IsTrimmed(s) ==> Trim(s) == s
    ensures Trim(Trim(s)) == Trim(s)
  {
    TrimIsTrimmedInfix(s);
  }

  /** `haystack.Contains(needle, StringComparison.Ordinal)`. */
  predicate Contains(haystack: string, needle: string) {
    exists i | 0 <= i <= |haystack| :: OccursAt(haystack, needle, i)
  }

  predicate OccursAt(haystack: string, needle: string, i: nat) {
    i + |needle| <= |haystack| && haystack[i..i + |needle|] == needle
  }

  /** `s.StartsWith(prefix, StringComparison.Ordinal)`. */
  predicate StartsWith(s: string, prefix: string) {
    |prefix| <= |s| && s[..|prefix|] == prefix
  }

  /** `string.ToLowerInvariant()`. */
  function Lower(s: string): (r: string)
    ensures |r| == |s|
    ensures forall i | 0 <= i < |s| :: r[i] == ToLower(s[i])
  {
    seq(|s|, i requires 0 <= i < |s| => ToLower(s[i]))
  }

  /** Lower-casing a string twice is lower-casing it once. */
  lemma LowerIdempotent(s: string)
    ensures Lower(Lower(s)) == Lower(s)
  {
    forall i | 0 <= i < |s|
      ensures Lower(Lower(s))[i] == Lower(s)[i]
    {
      ToLowerIdempotent(s[i]);
    }
  }

  /** Lower-casing brings in no space. */
  lemma LowerNoSpace(s: string)
    requires ' ' !in s
    ensures ' ' !in Lower(s)
  {
    forall i | 0 <= i < |s|
      ensures Lower(s)[i] != ' '
    {
      assert s[i] != ' ';
    }
  }

  /** `string.ToUpperInvariant()`, the case fold behind `OrdinalIgnoreCase`. */
  function Upper(s: string): (r: string)
    ensures |r| == |s|
    ensures forall i | 0 <= i < |s| :: r[i] == ToUpper(s[i])
  {
    seq(|s|, i requires 0 <= i < |s| => ToUpper(s[i]))
  }

  /** `string.Equals(a, b, StringComparison.OrdinalIgnoreCase)`. */
  predicate EqualsIgnoreCase(a: string, b: string) {
    Upper(a) == Upper(b)
  }

  function IndexOf(s: string, c: char): (i: nat)
    requires c in s
    ensures i < |s| && s[i] == c && c !in s[..i]
  {
    if s[0] == c then 0 else 1 + IndexOf(s[1..], c)
  }

  /** `s.Split(sep)` with no options: the pieces between separators, empty ones included. */
  function SplitOn(s: string, sep: char): (parts: seq<string>)
    ensures |parts| >= 1
    ensures forall k | 0 <= k < |parts| :: sep !in parts[k]
    decreases |s|
  {
    if sep !in s then [s]
    else
      var i := IndexOf(s, sep);
      [s[..i]] + SplitOn(s[i + 1..], sep)
  }

  /** `string.Join(sep, parts)`. */
  function Join(parts: seq<string>, sep: string): string {
    if parts == [] then ""
    else if |parts| == 1 then parts[0]
    else parts[0] + sep + Join(parts[1..], sep)
  }

  /** Joining the pieces of a split with the separator gives the string back. */
  lemma {:induction false} JoinSplitOn(s: string, sep: char)
    ensures Join(SplitOn(s, sep), [sep]) == s
    decreases |s|
  {
    if sep in s {
      var i := IndexOf(s, sep);
      var head, rest := s[..i], SplitOn(s[i + 1..], sep);
      assert SplitOn(s, sep) == [head] + rest;
      JoinSplitOn(s[i + 1..], sep);
      assert Join([head] + rest, [sep]) == head + [sep] + Join(rest, [sep]) by {
        assert |rest| >= 1 && ([head] + rest)[1..] == rest;
      }
      assert s == head + [sep] + s[i + 1..];
    }
  }

  /** The entries `TrimEntries | RemoveEmptyEntries` keep: each piece trimmed, empty results dropped, order kept. */
  function TrimmedNonEmpty(parts: seq<string>): (r: seq<string>)
    ensures |r| <= |parts|
    ensures forall k | 0 <= k < |r| :: r[k] != [] && IsTrimmed(r[k])
  {
    if parts == [] then []
    else
      var rest := TrimmedNonEmpty(parts[1..]);
      TrimIsTrimmedInfix(parts[0]);
      if Trim(parts[0]) == [] then rest else [Trim(parts[0])] + rest
  }

  /** A non-empty trimmed string is not blank and is its own trim. */
  lemma SolidEntry(s: string)
    requires s != [] && IsTrimmed(s)
    ensures !IsBlank(s) && Trim(s) == s
  {
    TrimOfTrimmed(s);
  }

  /** `s.Split(sep, StringSplitOptions.RemoveEmptyEntries | StringSplitOptions.TrimEntries)`. */
  function SplitEntries(s: string, sep: char): seq<string> {
    TrimmedNonEmpty(SplitOn(s, sep))
  }

  /** No entry of a split holds the separator. */
  lemma {:induction false} TrimmedNonEmptyNoSeparator(parts: seq<string>, sep: char)
    requires forall k | 0 <= k < |parts| :: sep !in parts[k]
    ensures forall e | e in TrimmedNonEmpty(parts) :: sep !in e
  {
    if parts != [] {
      TrimmedNonEmptyNoSeparator(parts[1..], sep);
      TrimIsTrimmedInfix(parts[0]);
    }
  }

  /** Every entry of a split is the trim of one raw piece. */
  lemma {:induction false} TrimmedNonEmptySound(parts: seq<string>)
    ensures forall e | e in TrimmedNonEmpty(parts) :: exists k | 0 <= k < |parts| :: e == Trim(parts[k])
  {
    if parts != [] {
      var rest := TrimmedNonEmpty(parts[1..]);
      TrimmedNonEmptySound(parts[1..]);
      assert TrimmedNonEmpty(parts) == if Trim(parts[0]) == [] then rest else [Trim(parts[0])] + rest;
      forall e | e in TrimmedNonEmpty(parts)
        ensures exists k | 0 <= k < |parts| :: e == Trim(parts[k])
      {
        if e in rest {
          var k :| 0 <= k < |parts[1..]| && e == Trim(parts[1..][k]);
          assert parts[1..][k] == parts[k + 1];
        } else {
          assert e == Trim(parts[0]);
        }
      }
    }
  }

  /** The trim of every non-blank raw piece is an entry of the split. */
  lemma {:induction false} TrimmedNonEmptyComplete(parts: seq<string>)
    ensures forall k | 0 <= k < |parts| && !IsBlank(parts[k]) :: Trim(parts[k]) in TrimmedNonEmpty(parts)
  {
    if parts != [] {
      TrimmedNonEmptyComplete(parts[1..]);
      TrimEmptyIffBlank(parts[0]);
      forall k | 0 <= k < |parts| && !IsBlank(parts[k])
        ensures Trim(parts[k]) in TrimmedNonEmpty(parts)
      {
        if k > 0 {
          assert parts[k] == parts[1..][k - 1];
        }
      }
    }
  }

  /** What `TrimEntries | RemoveEmptyEntries` keeps of one raw piece: its trim, unless that is empty. */
  function TrimmedEntry(piece: string): Option<string> {
    if Trim(piece) == [] then None else Some(Trim(piece))
  }

  lemma {:induction false} TrimmedNonEmptyIsFilterMap(parts: seq<string>)
    ensures TrimmedNonEmpty(parts) == FilterMap(parts, TrimmedEntry)
  {
    if parts != [] {
      var x, xs := parts[0], parts[1..];
      TrimmedNonEmptyIsFilterMap(xs);
      assert parts == [x] + xs;
      FilterMapCons(x, xs, TrimmedEntry);
      if Trim(x) == [] {
        assert TrimmedEntry(x) == None;
        assert TrimmedNonEmpty(parts) == TrimmedNonEmpty(xs);
      } else {
        assert TrimmedEntry(x) == Some(Trim(x));
        assert TrimmedNonEmpty(parts) == [Trim(x)] + TrimmedNonEmpty(xs);
      }
    }
  }

  /**
   * The entries of a split are the trims of its non-blank raw pieces, one
   * entry per piece and in the pieces' order: `idx` lists, increasing,
   * exactly the positions of the non-blank pieces, and entry `k` is the
   * trim of piece `idx[k]`.
   */
  lemma TrimmedNonEmptyInOrder(parts: seq<string>)
    ensures var r, idx := TrimmedNonEmpty(parts), KeptPositions(parts, TrimmedEntry);
      && |r| == |idx|
      && (forall k | 0 <= k < |idx| :: 0 <= idx[k] < |parts| && r[k] == Trim(parts[idx[k]]))
      && (forall j, k | 0 <= j < k < |idx| :: idx[j] < idx[k])
      && (forall i | 0 <= i < |parts| :: i in idx <==> !IsBlank(parts[i]))
  {
    TrimmedNonEmptyIsFilterMap(parts);
    FilterMapInOrder(parts, TrimmedEntry);
    forall i | 0 <= i < |parts| ensures TrimmedEntry(parts[i]).Some? <==> !IsBlank(parts[i]) {
      TrimEmptyIffBlank(parts[i]);
    }
  }

  /** A line-ending character in the sense of `string.ReplaceLineEndings`: CR, LF, NEL, LS, FF, PS. */
  predicate IsLineEnding(c: char) {
    c == '\r' || c == '\n' || c == '\U{0085}' || c == '\U{2028}' || c == '\U{000C}' || c == '\U{2029}'
  }

  /** `s.ReplaceLineEndings("\n")`: every CRLF and every single line-ending character becomes LF. */
  function ReplaceLineEndings(s: string): (r: string)
    ensures forall i | 0 <= i < |r| :: IsLineEnding(r[i]) ==> r[i] == '\n'
    ensures |r| <= |s|
    ensures (forall i | 0 <= i < |s| :: !IsLineEnding(s[i])) ==> r == s
  {
    if s == [] then []
    else if |s| > 1 && s[0] == '\r' && s[1] == '\n' then "\n" + ReplaceLineEndings(s[2..])
    else if IsLineEnding(s[0]) then "\n" + ReplaceLineEndings(s[1..])
    else [s[0]] + ReplaceLineEndings(s[1..])
  }

  /** Text whose only line-ending character is LF is left as it is. */
  lemma {:induction false} ReplaceLineEndingsOfLf(s: string)
    requires forall i | 0 <= i < |s| :: IsLineEnding(s[i]) ==> s[i] == '\n'
    ensures ReplaceLineEndings(s) == s
  {
    if s != [] {
      ReplaceLineEndingsOfLf(s[1..]);
      assert s == [s[0]] + s[1..];
    }
  }

  /** The characters of `s` that are not line endings, in order. */
  function WithoutLineEndings(s: string): string {
    if s == [] then []
    else (if IsLineEnding(s[0]) then [] else [s[0]]) + WithoutLineEndings(s[1..])
  }

  /** How many line-ending characters `s` holds. */
  function LineEndingCount(s: string): nat {
    if s == [] then 0
    else (if IsLineEnding(s[0]) then 1 else 0) + LineEndingCount(s[1..])
  }

  /** How many CR LF pairs `s` holds. */
  function CrLfCount(s: string): nat {
    if |s| < 2 then 0
    else (if s[0] == '\r' && s[1] == '\n' then 1 else 0) + CrLfCount(s[1..])
  }

  /**
   * Replacing the line endings keeps every other character, in order, and
   * leaves one line ending per line break of `s`: a CR LF pair counts once,
   * every other line-ending character once.
   */
  lemma {:induction false} ReplaceLineEndingsKeepsText(s: string)
    ensures WithoutLineEndings(ReplaceLineEndings(s)) == WithoutLineEndings(s)
    ensures LineEndingCount(ReplaceLineEndings(s)) == LineEndingCount(s) - CrLfCount(s)
  {
    if s != [] {
      var r := ReplaceLineEndings(s);
      if |s| > 1 && s[0] == '\r' && s[1] == '\n' {
        ReplaceLineEndingsKeepsText(s[2..]);
        assert s[1..][1..] == s[2..];
        assert r == "\n" + ReplaceLineEndings(s[2..]) && r[1..] == ReplaceLineEndings(s[2..]);
        assert CrLfCount(s) == 1 + CrLfCount(s[2..]);
        assert LineEndingCount(s) == 2 + LineEndingCount(s[2..]);
        assert WithoutLineEndings(s) == WithoutLineEndings(s[2..]);
      } else if IsLineEnding(s[0]) {
        ReplaceLineEndingsKeepsText(s[1..]);
        assert r[1..] == ReplaceLineEndings(s[1..]);
        assert CrLfCount(s) == CrLfCount(s[1..]);
      } else {
        ReplaceLineEndingsKeepsText(s[1..]);
        assert r[0] == s[0] && r[1..] == ReplaceLineEndings(s[1..]);
        assert CrLfCount(s) == CrLfCount(s[1..]);
      }
    }
  }

  /**
   * Replacing the line endings of two texts one after the other is the same
   * as replacing those of the joined text, unless the join puts a CR right
   * before an LF.
   */
  lemma {:induction false} ReplaceLineEndingsAppend(a: string, b: string)
    requires !(a != [] && b != [] && a[|a| - 1] == '\r' && b[0] == '\n')
    ensures ReplaceLineEndings(a + b) == ReplaceLineEndings(a) + ReplaceLineEndings(b)
    decreases |a|
  {
    if a == [] {
      assert a + b == b;
    } else if |a| > 1 && a[0] == '\r' && a[1] == '\n' {
      var rest := a[2..];
      assert rest != [] ==> rest[|rest| - 1] == a[|a| - 1];
      ReplaceLineEndingsAppend(rest, b);
      UnfoldCrLfHead(a, b);
      AppendAssociates("\n", ReplaceLineEndings(rest), ReplaceLineEndings(b));
    } else {
      var rest := a[1..];
      assert rest != [] ==> rest[|rest| - 1] == a[|a| - 1];
      ReplaceLineEndingsAppend(rest, b);
      UnfoldSingleHead(a, b);
      AppendAssociates(if IsLineEnding(a[0]) then "\n" else [a[0]], ReplaceLineEndings(rest), ReplaceLineEndings(b));
    }
  }

  lemma AppendAssociates(x: string, y: string, z: string)
    ensures x + (y + z) == (x + y) + z
  {
  }

  lemma UnfoldCrLfHead(a: string, b: string)
    requires |a| > 1 && a[0] == '\r' && a[1] == '\n'
    ensures ReplaceLineEndings(a) == "\n" + ReplaceLineEndings(a[2..])
    ensures ReplaceLineEndings(a + b) == "\n" + ReplaceLineEndings(a[2..] + b)
  {
    var s := a + b;
    assert s[0] == '\r' && s[1] == '\n' && s[2..] == a[2..] + b;
  }

  lemma UnfoldSingleHead(a: string, b: string)
    requires a != [] && !(|a| > 1 && a[0] == '\r' && a[1] == '\n')
    requires !(b != [] && a[|a| - 1] == '\r' && b[0] == '\n')
    ensures var head := if IsLineEnding(a[0]) then "\n" else [a[0]];
      && ReplaceLineEndings(a) == head + ReplaceLineEndings(a[1..])
      && ReplaceLineEndings(a + b) == head + ReplaceLineEndings(a[1..] + b)
  {
    var s := a + b;
    assert s[0] == a[0] && s[1..] == a[1..] + b;
    if |a| > 1 {
      assert s[1] == a[1];
    }
  }

  /** A CR LF pair that the join of two texts puts together becomes one LF. */
  lemma ReplaceLineEndingsJoinsCrLf(a: string, b: string)
    requires a != [] && b != [] && a[|a| - 1] == '\r' && b[0] == '\n'
    ensures ReplaceLineEndings(a + b) == ReplaceLineEndings(a[..|a| - 1]) + "\n" + ReplaceLineEndings(b[1..])
  {
    var tail := "\r\n" + b[1..];
    assert a + b == a[..|a| - 1] + tail;
    ReplaceLineEndingsAppend(a[..|a| - 1], tail);
    assert tail[2..] == b[1..];
  }

  /** Trimming a trimmed text followed by one LF drops the LF. */
  lemma TrimDropsFinalLf(t: string)
    requires t != [] && IsTrimmed(t)
    ensures Trim(t + "\n") == t
  {
    var s := t + "\n";
    assert TrimStart(s) == s;
    assert s[..|s| - 1] == t;
    assert TrimEnd(s) == TrimEnd(t);
    TrimOfTrimmed(t);
  }

  /** Trimming the end never cuts into a prefix that ends in a non-white-space character. */
  lemma TrimEndKeepsPrefix(h: string, t: string)
    requires h != [] && !IsWhiteSpace(h[|h| - 1])
    ensures StartsWith(TrimEnd(h + t), h)
  {
    var s := h + t;
    var r := TrimEnd(s);
    assert s[|h| - 1] == h[|h| - 1];
    assert |r| >= |h|;
    assert r[..|h|] == s[..|h|];
    assert s[..|h|] == h;
  }

  /** `s.Replace(from, to)` for characters. */
  function ReplaceChar(s: string, from: char, to: char): (r: string)
    ensures |r| == |s|
    ensures forall i | 0 <= i < |s| :: r[i] == if s[i] == from then to else s[i]
  {
    seq(|s|, i requires 0 <= i < |s| => if s[i] == from then to else s[i])
  }

  /** `new string(' ', n)`. */
  function Spaces(n: nat): (r: string)
    ensures |r| == n && forall i | 0 <= i < n :: r[i] == ' '
  {
    seq(n, _ => ' ')
  }

  function DigitChar(d: nat): char
    requires d < 10
  {
    "0123456789"[d]
  }

  function NatToString(n: nat): (r: string)
    ensures |r| >= 1
    ensures forall i | 0 <= i < |r| :: IsDigit(r[i])
  {
    if n < 10 then [DigitChar(n)] else NatToString(n / 10) + [DigitChar(n % 10)]
  }

  /** `int.ToString()` in the invariant culture: an optional minus sign, then digits. */
  function IntToString(n: int): (r: string)
    ensures |r| >= 1 && IsDigit(r[|r| - 1])
  {
    if n < 0 then "-" + NatToString(-n) else NatToString(n)
  }
}
