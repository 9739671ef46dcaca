/**
 * `DocxGenerator.EscapeXml` of the load tool: the text of a generated
 * paragraph made safe for a `<w:t>` element by five ordinal replacements,
 * `&` first, then `<`, `>`, `"` and `'`.
 */
module XmlEscape {
  import opened Wrappers
  import opened Text

  /** `s.Replace(c, replacement, StringComparison.Ordinal)` for a one-character pattern: every `c`, left to right, becomes `replacement`. */
  function ReplaceAll(s: string, c: char, replacement: string): string
    decreases |s|
  {
    if s == [] then [] else (if s[0] == c then replacement else [s[0]]) + ReplaceAll(s[1..], c, replacement)
  }

  /** `EscapeXml`: the chain of replacements, in its order. */
  function EscapeXml(text: string): string {
    ReplaceAll(ReplaceAll(ReplaceAll(ReplaceAll(ReplaceAll(text, '&', "&amp;"), '<', "&lt;"), '>', "&gt;"), '"', "&quot;"), '\'', "&apos;")
  }

  /** The five characters XML reserves. */
  predicate IsSpecial(c: char) {
    c == '&' || c == '<' || c == '>' || c == '"' || c == '\''
  }

  /** What one character becomes: its entity when it is reserved, else itself. */
  function Entity(c: char): (r: string)
    ensures r != [] && (r[0] == '&' <==> IsSpecial(c))
    ensures !IsSpecial(c) ==> r == [c]
  {
    match c
    case '&' => "&amp;"
    case '<' => "&lt;"
    case '>' => "&gt;"
    case '"' => "&quot;"
    case '\'' => "&apos;"
    case _ => [c]
  }

  /** Every character of `s` in turn, as `Entity` writes it. */
  function EscapeEach(s: string): string
    decreases |s|
  {
    if s == [] then [] else Entity(s[0]) + EscapeEach(s[1..])
  }

  /** Replacing in a concatenation replaces in each part. */
  lemma {:induction false} ReplaceAllAppend(x: string, y: string, c: char, replacement: string)
    ensures ReplaceAll(x + y, c, replacement) == ReplaceAll(x, c, replacement) + ReplaceAll(y, c, replacement)
    decreases |x|
  {
    if x != [] {
      assert (x + y)[1..] == x[1..] + y;
      ReplaceAllAppend(x[1..], y, c, replacement);
    } else {
      assert x + y == y;
    }
  }

  /** Text without the character is left as it is. */
  lemma {:induction false} ReplaceAllAbsent(s: string, c: char, replacement: string)
    requires c !in s
    ensures ReplaceAll(s, c, replacement) == s
    decreases |s|
  {
    if s != [] {
      assert c !in s[1..];
      ReplaceAllAbsent(s[1..], c, replacement);
    }
  }

  /** One character is replaced when it is the one looked for, and kept otherwise. */
  lemma ReplaceAllSingle(c: char, d: char, replacement: string)
    ensures ReplaceAll([c], d, replacement) == if c == d then replacement else [c]
  {
    assert [c][1..] == [];
  }

  /** An `&` followed by characters XML does not reserve. */
  predicate EntityShaped(x: string) {
    x != [] && x[0] == '&' && forall i | 1 <= i < |x| :: !IsSpecial(x[i])
  }

  lemma Shaped4(a: char, b: char, c: char, d: char)
    requires a == '&' && !IsSpecial(b) && !IsSpecial(c) && !IsSpecial(d)
    ensures EntityShaped([a, b, c, d])
  {
  }

  lemma Shaped5(a: char, b: char, c: char, d: char, e: char)
    requires a == '&' && !IsSpecial(b) && !IsSpecial(c) && !IsSpecial(d) && !IsSpecial(e)
    ensures EntityShaped([a, b, c, d, e])
  {
  }

  lemma Shaped6(a: char, b: char, c: char, d: char, e: char, f: char)
    requires a == '&' && !IsSpecial(b) && !IsSpecial(c) && !IsSpecial(d) && !IsSpecial(e) && !IsSpecial(f)
    ensures EntityShaped([a, b, c, d, e, f])
  {
  }

  /** Each of the five entities is an `&` followed by letters and `;`. */
  lemma EntityIsShaped(c: char)
    requires IsSpecial(c)
    ensures EntityShaped(Entity(c))
  {
    if c == '&' {
      Shaped5('&', 'a', 'm', 'p', ';');
    } else if c == '<' {
      Shaped4('&', 'l', 't', ';');
    } else if c == '>' {
      Shaped4('&', 'g', 't', ';');
    } else if c == '"' {
      Shaped6('&', 'q', 'u', 'o', 't', ';');
    } else {
      Shaped6('&', 'a', 'p', 'o', 's', ';');
    }
  }

  /** The replacements after the first find nothing to replace in an entity. */
  lemma ReplaceAllInEntity(c: char, d: char, replacement: string)
    requires IsSpecial(c) && IsSpecial(d) && d != '&'
    ensures ReplaceAll(Entity(c), d, replacement) == Entity(c)
  {
    EntityIsShaped(c);
    ReplaceAllAbsent(Entity(c), d, replacement);
  }

  /** The chain on `&`: the later replacements find no `<`, `>`, `"` or `'` in `&amp;`. */
  lemma EscapeXmlAmp()
    ensures EscapeXml("&") == "&amp;"
  {
    ReplaceAllSingle('&', '&', "&amp;");
    ReplaceAllInEntity('&', '<', "&lt;");
    ReplaceAllInEntity('&', '>', "&gt;");
    ReplaceAllInEntity('&', '"', "&quot;");
    ReplaceAllInEntity('&', '\'', "&apos;");
  }

  /** The chain on `<`. */
  lemma EscapeXmlLt()
    ensures EscapeXml("<") == "&lt;"
  {
    ReplaceAllSingle('<', '&', "&amp;");
    ReplaceAllSingle('<', '<', "&lt;");
    ReplaceAllInEntity('<', '>', "&gt;");
    ReplaceAllInEntity('<', '"', "&quot;");
    ReplaceAllInEntity('<', '\'', "&apos;");
  }

  /** The chain on `>`. */
  lemma EscapeXmlGt()
    ensures EscapeXml(">") == "&gt;"
  {
    ReplaceAllSingle('>', '&', "&amp;");
    ReplaceAllSingle('>', '<', "&lt;");
    ReplaceAllSingle('>', '>', "&gt;");
    ReplaceAllInEntity('>', '"', "&quot;");
    ReplaceAllInEntity('>', '\'', "&apos;");
  }

  /** The chain on `"`. */
  lemma EscapeXmlQuot()
    ensures EscapeXml("\"") == "&quot;"
  {
    ReplaceAllSingle('"', '&', "&amp;");
    ReplaceAllSingle('"', '<', "&lt;");
    ReplaceAllSingle('"', '>', "&gt;");
    ReplaceAllSingle('"', '"', "&quot;");
    ReplaceAllInEntity('"', '\'', "&apos;");
  }

  /** The chain on `'`. */
  lemma EscapeXmlApos()
    ensures EscapeXml("'") == "&apos;"
  {
    ReplaceAllSingle('\'', '&', "&amp;");
    ReplaceAllSingle('\'', '<', "&lt;");
    ReplaceAllSingle('\'', '>', "&gt;");
    ReplaceAllSingle('\'', '"', "&quot;");
    ReplaceAllSingle('\'', '\'', "&apos;");
  }

  /** On one character the chain writes its entity: no replacement touches what an earlier one wrote. */
  lemma EscapeXmlChar(c: char)
    ensures EscapeXml([c]) == Entity(c)
  {
    if c == '&' {
      EscapeXmlAmp();
    } else if c == '<' {
      EscapeXmlLt();
    } else if c == '>' {
      EscapeXmlGt();
    } else if c == '"' {
      EscapeXmlQuot();
    } else if c == '\'' {
      EscapeXmlApos();
    } else {
      ReplaceAllSingle(c, '&', "&amp;");
      ReplaceAllSingle(c, '<', "&lt;");
      ReplaceAllSingle(c, '>', "&gt;");
      ReplaceAllSingle(c, '"', "&quot;");
      ReplaceAllSingle(c, '\'', "&apos;");
    }
  }

  /** The chain distributes over concatenation, as each of its replacements does. */
  lemma EscapeXmlAppend(x: string, y: string)
    ensures EscapeXml(x + y) == EscapeXml(x) + EscapeXml(y)
  {
    ReplaceAllAppend(x, y, '&', "&amp;");
    var x1, y1 := ReplaceAll(x, '&', "&amp;"), ReplaceAll(y, '&', "&amp;");
    ReplaceAllAppend(x1, y1, '<', "&lt;");
    var x2, y2 := ReplaceAll(x1, '<', "&lt;"), ReplaceAll(y1, '<', "&lt;");
    ReplaceAllAppend(x2, y2, '>', "&gt;");
    var x3, y3 := ReplaceAll(x2, '>', "&gt;"), ReplaceAll(y2, '>', "&gt;");
    ReplaceAllAppend(x3, y3, '"', "&quot;");
    var x4, y4 := ReplaceAll(x3, '"', "&quot;"), ReplaceAll(y3, '"', "&quot;");
    ReplaceAllAppend(x4, y4, '\'', "&apos;");
  }

  /**
   * Because `&` is replaced first, the chain escapes each character on its
   * own: no replacement touches the entities an earlier one wrote.
   */
  lemma {:induction false} EscapeXmlIsEscapeEach(s: string)
    ensures EscapeXml(s) == EscapeEach(s)
    decreases |s|
  {
    if s != [] {
      assert s == [s[0]] + s[1..];
      EscapeXmlAppend([s[0]], s[1..]);
      EscapeXmlChar(s[0]);
      EscapeXmlIsEscapeEach(s[1..]);
    }
  }

  /** The reserved character an entity starting at position `i` of `e` stands for, if one does. */
  function EntityAt(e: string, i: nat): (r: Option<char>)
    requires i <= |e|
    ensures r.Some? ==> IsSpecial(r.value) && StartsWith(e[i..], Entity(r.value))
  {
    var t := e[i..];
    if StartsWith(t, "&amp;") then Some('&')
    else if StartsWith(t, "&lt;") then Some('<')
    else if StartsWith(t, "&gt;") then Some('>')
    else if StartsWith(t, "&quot;") then Some('"')
    else if StartsWith(t, "&apos;") then Some('\'')
    else None
  }

  /** Text that differs from a prefix at some position does not start with it. */
  lemma DiffersAt(t: string, prefix: string, j: nat)
    requires j < |prefix| && j < |t| && t[j] != prefix[j]
    ensures !StartsWith(t, prefix)
  {
    if |prefix| <= |t| {
      assert t[..|prefix|][j] == t[j];
    }
  }

  /** An entity read at the front of a text is the character it stands for, whatever follows. */
  lemma EntityAtEntity(c: char, rest: string)
    requires IsSpecial(c)
    ensures EntityAt(Entity(c) + rest, 0) == Some(c)
  {
    var e := Entity(c) + rest;
    assert e[0..] == e;
    assert e[..|Entity(c)|] == Entity(c);
    assert e[1] == Entity(c)[1];
    if c == '<' {
      DiffersAt(e, "&amp;", 1);
    } else if c == '>' {
      DiffersAt(e, "&amp;", 1);
      DiffersAt(e, "&lt;", 1);
    } else if c == '"' {
      DiffersAt(e, "&amp;", 1);
      DiffersAt(e, "&lt;", 1);
      DiffersAt(e, "&gt;", 1);
    } else if c == '\'' {
      assert e[2] == 'p';
      DiffersAt(e, "&amp;", 2);
      DiffersAt(e, "&lt;", 1);
      DiffersAt(e, "&gt;", 1);
      DiffersAt(e, "&quot;", 1);
    }
  }

  /** No raw `<`, `>`, `"` or `'`, and every `&` starts one of the five entities. */
  predicate WellEscaped(e: string) {
    && (forall i | 0 <= i < |e| :: e[i] != '<' && e[i] != '>' && e[i] != '"' && e[i] != '\'')
    && (forall i | 0 <= i < |e| && e[i] == '&' :: EntityAt(e, i).Some?)
  }

  /** What starts at a position of the second part of a concatenation does not depend on the first part. */
  lemma EntityAtShift(x: string, rest: string, j: nat)
    requires j <= |rest|
    ensures EntityAt(x + rest, |x| + j) == EntityAt(rest, j)
  {
    assert (x + rest)[|x| + j..] == rest[j..];
  }

  /** The first character an entity-or-character writes is `&` only for a reserved one, and no later one is reserved. */
  lemma EntityChars(c: char, i: nat)
    requires i < |Entity(c)|
    ensures !IsSpecial(Entity(c)[i]) || (i == 0 && Entity(c)[i] == '&' && IsSpecial(c))
  {
    if IsSpecial(c) {
      EntityIsShaped(c);
    }
  }

  /** No position of an entity in front of well-escaped text holds a raw reserved character other than `&`. */
  lemma EntityThenNoRaw(c: char, rest: string, i: nat)
    requires WellEscaped(rest) && i < |Entity(c) + rest|
    ensures var e := Entity(c) + rest; e[i] != '<' && e[i] != '>' && e[i] != '"' && e[i] != '\''
  {
    var x := Entity(c);
    if i < |x| {
      EntityChars(c, i);
    } else {
      assert (x + rest)[i] == rest[i - |x|];
    }
  }

  /** Every `&` of an entity in front of well-escaped text starts an entity. */
  lemma EntityThenAmp(c: char, rest: string, i: nat)
    requires WellEscaped(rest) && i < |Entity(c) + rest| && (Entity(c) + rest)[i] == '&'
    ensures EntityAt(Entity(c) + rest, i).Some?
  {
    var x := Entity(c);
    if i < |x| {
      EntityChars(c, i);
      EntityAtEntity(c, rest);
    } else {
      assert (x + rest)[i] == rest[i - |x|];
      EntityAtShift(x, rest, i - |x|);
    }
  }

  /** An entity in front of well-escaped text keeps it well-escaped. */
  lemma EntityThenWellEscaped(c: char, rest: string)
    requires WellEscaped(rest)
    ensures WellEscaped(Entity(c) + rest)
  {
    var e := Entity(c) + rest;
    forall i | 0 <= i < |e|
      ensures e[i] != '<' && e[i] != '>' && e[i] != '"' && e[i] != '\''
    {
      EntityThenNoRaw(c, rest, i);
    }
    forall i | 0 <= i < |e| && e[i] == '&'
      ensures EntityAt(e, i).Some?
    {
      EntityThenAmp(c, rest, i);
    }
  }

  /**
   * `EscapeXml` leaves no raw `<`, `>`, `"` or `'` in its output, and every
   * `&` there begins one of the five entities.
   */
  lemma {:induction false} EscapeXmlWellEscaped(s: string)
    ensures WellEscaped(EscapeXml(s))
    decreases |s|
  {
    if s != [] {
      EscapeXmlIsEscapeEach(s);
      EscapeXmlIsEscapeEach(s[1..]);
      EscapeXmlWellEscaped(s[1..]);
      EntityThenWellEscaped(s[0], EscapeEach(s[1..]));
    }
  }

  /** Reading the five entities back as their characters; any other character is kept. */
  function Unescape(e: string): string
    decreases |e|
  {
    if e == [] then []
    else if EntityAt(e, 0).Some? then
      var c := EntityAt(e, 0).value;
      [c] + Unescape(e[|Entity(c)|..])
    else [e[0]] + Unescape(e[1..])
  }

  /** The entity of a character, read back, gives the character before whatever follows. */
  lemma UnescapeEntity(c: char, rest: string)
    ensures Unescape(Entity(c) + rest) == [c] + Unescape(rest)
  {
    var e := Entity(c) + rest;
    if IsSpecial(c) {
      EntityAtEntity(c, rest);
      assert e[|Entity(c)|..] == rest;
    } else {
      assert e[0] == c;
      assert e[1..] == rest;
    }
  }

  /** Unescaping the five entities gives back the text `EscapeXml` was given. */
  lemma {:induction false} UnescapeEscapeXml(s: string)
    ensures Unescape(EscapeXml(s)) == s
    decreases |s|
  {
    EscapeXmlIsEscapeEach(s);
    if s != [] {
      EscapeXmlIsEscapeEach(s[1..]);
      UnescapeEntity(s[0], EscapeEach(s[1..]));
      UnescapeEscapeXml(s[1..]);
    }
  }
}
