/**
 * `DocumentSearchService`: the inverted index over normalized tokens, its
 * rebuild, and query answering (candidate intersection, ranking,
 * truncation and paragraph context). The rebuild runs over the files
 * sequentially; each file comes with the outcome of reading and extracting
 * it, and the listing itself may fail with a message.
 */
module DocumentSearch {
  import opened Wrappers
  import opened Chars
  import opened Text
  import opened Ordering
  import opened SearchTextNormalizer
  import opened Sequences

  // ---------------------------------------------------------------- records

  datatype ParagraphEntry = ParagraphEntry(text: string, normalizedText: string)

  datatype DocumentEntry = DocumentEntry(relativePath: string, normalizedText: string, paragraphs: seq<ParagraphEntry>)

  /** Documents in path order and, per token, the positions of the documents that hold it. */
  datatype DocumentIndex = DocumentIndex(documents: seq<DocumentEntry>, tokenToDocuments: map<string, set<nat>>)

  const EmptyIndex := DocumentIndex([], map[])

  /** A point in time (`DateTimeOffset`), supplied by the caller. */
  type Timestamp = int

  datatype DocumentIndexStatus = DocumentIndexStatus(
    rootPath: string,
    isReady: bool,
    documentCount: int,
    failedDocuments: int,
    lastIndexedAtUtc: Option<Timestamp>,
    lastError: Option<string>)

  datatype DocumentSearchStatus = Ok | QueryTooShort | IndexEmpty | Error

  datatype DocumentSearchHit = DocumentSearchHit(relativePath: string, phraseMatch: bool, contexts: seq<string>)

  datatype DocumentSearchResult = DocumentSearchResult(
    query: string,
    status: DocumentSearchStatus,
    hits: seq<DocumentSearchHit>,
    totalFound: int,
    isTruncated: bool,
    rootPath: string,
    indexedDocumentCount: int,
    errorMessage: Option<string>)

  datatype OrderedMatch = OrderedMatch(documentId: nat, relativePath: string, phraseMatch: bool)

  /** A listed file and what reading and extracting it gave: its text, or `None` when that threw. */
  datatype ExtractedFile = ExtractedFile(relativePath: string, text: Option<string>)

  // ------------------------------------------------------------- SplitTokens

  /** The loop of `SplitTokens` over its words: long enough words, each kept once, in first-seen order. */
  function DistinctLongWords(words: seq<string>, minTokenLength: int): seq<string> {
    if words == [] then []
    else
      var kept := DistinctLongWords(words[..|words| - 1], minTokenLength);
      var w := words[|words| - 1];
      if |w| < minTokenLength || w in kept then kept else kept + [w]
  }

  /** The tokens of a normalized text: its space-separated words of at least `minTokenLength` characters, without repeats. */
  function Tokens(normalizedText: string, minTokenLength: int): seq<string> {
    if IsBlank(normalizedText) then []
    else DistinctLongWords(SplitEntries(normalizedText, ' '), minTokenLength)
  }

  method SplitTokens(normalizedText: string, minTokenLength: int) returns (tokens: seq<string>)
    ensures tokens == Tokens(normalizedText, minTokenLength)
  {
    if IsBlank(normalizedText) {
      return [];
    }
    var words := SplitEntries(normalizedText, ' ');
    tokens := KeepDistinctLong(words, minTokenLength);
  }

  /** The word loop of `SplitTokens`, with its `HashSet` of the words kept so far. */
  method KeepDistinctLong(words: seq<string>, minTokenLength: int) returns (tokens: seq<string>)
    ensures tokens == DistinctLongWords(words, minTokenLength)
  {
    var unique: set<string> := {};
    tokens := [];
    for i := 0 to |words|
      invariant tokens == DistinctLongWords(words[..i], minTokenLength)
      invariant unique == set t | t in tokens
    {
      assert words[..i + 1][..i] == words[..i];
      var token := words[i];
      if |token| < minTokenLength {
        continue;
      }
      if token !in unique {
        unique := unique + {token};
        tokens := tokens + [token];
      }
    }
    assert words[..|words|] == words;
  }

  lemma {:induction false} DistinctLongWordsFacts(words: seq<string>, minTokenLength: int)
    ensures var r := DistinctLongWords(words, minTokenLength);
      && (forall i, j | 0 <= i < j < |r| :: r[i] != r[j])
      && (forall t | t in r :: |t| >= minTokenLength && t in words)
      && (forall w | w in words && |w| >= minTokenLength :: w in r)
  {
    if words != [] {
      var init := words[..|words| - 1];
      DistinctLongWordsFacts(init, minTokenLength);
      assert words == init + [words[|words| - 1]];
    }
  }

  /**
   * `SplitTokens` returns distinct tokens, each at least `minTokenLength`
   * long and one of the space-separated words of the text, and every such
   * word is among them; blank text has none.
   */
  lemma TokensFacts(normalizedText: string, minTokenLength: int)
    ensures var r := Tokens(normalizedText, minTokenLength);
      && (IsBlank(normalizedText) ==> r == [])
      && (forall i, j | 0 <= i < j < |r| :: r[i] != r[j])
      && (forall t | t in r :: |t| >= minTokenLength && t in SplitEntries(normalizedText, ' '))
      && (!IsBlank(normalizedText) ==>
            forall w | w in SplitEntries(normalizedText, ' ') && |w| >= minTokenLength :: w in r)
  {
    if !IsBlank(normalizedText) {
      DistinctLongWordsFacts(SplitEntries(normalizedText, ' '), minTokenLength);
    }
  }

  // --------------------------------------------------------- SplitParagraphs

  /** The paragraphs of extracted text: its trimmed non-blank lines, each with its normalized form, in order. */
  function Paragraphs(extractedText: string): seq<ParagraphEntry> {
    if IsBlank(extractedText) then []
    else ParagraphsOf(Lines(extractedText))
  }

  /** The trimmed non-empty lines of a text, after every line ending became LF. */
  function Lines(text: string): seq<string> {
    SplitEntries(ReplaceLineEndings(text), '\n')
  }

  function ParagraphsOf(lines: seq<string>): (r: seq<ParagraphEntry>)
    ensures |r| == |lines|
  {
    seq(|lines|, i requires 0 <= i < |lines| => ParagraphEntry(lines[i], Normalized(lines[i])))
  }

  method SplitParagraphs(extractedText: string) returns (paragraphs: seq<ParagraphEntry>)
    ensures paragraphs == Paragraphs(extractedText)
  {
    if IsBlank(extractedText) {
      return [];
    }
    var lines := Lines(extractedText);
    paragraphs := ParagraphsLoop(lines);
  }

  /**
   * The line loop of `SplitParagraphs`. The lines are trimmed and non-empty
   * already, so its per-line trim changes nothing and its blank test never
   * skips one (`LinesAreSolid`).
   */
  method ParagraphsLoop(lines: seq<string>) returns (paragraphs: seq<ParagraphEntry>)
    ensures paragraphs == ParagraphsOf(lines)
  {
    paragraphs := [];
    for i := 0 to |lines|
      invariant |paragraphs| == i
      invariant forall k | 0 <= k < i :: paragraphs[k] == ParagraphEntry(lines[k], Normalized(lines[k]))
    {
      var paragraph := lines[i];
      var normalized := Normalize(paragraph);
      paragraphs := paragraphs + [ParagraphEntry(paragraph, normalized)];
    }
  }

  /** The lines are trimmed and non-blank, so the per-line trim and blank test of `SplitParagraphs` are no-ops. */
  lemma LinesAreSolid(text: string)
    ensures forall k | 0 <= k < |Lines(text)| :: Trim(Lines(text)[k]) == Lines(text)[k] && !IsBlank(Lines(text)[k])
  {
    forall k | 0 <= k < |Lines(text)|
      ensures Trim(Lines(text)[k]) == Lines(text)[k] && !IsBlank(Lines(text)[k])
    {
      SolidEntry(Lines(text)[k]);
    }
  }

  /** Every paragraph is a trimmed, non-blank single line carrying its own normalized form. */
  lemma ParagraphsAreLines(extractedText: string)
    ensures forall p | p in Paragraphs(extractedText) ::
      && IsTrimmed(p.text) && !IsBlank(p.text) && '\n' !in p.text
      && p.normalizedText == Normalized(p.text)
  {
    if !IsBlank(extractedText) {
      var raw := SplitOn(ReplaceLineEndings(extractedText), '\n');
      var lines := TrimmedNonEmpty(raw);
      TrimmedNonEmptyNoSeparator(raw, '\n');
      forall p | p in Paragraphs(extractedText)
        ensures IsTrimmed(p.text) && !IsBlank(p.text) && '\n' !in p.text
      {
        var i :| 0 <= i < |lines| && p.text == lines[i];
        SolidEntry(lines[i]);
      }
    }
  }

  /** `t` is the trim of one of `lines`. */
  predicate TrimOfOne(t: string, lines: seq<string>) {
    exists k | 0 <= k < |lines| :: t == Trim(lines[k])
  }

  /** Every paragraph is the trim of one line of the text. */
  lemma ParagraphsComeFromLines(extractedText: string)
    ensures forall p | p in Paragraphs(extractedText) :: TrimOfOne(p.text, SplitOn(ReplaceLineEndings(extractedText), '\n'))
  {
    if !IsBlank(extractedText) {
      var raw := SplitOn(ReplaceLineEndings(extractedText), '\n');
      var lines := Lines(extractedText);
      TrimmedNonEmptySound(raw);
      var ps := Paragraphs(extractedText);
      forall p | p in ps ensures TrimOfOne(p.text, raw) {
        var i :| 0 <= i < |ps| && ps[i] == p;
        assert ps[i].text == lines[i];
        assert lines[i] in TrimmedNonEmpty(raw);
      }
    }
  }

  /** The trim of every non-blank line of the text is a paragraph. */
  lemma LinesBecomeParagraphs(extractedText: string)
    ensures var lines := SplitOn(ReplaceLineEndings(extractedText), '\n');
      forall k | 0 <= k < |lines| && !IsBlank(lines[k]) ::
        exists p | p in Paragraphs(extractedText) :: p.text == Trim(lines[k])
  {
    var raw := SplitOn(ReplaceLineEndings(extractedText), '\n');
    if IsBlank(extractedText) {
      BlankTextHasBlankLines(extractedText);
    } else {
      var lines := Lines(extractedText);
      var ps := Paragraphs(extractedText);
      TrimmedNonEmptyComplete(raw);
      forall k | 0 <= k < |raw| && !IsBlank(raw[k])
        ensures exists p | p in ps :: p.text == Trim(raw[k])
      {
        var i :| 0 <= i < |lines| && lines[i] == Trim(raw[k]);
        assert ps[i].text == Trim(raw[k]);
      }
    }
  }

  /**
   * The paragraphs are the trimmed non-blank lines of the text, one per such
   * line and in the lines' order: `idx` lists, increasing, exactly the
   * positions of the non-blank lines, and paragraph `k` is the trim of line
   * `idx[k]`, with its normalized form.
   */
  lemma ParagraphsFollowLines(extractedText: string)
    ensures var lines := SplitOn(ReplaceLineEndings(extractedText), '\n');
      var ps, idx := Paragraphs(extractedText), KeptPositions(lines, TrimmedEntry);
      && |ps| == |idx|
      && (forall k | 0 <= k < |idx| :: 0 <= idx[k] < |lines| && ps[k].text == Trim(lines[idx[k]])
                                         && ps[k].normalizedText == Normalized(ps[k].text))
      && (forall j, k | 0 <= j < k < |idx| :: idx[j] < idx[k])
      && (forall i | 0 <= i < |lines| :: i in idx <==> !IsBlank(lines[i]))
  {
    var lines := SplitOn(ReplaceLineEndings(extractedText), '\n');
    var ps, idx := Paragraphs(extractedText), KeptPositions(lines, TrimmedEntry);
    TrimmedNonEmptyInOrder(lines);
    if IsBlank(extractedText) {
      BlankTextHasBlankLines(extractedText);
      forall i | 0 <= i < |lines| ensures TrimmedEntry(lines[i]).None? {
        TrimEmptyIffBlank(lines[i]);
      }
      NothingKeptNoPositions(lines, TrimmedEntry);
    } else {
      var entries := Lines(extractedText);
      assert entries == TrimmedNonEmpty(lines);
      assert ps == ParagraphsOf(entries);
      forall k | 0 <= k < |idx|
        ensures ps[k].text == Trim(lines[idx[k]]) && ps[k].normalizedText == Normalized(ps[k].text)
      {
        assert ps[k] == ParagraphEntry(entries[k], Normalized(entries[k]));
      }
    }
  }

  lemma BlankTextHasBlankLines(s: string)
    requires IsBlank(s)
    ensures forall k | 0 <= k < |SplitOn(ReplaceLineEndings(s), '\n')| :: IsBlank(SplitOn(ReplaceLineEndings(s), '\n')[k])
  {
    ReplaceLineEndingsKeepsBlank(s);
    SplitOnBlank(ReplaceLineEndings(s), '\n');
  }

  lemma {:induction false} ReplaceLineEndingsKeepsBlank(s: string)
    requires IsBlank(s)
    ensures IsBlank(ReplaceLineEndings(s))
  {
    if s != [] {
      if |s| > 1 && s[0] == '\r' && s[1] == '\n' {
        ReplaceLineEndingsKeepsBlank(s[2..]);
      } else {
        ReplaceLineEndingsKeepsBlank(s[1..]);
      }
    }
  }

  lemma {:induction false} SplitOnBlank(s: string, sep: char)
    requires IsBlank(s)
    ensures forall part | part in SplitOn(s, sep) :: IsBlank(part)
    decreases |s|
  {
    if sep in s {
      var i := IndexOf(s, sep);
      SplitOnBlank(s[i + 1..], sep);
      assert IsBlank(s[..i]);
    }
  }

  // ------------------------------------------------------- ResolveCandidates

  /** The documents a token's posting set names, or none when the token is not indexed. */
  function Posting(tokenToDocuments: map<string, set<nat>>, token: string): set<nat> {
    if token in tokenToDocuments then tokenToDocuments[token] else {}
  }

  /** The documents that hold every query token. */
  function CandidatesOf(tokenToDocuments: map<string, set<nat>>, queryTokens: seq<string>): set<nat>
    requires |queryTokens| > 0
  {
    set d | d in Posting(tokenToDocuments, queryTokens[0])
      && forall k | 0 <= k < |queryTokens| :: d in Posting(tokenToDocuments, queryTokens[k])
  }

  function SizeKey(docIds: set<nat>): seq<int> {
    [|docIds|]
  }

  /**
   * Intersects the posting sets of the query tokens, smallest first,
   * stopping once the intersection is empty; any token without a posting
   * set gives no candidates at all.
   */
  method ResolveCandidates(tokenToDocuments: map<string, set<nat>>, queryTokens: seq<string>) returns (candidates: set<nat>)
    requires |queryTokens| > 0
    ensures candidates == CandidatesOf(tokenToDocuments, queryTokens)
    ensures forall d :: d in candidates <==>
      forall k | 0 <= k < |queryTokens| :: queryTokens[k] in tokenToDocuments && d in tokenToDocuments[queryTokens[k]]
    ensures (exists k | 0 <= k < |queryTokens| :: queryTokens[k] !in tokenToDocuments) ==> candidates == {}
  {
    var sets: seq<set<nat>> := [];
    for i := 0 to |queryTokens|
      invariant |sets| == i
      invariant forall k | 0 <= k < i :: queryTokens[k] in tokenToDocuments && sets[k] == tokenToDocuments[queryTokens[k]]
    {
      if queryTokens[i] !in tokenToDocuments {
        MissingTokenNoCandidates(tokenToDocuments, queryTokens, i);
        return {};
      }
      sets := sets + [tokenToDocuments[queryTokens[i]]];
    }
    var ordered := SortBy(sets, SizeKey);
    candidates := IntersectAll(ordered);
    SameMembers(sets, ordered);
    CandidatesOfSets(tokenToDocuments, queryTokens, sets);
  }

  /** A query token without a posting set leaves no candidates. */
  lemma MissingTokenNoCandidates(tokenToDocuments: map<string, set<nat>>, queryTokens: seq<string>, i: nat)
    requires i < |queryTokens| && queryTokens[i] !in tokenToDocuments
    ensures CandidatesOf(tokenToDocuments, queryTokens) == {}
  {
    assert Posting(tokenToDocuments, queryTokens[i]) == {};
  }

  /** When every token has a posting set, the candidates are what lies in all of them. */
  lemma CandidatesOfSets(tokenToDocuments: map<string, set<nat>>, queryTokens: seq<string>, sets: seq<set<nat>>)
    requires |queryTokens| > 0 && |sets| == |queryTokens|
    requires forall k | 0 <= k < |queryTokens| :: queryTokens[k] in tokenToDocuments && sets[k] == tokenToDocuments[queryTokens[k]]
    ensures forall d :: InAll(d, sets) <==> d in CandidatesOf(tokenToDocuments, queryTokens)
    ensures forall d :: InAll(d, sets) <==>
      forall k | 0 <= k < |queryTokens| :: queryTokens[k] in tokenToDocuments && d in tokenToDocuments[queryTokens[k]]
  {
    forall d ensures InAll(d, sets) <==> d in CandidatesOf(tokenToDocuments, queryTokens) {
      if InAll(d, sets) {
        assert d in sets[0];
        assert forall k | 0 <= k < |queryTokens| :: d in Posting(tokenToDocuments, queryTokens[k]) by {
          forall k | 0 <= k < |queryTokens| ensures d in Posting(tokenToDocuments, queryTokens[k]) {
            assert d in sets[k];
          }
        }
      }
      if d in CandidatesOf(tokenToDocuments, queryTokens) {
        forall k | 0 <= k < |sets| ensures d in sets[k] {
          assert d in Posting(tokenToDocuments, queryTokens[k]);
        }
      }
    }
  }

  /** The intersection of non-empty run of sets, taken in order and stopped once it is empty. */
  method IntersectAll(ordered: seq<set<nat>>) returns (candidates: set<nat>)
    requires |ordered| > 0
    ensures forall d :: d in candidates <==> InAll(d, ordered)
  {
    candidates := ordered[0];
    var i := 1;
    while i < |ordered|
      invariant 1 <= i <= |ordered|
      invariant forall d :: d in candidates <==> forall k | 0 <= k < i :: d in ordered[k]
    {
      candidates := candidates * ordered[i];
      if candidates == {} {
        break;
      }
      i := i + 1;
    }
  }

  /** `d` lies in every one of the sets. */
  predicate InAll(d: nat, sets: seq<set<nat>>) {
    forall k | 0 <= k < |sets| :: d in sets[k]
  }

  /** Reordering the posting sets does not change what lies in all of them. */
  lemma SameMembers(a: seq<set<nat>>, b: seq<set<nat>>)
    requires multiset(a) == multiset(b)
    ensures forall d :: InAll(d, a) <==> InAll(d, b)
  {
    forall d ensures InAll(d, a) <==> InAll(d, b) {
      if InAll(d, a) {
        forall k | 0 <= k < |b| ensures d in b[k] {
          assert b[k] in multiset(a);
          var j :| 0 <= j < |a| && a[j] == b[k];
        }
      }
      if InAll(d, b) {
        forall k | 0 <= k < |a| ensures d in a[k] {
          assert a[k] in multiset(b);
          var j :| 0 <= j < |b| && b[j] == a[k];
        }
      }
    }
  }

  // --------------------------------------------------- FindParagraphContexts

  /** The inner loop of `FindParagraphContexts`: how many query tokens occur in a normalized paragraph. */
  function MatchedTokens(normalizedText: string, queryTokens: seq<string>): nat {
    if queryTokens == [] then 0
    else
      MatchedTokens(normalizedText, queryTokens[..|queryTokens| - 1])
        + (if Contains(normalizedText, queryTokens[|queryTokens| - 1]) then 1 else 0)
  }

  lemma {:induction false} MatchedTokensBound(normalizedText: string, queryTokens: seq<string>)
    ensures MatchedTokens(normalizedText, queryTokens) <= |queryTokens|
    ensures MatchedTokens(normalizedText, queryTokens) == |queryTokens| <==>
      forall k | 0 <= k < |queryTokens| :: Contains(normalizedText, queryTokens[k])
  {
    if queryTokens != [] {
      var init := queryTokens[..|queryTokens| - 1];
      MatchedTokensBound(normalizedText, init);
      assert forall k | 0 <= k < |init| :: init[k] == queryTokens[k];
    }
  }

  /** A paragraph whose normalized text is blank is skipped. */
  predicate IsConsidered(p: ParagraphEntry) {
    !IsBlank(p.normalizedText)
  }

  /** A strong match holds the whole normalized query, or every query token. */
  predicate IsStrong(p: ParagraphEntry, normalizedQuery: string, queryTokens: seq<string>) {
    Contains(p.normalizedText, normalizedQuery) || MatchedTokens(p.normalizedText, queryTokens) == |queryTokens|
  }

  function Score(p: ParagraphEntry, normalizedQuery: string, queryTokens: seq<string>): int {
    (if Contains(p.normalizedText, normalizedQuery) then 1000 else 0) + MatchedTokens(p.normalizedText, queryTokens)
  }

  /**
   * The loop state of `FindParagraphContexts`: the strong matches so far,
   * the case-insensitive set of their texts (as upper-cased keys), and the
   * best-scoring weaker paragraph.
   */
  datatype ContextScan = ContextScan(strongMatches: seq<string>, unique: set<string>, bestScore: int, bestText: Option<string>)

  function ContextStep(st: ContextScan, p: ParagraphEntry, normalizedQuery: string, queryTokens: seq<string>): ContextScan {
    if !IsConsidered(p) then st
    else if IsStrong(p, normalizedQuery, queryTokens) then
      if Upper(p.text) in st.unique then st
      else st.(strongMatches := st.strongMatches + [p.text], unique := st.unique + {Upper(p.text)})
    else if Score(p, normalizedQuery, queryTokens) > st.bestScore then
      st.(bestScore := Score(p, normalizedQuery, queryTokens), bestText := Some(p.text))
    else st
  }

  function ScanParagraphs(ps: seq<ParagraphEntry>, normalizedQuery: string, queryTokens: seq<string>): ContextScan {
    if ps == [] then ContextScan([], {}, -1, None)
    else ContextStep(ScanParagraphs(ps[..|ps| - 1], normalizedQuery, queryTokens), ps[|ps| - 1], normalizedQuery, queryTokens)
  }

  /** The context lines of a hit: its strong matches if any, else the best weaker paragraph unless blank. */
  function Contexts(ps: seq<ParagraphEntry>, normalizedQuery: string, queryTokens: seq<string>): seq<string> {
    if ps == [] then []
    else
      var st := ScanParagraphs(ps, normalizedQuery, queryTokens);
      if |st.strongMatches| > 0 then st.strongMatches
      else if st.bestText.Some? && !IsBlank(st.bestText.value) then [st.bestText.value]
      else []
  }

  method FindParagraphContexts(paragraphs: seq<ParagraphEntry>, normalizedQuery: string, queryTokens: seq<string>)
    returns (contexts: seq<string>)
    ensures contexts == Contexts(paragraphs, normalizedQuery, queryTokens)
  {
    if |paragraphs| == 0 {
      return [];
    }
    var strongMatches: seq<string> := [];
    var unique: set<string> := {};
    var bestScore := -1;
    var bestText: Option<string> := None;
    for i := 0 to |paragraphs|
      invariant ScanParagraphs(paragraphs[..i], normalizedQuery, queryTokens)
        == ContextScan(strongMatches, unique, bestScore, bestText)
    {
      assert paragraphs[..i + 1][..i] == paragraphs[..i];
      var paragraph := paragraphs[i];
      if IsBlank(paragraph.normalizedText) {
        continue;
      }
      var phraseMatch := Contains(paragraph.normalizedText, normalizedQuery);
      var matchedTokens := 0;
      for j := 0 to |queryTokens|
        invariant matchedTokens == MatchedTokens(paragraph.normalizedText, queryTokens[..j])
      {
        assert queryTokens[..j + 1][..j] == queryTokens[..j];
        if Contains(paragraph.normalizedText, queryTokens[j]) {
          matchedTokens := matchedTokens + 1;
        }
      }
      assert queryTokens[..|queryTokens|] == queryTokens;
      if phraseMatch || matchedTokens == |queryTokens| {
        if Upper(paragraph.text) !in unique {
          unique := unique + {Upper(paragraph.text)};
          strongMatches := strongMatches + [paragraph.text];
        }
        continue;
      }
      var score := (if phraseMatch then 1000 else 0) + matchedTokens;
      if score > bestScore {
        bestScore := score;
        bestText := Some(paragraph.text);
      }
    }
    assert paragraphs[..|paragraphs|] == paragraphs;
    if |strongMatches| > 0 {
      return strongMatches;
    }
    contexts := if bestText.Some? && !IsBlank(bestText.value) then [bestText.value] else [];
  }

  /** The texts of the paragraphs. */
  function Texts(ps: seq<ParagraphEntry>): (r: seq<string>)
    ensures |r| == |ps|
  {
    seq(|ps|, i requires 0 <= i < |ps| => ps[i].text)
  }

  /** Which paragraphs are considered and strongly match. */
  function StrongFlags(ps: seq<ParagraphEntry>, normalizedQuery: string, queryTokens: seq<string>): (r: seq<bool>)
    ensures |r| == |ps|
  {
    seq(|ps|, i requires 0 <= i < |ps| => IsConsidered(ps[i]) && IsStrong(ps[i], normalizedQuery, queryTokens))
  }

  /** Entry `i` is flagged strong, and no earlier flagged entry equals it ignoring case. */
  predicate FirstOfClass(texts: seq<string>, strong: seq<bool>, key: string -> string, i: int)
    requires 0 <= i < |texts| == |strong|
  {
    strong[i] && forall j | 0 <= j < i :: strong[j] ==> key(texts[j]) != key(texts[i])
  }

  /** No two listed texts are equal ignoring case. */
  predicate DistinctKeys(listed: seq<string>, key: string -> string) {
    forall i, j | 0 <= i < j < |listed| :: key(listed[i]) != key(listed[j])
  }

  /** Every flagged text is listed, up to case. */
  predicate CoversStrong(texts: seq<string>, strong: seq<bool>, listed: seq<string>, key: string -> string)
    requires |texts| == |strong|
  {
    forall i | 0 <= i < |texts| && strong[i] :: ListedUpToKey(listed, key, texts[i])
  }

  /** Some listed text has the same key as `t`. */
  predicate ListedUpToKey(listed: seq<string>, key: string -> string, t: string) {
    exists k | 0 <= k < |listed| :: key(listed[k]) == key(t)
  }

  /** The first flagged text of every case-insensitive class is listed as it is. */
  predicate ListsFirsts(texts: seq<string>, strong: seq<bool>, listed: seq<string>, key: string -> string)
    requires |texts| == |strong|
  {
    forall i | 0 <= i < |texts| && FirstOfClass(texts, strong, key, i) :: texts[i] in listed
  }

  /** Every listed text is the first flagged text of its class. */
  predicate OnlyFirsts(texts: seq<string>, strong: seq<bool>, listed: seq<string>, key: string -> string)
    requires |texts| == |strong|
  {
    forall k | 0 <= k < |listed| :: IsFirstText(texts, strong, key, listed[k])
  }

  /** `t` is the text of the first flagged entry of its class. */
  predicate IsFirstText(texts: seq<string>, strong: seq<bool>, key: string -> string, t: string)
    requires |texts| == |strong|
  {
    exists i | 0 <= i < |texts| :: FirstOfClass(texts, strong, key, i) && texts[i] == t
  }

  /** The texts of the first flagged entries of their classes, in the entries' order. */
  function FirstTexts(texts: seq<string>, strong: seq<bool>, key: string -> string): seq<string>
    requires |texts| == |strong|
  {
    if texts == [] then []
    else
      var n := |texts| - 1;
      FirstTexts(texts[..n], strong[..n], key) + if FirstOfClass(texts, strong, key, n) then [texts[n]] else []
  }

  /**
   * `listed` is the flagged texts, one per case-insensitive class, each class
   * by its first member, in the order those members come.
   */
  predicate StrongListed(texts: seq<string>, strong: seq<bool>, listed: seq<string>, key: string -> string)
    requires |texts| == |strong|
  {
    && DistinctKeys(listed, key)
    && CoversStrong(texts, strong, listed, key)
    && ListsFirsts(texts, strong, listed, key)
    && OnlyFirsts(texts, strong, listed, key)
    && listed == FirstTexts(texts, strong, key)
  }

  lemma PrefixKeepsFirsts(texts: seq<string>, strong: seq<bool>, key: string -> string, n: nat)
    requires |texts| == |strong| && n <= |texts|
    ensures forall i | 0 <= i < n :: FirstOfClass(texts[..n], strong[..n], key, i) == FirstOfClass(texts, strong, key, i)
  {
  }

  /** An entry that is not flagged leaves the list as it was. */
  lemma StrongStepSkip(texts: seq<string>, strong: seq<bool>, listed: seq<string>, key: string -> string)
    requires |texts| == |strong| > 0 && !strong[|strong| - 1]
    requires StrongListed(texts[..|texts| - 1], strong[..|strong| - 1], listed, key)
    ensures StrongListed(texts, strong, listed, key)
  {
    var n := |texts| - 1;
    PrefixKeepsFirsts(texts, strong, key, n);
    forall k | 0 <= k < |listed|
      ensures IsFirstText(texts, strong, key, listed[k])
    {
      assert IsFirstText(texts[..n], strong[..n], key, listed[k]);
      var i :| 0 <= i < n && FirstOfClass(texts[..n], strong[..n], key, i) && texts[..n][i] == listed[k];
      assert FirstOfClass(texts, strong, key, i) && texts[i] == listed[k];
    }
    forall i | 0 <= i < |texts| && strong[i]
      ensures ListedUpToKey(listed, key, texts[i])
    {
      assert strong[..n][i] && texts[..n][i] == texts[i];
    }
  }

  /** A flagged entry equal, ignoring case, to a listed one is dropped. */
  lemma StrongStepDuplicate(texts: seq<string>, strong: seq<bool>, listed: seq<string>, k0: nat, key: string -> string)
    requires |texts| == |strong| > 0 && strong[|strong| - 1]
    requires k0 < |listed| && key(listed[k0]) == key(texts[|texts| - 1])
    requires StrongListed(texts[..|texts| - 1], strong[..|strong| - 1], listed, key)
    ensures StrongListed(texts, strong, listed, key)
  {
    DuplicateNotFirst(texts, strong, listed, k0, key);
    DuplicateKeepsFirsts(texts, strong, listed, key);
    DuplicateCovered(texts, strong, listed, k0, key);
  }

  /** The dropped entry is not the first of its class. */
  lemma DuplicateNotFirst(texts: seq<string>, strong: seq<bool>, listed: seq<string>, k0: nat, key: string -> string)
    requires |texts| == |strong| > 0 && strong[|strong| - 1]
    requires k0 < |listed| && key(listed[k0]) == key(texts[|texts| - 1])
    requires OnlyFirsts(texts[..|texts| - 1], strong[..|strong| - 1], listed, key)
    ensures !FirstOfClass(texts, strong, key, |texts| - 1)
  {
    var n := |texts| - 1;
    assert IsFirstText(texts[..n], strong[..n], key, listed[k0]);
    var i0 :| 0 <= i0 < n && FirstOfClass(texts[..n], strong[..n], key, i0) && texts[..n][i0] == listed[k0];
    assert strong[i0] && key(texts[i0]) == key(texts[n]);
  }

  /** When the last entry is not the first of its class, the firsts are those of the prefix. */
  lemma DuplicateKeepsFirsts(texts: seq<string>, strong: seq<bool>, listed: seq<string>, key: string -> string)
    requires |texts| == |strong| > 0 && !FirstOfClass(texts, strong, key, |texts| - 1)
    requires ListsFirsts(texts[..|texts| - 1], strong[..|strong| - 1], listed, key)
    requires OnlyFirsts(texts[..|texts| - 1], strong[..|strong| - 1], listed, key)
    ensures ListsFirsts(texts, strong, listed, key) && OnlyFirsts(texts, strong, listed, key)
  {
    var n := |texts| - 1;
    PrefixKeepsFirsts(texts, strong, key, n);
    forall i | 0 <= i < |texts| && FirstOfClass(texts, strong, key, i) ensures texts[i] in listed {
      assert i < n && texts[..n][i] == texts[i];
    }
    forall k | 0 <= k < |listed|
      ensures IsFirstText(texts, strong, key, listed[k])
    {
      assert IsFirstText(texts[..n], strong[..n], key, listed[k]);
      var i :| 0 <= i < n && FirstOfClass(texts[..n], strong[..n], key, i) && texts[..n][i] == listed[k];
      assert FirstOfClass(texts, strong, key, i) && texts[i] == listed[k];
    }
  }

  /** The dropped entry's class is listed already, and so is every earlier flagged entry's. */
  lemma DuplicateCovered(texts: seq<string>, strong: seq<bool>, listed: seq<string>, k0: nat, key: string -> string)
    requires |texts| == |strong| > 0
    requires k0 < |listed| && key(listed[k0]) == key(texts[|texts| - 1])
    requires CoversStrong(texts[..|texts| - 1], strong[..|strong| - 1], listed, key)
    ensures CoversStrong(texts, strong, listed, key)
  {
    var n := |texts| - 1;
    forall i | 0 <= i < |texts| && strong[i]
      ensures ListedUpToKey(listed, key, texts[i])
    {
      if i < n {
        assert strong[..n][i] && texts[..n][i] == texts[i];
      }
    }
  }

  /** A flagged entry unlike every listed one, ignoring case, is appended. */
  lemma StrongStepAppend(texts: seq<string>, strong: seq<bool>, listed: seq<string>, key: string -> string)
    requires |texts| == |strong| > 0 && strong[|strong| - 1]
    requires forall k | 0 <= k < |listed| :: key(listed[k]) != key(texts[|texts| - 1])
    requires StrongListed(texts[..|texts| - 1], strong[..|strong| - 1], listed, key)
    ensures StrongListed(texts, strong, listed + [texts[|texts| - 1]], key)
  {
    var n := |texts| - 1;
    AppendedIsFirst(texts, strong, listed, key);
    AppendKeepsDistinct(listed, texts[n], key);
    AppendCovered(texts, strong, listed, key);
    AppendKeepsFirsts(texts, strong, listed, key);
    assert FirstTexts(texts, strong, key) == FirstTexts(texts[..n], strong[..n], key) + [texts[n]];
  }

  /** The appended entry is the first of its class. */
  lemma AppendedIsFirst(texts: seq<string>, strong: seq<bool>, listed: seq<string>, key: string -> string)
    requires |texts| == |strong| > 0 && strong[|strong| - 1]
    requires forall k | 0 <= k < |listed| :: key(listed[k]) != key(texts[|texts| - 1])
    requires CoversStrong(texts[..|texts| - 1], strong[..|strong| - 1], listed, key)
    ensures FirstOfClass(texts, strong, key, |texts| - 1)
  {
    var n := |texts| - 1;
    forall j | 0 <= j < n && strong[j]
      ensures key(texts[j]) != key(texts[n])
    {
      assert strong[..n][j];
      var k :| 0 <= k < |listed| && key(listed[k]) == key(texts[..n][j]);
    }
  }

  /** A text unlike every listed one keeps the keys distinct when appended. */
  lemma AppendKeepsDistinct(listed: seq<string>, t: string, key: string -> string)
    requires DistinctKeys(listed, key)
    requires forall k | 0 <= k < |listed| :: key(listed[k]) != key(t)
    ensures DistinctKeys(listed + [t], key)
  {
    var listed' := listed + [t];
    forall i, j | 0 <= i < j < |listed'| ensures key(listed'[i]) != key(listed'[j]) {
      assert listed'[i] == listed[i];
      if j < |listed| {
        assert listed'[j] == listed[j];
      }
    }
  }

  /** With the appended entry listed, every flagged entry's class is listed. */
  lemma AppendCovered(texts: seq<string>, strong: seq<bool>, listed: seq<string>, key: string -> string)
    requires |texts| == |strong| > 0
    requires CoversStrong(texts[..|texts| - 1], strong[..|strong| - 1], listed, key)
    ensures CoversStrong(texts, strong, listed + [texts[|texts| - 1]], key)
  {
    var n := |texts| - 1;
    var listed' := listed + [texts[n]];
    forall i | 0 <= i < |texts| && strong[i]
      ensures ListedUpToKey(listed', key, texts[i])
    {
      if i == n {
        assert key(listed'[|listed|]) == key(texts[i]);
      } else {
        assert strong[..n][i];
        var k :| 0 <= k < |listed| && key(listed[k]) == key(texts[..n][i]);
        assert listed'[k] == listed[k];
      }
    }
  }

  /** With the appended entry the first of its class, the listed texts are the firsts again. */
  lemma AppendKeepsFirsts(texts: seq<string>, strong: seq<bool>, listed: seq<string>, key: string -> string)
    requires |texts| == |strong| > 0 && FirstOfClass(texts, strong, key, |texts| - 1)
    requires ListsFirsts(texts[..|texts| - 1], strong[..|strong| - 1], listed, key)
    requires OnlyFirsts(texts[..|texts| - 1], strong[..|strong| - 1], listed, key)
    ensures ListsFirsts(texts, strong, listed + [texts[|texts| - 1]], key)
    ensures OnlyFirsts(texts, strong, listed + [texts[|texts| - 1]], key)
  {
    var n := |texts| - 1;
    var listed' := listed + [texts[n]];
    PrefixKeepsFirsts(texts, strong, key, n);
    forall i | 0 <= i < |texts| && FirstOfClass(texts, strong, key, i)
      ensures texts[i] in listed'
    {
      if i < n {
        assert FirstOfClass(texts[..n], strong[..n], key, i);
        assert texts[..n][i] in listed;
      }
    }
    forall k | 0 <= k < |listed'|
      ensures IsFirstText(texts, strong, key, listed'[k])
    {
      if k == |listed| {
        assert FirstOfClass(texts, strong, key, n) && texts[n] == listed'[k];
      } else {
        assert IsFirstText(texts[..n], strong[..n], key, listed[k]);
        var i :| 0 <= i < n && FirstOfClass(texts[..n], strong[..n], key, i) && texts[..n][i] == listed[k];
        assert FirstOfClass(texts, strong, key, i) && texts[i] == listed'[k];
      }
    }
  }

  /** With no flagged entry there is no first one, so nothing is listed. */
  lemma NothingFlaggedNothingListed(texts: seq<string>, strong: seq<bool>, listed: seq<string>, key: string -> string)
    requires |texts| == |strong| && OnlyFirsts(texts, strong, listed, key)
    ensures (forall i | 0 <= i < |strong| :: !strong[i]) ==> listed == []
  {
    if listed != [] {
      assert IsFirstText(texts, strong, key, listed[0]);
    }
  }

  /** The `unique` set of the scan holds the upper-cased keys of the strong matches. */
  lemma {:induction false} UniqueKeys(ps: seq<ParagraphEntry>, normalizedQuery: string, queryTokens: seq<string>)
    ensures var st := ScanParagraphs(ps, normalizedQuery, queryTokens);
      st.unique == (set t | t in st.strongMatches :: Upper(t))
  {
    if ps != [] {
      UniqueKeys(ps[..|ps| - 1], normalizedQuery, queryTokens);
    }
  }

  lemma PrefixFlags(ps: seq<ParagraphEntry>, n: nat, normalizedQuery: string, queryTokens: seq<string>)
    requires n <= |ps|
    ensures Texts(ps[..n]) == Texts(ps)[..n]
    ensures StrongFlags(ps[..n], normalizedQuery, queryTokens) == StrongFlags(ps, normalizedQuery, queryTokens)[..n]
  {
  }

  /**
   * The strong matches of a scan are the texts of the considered, strongly
   * matching paragraphs, one per case-insensitive class, each class by its
   * first paragraph.
   */
  lemma {:induction false} StrongMatchesFacts(ps: seq<ParagraphEntry>, normalizedQuery: string, queryTokens: seq<string>)
    ensures StrongListed(Texts(ps), StrongFlags(ps, normalizedQuery, queryTokens),
                         ScanParagraphs(ps, normalizedQuery, queryTokens).strongMatches, Upper)
  {
    if ps != [] {
      var n := |ps| - 1;
      var texts := Texts(ps);
      var strong := StrongFlags(ps, normalizedQuery, queryTokens);
      var st0 := ScanParagraphs(ps[..n], normalizedQuery, queryTokens);
      StrongMatchesFacts(ps[..n], normalizedQuery, queryTokens);
      UniqueKeys(ps[..n], normalizedQuery, queryTokens);
      PrefixFlags(ps, n, normalizedQuery, queryTokens);
      var p := ps[n];
      var st := ScanParagraphs(ps, normalizedQuery, queryTokens);
      assert st == ContextStep(st0, p, normalizedQuery, queryTokens);
      assert texts[n] == p.text;
      assert strong[n] == (IsConsidered(p) && IsStrong(p, normalizedQuery, queryTokens));
      if !strong[n] {
        assert st.strongMatches == st0.strongMatches;
        StrongStepSkip(texts, strong, st0.strongMatches, Upper);
      } else if Upper(p.text) in st0.unique {
        assert st.strongMatches == st0.strongMatches;
        var t :| t in st0.strongMatches && Upper(t) == Upper(p.text);
        var k0 :| 0 <= k0 < |st0.strongMatches| && st0.strongMatches[k0] == t;
        StrongStepDuplicate(texts, strong, st0.strongMatches, k0, Upper);
      } else {
        assert st.strongMatches == st0.strongMatches + [p.text];
        forall k | 0 <= k < |st0.strongMatches| ensures Upper(st0.strongMatches[k]) != Upper(p.text) {
          assert Upper(st0.strongMatches[k]) in st0.unique;
        }
        StrongStepAppend(texts, strong, st0.strongMatches, Upper);
      }
    }
  }

  /** Which paragraphs are considered but match only weakly. */
  function WeakFlags(ps: seq<ParagraphEntry>, normalizedQuery: string, queryTokens: seq<string>): (r: seq<bool>)
    ensures |r| == |ps|
  {
    seq(|ps|, i requires 0 <= i < |ps| => IsConsidered(ps[i]) && !IsStrong(ps[i], normalizedQuery, queryTokens))
  }

  function Scores(ps: seq<ParagraphEntry>, normalizedQuery: string, queryTokens: seq<string>): (r: seq<int>)
    ensures |r| == |ps|
    ensures forall i | 0 <= i < |r| :: r[i] >= 0
  {
    seq(|ps|, i requires 0 <= i < |ps| => Score(ps[i], normalizedQuery, queryTokens))
  }

  /** Entry `i` is the first of the weak entries with the highest score. */
  predicate FirstBest(weak: seq<bool>, scores: seq<int>, i: int)
    requires 0 <= i < |weak| == |scores|
  {
    && weak[i]
    && (forall j | 0 <= j < |weak| && weak[j] :: scores[j] <= scores[i])
    && (forall j | 0 <= j < i && weak[j] :: scores[j] < scores[i])
  }

  /** `t` is the text of the first best weak entry. */
  predicate IsBestText(texts: seq<string>, weak: seq<bool>, scores: seq<int>, t: string)
    requires |texts| == |weak| == |scores|
  {
    exists i | 0 <= i < |texts| :: FirstBest(weak, scores, i) && texts[i] == t
  }

  /** What the best-score part of the scan knows after a prefix. */
  predicate BestSoFar(texts: seq<string>, weak: seq<bool>, scores: seq<int>, bestScore: int, bestText: Option<string>)
    requires |texts| == |weak| == |scores|
  {
    && (bestText.None? ==> bestScore == -1 && forall j | 0 <= j < |weak| :: !weak[j])
    && (forall j | 0 <= j < |weak| && weak[j] :: scores[j] <= bestScore)
    && (bestText.Some? ==> exists i | 0 <= i < |texts| ::
          && weak[i] && scores[i] == bestScore && texts[i] == bestText.value
          && forall j | 0 <= j < i && weak[j] :: scores[j] < bestScore)
  }

  lemma BestStep(texts: seq<string>, weak: seq<bool>, scores: seq<int>, bestScore: int, bestText: Option<string>)
    requires |texts| == |weak| == |scores| > 0
    requires forall j | 0 <= j < |scores| :: scores[j] >= 0
    requires var n := |texts| - 1; BestSoFar(texts[..n], weak[..n], scores[..n], bestScore, bestText)
    ensures var n := |texts| - 1;
      if weak[n] && scores[n] > bestScore then BestSoFar(texts, weak, scores, scores[n], Some(texts[n]))
      else BestSoFar(texts, weak, scores, bestScore, bestText)
  {
    var n := |texts| - 1;
    assert forall j | 0 <= j < n :: weak[..n][j] == weak[j] && scores[..n][j] == scores[j] && texts[..n][j] == texts[j];
    if weak[n] && scores[n] > bestScore {
      assert weak[n] && scores[n] == scores[n] && texts[n] == Some(texts[n]).value;
    } else if bestText.Some? {
      var i :| 0 <= i < n && weak[..n][i] && scores[..n][i] == bestScore && texts[..n][i] == bestText.value
        && forall j | 0 <= j < i && weak[..n][j] :: scores[..n][j] < bestScore;
      assert weak[i] && scores[i] == bestScore && texts[i] == bestText.value;
    }
  }

  lemma PrefixWeak(ps: seq<ParagraphEntry>, n: nat, normalizedQuery: string, queryTokens: seq<string>)
    requires n <= |ps|
    ensures WeakFlags(ps[..n], normalizedQuery, queryTokens) == WeakFlags(ps, normalizedQuery, queryTokens)[..n]
    ensures Scores(ps[..n], normalizedQuery, queryTokens) == Scores(ps, normalizedQuery, queryTokens)[..n]
  {
  }

  /** The best text of a scan is the text of the first highest-scoring weak paragraph, if there is a weak one. */
  lemma {:induction false} BestFacts(ps: seq<ParagraphEntry>, normalizedQuery: string, queryTokens: seq<string>)
    ensures var st := ScanParagraphs(ps, normalizedQuery, queryTokens);
      BestSoFar(Texts(ps), WeakFlags(ps, normalizedQuery, queryTokens), Scores(ps, normalizedQuery, queryTokens),
                st.bestScore, st.bestText)
  {
    if ps != [] {
      var n := |ps| - 1;
      BestFacts(ps[..n], normalizedQuery, queryTokens);
      PrefixFlags(ps, n, normalizedQuery, queryTokens);
      PrefixWeak(ps, n, normalizedQuery, queryTokens);
      var st0 := ScanParagraphs(ps[..n], normalizedQuery, queryTokens);
      BestStep(Texts(ps), WeakFlags(ps, normalizedQuery, queryTokens), Scores(ps, normalizedQuery, queryTokens),
               st0.bestScore, st0.bestText);
    }
  }

  /**
   * The contexts of a hit: when some considered paragraph strongly matches,
   * the strong matches, one per case-insensitive class, each by its first
   * paragraph; otherwise the text of the first highest-scoring weak
   * paragraph, or nothing when there is none or its text is blank.
   */
  lemma ContextsFacts(ps: seq<ParagraphEntry>, normalizedQuery: string, queryTokens: seq<string>)
    ensures var r := Contexts(ps, normalizedQuery, queryTokens);
      var strong := StrongFlags(ps, normalizedQuery, queryTokens);
      var weak := WeakFlags(ps, normalizedQuery, queryTokens);
      var scores := Scores(ps, normalizedQuery, queryTokens);
      && ((exists i | 0 <= i < |ps| :: strong[i]) ==> r != [] && StrongListed(Texts(ps), strong, r, Upper))
      && ((forall i | 0 <= i < |ps| :: !strong[i]) ==>
            && |r| <= 1
            && (r != [] ==> !IsBlank(r[0]) && IsBestText(Texts(ps), weak, scores, r[0]))
            && (r == [] ==> forall i | 0 <= i < |ps| && FirstBest(weak, scores, i) :: IsBlank(ps[i].text)))
  {
    var st := ScanParagraphs(ps, normalizedQuery, queryTokens);
    var texts := Texts(ps);
    var weak := WeakFlags(ps, normalizedQuery, queryTokens);
    var scores := Scores(ps, normalizedQuery, queryTokens);
    StrongMatchesFacts(ps, normalizedQuery, queryTokens);
    BestFacts(ps, normalizedQuery, queryTokens);
    var strong := StrongFlags(ps, normalizedQuery, queryTokens);
    if exists i | 0 <= i < |ps| :: strong[i] {
      var i :| 0 <= i < |ps| && strong[i];
      assert ListedUpToKey(st.strongMatches, Upper, texts[i]);
    } else {
      NothingFlaggedNothingListed(texts, strong, st.strongMatches, Upper);
      if st.bestText.Some? {
        var i :| 0 <= i < |texts| && weak[i] && scores[i] == st.bestScore && texts[i] == st.bestText.value
          && forall j | 0 <= j < i && weak[j] :: scores[j] < st.bestScore;
        assert FirstBest(weak, scores, i);
        forall i' | 0 <= i' < |ps| && FirstBest(weak, scores, i') ensures i' == i {
          assert !(i' < i) && !(i < i');
        }
        assert texts[i] == ps[i].text;
      }
    }
  }

  /** Paragraphs from `SplitParagraphs` have non-blank texts, so a document with any considered paragraph gets a context. */
  lemma ContextsNotEmpty(ps: seq<ParagraphEntry>, normalizedQuery: string, queryTokens: seq<string>)
    requires forall i | 0 <= i < |ps| :: !IsBlank(ps[i].text)
    requires exists i | 0 <= i < |ps| :: IsConsidered(ps[i])
    ensures Contexts(ps, normalizedQuery, queryTokens) != []
  {
    ContextsFacts(ps, normalizedQuery, queryTokens);
    var strong := StrongFlags(ps, normalizedQuery, queryTokens);
    if forall i | 0 <= i < |ps| :: !strong[i] {
      var st := ScanParagraphs(ps, normalizedQuery, queryTokens);
      BestFacts(ps, normalizedQuery, queryTokens);
      var weak := WeakFlags(ps, normalizedQuery, queryTokens);
      var i :| 0 <= i < |ps| && IsConsidered(ps[i]);
      assert !strong[i];
      assert weak[i];
      assert st.bestText.Some?;
      var scores := Scores(ps, normalizedQuery, queryTokens);
      var b :| 0 <= b < |ps| && weak[b] && scores[b] == st.bestScore && Texts(ps)[b] == st.bestText.value
        && forall j | 0 <= j < b && weak[j] :: scores[j] < st.bestScore;
      assert FirstBest(weak, scores, b);
      assert !IsBlank(ps[b].text);
    }
  }

  // ----------------------------------------------------------------- ranking

  /** The candidate ids below `n`, ascending: the order in which the candidate set is enumerated. */
  function IdsBelow(n: nat, ids: set<nat>): (r: seq<nat>)
    ensures forall k | 0 <= k < |r| :: r[k] in ids && r[k] < n
  {
    if n == 0 then [] else IdsBelow(n - 1, ids) + (if n - 1 in ids then [n - 1] else [])
  }

  /** Every id below `n` is enumerated, in strictly ascending order. */
  lemma {:induction false} IdsBelowFacts(n: nat, ids: set<nat>)
    ensures forall i, j | 0 <= i < j < |IdsBelow(n, ids)| :: IdsBelow(n, ids)[i] < IdsBelow(n, ids)[j]
    ensures forall d | d in ids && d < n :: d in IdsBelow(n, ids)
  {
    if n > 0 {
      IdsBelowFacts(n - 1, ids);
    }
  }

  /** The ids in `ids` below `n`. */
  function Below(n: nat, ids: set<nat>): set<nat> {
    set d | d in ids && d < n
  }

  lemma {:induction false} IdsBelowCount(n: nat, ids: set<nat>)
    ensures |IdsBelow(n, ids)| == |Below(n, ids)|
  {
    if n > 0 {
      IdsBelowCount(n - 1, ids);
      if n - 1 in ids {
        assert Below(n, ids) == Below(n - 1, ids) + {n - 1};
      } else {
        assert Below(n, ids) == Below(n - 1, ids);
      }
    }
  }

  /** Phrase matches rank first. */
  function PhraseTier(phraseMatch: bool): int {
    if phraseMatch then 0 else 1
  }

  /** `OrderByDescending(PhraseMatch).ThenBy(RelativePath, OrdinalIgnoreCase)` as one lexicographic key. */
  function RankKey(m: OrderedMatch): seq<int> {
    [PhraseTier(m.phraseMatch)] + FoldKey(m.relativePath)
  }

  /** One match per candidate id: its path and whether its text holds the whole normalized query. */
  function MatchesOf(documents: seq<DocumentEntry>, ids: seq<nat>, normalizedQuery: string): (r: seq<OrderedMatch>)
    requires forall k | 0 <= k < |ids| :: ids[k] < |documents|
    ensures |r| == |ids|
  {
    seq(|ids|, i requires 0 <= i < |ids| =>
      OrderedMatch(ids[i], documents[ids[i]].relativePath, Contains(documents[ids[i]].normalizedText, normalizedQuery)))
  }

  function Ranked(documents: seq<DocumentEntry>, candidates: set<nat>, normalizedQuery: string): seq<OrderedMatch>
    requires forall d | d in candidates :: d < |documents|
  {
    SortBy(MatchesOf(documents, IdsBelow(|documents|, candidates), normalizedQuery), RankKey)
  }

  /** Match `m` describes document `m.documentId` faithfully. */
  predicate Describes(documents: seq<DocumentEntry>, m: OrderedMatch, normalizedQuery: string) {
    && m.documentId < |documents|
    && m.relativePath == documents[m.documentId].relativePath
    && m.phraseMatch == Contains(documents[m.documentId].normalizedText, normalizedQuery)
  }

  /** The ranking has one entry per candidate, and each describes its document. */
  lemma RankedCovers(documents: seq<DocumentEntry>, candidates: set<nat>, normalizedQuery: string)
    requires forall d | d in candidates :: d < |documents|
    ensures var r := Ranked(documents, candidates, normalizedQuery);
      && |r| == |candidates|
      && (set i | 0 <= i < |r| :: r[i].documentId) == candidates
      && (forall i | 0 <= i < |r| :: Describes(documents, r[i], normalizedQuery))
  {
    RankedLength(documents, candidates, normalizedQuery);
    RankedDescribes(documents, candidates, normalizedQuery);
    RankedIds(documents, candidates, normalizedQuery);
  }

  lemma RankedLength(documents: seq<DocumentEntry>, candidates: set<nat>, normalizedQuery: string)
    requires forall d | d in candidates :: d < |documents|
    ensures |Ranked(documents, candidates, normalizedQuery)| == |candidates|
  {
    IdsBelowCount(|documents|, candidates);
    assert Below(|documents|, candidates) == candidates;
  }

  lemma RankedDescribes(documents: seq<DocumentEntry>, candidates: set<nat>, normalizedQuery: string)
    requires forall d | d in candidates :: d < |documents|
    ensures var r := Ranked(documents, candidates, normalizedQuery);
      forall i | 0 <= i < |r| :: Describes(documents, r[i], normalizedQuery) && r[i].documentId in candidates
  {
    var ms := MatchesOf(documents, IdsBelow(|documents|, candidates), normalizedQuery);
    var r := Ranked(documents, candidates, normalizedQuery);
    SortByMembers(ms, RankKey);
    forall i | 0 <= i < |r| ensures Describes(documents, r[i], normalizedQuery) && r[i].documentId in candidates {
      assert r[i] in ms;
    }
  }

  lemma RankedIds(documents: seq<DocumentEntry>, candidates: set<nat>, normalizedQuery: string)
    requires forall d | d in candidates :: d < |documents|
    ensures var r := Ranked(documents, candidates, normalizedQuery);
      (set i | 0 <= i < |r| :: r[i].documentId) == candidates
  {
    var ids := IdsBelow(|documents|, candidates);
    var ms := MatchesOf(documents, ids, normalizedQuery);
    var r := Ranked(documents, candidates, normalizedQuery);
    IdsBelowFacts(|documents|, candidates);
    SortByMembers(ms, RankKey);
    RankedDescribes(documents, candidates, normalizedQuery);
    forall d | d in candidates ensures d in (set i | 0 <= i < |r| :: r[i].documentId) {
      var k :| 0 <= k < |ids| && ids[k] == d;
      assert ms[k] in r;
      var i :| 0 <= i < |r| && r[i] == ms[k];
    }
  }

  /** Phrase matches come first and, within each tier, paths ascend ignoring case. */
  lemma RankedOrder(documents: seq<DocumentEntry>, candidates: set<nat>, normalizedQuery: string)
    requires forall d | d in candidates :: d < |documents|
    ensures var r := Ranked(documents, candidates, normalizedQuery);
      && (forall i, j | 0 <= i < j < |r| :: r[j].phraseMatch ==> r[i].phraseMatch)
      && (forall i, j | 0 <= i < j < |r| && r[i].phraseMatch == r[j].phraseMatch ::
            LexLe(FoldKey(r[i].relativePath), FoldKey(r[j].relativePath)))
  {
    var r := Ranked(documents, candidates, normalizedQuery);
    forall i, j | 0 <= i < j < |r| ensures
      && (r[j].phraseMatch ==> r[i].phraseMatch)
      && (r[i].phraseMatch == r[j].phraseMatch ==> LexLe(FoldKey(r[i].relativePath), FoldKey(r[j].relativePath)))
    {
      assert LexLe(RankKey(r[i]), RankKey(r[j]));
      LexLeCons(PhraseTier(r[i].phraseMatch), FoldKey(r[i].relativePath), PhraseTier(r[j].phraseMatch), FoldKey(r[j].relativePath));
    }
  }

  /** `Take(count)` of LINQ: nothing for a count of zero or less. */
  function TakeFirst<T>(s: seq<T>, count: int): (r: seq<T>)
    ensures |r| == if count <= 0 then 0 else if count < |s| then count else |s|
    ensures forall i | 0 <= i < |r| :: r[i] == s[i]
  {
    if count <= 0 then [] else if count < |s| then s[..count] else s
  }

  // ------------------------------------------------------------ index build

  /** Document `e` is what indexing file `f` gives. */
  predicate EntryOf(f: ExtractedFile, e: DocumentEntry) {
    && f.text.Some?
    && e.relativePath == f.relativePath
    && e.normalizedText == Normalized(f.text.value)
    && e.paragraphs == Paragraphs(f.text.value)
  }

  /** The documents of the files whose extraction succeeded with a non-blank normalized text, in listing order. */
  function Successes(files: seq<ExtractedFile>): seq<DocumentEntry> {
    if files == [] then []
    else
      var kept := Successes(files[..|files| - 1]);
      var f := files[|files| - 1];
      if f.text.None? || IsBlank(Normalized(f.text.value)) then kept
      else kept + [DocumentEntry(f.relativePath, Normalized(f.text.value), Paragraphs(f.text.value))]
  }

  /** How many files could not be read or extracted. */
  function FailedCount(files: seq<ExtractedFile>): nat {
    if files == [] then 0
    else FailedCount(files[..|files| - 1]) + (if files[|files| - 1].text.None? then 1 else 0)
  }

  lemma {:induction false} SuccessesFacts(files: seq<ExtractedFile>)
    ensures |Successes(files)| + FailedCount(files) <= |files|
    ensures forall e | e in Successes(files) :: !IsBlank(e.normalizedText) && exists k | 0 <= k < |files| :: EntryOf(files[k], e)
    ensures forall k | 0 <= k < |files| && files[k].text.Some? && !IsBlank(Normalized(files[k].text.value)) ::
      DocumentEntry(files[k].relativePath, Normalized(files[k].text.value), Paragraphs(files[k].text.value)) in Successes(files)
  {
    SuccessesCount(files);
    SuccessesSound(files);
    SuccessesComplete(files);
  }

  /** Every file gives a document, counts as failed, or neither. */
  lemma {:induction false} SuccessesCount(files: seq<ExtractedFile>)
    ensures |Successes(files)| + FailedCount(files) <= |files|
  {
    if files != [] {
      SuccessesCount(files[..|files| - 1]);
    }
  }

  /** Every document has a non-blank text and is what indexing one of the files gives. */
  lemma {:induction false} SuccessesSound(files: seq<ExtractedFile>)
    ensures forall e | e in Successes(files) :: !IsBlank(e.normalizedText) && exists k | 0 <= k < |files| :: EntryOf(files[k], e)
  {
    if files != [] {
      var init := files[..|files| - 1];
      SuccessesSound(init);
      forall e | e in Successes(files) ensures !IsBlank(e.normalizedText) && exists k | 0 <= k < |files| :: EntryOf(files[k], e) {
        if e in Successes(init) {
          var k :| 0 <= k < |init| && EntryOf(init[k], e);
          assert files[k] == init[k];
        } else {
          assert EntryOf(files[|files| - 1], e);
        }
      }
    }
  }

  /** Every file read with a non-blank normalized text gives a document. */
  lemma {:induction false} SuccessesComplete(files: seq<ExtractedFile>)
    ensures forall k | 0 <= k < |files| && files[k].text.Some? && !IsBlank(Normalized(files[k].text.value)) ::
      DocumentEntry(files[k].relativePath, Normalized(files[k].text.value), Paragraphs(files[k].text.value)) in Successes(files)
  {
    if files != [] {
      var init := files[..|files| - 1];
      SuccessesComplete(init);
      forall k | 0 <= k < |files| - 1 ensures files[k] == init[k] {
      }
    }
  }

  /** The position-keyed order of the index: paths ignoring case. */
  function DocKey(d: DocumentEntry): seq<int> {
    FoldKey(d.relativePath)
  }

  /** Records `documentId` under `token`, creating its posting set when missing. */
  function AddPosting(m: map<string, set<nat>>, token: string, documentId: nat): map<string, set<nat>> {
    m[token := Posting(m, token) + {documentId}]
  }

  function AddTokens(m: map<string, set<nat>>, tokens: seq<string>, documentId: nat): map<string, set<nat>> {
    if tokens == [] then m
    else AddPosting(AddTokens(m, tokens[..|tokens| - 1], documentId), tokens[|tokens| - 1], documentId)
  }

  /** The token map the build loop produces over the documents in order. */
  function PostingsOf(documents: seq<DocumentEntry>, minTokenLength: int): map<string, set<nat>> {
    if documents == [] then map[]
    else
      var n := |documents| - 1;
      AddTokens(PostingsOf(documents[..n], minTokenLength), Tokens(documents[n].normalizedText, minTokenLength), n)
  }

  lemma {:induction false} AddTokensFacts(m: map<string, set<nat>>, tokens: seq<string>, documentId: nat)
    ensures forall t :: t in AddTokens(m, tokens, documentId) <==> t in m || t in tokens
    ensures forall t :: Posting(AddTokens(m, tokens, documentId), t) == Posting(m, t) + (if t in tokens then {documentId} else {})
  {
    if tokens != [] {
      var init := tokens[..|tokens| - 1];
      AddTokensFacts(m, init, documentId);
      assert forall t :: t in tokens <==> t in init || t == tokens[|tokens| - 1];
    }
  }

  /** The token list of each document. */
  function TokenLists(documents: seq<DocumentEntry>, minTokenLength: int): (r: seq<seq<string>>)
    ensures |r| == |documents|
  {
    seq(|documents|, d requires 0 <= d < |documents| => Tokens(documents[d].normalizedText, minTokenLength))
  }

  /** `m` inverts `lists`: `d` is posted under `t` exactly when `t` is in list `d`, and no posting set is empty. */
  ghost predicate Inverts(m: map<string, set<nat>>, lists: seq<seq<string>>) {
    && (forall t | t in m :: m[t] != {})
    && (forall t, d: nat | d in Posting(m, t) :: d < |lists|)
    && (forall d, t | 0 <= d < |lists| :: d in Posting(m, t) <==> t in lists[d])
  }

  lemma InvertsStep(m: map<string, set<nat>>, lists: seq<seq<string>>)
    requires |lists| > 0 && Inverts(m, lists[..|lists| - 1])
    ensures Inverts(AddTokens(m, lists[|lists| - 1], |lists| - 1), lists)
  {
    var n := |lists| - 1;
    var tokens := lists[n];
    var prev := lists[..n];
    var m' := AddTokens(m, tokens, n);
    AddTokensFacts(m, tokens, n);
    forall t | t in m' ensures m'[t] != {} {
      assert m'[t] == Posting(m', t);
      if t !in tokens {
        assert m[t] == Posting(m, t);
      }
    }
    forall t, d: nat | d in Posting(m', t) ensures d < |lists| {
      if d != n {
        assert d in Posting(m, t);
      }
    }
    forall d, t | 0 <= d < |lists| ensures d in Posting(m', t) <==> t in lists[d] {
      if d < n {
        assert prev[d] == lists[d];
      }
    }
  }

  /**
   * The inverted index: document `d` is in the posting set of `t` exactly
   * when `t` is a token of document `d`, and no posting set is empty.
   */
  lemma {:induction false} PostingsFacts(documents: seq<DocumentEntry>, minTokenLength: int)
    ensures Inverts(PostingsOf(documents, minTokenLength), TokenLists(documents, minTokenLength))
  {
    if documents == [] {
      assert forall t :: Posting(map[], t) == {};
    } else {
      var n := |documents| - 1;
      PostingsFacts(documents[..n], minTokenLength);
      var lists := TokenLists(documents, minTokenLength);
      assert TokenLists(documents[..n], minTokenLength) == lists[..n];
      assert lists[n] == Tokens(documents[n].normalizedText, minTokenLength);
      InvertsStep(PostingsOf(documents[..n], minTokenLength), lists);
    }
  }

  /** A well-formed index: documents in path order, each with a non-blank text, and the token map built over them. */
  predicate WellFormed(index: DocumentIndex, minTokenLength: int) {
    && SortedBy(index.documents, DocKey)
    && (forall d | 0 <= d < |index.documents| :: !IsBlank(index.documents[d].normalizedText))
    && index.tokenToDocuments == PostingsOf(index.documents, minTokenLength)
  }

  function BuiltIndex(files: seq<ExtractedFile>, minTokenLength: int): DocumentIndex {
    var documents := SortBy(Successes(files), DocKey);
    DocumentIndex(documents, PostingsOf(documents, minTokenLength))
  }

  /**
   * A built index is well formed, holds exactly the documents the files gave,
   * and with the failed files never counts more than were listed.
   */
  lemma BuiltIndexFacts(files: seq<ExtractedFile>, minTokenLength: int)
    ensures var built := BuiltIndex(files, minTokenLength);
      && WellFormed(built, minTokenLength)
      && multiset(built.documents) == multiset(Successes(files))
      && |built.documents| + FailedCount(files) <= |files|
  {
    SuccessesCount(files);
    SuccessesSound(files);
    SortedNonBlank(Successes(files));
  }

  /** Sorting documents that all have text gives documents that all have text. */
  lemma SortedNonBlank(entries: seq<DocumentEntry>)
    requires forall e | e in entries :: !IsBlank(e.normalizedText)
    ensures forall d | 0 <= d < |SortBy(entries, DocKey)| :: !IsBlank(SortBy(entries, DocKey)[d].normalizedText)
  {
    SortByMembers(entries, DocKey);
    forall d | 0 <= d < |SortBy(entries, DocKey)| ensures !IsBlank(SortBy(entries, DocKey)[d].normalizedText) {
      assert SortBy(entries, DocKey)[d] in entries;
    }
  }

  lemma EmptyIndexWellFormed(minTokenLength: int)
    ensures WellFormed(EmptyIndex, minTokenLength)
  {
  }

  /**
   * The extraction pass of `ReloadInternalAsync`, over the files in turn:
   * a file that could not be read is counted as failed, one whose normalized
   * text is blank is dropped, and every other becomes a document.
   */
  method CollectDocuments(files: seq<ExtractedFile>) returns (entries: seq<DocumentEntry>, failedDocuments: nat)
    ensures entries == Successes(files)
    ensures failedDocuments == FailedCount(files)
  {
    entries := [];
    failedDocuments := 0;
    for i := 0 to |files|
      invariant entries == Successes(files[..i])
      invariant failedDocuments == FailedCount(files[..i])
    {
      assert files[..i + 1][..i] == files[..i];
      match files[i].text {
        case None =>
          failedDocuments := failedDocuments + 1;
        case Some(extractedText) =>
          var normalized := Normalize(extractedText);
          var paragraphs := SplitParagraphs(extractedText);
          if !IsBlank(normalized) {
            entries := entries + [DocumentEntry(files[i].relativePath, normalized, paragraphs)];
          }
      }
    }
    assert files[..|files|] == files;
  }

  /** The token-map pass of `ReloadInternalAsync`: every token of document `documentId` gets `documentId` posted. */
  method BuildTokenMap(documents: seq<DocumentEntry>, minTokenLength: int) returns (tokenToDocuments: map<string, set<nat>>)
    ensures tokenToDocuments == PostingsOf(documents, minTokenLength)
  {
    tokenToDocuments := map[];
    for documentId := 0 to |documents|
      invariant tokenToDocuments == PostingsOf(documents[..documentId], minTokenLength)
    {
      assert documents[..documentId + 1][..documentId] == documents[..documentId];
      var tokens := SplitTokens(documents[documentId].normalizedText, minTokenLength);
      tokenToDocuments := PostTokens(tokenToDocuments, tokens, documentId);
    }
    assert documents[..|documents|] == documents;
  }

  /** The inner loop of the token-map pass: one document's tokens, each posted in turn. */
  method PostTokens(m: map<string, set<nat>>, tokens: seq<string>, documentId: nat) returns (tokenToDocuments: map<string, set<nat>>)
    ensures tokenToDocuments == AddTokens(m, tokens, documentId)
  {
    tokenToDocuments := m;
    for j := 0 to |tokens|
      invariant tokenToDocuments == AddTokens(m, tokens[..j], documentId)
    {
      assert tokens[..j + 1][..j] == tokens[..j];
      var token := tokens[j];
      var documentIds: set<nat> := if token in tokenToDocuments then tokenToDocuments[token] else {};
      assert documentIds == Posting(tokenToDocuments, token);
      tokenToDocuments := tokenToDocuments[token := documentIds + {documentId}];
    }
    assert tokens[..|tokens|] == tokens;
  }

  // ----------------------------------------------------------------- answers

  /** Documents whose tokens include every query token. */
  function MatchingDocuments(documents: seq<DocumentEntry>, queryTokens: seq<string>, minTokenLength: int): set<nat> {
    set d: nat | d < |documents| && forall k | 0 <= k < |queryTokens| :: queryTokens[k] in Tokens(documents[d].normalizedText, minTokenLength)
  }

  /** Over a built token map, the candidates are exactly the documents holding every query token. */
  lemma CandidatesAreMatchingDocuments(documents: seq<DocumentEntry>, queryTokens: seq<string>, minTokenLength: int)
    requires |queryTokens| > 0
    ensures CandidatesOf(PostingsOf(documents, minTokenLength), queryTokens) == MatchingDocuments(documents, queryTokens, minTokenLength)
  {
    var m := PostingsOf(documents, minTokenLength);
    var lists := TokenLists(documents, minTokenLength);
    PostingsFacts(documents, minTokenLength);
    forall d: nat | d in CandidatesOf(m, queryTokens)
      ensures d in MatchingDocuments(documents, queryTokens, minTokenLength)
    {
      assert d in Posting(m, queryTokens[0]);
      assert d < |lists|;
      assert lists[d] == Tokens(documents[d].normalizedText, minTokenLength);
    }
    forall d: nat | d in MatchingDocuments(documents, queryTokens, minTokenLength)
      ensures d in CandidatesOf(m, queryTokens)
    {
      assert d < |lists| && lists[d] == Tokens(documents[d].normalizedText, minTokenLength);
      forall k | 0 <= k < |queryTokens| ensures d in Posting(m, queryTokens[k]) {
        assert queryTokens[k] in lists[d];
      }
    }
  }

  lemma CandidatesInRange(index: DocumentIndex, queryTokens: seq<string>, minTokenLength: int)
    requires WellFormed(index, minTokenLength) && |queryTokens| > 0
    ensures forall d | d in CandidatesOf(index.tokenToDocuments, queryTokens) :: d < |index.documents|
  {
    CandidatesAreMatchingDocuments(index.documents, queryTokens, minTokenLength);
  }

  function HitOf(documents: seq<DocumentEntry>, m: OrderedMatch, normalizedQuery: string, queryTokens: seq<string>): DocumentSearchHit
    requires m.documentId < |documents|
  {
    var doc := documents[m.documentId];
    DocumentSearchHit(doc.relativePath, m.phraseMatch, Contexts(doc.paragraphs, normalizedQuery, queryTokens))
  }

  function HitsOf(documents: seq<DocumentEntry>, ms: seq<OrderedMatch>, normalizedQuery: string, queryTokens: seq<string>)
    : (r: seq<DocumentSearchHit>)
    requires forall k | 0 <= k < |ms| :: ms[k].documentId < |documents|
    ensures |r| == |ms|
  {
    seq(|ms|, k requires 0 <= k < |ms| => HitOf(documents, ms[k], normalizedQuery, queryTokens))
  }

  /** Matches kept after `Take(MaxResults)` when there are more than `MaxResults`. */
  function Kept(ranked: seq<OrderedMatch>, maxResults: int): seq<OrderedMatch> {
    if |ranked| > maxResults then TakeFirst(ranked, maxResults) else ranked
  }

  /** The found answer over a non-empty candidate set: ranked, counted, truncated, with contexts. */
  function FoundAnswer(query: string, rootPath: string, maxResults: int, documents: seq<DocumentEntry>,
                       candidates: set<nat>, normalizedQuery: string, queryTokens: seq<string>): DocumentSearchResult
    requires forall d | d in candidates :: d < |documents|
  {
    var ranked := Ranked(documents, candidates, normalizedQuery);
    RankedCovers(documents, candidates, normalizedQuery);
    DocumentSearchResult(query, Ok, HitsOf(documents, Kept(ranked, maxResults), normalizedQuery, queryTokens),
                         |ranked|, |ranked| > maxResults, rootPath, |documents|, None)
  }

  /** A found answer counts every candidate, is truncated exactly above `maxResults`, and then keeps that many. */
  lemma FoundAnswerCounts(query: string, rootPath: string, maxResults: int, documents: seq<DocumentEntry>,
                          candidates: set<nat>, normalizedQuery: string, queryTokens: seq<string>)
    requires forall d | d in candidates :: d < |documents|
    ensures var r := FoundAnswer(query, rootPath, maxResults, documents, candidates, normalizedQuery, queryTokens);
      && r.totalFound == |candidates|
      && (r.isTruncated <==> r.totalFound > maxResults)
      && |r.hits| == (if !r.isTruncated then r.totalFound else if maxResults <= 0 then 0 else maxResults)
  {
    RankedCovers(documents, candidates, normalizedQuery);
  }

  /** Hit `h` shows one of the documents `ds`: its path, whether it holds the whole query, and its contexts. */
  predicate ShowsOneOf(documents: seq<DocumentEntry>, h: DocumentSearchHit, ds: set<nat>, normalizedQuery: string, queryTokens: seq<string>) {
    exists d | d in ds && d < |documents| ::
      && h.relativePath == documents[d].relativePath
      && h.phraseMatch == Contains(documents[d].normalizedText, normalizedQuery)
      && h.contexts == Contexts(documents[d].paragraphs, normalizedQuery, queryTokens)
  }

  /** Phrase matches first and, within each tier, paths ascending ignoring case. */
  predicate RankOrdered(hits: seq<DocumentSearchHit>) {
    && (forall i, j | 0 <= i < j < |hits| :: hits[j].phraseMatch ==> hits[i].phraseMatch)
    && (forall i, j | 0 <= i < j < |hits| && hits[i].phraseMatch == hits[j].phraseMatch ::
          LexLe(FoldKey(hits[i].relativePath), FoldKey(hits[j].relativePath)))
  }

  /** Each hit shows a candidate document; phrase matches come first, then paths ignoring case. */
  lemma FoundAnswerHits(query: string, rootPath: string, maxResults: int, documents: seq<DocumentEntry>,
                        candidates: set<nat>, normalizedQuery: string, queryTokens: seq<string>)
    requires forall d | d in candidates :: d < |documents|
    ensures var hits := FoundAnswer(query, rootPath, maxResults, documents, candidates, normalizedQuery, queryTokens).hits;
      && (forall i | 0 <= i < |hits| :: ShowsOneOf(documents, hits[i], candidates, normalizedQuery, queryTokens))
      && RankOrdered(hits)
  {
    FoundHitsShow(query, rootPath, maxResults, documents, candidates, normalizedQuery, queryTokens);
    FoundHitsOrdered(query, rootPath, maxResults, documents, candidates, normalizedQuery, queryTokens);
  }

  lemma FoundHitsShow(query: string, rootPath: string, maxResults: int, documents: seq<DocumentEntry>,
                      candidates: set<nat>, normalizedQuery: string, queryTokens: seq<string>)
    requires forall d | d in candidates :: d < |documents|
    ensures var hits := FoundAnswer(query, rootPath, maxResults, documents, candidates, normalizedQuery, queryTokens).hits;
      forall i | 0 <= i < |hits| :: ShowsOneOf(documents, hits[i], candidates, normalizedQuery, queryTokens)
  {
    RankedDescribes(documents, candidates, normalizedQuery);
    var ranked := Ranked(documents, candidates, normalizedQuery);
    var kept := Kept(ranked, maxResults);
    var hits := HitsOf(documents, kept, normalizedQuery, queryTokens);
    assert forall i | 0 <= i < |kept| :: kept[i] == ranked[i];
    forall i | 0 <= i < |hits| ensures ShowsOneOf(documents, hits[i], candidates, normalizedQuery, queryTokens) {
      assert Describes(documents, ranked[i], normalizedQuery) && ranked[i].documentId in candidates;
    }
  }

  lemma FoundHitsOrdered(query: string, rootPath: string, maxResults: int, documents: seq<DocumentEntry>,
                         candidates: set<nat>, normalizedQuery: string, queryTokens: seq<string>)
    requires forall d | d in candidates :: d < |documents|
    ensures RankOrdered(FoundAnswer(query, rootPath, maxResults, documents, candidates, normalizedQuery, queryTokens).hits)
  {
    RankedDescribes(documents, candidates, normalizedQuery);
    RankedOrder(documents, candidates, normalizedQuery);
    var ranked := Ranked(documents, candidates, normalizedQuery);
    var kept := Kept(ranked, maxResults);
    assert forall i | 0 <= i < |kept| :: kept[i] == ranked[i];
  }

  /**
   * The `DocumentsOptions` values: as configured when the result formatter
   * reads them, and with the repository's resolved root as the search
   * service's own settings.
   */
  datatype Settings = Settings(rootPath: string, minQueryLength: int, minTokenLength: int, maxResults: int)

  datatype ServiceState = ServiceState(index: DocumentIndex, status: DocumentIndexStatus)

  /** `string.IsNullOrWhiteSpace(status.LastError)` is false. */
  predicate HasError(status: DocumentIndexStatus) {
    status.lastError.Some? && !IsBlank(status.lastError.value)
  }

  /** The service's invariant: a well-formed index whose size the status reports, under the configured root. */
  predicate Consistent(settings: Settings, state: ServiceState) {
    && WellFormed(state.index, settings.minTokenLength)
    && state.status.rootPath == settings.rootPath
    && state.status.documentCount == |state.index.documents|
  }

  /** What `ReloadInternalAsync` leaves behind, given the outcome of listing and reading the files. */
  function Reloaded(settings: Settings, state: ServiceState, forceReload: bool,
                    listing: Result<seq<ExtractedFile>, string>, now: Timestamp): ServiceState
  {
    if !forceReload && state.status.isReady then state
    else match listing
      case Failure(message) =>
        ServiceState(state.index, DocumentIndexStatus(settings.rootPath, true, |state.index.documents|,
                                                      state.status.failedDocuments, state.status.lastIndexedAtUtc, Some(message)))
      case Success(files) =>
        if files == [] then ServiceState(EmptyIndex, DocumentIndexStatus(settings.rootPath, true, 0, 0, Some(now), None))
        else
          var built := BuiltIndex(files, settings.minTokenLength);
          ServiceState(built, DocumentIndexStatus(settings.rootPath, true, |built.documents|, FailedCount(files), Some(now), None))
  }

  /**
   * A reload keeps the service consistent and ready. A skipped one changes
   * nothing; a failed listing keeps the index and its counts and records the
   * message; an empty listing gives an empty index; otherwise the index
   * holds the documents the files gave and the failures are counted.
   */
  lemma ReloadOutcomes(settings: Settings, state: ServiceState, forceReload: bool,
                       listing: Result<seq<ExtractedFile>, string>, now: Timestamp)
    requires Consistent(settings, state)
    ensures var s := Reloaded(settings, state, forceReload, listing, now);
      && Consistent(settings, s)
      && s.status.isReady
      && (!forceReload && state.status.isReady ==> s == state)
      && ((forceReload || !state.status.isReady) && listing.Failure? ==>
            s.index == state.index && s.status == state.status.(isReady := true, lastError := Some(listing.error)))
      && ((forceReload || !state.status.isReady) && listing == Success([]) ==>
            s.index == EmptyIndex && s.status == DocumentIndexStatus(settings.rootPath, true, 0, 0, Some(now), None))
      && ((forceReload || !state.status.isReady) && listing.Success? && listing.value != [] ==>
            && multiset(s.index.documents) == multiset(Successes(listing.value))
            && s.status == DocumentIndexStatus(settings.rootPath, true, |Successes(listing.value)|,
                                               FailedCount(listing.value), Some(now), None)
            && s.status.documentCount + s.status.failedDocuments <= |listing.value|)
  {
    if listing.Success? && listing.value != [] {
      BuiltIndexFacts(listing.value, settings.minTokenLength);
    }
  }

  /** A reload keeps the service consistent. */
  lemma ReloadKeepsConsistent(settings: Settings, state: ServiceState, forceReload: bool,
                              listing: Result<seq<ExtractedFile>, string>, now: Timestamp)
    requires Consistent(settings, state)
    ensures Consistent(settings, Reloaded(settings, state, forceReload, listing, now))
  {
    ReloadOutcomes(settings, state, forceReload, listing, now);
  }

  /** The result of a search whose normalized query passed the length test, over the state after `EnsureIndexAsync`. */
  function Answer(settings: Settings, query: string, normalizedQuery: string, state: ServiceState): DocumentSearchResult
    requires Consistent(settings, state)
  {
    var documents := state.index.documents;
    if HasError(state.status) && |documents| == 0 then
      DocumentSearchResult(query, Error, [], 0, false, settings.rootPath, 0, state.status.lastError)
    else if |documents| == 0 then
      DocumentSearchResult(query, IndexEmpty, [], 0, false, settings.rootPath, 0, None)
    else
      var queryTokens := Tokens(normalizedQuery, settings.minTokenLength);
      if |queryTokens| == 0 then
        DocumentSearchResult(query, QueryTooShort, [], 0, false, settings.rootPath, |documents|, None)
      else
        var candidates := CandidatesOf(state.index.tokenToDocuments, queryTokens);
        if |candidates| == 0 then
          DocumentSearchResult(query, Ok, [], 0, false, settings.rootPath, |documents|, None)
        else
          CandidatesInRange(state.index, queryTokens, settings.minTokenLength);
          FoundAnswer(query, settings.rootPath, settings.maxResults, documents, candidates, normalizedQuery, queryTokens)
  }

  /** `SearchAsync`: its result and the state it leaves. */
  function SearchOutcome(settings: Settings, query: string, state: ServiceState,
                         listing: Result<seq<ExtractedFile>, string>, now: Timestamp): (DocumentSearchResult, ServiceState)
    requires Consistent(settings, state)
  {
    var normalizedQuery := Normalized(query);
    if |normalizedQuery| < settings.minQueryLength then
      (DocumentSearchResult(query, QueryTooShort, [], 0, false, settings.rootPath, state.status.documentCount, None), state)
    else
      var ensured := Reloaded(settings, state, false, listing, now);
      ReloadKeepsConsistent(settings, state, false, listing, now);
      (Answer(settings, query, normalizedQuery, ensured), ensured)
  }

  /**
   * The status of an answer: an error only when the last reload failed with
   * a message and left no documents, an empty index when there are no
   * documents otherwise, too short when the query has no token, and found
   * otherwise; anything but found carries no hits and counts nothing.
   */
  lemma AnswerStatus(settings: Settings, query: string, normalizedQuery: string, state: ServiceState)
    requires Consistent(settings, state)
    ensures var r := Answer(settings, query, normalizedQuery, state);
      var documents := state.index.documents;
      && r.query == query && r.rootPath == settings.rootPath
      && r.indexedDocumentCount == |documents|
      && (r.status == Error <==> HasError(state.status) && |documents| == 0)
      && (r.status == IndexEmpty <==> !HasError(state.status) && |documents| == 0)
      && (r.status == QueryTooShort <==> |documents| > 0 && Tokens(normalizedQuery, settings.minTokenLength) == [])
      && (r.errorMessage == if r.status == Error then state.status.lastError else None)
      && (r.status != Ok ==> r.hits == [] && r.totalFound == 0 && !r.isTruncated)
  {
    var documents := state.index.documents;
    var queryTokens := Tokens(normalizedQuery, settings.minTokenLength);
    if |documents| > 0 && |queryTokens| > 0 {
      var candidates := CandidatesOf(state.index.tokenToDocuments, queryTokens);
      if |candidates| > 0 {
        CandidatesInRange(state.index, queryTokens, settings.minTokenLength);
        var found := FoundAnswer(query, settings.rootPath, settings.maxResults, documents, candidates, normalizedQuery, queryTokens);
        assert Answer(settings, query, normalizedQuery, state) == found;
        assert found.status == Ok && found.errorMessage == None && found.indexedDocumentCount == |documents|;
      }
    }
  }

  /** `AnswerCounts` over the candidate set the token map gives. */
  lemma AnswerCountsCandidates(settings: Settings, query: string, normalizedQuery: string, state: ServiceState)
    requires Consistent(settings, state)
    requires Answer(settings, query, normalizedQuery, state).status == Ok
    ensures var r := Answer(settings, query, normalizedQuery, state);
      var queryTokens := Tokens(normalizedQuery, settings.minTokenLength);
      && queryTokens != []
      && r.totalFound == |CandidatesOf(state.index.tokenToDocuments, queryTokens)|
      && (r.isTruncated <==> r.totalFound > 0 && r.totalFound > settings.maxResults)
      && |r.hits| == (if !r.isTruncated then r.totalFound else if settings.maxResults <= 0 then 0 else settings.maxResults)
  {
    var queryTokens := Tokens(normalizedQuery, settings.minTokenLength);
    var candidates := CandidatesOf(state.index.tokenToDocuments, queryTokens);
    if |candidates| > 0 {
      CandidatesInRange(state.index, queryTokens, settings.minTokenLength);
      var found := FoundAnswer(query, settings.rootPath, settings.maxResults, state.index.documents, candidates, normalizedQuery, queryTokens);
      FoundAnswerCounts(query, settings.rootPath, settings.maxResults, state.index.documents, candidates, normalizedQuery, queryTokens);
      assert Answer(settings, query, normalizedQuery, state) == found;
    }
  }

  /**
   * A found answer counts every document holding all query tokens, is
   * truncated exactly when something was found and the count exceeds
   * `maxResults`, and then keeps the first `maxResults` of them.
   */
  lemma AnswerCounts(settings: Settings, query: string, normalizedQuery: string, state: ServiceState)
    requires Consistent(settings, state)
    requires Answer(settings, query, normalizedQuery, state).status == Ok
    ensures var r := Answer(settings, query, normalizedQuery, state);
      var queryTokens := Tokens(normalizedQuery, settings.minTokenLength);
      && r.totalFound == |MatchingDocuments(state.index.documents, queryTokens, settings.minTokenLength)|
      && (r.isTruncated <==> r.totalFound > 0 && r.totalFound > settings.maxResults)
      && |r.hits| == (if !r.isTruncated then r.totalFound else if settings.maxResults <= 0 then 0 else settings.maxResults)
  {
    AnswerCountsCandidates(settings, query, normalizedQuery, state);
    CandidatesAreMatchingDocuments(state.index.documents, Tokens(normalizedQuery, settings.minTokenLength), settings.minTokenLength);
  }

  /** `AnswerHits` over the candidate set the token map gives. */
  lemma AnswerHitsCandidates(settings: Settings, query: string, normalizedQuery: string, state: ServiceState)
    requires Consistent(settings, state)
    ensures var r := Answer(settings, query, normalizedQuery, state);
      var queryTokens := Tokens(normalizedQuery, settings.minTokenLength);
      && (r.hits != [] ==> queryTokens != [])
      && (forall i | 0 <= i < |r.hits| ::
            ShowsOneOf(state.index.documents, r.hits[i], CandidatesOf(state.index.tokenToDocuments, queryTokens), normalizedQuery, queryTokens))
      && RankOrdered(r.hits)
  {
    var queryTokens := Tokens(normalizedQuery, settings.minTokenLength);
    if |state.index.documents| > 0 && |queryTokens| > 0 {
      var candidates := CandidatesOf(state.index.tokenToDocuments, queryTokens);
      if |candidates| > 0 {
        CandidatesInRange(state.index, queryTokens, settings.minTokenLength);
        var found := FoundAnswer(query, settings.rootPath, settings.maxResults, state.index.documents, candidates, normalizedQuery, queryTokens);
        FoundAnswerHits(query, settings.rootPath, settings.maxResults, state.index.documents, candidates, normalizedQuery, queryTokens);
        assert Answer(settings, query, normalizedQuery, state) == found;
      }
    }
  }

  /**
   * Every hit of an answer shows a document holding all query tokens: its
   * path, whether it holds the whole query, and its paragraph contexts;
   * phrase matches come first and, within each tier, paths ascend ignoring case.
   */
  lemma AnswerHits(settings: Settings, query: string, normalizedQuery: string, state: ServiceState)
    requires Consistent(settings, state)
    ensures var r := Answer(settings, query, normalizedQuery, state);
      var queryTokens := Tokens(normalizedQuery, settings.minTokenLength);
      var matching := MatchingDocuments(state.index.documents, queryTokens, settings.minTokenLength);
      && (forall i | 0 <= i < |r.hits| :: ShowsOneOf(state.index.documents, r.hits[i], matching, normalizedQuery, queryTokens))
      && RankOrdered(r.hits)
  {
    AnswerHitsCandidates(settings, query, normalizedQuery, state);
    var queryTokens := Tokens(normalizedQuery, settings.minTokenLength);
    if queryTokens != [] {
      CandidatesAreMatchingDocuments(state.index.documents, queryTokens, settings.minTokenLength);
    }
  }

  /** A search with a short normalized query, and any search once the index is ready, leaves the state unchanged. */
  lemma SearchKeepsReadyState(settings: Settings, query: string, state: ServiceState,
                              listing: Result<seq<ExtractedFile>, string>, now: Timestamp)
    requires Consistent(settings, state)
    ensures var (r, s) := SearchOutcome(settings, query, state, listing, now);
      && (|Normalized(query)| < settings.minQueryLength ==>
            s == state && r.status == QueryTooShort && r.hits == [] && r.indexedDocumentCount == state.status.documentCount)
      && (state.status.isReady ==> s == state)
      && s.status.isReady == (state.status.isReady || |Normalized(query)| >= settings.minQueryLength)
  {
  }

  // ----------------------------------------------------------------- service

  class DocumentSearchService {
    const settings: Settings
    var index: DocumentIndex
    var status: DocumentIndexStatus

    ghost predicate Valid()
      reads this
    {
      Consistent(settings, ServiceState(index, status))
    }

    constructor(settings: Settings)
      ensures Valid() && this.settings == settings
      ensures index == EmptyIndex && status == DocumentIndexStatus(settings.rootPath, false, 0, 0, None, None)
    {
      this.settings := settings;
      index := EmptyIndex;
      status := DocumentIndexStatus(settings.rootPath, false, 0, 0, None, None);
    }

    function GetStatus(): DocumentIndexStatus
      reads this
    {
      status
    }

    /** `ReloadAsync`: a forced rebuild. */
    method Reload(listing: Result<seq<ExtractedFile>, string>, now: Timestamp)
      requires Valid()
      modifies this
      ensures Valid()
      ensures ServiceState(index, status) == Reloaded(settings, old(ServiceState(index, status)), true, listing, now)
    {
      ReloadInternal(true, listing, now);
    }

    method ReloadInternal(forceReload: bool, listing: Result<seq<ExtractedFile>, string>, now: Timestamp)
      requires Valid()
      modifies this
      ensures Valid()
      ensures ServiceState(index, status) == Reloaded(settings, old(ServiceState(index, status)), forceReload, listing, now)
    {
      ReloadOutcomes(settings, ServiceState(index, status), forceReload, listing, now);
      if !forceReload && status.isReady {
        return;
      }
      var builtAt := now;
      match listing {
        case Failure(message) =>
          status := DocumentIndexStatus(settings.rootPath, true, |index.documents|,
                                        status.failedDocuments, status.lastIndexedAtUtc, Some(message));
        case Success(files) =>
          if |files| == 0 {
            index := EmptyIndex;
            status := DocumentIndexStatus(settings.rootPath, true, 0, 0, Some(builtAt), None);
            return;
          }
          var entries, failedDocuments := CollectDocuments(files);
          var documents := SortBy(entries, DocKey);
          var tokenToDocuments := BuildTokenMap(documents, settings.minTokenLength);
          index := DocumentIndex(documents, tokenToDocuments);
          status := DocumentIndexStatus(settings.rootPath, true, |documents|, failedDocuments, Some(builtAt), None);
      }
    }

    /** `EnsureIndexAsync`: builds the index unless it is ready, and returns it. */
    method EnsureIndex(listing: Result<seq<ExtractedFile>, string>, now: Timestamp) returns (localIndex: DocumentIndex)
      requires Valid()
      modifies this
      ensures Valid()
      ensures ServiceState(index, status) == Reloaded(settings, old(ServiceState(index, status)), false, listing, now)
      ensures localIndex == index
    {
      if status.isReady {
        return index;
      }
      ReloadInternal(false, listing, now);
      return index;
    }

    /** `SearchAsync`. */
    method Search(query: string, listing: Result<seq<ExtractedFile>, string>, now: Timestamp) returns (result: DocumentSearchResult)
      requires Valid()
      modifies this
      ensures Valid()
      ensures (result, ServiceState(index, status)) == SearchOutcome(settings, query, old(ServiceState(index, status)), listing, now)
    {
      var normalizedQuery := Normalize(query);
      if |normalizedQuery| < settings.minQueryLength {
        return DocumentSearchResult(query, QueryTooShort, [], 0, false, settings.rootPath, status.documentCount, None);
      }
      var localIndex := EnsureIndex(listing, now);
      var documents := localIndex.documents;
      if HasError(status) && |documents| == 0 {
        return DocumentSearchResult(query, Error, [], 0, false, settings.rootPath, 0, status.lastError);
      }
      if |documents| == 0 {
        return DocumentSearchResult(query, IndexEmpty, [], 0, false, settings.rootPath, 0, None);
      }
      var queryTokens := SplitTokens(normalizedQuery, settings.minTokenLength);
      if |queryTokens| == 0 {
        return DocumentSearchResult(query, QueryTooShort, [], 0, false, settings.rootPath, |documents|, None);
      }
      var candidates := ResolveCandidates(localIndex.tokenToDocuments, queryTokens);
      if |candidates| == 0 {
        return DocumentSearchResult(query, Ok, [], 0, false, settings.rootPath, |documents|, None);
      }
      CandidatesInRange(localIndex, queryTokens, settings.minTokenLength);
      result := Found(query, documents, candidates, normalizedQuery, queryTokens);
    }

    /** The tail of `SearchAsync` once candidates exist: rank, count, take `MaxResults`, collect contexts. */
    method Found(query: string, documents: seq<DocumentEntry>, candidates: set<nat>,
                 normalizedQuery: string, queryTokens: seq<string>) returns (result: DocumentSearchResult)
      requires forall d | d in candidates :: d < |documents|
      ensures result == FoundAnswer(query, settings.rootPath, settings.maxResults, documents, candidates, normalizedQuery, queryTokens)
    {
      RankedCovers(documents, candidates, normalizedQuery);
      var orderedMatches := Ranked(documents, candidates, normalizedQuery);
      var totalFound := |orderedMatches|;
      var truncated := |orderedMatches| > settings.maxResults;
      if truncated {
        orderedMatches := TakeFirst(orderedMatches, settings.maxResults);
      }
      assert orderedMatches == Kept(Ranked(documents, candidates, normalizedQuery), settings.maxResults);
      var hits := CollectHits(documents, orderedMatches, normalizedQuery, queryTokens);
      result := DocumentSearchResult(query, Ok, hits, totalFound, truncated, settings.rootPath, |documents|, None);
    }
  }

  /** The last loop of `SearchAsync`: one hit per kept match, with its paragraph contexts. */
  method CollectHits(documents: seq<DocumentEntry>, orderedMatches: seq<OrderedMatch>,
                     normalizedQuery: string, queryTokens: seq<string>) returns (hits: seq<DocumentSearchHit>)
    requires forall k | 0 <= k < |orderedMatches| :: orderedMatches[k].documentId < |documents|
    ensures hits == HitsOf(documents, orderedMatches, normalizedQuery, queryTokens)
  {
    hits := [];
    for i := 0 to |orderedMatches|
      invariant |hits| == i
      invariant forall k | 0 <= k < i :: hits[k] == HitOf(documents, orderedMatches[k], normalizedQuery, queryTokens)
    {
      var doc := documents[orderedMatches[i].documentId];
      var contexts := FindParagraphContexts(doc.paragraphs, normalizedQuery, queryTokens);
      hits := hits + [DocumentSearchHit(doc.relativePath, orderedMatches[i].phraseMatch, contexts)];
    }
  }
}
