/**
 * `ExcelScenarioRepository`: the dialogue nodes of a spreadsheet, one per
 * row. The reader's rows are a parameter, each a map from column name to
 * the cell's text (`None` for an empty cell), and so is whether the file
 * exists.
 */
module ExcelScenarioRepository {
  import opened Wrappers
  import opened Text
  import opened CaseInsensitiveDictionary
  import opened Entities
  import opened Scenario
  import opened Sequences

  type Row = map<string, Option<string>>

  /** `GetString`: the cell's text, `None` when the column is missing or the cell is empty. */
  function GetString(row: Row, column: string): Option<string> {
    if column in row then row[column] else None
  }

  /** `ParseKeywords`: nothing for a blank cell, else its comma-separated entries, trimmed, empty ones dropped. */
  function ParseKeywords(keywordsRaw: Option<string>): (r: seq<string>)
    ensures forall k | 0 <= k < |r| :: r[k] != [] && IsTrimmed(r[k]) && ',' !in r[k]
  {
    if keywordsRaw.None? || IsBlank(keywordsRaw.value) then []
    else
      TrimmedNonEmptyNoSeparator(SplitOn(keywordsRaw.value, ','), ',');
      SplitEntries(keywordsRaw.value, ',')
  }

  /**
   * A blank cell gives no keywords; otherwise the keywords are exactly the
   * trimmed non-blank pieces between commas.
   */
  lemma ParseKeywordsFacts(keywordsRaw: Option<string>)
    ensures keywordsRaw.None? || IsBlank(keywordsRaw.value) ==> ParseKeywords(keywordsRaw) == []
    ensures keywordsRaw.Some? && !IsBlank(keywordsRaw.value) ==>
      var pieces := SplitOn(keywordsRaw.value, ',');
      && (forall e | e in ParseKeywords(keywordsRaw) :: exists k | 0 <= k < |pieces| :: e == Trim(pieces[k]))
      && (forall k | 0 <= k < |pieces| && !IsBlank(pieces[k]) :: Trim(pieces[k]) in ParseKeywords(keywordsRaw))
  {
    if keywordsRaw.Some? && !IsBlank(keywordsRaw.value) {
      assert ParseKeywords(keywordsRaw) == TrimmedNonEmpty(SplitOn(keywordsRaw.value, ','));
      TrimmedNonEmptySound(SplitOn(keywordsRaw.value, ','));
      TrimmedNonEmptyComplete(SplitOn(keywordsRaw.value, ','));
    }
  }

  /**
   * One `Text:NextNodeId` segment of the `Buttons` cell, split at its first
   * colon with both sides trimmed; `None` when there is no colon or either
   * side is blank.
   */
  function ButtonOf(segment: string): Option<ButtonOption> {
    if ':' !in segment then None
    else
      var sep := IndexOf(segment, ':');
      var text := Trim(segment[..sep]);
      var nextNodeId := Trim(segment[sep + 1..]);
      if IsBlank(text) || IsBlank(nextNodeId) then None else Some(ButtonOption(text, nextNodeId))
  }

  /** A colon is in a string when it is in the trimmed string. */
  lemma TrimKeepsOut(s: string, c: char)
    requires c !in s
    ensures c !in Trim(s)
  {
    TrimIsTrimmedInfix(s);
    var o := TrimOffset(s);
    forall i | 0 <= i < |Trim(s)| ensures Trim(s)[i] != c {
      assert Trim(s)[i] == s[o + i];
    }
  }

  /** The facts about one button cut from a segment at its first colon. */
  lemma ButtonParts(segment: string, sep: nat, b: ButtonOption)
    requires sep < |segment| && segment[sep] == ':' && ':' !in segment[..sep]
    requires b.text == Trim(segment[..sep]) && b.nextNodeId == Trim(segment[sep + 1..])
    requires !IsBlank(b.text) && !IsBlank(b.nextNodeId)
    ensures b.text != [] && IsTrimmed(b.text) && ':' !in b.text
    ensures b.nextNodeId != [] && IsTrimmed(b.nextNodeId)
  {
    TrimKeepsOut(segment[..sep], ':');
    TrimIsTrimmedInfix(segment[..sep]);
    TrimIsTrimmedInfix(segment[sep + 1..]);
  }

  /**
   * A segment gives a button only when it has a colon; the button's text is
   * the trimmed part before the first colon and holds no colon, and its
   * target is the trimmed rest, later colons included; both are non-empty
   * and trimmed.
   */
  lemma ButtonOfFacts(segment: string)
    ensures ':' !in segment ==> ButtonOf(segment) == None
    ensures ButtonOf(segment).Some? ==>
      var b := ButtonOf(segment).value;
      && b.text != [] && IsTrimmed(b.text) && ':' !in b.text
      && b.nextNodeId != [] && IsTrimmed(b.nextNodeId)
      && exists i | 0 <= i < |segment| :: segment[i] == ':' && ':' !in segment[..i]
           && b.text == Trim(segment[..i]) && b.nextNodeId == Trim(segment[i + 1..])
  {
    if ButtonOf(segment).Some? {
      var sep := IndexOf(segment, ':');
      ButtonParts(segment, sep, ButtonOf(segment).value);
    }
  }

  /**
   * Writing a button as `text:target` and parsing it gives it back, for any
   * non-empty trimmed text without a colon and any non-empty trimmed target,
   * colons in the target included.
   */
  lemma ButtonOfJoined(text: string, nextNodeId: string)
    requires text != [] && IsTrimmed(text) && ':' !in text
    requires nextNodeId != [] && IsTrimmed(nextNodeId)
    ensures ButtonOf(text + ":" + nextNodeId) == Some(ButtonOption(text, nextNodeId))
  {
    var segment := text + ":" + nextNodeId;
    assert segment[|text|] == ':';
    var sep := IndexOf(segment, ':');
    if sep < |text| {
      assert false;
    }
    if sep > |text| {
      assert false;
    }
    assert segment[..sep] == text;
    assert segment[sep + 1..] == nextNodeId;
    SolidEntry(text);
    SolidEntry(nextNodeId);
  }

  /** The buttons of the segments, in order, malformed ones dropped. */
  function ButtonsOf(segments: seq<string>): seq<ButtonOption> {
    FilterMap(segments, ButtonOf)
  }

  /** `ParseButtons`, as a value: nothing for a blank cell, else the buttons of its `|`-separated entries. */
  function ParsedButtons(buttonsRaw: Option<string>): seq<ButtonOption> {
    if buttonsRaw.None? || IsBlank(buttonsRaw.value) then [] else ButtonsOf(SplitEntries(buttonsRaw.value, '|'))
  }

  /**
   * A blank cell gives no buttons. Otherwise every button is the button of
   * one trimmed non-empty `|`-separated entry, every such entry that is well
   * formed gives its button, one button per well-formed entry and in the
   * entries' order, and no text or target holds a `|`.
   */
  lemma ParsedButtonsFacts(buttonsRaw: Option<string>)
    ensures buttonsRaw.None? || IsBlank(buttonsRaw.value) ==> ParsedButtons(buttonsRaw) == []
    ensures buttonsRaw.Some? && !IsBlank(buttonsRaw.value) ==>
      var entries := SplitEntries(buttonsRaw.value, '|');
      && (forall b | b in ParsedButtons(buttonsRaw) :: exists k | 0 <= k < |entries| :: ButtonOf(entries[k]) == Some(b))
      && (forall k | 0 <= k < |entries| && ButtonOf(entries[k]).Some? :: ButtonOf(entries[k]).value in ParsedButtons(buttonsRaw))
      && KeptInOrder(entries, ButtonOf, ParsedButtons(buttonsRaw), KeptPositions(entries, ButtonOf))
    ensures forall b | b in ParsedButtons(buttonsRaw) :: '|' !in b.text && '|' !in b.nextNodeId
  {
    if buttonsRaw.Some? && !IsBlank(buttonsRaw.value) {
      var entries := SplitEntries(buttonsRaw.value, '|');
      FilterMapInOrder(entries, ButtonOf);
      FilterMapSound(entries, ButtonOf);
      FilterMapComplete(entries, ButtonOf);
      TrimmedNonEmptyNoSeparator(SplitOn(buttonsRaw.value, '|'), '|');
      ButtonsOfKeepOut(entries, '|');
    }
  }

  /** A character no segment holds is in no button's text or target. */
  lemma ButtonsOfKeepOut(segments: seq<string>, c: char)
    requires forall e | e in segments :: c !in e
    ensures forall b | b in ButtonsOf(segments) :: c !in b.text && c !in b.nextNodeId
  {
    FilterMapSound(segments, ButtonOf);
    forall b | b in ButtonsOf(segments) ensures c !in b.text && c !in b.nextNodeId {
      var k :| 0 <= k < |segments| && ButtonOf(segments[k]) == Some(b);
      ButtonOfKeepsOut(segments[k], c);
    }
  }

  /** A character a segment does not hold is in neither side of its button. */
  lemma ButtonOfKeepsOut(segment: string, c: char)
    requires c !in segment && ButtonOf(segment).Some?
    ensures c !in ButtonOf(segment).value.text && c !in ButtonOf(segment).value.nextNodeId
  {
    var sep := IndexOf(segment, ':');
    assert c !in segment[..sep];
    assert c !in segment[sep + 1..];
    TrimKeepsOut(segment[..sep], c);
    TrimKeepsOut(segment[sep + 1..], c);
  }

  /** `ParseButtons`: each entry split at its first colon, kept when both sides are non-blank. */
  method ParseButtons(buttonsRaw: Option<string>) returns (options: seq<ButtonOption>)
    ensures options == ParsedButtons(buttonsRaw)
  {
    if buttonsRaw.None? || IsBlank(buttonsRaw.value) {
      return [];
    }
    var segments := SplitEntries(buttonsRaw.value, '|');
    options := ParseSegments(segments);
  }

  /** The loop over the `|`-separated entries. */
  method ParseSegments(segments: seq<string>) returns (options: seq<ButtonOption>)
    ensures options == ButtonsOf(segments)
  {
    options := [];
    for i := 0 to |segments|
      invariant options == ButtonsOf(segments[..i])
    {
      var button := ParseSegment(segments[i]);
      ButtonsOfStep(segments, i);
      if button.Some? {
        options := options + [button.value];
      }
    }
    assert segments[..|segments|] == segments;
  }

  /** One more entry adds its button, if it gives one. */
  lemma ButtonsOfStep(segments: seq<string>, i: nat)
    requires i < |segments|
    ensures ButtonsOf(segments[..i + 1]) == ButtonsOf(segments[..i]) + match ButtonOf(segments[i]) case Some(b) => [b] case None => []
  {
    assert segments[..i + 1] == segments[..i] + [segments[i]];
    FilterMapSnoc(segments[..i], segments[i], ButtonOf);
  }

  /** One entry: split at its first colon, both sides trimmed, kept when neither is blank. */
  method ParseSegment(segment: string) returns (button: Option<ButtonOption>)
    ensures button == ButtonOf(segment)
  {
    button := None;
    if ':' in segment {
      var sep := IndexOf(segment, ':');
      var text := Trim(segment[..sep]);
      var nextNodeId := Trim(segment[sep + 1..]);
      if !IsBlank(text) && !IsBlank(nextNodeId) {
        button := Some(ButtonOption(text, nextNodeId));
      }
    }
  }

  function RowId(row: Row): Option<string> {
    GetString(row, "Id")
  }

  /** The node a row describes: a missing `MessageText` becomes empty. */
  function NodeOfRow(row: Row): DialogueNode {
    DialogueNode(
      RowId(row).GetOr(""),
      GetString(row, "MessageText").GetOr(""),
      GetString(row, "ImageUrl"),
      ParseKeywords(GetString(row, "Keywords")),
      ParsedButtons(GetString(row, "Buttons")))
  }

  /** `LoadScenario`, as a value: the configuration and existence checks, then every row with a non-blank id. */
  function LoadedScenario(filePath: string, fileExists: bool, rows: seq<Row>): Result<NodeMap, Error> {
    if IsBlank(filePath) then Failure(InvalidOperation("Scenario file path is not configured."))
    else if !fileExists then Failure(FileNotFound("Scenario file not found.", filePath))
    else Success(Loaded(rows, RowId, NodeOfRow))
  }

  /**
   * Of the modelled inputs' failures, a blank path comes before a missing
   * file. Otherwise the keys are distinct; the node under a key is the one
   * of the last row whose id equals the key ignoring case, and there is none
   * when no row's does; every node is the node of a row with a non-blank id,
   * its text taken from that row.
   */
  lemma LoadedScenarioFacts(filePath: string, fileExists: bool, rows: seq<Row>, key: string)
    ensures IsBlank(filePath) ==> LoadedScenario(filePath, fileExists, rows) == Failure(InvalidOperation("Scenario file path is not configured."))
    ensures !IsBlank(filePath) && !fileExists ==> LoadedScenario(filePath, fileExists, rows) == Failure(FileNotFound("Scenario file not found.", filePath))
    ensures !IsBlank(filePath) && fileExists ==>
      var data := LoadedScenario(filePath, fileExists, rows);
      && data.Success?
      && DistinctKeys(data.value)
      && (forall j | 0 <= j < |rows| && HasKey(RowId, rows[j], key) && (forall k | j < k < |rows| :: !HasKey(RowId, rows[k], key)) ::
            Get(data.value, key) == Some(NodeOfRow(rows[j])))
      && ((forall j | 0 <= j < |rows| :: !HasKey(RowId, rows[j], key)) ==> Get(data.value, key) == None)
      && (forall n | n in Values(data.value) :: !IsBlank(n.id) && exists j | 0 <= j < |rows| :: n == NodeOfRow(rows[j]))
  {
    if !IsBlank(filePath) && fileExists {
      LoadedDistinct(rows, RowId, NodeOfRow);
      forall j | 0 <= j < |rows| && HasKey(RowId, rows[j], key) && (forall k | j < k < |rows| :: !HasKey(RowId, rows[k], key))
        ensures Get(Loaded(rows, RowId, NodeOfRow), key) == Some(NodeOfRow(rows[j]))
      {
        LoadedLastWins(rows, RowId, NodeOfRow, key, j);
      }
      if forall j | 0 <= j < |rows| :: !HasKey(RowId, rows[j], key) {
        LoadedAbsent(rows, RowId, NodeOfRow, key);
      }
      LoadedFrom(rows, RowId, NodeOfRow);
    }
  }

  /** `LoadScenario`: the checks, then each row with a non-blank id written to the map under that id. */
  method LoadScenario(filePath: string, fileExists: bool, rows: seq<Row>) returns (r: Result<NodeMap, Error>)
    ensures r == LoadedScenario(filePath, fileExists, rows)
  {
    if IsBlank(filePath) {
      return Failure(InvalidOperation("Scenario file path is not configured."));
    }
    if !fileExists {
      return Failure(FileNotFound("Scenario file not found.", filePath));
    }
    var data: NodeMap := [];
    for i := 0 to |rows|
      invariant data == Loaded(rows[..i], RowId, NodeOfRow)
    {
      var row := rows[i];
      assert rows[..i + 1][..i] == rows[..i];
      var id := GetString(row, "Id");
      if id.None? || IsBlank(id.value) {
        continue;
      }
      var text := GetString(row, "MessageText").GetOr("");
      var imageUrl := GetString(row, "ImageUrl");
      var keywords := ParseKeywords(GetString(row, "Keywords"));
      var buttons := ParseButtons(GetString(row, "Buttons"));
      data := Set(data, id.value, DialogueNode(id.value, text, imageUrl, keywords, buttons));
    }
    assert rows[..|rows|] == rows;
    return Success(data);
  }
}
