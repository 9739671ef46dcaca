/**
 * `JsonScenarioRepository`: the dialogue nodes of a JSON file. Where the
 * file is comes from the host's file system; what the deserializer makes
 * of its text (`None` for a `null` document) is a parameter, and so is
 * whether the file exists.
 */
module JsonScenarioRepository {
  import opened Wrappers
  import opened Text
  import opened CaseInsensitiveDictionary
  import opened Entities
  import opened HostFileSystem
  import opened Sequences
  import opened Scenario

  datatype ButtonDto = ButtonDto(text: Option<string>, nextNodeId: Option<string>)

  datatype DialogueNodeDto = DialogueNodeDto(
    id: Option<string>,
    text: Option<string>,
    imageUrl: Option<string>,
    keywords: Option<seq<Option<string>>>,
    buttons: Option<seq<ButtonDto>>)

  /** The constructor's choice of file: a rooted path as configured, any other under the application's base directory. */
  function ScenarioFilePath(fs: FileSystem, configuredPath: string): string {
    if fs.isPathRooted(configuredPath) then configuredPath else fs.combine(fs.baseDirectory, configuredPath)
  }

  /** A button survives when both its text and its target are present and not blank. */
  function KeptButton(b: ButtonDto): Option<ButtonOption> {
    if b.text.None? || IsBlank(b.text.value) || b.nextNodeId.None? || IsBlank(b.nextNodeId.value) then None
    else Some(ButtonOption(b.text.value, b.nextNodeId.value))
  }

  /** The node's buttons: none for a missing list, else the surviving ones in order. */
  function KeptButtons(buttons: Option<seq<ButtonDto>>): seq<ButtonOption> {
    match buttons
    case None => []
    case Some(bs) => FilterMap(bs, KeptButton)
  }

  /** A keyword survives when it is present and not blank. */
  function KeptKeyword(k: Option<string>): Option<string> {
    if k.Some? && !IsBlank(k.value) then k else None
  }

  function KeptKeywords(keywords: Option<seq<Option<string>>>): seq<string> {
    match keywords
    case None => []
    case Some(ks) => FilterMap(ks, KeptKeyword)
  }

  /**
   * A missing list gives no buttons, and every kept button has a non-blank
   * text and target, both taken from one listed button.
   */
  lemma KeptButtonsSound(buttons: Option<seq<ButtonDto>>)
    ensures buttons.None? ==> KeptButtons(buttons) == []
    ensures forall b | b in KeptButtons(buttons) ::
      !IsBlank(b.text) && !IsBlank(b.nextNodeId)
      && exists k | 0 <= k < |buttons.value| :: buttons.value[k] == ButtonDto(Some(b.text), Some(b.nextNodeId))
  {
    if buttons.Some? {
      var bs := buttons.value;
      FilterMapSound(bs, KeptButton);
      forall b | b in KeptButtons(buttons)
        ensures !IsBlank(b.text) && !IsBlank(b.nextNodeId)
          && exists k | 0 <= k < |bs| :: bs[k] == ButtonDto(Some(b.text), Some(b.nextNodeId))
      {
        var k :| 0 <= k < |bs| && KeptButton(bs[k]) == Some(b);
        assert bs[k] == ButtonDto(Some(b.text), Some(b.nextNodeId));
      }
    }
  }

  /**
   * Every listed button whose text and target are both non-blank is kept,
   * and when all are, the buttons are kept one for one, in order.
   */
  lemma KeptButtonsComplete(buttons: seq<ButtonDto>)
    ensures forall k | 0 <= k < |buttons| ::
      var d := buttons[k];
      d.text.Some? && !IsBlank(d.text.value) && d.nextNodeId.Some? && !IsBlank(d.nextNodeId.value) ==>
        ButtonOption(d.text.value, d.nextNodeId.value) in KeptButtons(Some(buttons))
    ensures (forall k | 0 <= k < |buttons| :: KeptButton(buttons[k]).Some?) ==>
      |KeptButtons(Some(buttons))| == |buttons|
      && forall k | 0 <= k < |buttons| ::
           KeptButtons(Some(buttons))[k] == ButtonOption(buttons[k].text.value, buttons[k].nextNodeId.value)
  {
    FilterMapComplete(buttons, KeptButton);
    if forall k | 0 <= k < |buttons| :: KeptButton(buttons[k]).Some? {
      FilterMapAllKept(buttons, KeptButton);
    }
  }

  /**
   * The kept buttons follow the list: one per listed button whose text and
   * target are both non-blank, in the list's order, each with that button's
   * text and target.
   */
  lemma KeptButtonsInOrder(buttons: seq<ButtonDto>)
    ensures var kept, idx := KeptButtons(Some(buttons)), KeptPositions(buttons, KeptButton);
      && KeptInOrder(buttons, KeptButton, kept, idx)
      && forall k | 0 <= k < |idx| :: kept[k] == ButtonOption(buttons[idx[k]].text.value, buttons[idx[k]].nextNodeId.value)
  {
    var kept, idx := KeptButtons(Some(buttons)), KeptPositions(buttons, KeptButton);
    FilterMapInOrder(buttons, KeptButton);
    forall k | 0 <= k < |idx|
      ensures kept[k] == ButtonOption(buttons[idx[k]].text.value, buttons[idx[k]].nextNodeId.value)
    {
      assert KeptButton(buttons[idx[k]]) == Some(kept[k]);
    }
  }

  /**
   * The kept keywords follow the list: one per present, non-blank listed
   * keyword, in the list's order.
   */
  lemma KeptKeywordsInOrder(keywords: seq<Option<string>>)
    ensures KeptInOrder(keywords, KeptKeyword, KeptKeywords(Some(keywords)), KeptPositions(keywords, KeptKeyword))
  {
    FilterMapInOrder(keywords, KeptKeyword);
  }

  /**
   * A missing list gives no keywords. Every kept keyword is a non-blank
   * listed one, every non-blank listed one is kept, and when none is blank
   * they are kept one for one, in order.
   */
  lemma KeptKeywordsFacts(keywords: Option<seq<Option<string>>>)
    ensures keywords.None? ==> KeptKeywords(keywords) == []
    ensures forall w | w in KeptKeywords(keywords) :: !IsBlank(w) && Some(w) in keywords.value
    ensures keywords.Some? ==> forall k | 0 <= k < |keywords.value| && keywords.value[k].Some? && !IsBlank(keywords.value[k].value) ::
      keywords.value[k].value in KeptKeywords(keywords)
    ensures keywords.Some? && (forall k | 0 <= k < |keywords.value| :: keywords.value[k].Some? && !IsBlank(keywords.value[k].value)) ==>
      |KeptKeywords(keywords)| == |keywords.value| && forall k | 0 <= k < |keywords.value| :: Some(KeptKeywords(keywords)[k]) == keywords.value[k]
  {
    if keywords.Some? {
      var ks := keywords.value;
      FilterMapSound(ks, KeptKeyword);
      FilterMapComplete(ks, KeptKeyword);
      if forall k | 0 <= k < |ks| :: ks[k].Some? && !IsBlank(ks[k].value) {
        assert forall k | 0 <= k < |ks| :: KeptKeyword(ks[k]).Some?;
        FilterMapAllKept(ks, KeptKeyword);
      }
      forall w | w in KeptKeywords(keywords) ensures !IsBlank(w) && Some(w) in ks {
        var k :| 0 <= k < |ks| && KeptKeyword(ks[k]) == Some(w);
        assert ks[k] == Some(w);
      }
    }
  }

  function DtoId(dto: DialogueNodeDto): Option<string> {
    dto.id
  }

  /** The node a DTO describes: a missing text becomes empty. */
  function NodeOfDto(dto: DialogueNodeDto): DialogueNode {
    DialogueNode(dto.id.GetOr(""), dto.text.GetOr(""), dto.imageUrl, KeptKeywords(dto.keywords), KeptButtons(dto.buttons))
  }

  /** `LoadScenario`, as a value: the checks, then every DTO with a non-blank id; a `null` document counts as an empty list. */
  function LoadedScenario(filePath: string, fileExists: bool, parsed: Option<seq<DialogueNodeDto>>): Result<NodeMap, Error> {
    if IsBlank(filePath) then Failure(InvalidOperation("Scenario file path is not configured."))
    else if !fileExists then Failure(FileNotFound("Scenario file not found.", filePath))
    else Success(Loaded(parsed.GetOr([]), DtoId, NodeOfDto))
  }

  /**
   * Of the modelled inputs' failures, a blank path comes before a missing
   * file; a `null` document gives no nodes. Otherwise the keys are distinct;
   * the node under a key is the one of the last DTO whose id equals the key
   * ignoring case, and there is none when no DTO's does; every node is the
   * node of a DTO with a non-blank id.
   */
  lemma LoadedScenarioFacts(filePath: string, fileExists: bool, parsed: Option<seq<DialogueNodeDto>>, key: string)
    ensures IsBlank(filePath) ==> LoadedScenario(filePath, fileExists, parsed) == Failure(InvalidOperation("Scenario file path is not configured."))
    ensures !IsBlank(filePath) && !fileExists ==> LoadedScenario(filePath, fileExists, parsed) == Failure(FileNotFound("Scenario file not found.", filePath))
    ensures !IsBlank(filePath) && fileExists && parsed.None? ==> LoadedScenario(filePath, fileExists, parsed) == Success([])
    ensures !IsBlank(filePath) && fileExists && parsed.Some? ==>
      var dtos := parsed.value;
      var data := LoadedScenario(filePath, fileExists, parsed);
      && data.Success?
      && DistinctKeys(data.value)
      && (forall j | 0 <= j < |dtos| && HasKey(DtoId, dtos[j], key) && (forall k | j < k < |dtos| :: !HasKey(DtoId, dtos[k], key)) ::
            Get(data.value, key) == Some(NodeOfDto(dtos[j])))
      && ((forall j | 0 <= j < |dtos| :: !HasKey(DtoId, dtos[j], key)) ==> Get(data.value, key) == None)
      && (forall n | n in Values(data.value) :: !IsBlank(n.id) && exists j | 0 <= j < |dtos| :: n == NodeOfDto(dtos[j]))
  {
    if !IsBlank(filePath) && fileExists && parsed.Some? {
      var dtos := parsed.value;
      LoadedDistinct(dtos, DtoId, NodeOfDto);
      forall j | 0 <= j < |dtos| && HasKey(DtoId, dtos[j], key) && (forall k | j < k < |dtos| :: !HasKey(DtoId, dtos[k], key))
        ensures Get(Loaded(dtos, DtoId, NodeOfDto), key) == Some(NodeOfDto(dtos[j]))
      {
        LoadedLastWins(dtos, DtoId, NodeOfDto, key, j);
      }
      if forall j | 0 <= j < |dtos| :: !HasKey(DtoId, dtos[j], key) {
        LoadedAbsent(dtos, DtoId, NodeOfDto, key);
      }
      LoadedFrom(dtos, DtoId, NodeOfDto);
    }
  }

  /** The repository built from the configured path and then asked to load: the file it checks and reads is the constructor's choice. */
  function LoadScenarioAt(fs: FileSystem, configuredPath: string, parsed: Option<seq<DialogueNodeDto>>): Result<NodeMap, Error> {
    var filePath := ScenarioFilePath(fs, configuredPath);
    LoadedScenario(filePath, fs.fileExists(filePath), parsed)
  }

  /**
   * A rooted path is checked and read as configured, any other under the
   * base directory; a missing file is reported with the path that was
   * looked up, and a blank rooted path is reported as not configured.
   */
  lemma LoadScenarioAtFacts(fs: FileSystem, configuredPath: string, parsed: Option<seq<DialogueNodeDto>>)
    ensures fs.isPathRooted(configuredPath) ==>
      LoadScenarioAt(fs, configuredPath, parsed) == LoadedScenario(configuredPath, fs.fileExists(configuredPath), parsed)
    ensures !fs.isPathRooted(configuredPath) ==>
      var underBase := fs.combine(fs.baseDirectory, configuredPath);
      LoadScenarioAt(fs, configuredPath, parsed) == LoadedScenario(underBase, fs.fileExists(underBase), parsed)
    ensures LoadScenarioAt(fs, configuredPath, parsed).Failure? && LoadScenarioAt(fs, configuredPath, parsed).error.FileNotFound? ==>
      var filePath := ScenarioFilePath(fs, configuredPath);
      LoadScenarioAt(fs, configuredPath, parsed).error.fileName == filePath && !IsBlank(filePath) && !fs.fileExists(filePath)
    ensures fs.isPathRooted(configuredPath) && IsBlank(configuredPath) ==>
      LoadScenarioAt(fs, configuredPath, parsed) == Failure(InvalidOperation("Scenario file path is not configured."))
  {
  }

  /**
   * When combining keeps the base directory as a prefix of a relative path
   * (as `Path.Combine` does) and the base directory is not blank, a relative
   * path is never reported as not configured: the load either finds the
   * file or reports it missing under the base directory.
   */
  lemma RelativePathIsConfigured(fs: FileSystem, configuredPath: string, parsed: Option<seq<DialogueNodeDto>>)
    ensures (!fs.isPathRooted(configuredPath) && !IsBlank(fs.baseDirectory)
             && fs.baseDirectory <= fs.combine(fs.baseDirectory, configuredPath)) ==>
      var underBase := fs.combine(fs.baseDirectory, configuredPath);
      var r := LoadScenarioAt(fs, configuredPath, parsed);
      && !IsBlank(underBase)
      && (r.Failure? <==> !fs.fileExists(underBase))
      && (r.Failure? ==> r == Failure(FileNotFound("Scenario file not found.", underBase)))
  {
  }

  /** `LoadScenario`: the checks, then each DTO with a non-blank id written to the map under that id. */
  method LoadScenario(filePath: string, fileExists: bool, parsed: Option<seq<DialogueNodeDto>>) returns (r: Result<NodeMap, Error>)
    ensures r == LoadedScenario(filePath, fileExists, parsed)
  {
    if IsBlank(filePath) {
      return Failure(InvalidOperation("Scenario file path is not configured."));
    }
    if !fileExists {
      return Failure(FileNotFound("Scenario file not found.", filePath));
    }
    var nodes := parsed.GetOr([]);
    var data: NodeMap := [];
    for i := 0 to |nodes|
      invariant data == Loaded(nodes[..i], DtoId, NodeOfDto)
    {
      var dto := nodes[i];
      assert nodes[..i + 1][..i] == nodes[..i];
      if dto.id.None? || IsBlank(dto.id.value) {
        continue;
      }
      var buttons := KeptButtons(dto.buttons);
      var keywords := KeptKeywords(dto.keywords);
      var node := DialogueNode(dto.id.value, dto.text.GetOr(""), dto.imageUrl, keywords, buttons);
      data := Set(data, dto.id.value, node);
    }
    assert nodes[..|nodes|] == nodes;
    return Success(data);
  }
}
