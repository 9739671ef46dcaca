# RevitHelperBot in Dafny

RevitHelperBot is a Telegram bot that helps people working with Revit. It
walks a user through a dialogue tree (the *scenario*, loaded from JSON or
from an Excel sheet), and it answers free-text questions by searching a
folder of `.docx` documents: it extracts their text, builds an inverted
index over normalised tokens, and replies with the matching files as a
folder tree with the paragraphs that matched. Administrators rebuild the
scenario and the index with `/reload` or `/reindex`. A web simulator feeds
the same bot without Telegram, and a load tool drives the search with
generated documents.

This project models that logic in Dafny and proves what it promises.

| file | models |
|---|---|
| `normalizer.dfy` | `SearchTextNormalizer`: letters and digits lower-cased, every other run one space |
| `docx.dfy` | `DocxTextExtractor`, as a state machine over the XML reader's nodes |
| `hostfs.dfy`, `repository.dfy` | the host file system as a parameter, and `FileSystemWordDocumentsRepository`: relative paths, the root folder, the listing order |
| `search.dfy` | `DocumentSearchService`: tokens, paragraphs, the index build and reload life cycle, candidates, ranking, contexts and the search answer |
| `formatter.dfy` | `DocumentSearchResultFormatter`: the folder tree of the hits and its rendering |
| `cidict.dfy`, `scenario.dfy`, `json.dfy`, `excel.dfy` | the `OrdinalIgnoreCase` dictionary (of scenario nodes, and of files in the formatter's tree), `ScenarioService` and the two scenario repositories |
| `statestore.dfy`, `messaging.dfy`, `engine.dfy`, `botupdate.dfy` | the per-chat state store, the responses sent, `ConversationEngine` and `BotUpdateService` |
| `telegram.dfy`, `simulation.dfy` | `TelegramBotResponseSender` and `SimulationRunner` |
| `perf.dfy`, `xmlescape.dfy` | the load tool's command line and its XML escaping |
| `wrappers.dfy`, `chars.dfy`, `text.dfy`, `sequences.dfy`, `ordering.dfy`, `entities.dfy` | `Option`/`Result`, the character tables, the .NET string operations used (`Trim`, `Split`, `Replace`, `ReplaceLineEndings`, `OrdinalIgnoreCase`), stable sorting by a key, and the records the services exchange |

Objects whose fields the source updates in place are classes: the search
service with its `index` and `status`, the scenario service with its cache,
the state store with its map, the conversation engine and the update
service. Their methods are proved against specification functions (for
example `Reloaded` and `SearchOutcome` for the search service), and the
properties are proved about those functions as lemmas. The
`DocumentSearchResultFormatter` folder tree is a value (`DirectoryNode` with
sequences of children), as each hit only extends it.

What crosses a process boundary is a parameter. The outcome of listing the
documents folder and of reading each file (`Result<seq<ExtractedFile>,
string>`), the current time used for the index timestamp, the nodes the XML
reader produces for each part of a `.docx`, the rows MiniExcel reads, the
DTOs the JSON deserialiser produces, and whether a path exists or is rooted.

`DocxTextExtractor.AppendWordXmlText` reads a `w:t` element with
`ReadElementContentAsString`, which already moves the reader to the next
node, and the loop's `Read()` then skips that node. The model follows the
code: the node after a `w:t` is not looked at. `BreakAfterTextInOneRunIsLost`
shows what this means: a `w:br` immediately after `w:t` in the same run adds
no line break.

Where the Unicode functions matter (`char.IsLetterOrDigit`,
`ToLowerInvariant`, `OrdinalIgnoreCase`), the model uses explicit tables for
ASCII and Cyrillic (U+0400 to U+045F). `IsWhiteSpace` is the full .NET set.

## Model

| member | source | states |
|---|---|---|
| ConversationStateStore.StoreLaws | RevitHelperBot.Application/Conversation/InMemoryConversationStateStore.cs:7-23 | a chat never written reads `None` (`Unset`); a read after a write gives the value written; a write leaves every other chat alone; a second write to a chat replaces the first |
| ConversationStateStore.InMemoryConversationStateStore.GetState | RevitHelperBot.Application/Conversation/InMemoryConversationStateStore.cs:9-16 | the stored state of the chat, or `Unset` when the chat has none |
| ConversationStateStore.InMemoryConversationStateStore.SetState | RevitHelperBot.Application/Conversation/InMemoryConversationStateStore.cs:18-23 | the map gets the chat bound to the new state; the chat then reads that state and every other chat reads what it read before |
| Messaging.ResponseLog.Send | RevitHelperBot.Application/Messaging/IBotResponseSender.cs:3-6 | the response, addressed to the chat, is appended to what was sent; nothing else changes |
| CaseInsensitiveDictionary.Position | RevitHelperBot.Application/Scenario/ScenarioService.cs:14 | the index of the first key equal to the probe ignoring case, with no earlier match, or the length when there is none |
| CaseInsensitiveDictionary.Get | RevitHelperBot.Application/Scenario/ScenarioService.cs:20 | `TryGetValue` under `OrdinalIgnoreCase`: a value comes back exactly when some key equals the probe ignoring case, and it is that entry's value |
| CaseInsensitiveDictionary.Values | RevitHelperBot.Application/Scenario/ScenarioService.cs:34 | the values, one per entry, in enumeration order |
| CaseInsensitiveDictionary.GetOfDistinct | RevitHelperBot.Application/Scenario/ScenarioService.cs:14 | under distinct keys, looking up an entry's own key gives that entry's value |
| CaseInsensitiveDictionary.SetFacts | RevitHelperBot.Application/Scenario/JsonScenarioRepository.cs:58 | the indexer `data[id] = node`: the key and every key equal to it ignoring case then read the new value, every other key reads as before, distinct keys stay distinct, and the map grows only for a new key |
| CaseInsensitiveDictionary.SetGets | RevitHelperBot.Application/Scenario/ExcelScenarioRepository.cs:46 | after a write, a key equal to the written one ignoring case reads the new value and any other key reads what it read before |
| CaseInsensitiveDictionary.SetKeepsDistinct | RevitHelperBot.Application/Scenario/ExcelScenarioRepository.cs:46 | a write keeps the keys pairwise distinct ignoring case |
| CaseInsensitiveDictionary.SamePosition | RevitHelperBot.Application/Scenario/ExcelScenarioRepository.cs:46 | overwriting values, keys unchanged, keeps every key's position |
| CaseInsensitiveDictionary.PositionAppended | RevitHelperBot.Application/Scenario/JsonScenarioRepository.cs:58 | after adding a new key at the end, a probe equal to it finds the new entry and any other probe keeps its position, or moves past the end when it found nothing |
| Scenario.MatchesKeyword | RevitHelperBot.Application/Scenario/ScenarioService.cs:36-48 | the inner loop says yes exactly when some non-blank keyword of the node, lower-cased, occurs in the lower-cased message |
| Scenario.FirstMatchFacts | RevitHelperBot.Application/Scenario/ScenarioService.cs:34-51 | the node found matches and no node before it does; nothing is found exactly when no node matches |
| Scenario.KeywordSearchFacts | RevitHelperBot.Application/Scenario/ScenarioService.cs:24-52 | a blank message finds nothing; a found node is cached, has a keyword occurring in the message, and no matching cached node has a smaller id ignoring case; nothing is found only when no cached node matches |
| Scenario.LoadedDistinct | RevitHelperBot.Application/Scenario/JsonScenarioRepository.cs:38-59 | the loading loop gives keys that are distinct ignoring case |
| Scenario.LoadedLastWins | RevitHelperBot.Application/Scenario/ExcelScenarioRepository.cs:30-47 | a key is bound to the node of the last item whose id equals it ignoring case: a later row overwrites an earlier one |
| Scenario.LoadedAbsent | RevitHelperBot.Application/Scenario/JsonScenarioRepository.cs:39-44 | a key no item's non-blank id equals is bound to nothing; blank and missing ids are skipped |
| Scenario.LoadedFrom | RevitHelperBot.Application/Scenario/ExcelScenarioRepository.cs:31-46 | every loaded node is the node of an item with a non-blank id |
| Scenario.ScenarioService.constructor | RevitHelperBot.Application/Scenario/ScenarioService.cs:11-15 | the cache starts as the repository's first load |
| Scenario.ScenarioService.GetNode | RevitHelperBot.Application/Scenario/ScenarioService.cs:17-22 | a node comes back exactly when a cached id equals the probe ignoring case, and it is that id's node |
| Scenario.ScenarioService.FindByKeyword | RevitHelperBot.Application/Scenario/ScenarioService.cs:24-52 | the loop over the nodes in id order returns `KeywordSearch`, whose meaning `KeywordSearchFacts` states |
| Scenario.ScenarioService.ReloadData | RevitHelperBot.Application/Scenario/ScenarioService.cs:54-66 | a successful load with distinct keys replaces the cache; a failed load, or one whose keys clash ignoring case, keeps the cache and reports the failure |
| JsonScenarioRepository.KeptButtonsSound | RevitHelperBot.Application/Scenario/JsonScenarioRepository.cs:46-49 | a missing button list gives no buttons; every kept button has a non-blank text and target, copied from one listed button |
| JsonScenarioRepository.KeptButtonsComplete | RevitHelperBot.Application/Scenario/JsonScenarioRepository.cs:46-49 | every listed button with a non-blank text and target is kept; when all are, they are kept one for one, in order |
| JsonScenarioRepository.KeptKeywordsFacts | RevitHelperBot.Application/Scenario/JsonScenarioRepository.cs:51 | a missing list gives no keywords; the kept keywords are exactly the non-blank listed ones, one for one and in order when none is blank |
| JsonScenarioRepository.KeptButtonsInOrder | RevitHelperBot.Application/Scenario/JsonScenarioRepository.cs:46-49 | the kept buttons are one per listed button with a non-blank text and target, in the list's order, each with that button's text and target |
| JsonScenarioRepository.KeptKeywordsInOrder | RevitHelperBot.Application/Scenario/JsonScenarioRepository.cs:51 | the kept keywords are one per present non-blank listed keyword, in the list's order |
| JsonScenarioRepository.LoadedScenarioFacts | RevitHelperBot.Application/Scenario/JsonScenarioRepository.cs:20-62 | of the failures the modelled inputs can give, a blank path comes before a missing file; a `null` document gives no nodes; otherwise keys are distinct, a key reads the node of the last DTO with that id ignoring case, none when no DTO has it, and every node comes from a DTO with a non-blank id |
| JsonScenarioRepository.LoadScenario | RevitHelperBot.Application/Scenario/JsonScenarioRepository.cs:20-62 | the checks and the loop give `LoadedScenario`, whose meaning `LoadedScenarioFacts` states |
| JsonScenarioRepository.LoadScenarioAtFacts | RevitHelperBot.Application/Scenario/JsonScenarioRepository.cs:12-29 | the file the load checks is the one `ScenarioFilePath` picks: a rooted path as configured, any other combined with the base directory; a missing file is reported with that resolved path, and a blank rooted path as not configured |
| JsonScenarioRepository.RelativePathIsConfigured | RevitHelperBot.Application/Scenario/JsonScenarioRepository.cs:12-29 | when combining keeps a non-blank base directory as a prefix, a relative path is never reported as not configured: the load fails exactly when the file under the base directory is missing, and reports that path |
| ExcelScenarioRepository.ParseKeywords | RevitHelperBot.Application/Scenario/ExcelScenarioRepository.cs:62-72 | every keyword is non-empty, trimmed and free of commas |
| ExcelScenarioRepository.ParseKeywordsFacts | RevitHelperBot.Application/Scenario/ExcelScenarioRepository.cs:62-72 | a blank cell gives no keywords; otherwise every keyword is a trimmed comma-separated piece, and every non-blank piece gives its keyword |
| ExcelScenarioRepository.TrimKeepsOut | RevitHelperBot.Application/Scenario/ExcelScenarioRepository.cs:86 | trimming a text adds no character it did not hold |
| ExcelScenarioRepository.ButtonParts | RevitHelperBot.Application/Scenario/ExcelScenarioRepository.cs:86-89 | the sides of a segment cut at its first colon are non-empty and trimmed, and the text side holds no colon |
| ExcelScenarioRepository.ButtonOfFacts | RevitHelperBot.Application/Scenario/ExcelScenarioRepository.cs:86-90 | a segment without a colon gives no button; a button's text is the trimmed part before the first colon, its target the trimmed rest, both non-empty |
| ExcelScenarioRepository.ButtonOfJoined | RevitHelperBot.Application/Scenario/ExcelScenarioRepository.cs:86-90 | writing `text:target` and parsing it gives the button back, for any trimmed non-empty text without a colon and any trimmed non-empty target |
| ExcelScenarioRepository.ParsedButtonsFacts | RevitHelperBot.Application/Scenario/ExcelScenarioRepository.cs:74-94 | a blank cell gives no buttons; otherwise every button comes from one entry between vertical bars, every well-formed entry gives its button, one button per well-formed entry and in the entries' order, and no text or target holds a vertical bar |
| ExcelScenarioRepository.ButtonsOfKeepOut | RevitHelperBot.Application/Scenario/ExcelScenarioRepository.cs:84-91 | a character no segment holds is in no button |
| ExcelScenarioRepository.ButtonOfKeepsOut | RevitHelperBot.Application/Scenario/ExcelScenarioRepository.cs:86-89 | a character a segment does not hold is in neither side of its button |
| ExcelScenarioRepository.ParseButtons | RevitHelperBot.Application/Scenario/ExcelScenarioRepository.cs:74-94 | the method gives `ParsedButtons`, whose meaning `ParsedButtonsFacts` states |
| ExcelScenarioRepository.ParseSegments | RevitHelperBot.Application/Scenario/ExcelScenarioRepository.cs:81-93 | the loop gives the buttons of the segments, in order, malformed ones dropped |
| ExcelScenarioRepository.ButtonsOfStep | RevitHelperBot.Application/Scenario/ExcelScenarioRepository.cs:84-91 | one more segment adds its button at the end, if it gives one |
| ExcelScenarioRepository.ParseSegment | RevitHelperBot.Application/Scenario/ExcelScenarioRepository.cs:86-90 | one segment gives `ButtonOf`, whose meaning `ButtonOfFacts` states |
| ExcelScenarioRepository.LoadedScenarioFacts | RevitHelperBot.Application/Scenario/ExcelScenarioRepository.cs:18-50 | of the failures the modelled inputs can give, a blank path comes before a missing file; otherwise keys are distinct, a key reads the node of the last row with that id ignoring case, none when no row has it, and every node comes from a row with a non-blank id |
| ExcelScenarioRepository.LoadScenario | RevitHelperBot.Application/Scenario/ExcelScenarioRepository.cs:18-50 | the checks and the row loop give `LoadedScenario`, whose meaning `LoadedScenarioFacts` states |
| Conversation.NodeResponse | RevitHelperBot.Application/Conversation/ConversationEngine.cs:93-98 | the node's text and picture, and its buttons exactly when it has some |
| Conversation.RouteFacts | RevitHelperBot.Application/Conversation/ConversationEngine.cs:39-88 | the start command always wins and shows `start` when cached, else the welcome; a callback shows only a cached node; a search runs exactly for non-blank text not led by `/` when there is neither; text led by `/` is then an unknown command |
| Conversation.ReplyFacts | RevitHelperBot.Application/Conversation/ConversationEngine.cs:39-88 | only the update's chat changes state, to `TopicSelection` on start and `InDialogue` otherwise; nothing is sent exactly when the update is ignored; an unknown command writes no state; buttons come only from a node that has some; a search sends exactly the reply it is given, which `Handle` takes from `SearchReply`: the result formatted with the configured options |
| Conversation.SearchReplyFacts | RevitHelperBot.Application/Conversation/ConversationEngine.cs:85-86 | a search leaves the index consistent, and a ready index unchanged |
| Conversation.SearchReplyFolders | RevitHelperBot.Application/Documents/DocumentSearchResultFormatter.cs:10-24 | with the service and the formatter given the same options, an empty index's reply is the fixed message naming the configured `RootPath` as written, while the search's status reports the repository's resolved root; a short query's reply names the configured minimum |
| Conversation.ConversationEngine.constructor | RevitHelperBot.Application/Conversation/ConversationEngine.cs:18-32 | keeps the services it is given and the formatter's configured options; the search service runs on those options with the root the repository resolved |
| Conversation.ConversationEngine.Handle | RevitHelperBot.Application/Conversation/ConversationEngine.cs:34-88 | the route sets the chat states and the one response sent; only a search changes the index, into the search's new state, and sends the result formatted with the configured options, not the resolved root |
| Conversation.ConversationEngine.Decide | RevitHelperBot.Application/Conversation/ConversationEngine.cs:39-83 | the tests of `HandleAsync`, in order, give `RouteOf`, whose meaning `RouteFacts` states |
| Conversation.ConversationEngine.Respond | RevitHelperBot.Application/Conversation/ConversationEngine.cs:39-81 | every route but a search: at most one state write, then at most one response, as `StateAfter` and `Reply` say |
| Conversation.ConversationEngine.HandleSearch | RevitHelperBot.Application/Conversation/ConversationEngine.cs:83-87 | the chat is put in `InDialogue`, the index takes the search's new state, and the result formatted with the configured options is sent |
| Conversation.ConversationEngine.SendNode | RevitHelperBot.Application/Conversation/ConversationEngine.cs:93-98 | the node's response is appended to what was sent |
| BotUpdates.ReindexErrors | RevitHelperBot.Application/Services/BotUpdateService.cs:70-90 | `scenario` is listed exactly when the scenario reload failed and `documents` exactly when the documents reload did, scenario first, each at most once |
| BotUpdates.ReindexMessageForms | RevitHelperBot.Application/Services/BotUpdateService.cs:92-95 | the reply starts with the success mark exactly when nothing failed, names the failures in order otherwise, and always ends with the document count |
| BotUpdates.ScenarioFailureMessage | RevitHelperBot.Application/Services/BotUpdateService.cs:79-95 | with only the scenario failing the reply names just `scenario` |
| BotUpdates.BotUpdateService.constructor | RevitHelperBot.Application/Services/BotUpdateService.cs:22-36 | keeps the engine and the administrators, with the services the engine uses |
| BotUpdates.BotUpdateService.HandleUpdate | RevitHelperBot.Application/Services/BotUpdateService.cs:38-60 | `/reload` and `/reindex` (ignoring case) never reach the engine and leave every chat state alone; any other update does what the engine does, with the scenario unchanged |
| BotUpdates.BotUpdateService.HandleReindex | RevitHelperBot.Application/Services/BotUpdateService.cs:62-68 | a sender who is not an administrator gets one refusal and nothing is reloaded; an administrator gets the reindex |
| BotUpdates.BotUpdateService.Reindex | RevitHelperBot.Application/Services/BotUpdateService.cs:70-97 | the scenario reload, then the documents reload, then one reply naming what failed and the document count after the reload; a failed scenario reload keeps the old scenario |
| TelegramResponses.ChunkFlatten | RevitHelperBot.Api/Services/TelegramBotResponseSender.cs:53 | the chunks, read in order, give back the sequence they were cut from |
| TelegramResponses.ChunkRows | RevitHelperBot.Api/Services/TelegramBotResponseSender.cs:53 | every chunk but the last has the full size, the last between one and the size |
| TelegramResponses.ChunkPairsCount | RevitHelperBot.Api/Services/TelegramBotResponseSender.cs:53 | chunks of two number half the elements, rounded up |
| TelegramResponses.InlineButtons | RevitHelperBot.Api/Services/TelegramBotResponseSender.cs:52 | one inline button per option, in order, carrying its text and its target as callback data |
| TelegramResponses.BuildMarkupFacts | RevitHelperBot.Api/Services/TelegramBotResponseSender.cs:44-58 | there is a keyboard exactly when the response has a button; it lists every button in order, in rows of two with a last row of one or two, half as many rows as buttons rounded up |
| TelegramResponses.Deliver | RevitHelperBot.Api/Services/TelegramBotResponseSender.cs:18-42 | a photo exactly when the picture is non-blank, captioned with the text; otherwise a Markdown text message; either way to the chat, with `BuildMarkup`'s keyboard |
| Simulation.FirstWord | RevitHelperBot.Api/Services/SimulationRunner.cs:72-74 | a prefix of the text without a space, followed by a space when it is shorter than the text |
| Simulation.TrimKeepsLead | RevitHelperBot.Api/Services/SimulationRunner.cs:73 | a word not led by white space loses only its end to trimming and keeps its first character |
| Simulation.CommandWordFacts | RevitHelperBot.Api/Services/SimulationRunner.cs:72-76 | the lower-cased command word is led by `/`, holds no space and is already in lower case |
| Simulation.FirstEntry | RevitHelperBot.Api/Services/SimulationRunner.cs:72-74 | for text led by `/`, the first entry of the space split is its first word without trailing white space |
| Simulation.ExtractCommandFacts | RevitHelperBot.Api/Services/SimulationRunner.cs:63-80 | no command from missing or blank text or text not led by `/`; otherwise the lower-cased first word, led by `/`, without spaces, already lower case |
| Simulation.UpdateOf | RevitHelperBot.Api/Services/SimulationRunner.cs:28-36 | the chat, text and callback are copied; a missing sender becomes the chat and a missing user name `web-user`; the command is `ExtractCommand` of the text |
| Simulation.Messages | RevitHelperBot.Api/Services/SimulationRunner.cs:53-58 | one message per captured response, in order |
| Simulation.MessageRoundTrip | RevitHelperBot.Api/Services/SimulationRunner.cs:53-58 | a message keeps its response whole, except that no keyboard reads back as an empty one |
| Simulation.MessageOfSame | RevitHelperBot.Api/Services/SimulationRunner.cs:53-58 | two responses show the same message exactly when their text, picture and buttons (none read as empty) agree |
| WordDocumentsRepository.NormalizeRelativePath | RevitHelperBot.Application/Documents/FileSystemWordDocumentsRepository.cs:72-75 | the same length, every directory or alternate separator replaced by `/` and every other character kept |
| WordDocumentsRepository.NormalizeRelativePathIdempotent | RevitHelperBot.Application/Documents/FileSystemWordDocumentsRepository.cs:72-75 | a normalised path holds no separator but `/`, and normalising it again changes nothing |
| WordDocumentsRepository.ResolveDirectoryPathChoice | RevitHelperBot.Application/Documents/FileSystemWordDocumentsRepository.cs:50-70 | a rooted path stays as it is; a relative one resolves under the base or the current directory, to an existing directory whenever either candidate exists, under the base directory whenever that one exists, and under the current directory only when the base candidate is missing and the current one exists |
| WordDocumentsRepository.ListedFacts | RevitHelperBot.Application/Documents/FileSystemWordDocumentsRepository.cs:15-40 | no files for a missing root; otherwise every found file exactly once, with its path normalised, sorted by relative path ignoring case |
| DocxTextExtractor.EndLine | RevitHelperBot.Application/Documents/DocxTextExtractor.cs:59-62 | the buffer, or the buffer with one line break appended |
| DocxTextExtractor.AppendWordXmlText | RevitHelperBot.Application/Documents/DocxTextExtractor.cs:65-107 | the reader loop gives `Feed`, whose properties the lemmas below state |
| DocxTextExtractor.AppendPartTextIfPresent | RevitHelperBot.Application/Documents/DocxTextExtractor.cs:37-63 | a missing part changes nothing; a present one appends its text and ends the line (`PartText`) |
| DocxTextExtractor.ExtractText | RevitHelperBot.Application/Documents/DocxTextExtractor.cs:11-35 | the document, footnotes and endnotes parts read in turn, line endings made `\n`, the result trimmed (`ExtractedText`) |
| DocxTextExtractor.FeedExtends | RevitHelperBot.Application/Documents/DocxTextExtractor.cs:65-107 | reading only ever appends to the buffer |
| DocxTextExtractor.ForeignNodesIgnored | RevitHelperBot.Application/Documents/DocxTextExtractor.cs:109-110 | elements outside the WordprocessingML namespace leave the buffer unchanged |
| DocxTextExtractor.EndLineFacts | RevitHelperBot.Application/Documents/DocxTextExtractor.cs:99-105 | ending a line never makes a blank line, leaves an empty buffer empty and a non-empty one ending with `\n` |
| DocxTextExtractor.NoBlankLinesFromParagraphEnds | RevitHelperBot.Application/Documents/DocxTextExtractor.cs:71-105 | paragraph ends, tabs and texts without line breaks never produce an empty line |
| DocxTextExtractor.AppendPlainText | RevitHelperBot.Application/Documents/DocxTextExtractor.cs:76-79 | appending text without a line break makes no empty line |
| DocxTextExtractor.PartTextFacts | RevitHelperBot.Application/Documents/DocxTextExtractor.cs:37-63 | a missing part changes nothing; a present part extends the buffer and leaves it ending with `\n` when non-empty |
| DocxTextExtractor.PackageTextOrder | RevitHelperBot.Application/Documents/DocxTextExtractor.cs:27-29 | the document's text comes first, then the footnotes', then the endnotes' |
| DocxTextExtractor.ExtractedTextFacts | RevitHelperBot.Application/Documents/DocxTextExtractor.cs:31-34 | the result has no white space at either end and `\n` as its only line ending; a package without the three parts gives "" |
| DocxTextExtractor.TrimKeepsOnlyNewlines | RevitHelperBot.Application/Documents/DocxTextExtractor.cs:33-34 | trimming keeps `\n` the only line ending |
| DocxTextExtractor.FeedTextRun | RevitHelperBot.Application/Documents/DocxTextExtractor.cs:73-82 | a run of text appends the text; the node passed over is the run's own end tag |
| DocxTextExtractor.FeedEmptyRun | RevitHelperBot.Application/Documents/DocxTextExtractor.cs:84-94 | a run holding `w:tab` appends a tab, one holding `w:br` a line break |
| DocxTextExtractor.FeedParagraphEnd | RevitHelperBot.Application/Documents/DocxTextExtractor.cs:99-105 | the end of a paragraph ends the line |
| DocxTextExtractor.FeedParagraph | RevitHelperBot.Application/Documents/DocxTextExtractor.cs:71-105 | a paragraph feeds its runs and then ends the line |
| DocxTextExtractor.DocumentOnly | RevitHelperBot.Application/Documents/DocxTextExtractor.cs:27-34 | a package with only the main part extracts that part's text, line ended, line endings made `\n`, trimmed |
| DocxTextExtractor.ExtractedFromFeed | RevitHelperBot.Application/Documents/DocxTextExtractor.cs:27-34 | a main part that feeds one trimmed text and a final line break extracts to that text |
| DocxTextExtractor.FeedTwoParagraphs | RevitHelperBot.Application.Tests/DocxTextExtractorTests.cs:14-33 | two paragraphs "Привет" and "мир" feed "Привет\nмир\n" |
| DocxTextExtractor.TwoParagraphs | RevitHelperBot.Application.Tests/DocxTextExtractorTests.cs:14-33 | two paragraphs give their texts on two lines |
| DocxTextExtractor.FeedTabsAndBreaks | RevitHelperBot.Application.Tests/DocxTextExtractorTests.cs:35-59 | text, tab, text, break, text in separate runs feed "A\tB\nC\n" |
| DocxTextExtractor.TabsAndBreaks | RevitHelperBot.Application.Tests/DocxTextExtractorTests.cs:35-59 | text, tab, text, break, text in separate runs give "A\tB\nC" |
| DocxTextExtractor.BreakAfterTextInOneRunIsLost | RevitHelperBot.Application/Documents/DocxTextExtractor.cs:73-82 | the node right after a `w:t` is passed over, so a break in the same run as the text before it is lost |
| SearchTextNormalizer.Normalize | RevitHelperBot.Application/Documents/SearchTextNormalizer.cs:7-39 | the loop gives `Normalized`, whose properties the lemmas below state |
| SearchTextNormalizer.WithoutSpacesAppend | RevitHelperBot.Application/Documents/SearchTextNormalizer.cs:17-31 | removing spaces distributes over concatenation |
| SearchTextNormalizer.ScanKeepsInvariant | RevitHelperBot.Application/Documents/SearchTextNormalizer.cs:14-31 | the loop's builder starts with no space, has no two in a row, is no longer than the input, spells the input's lower-cased letters and digits once spaces are removed, and `previousWasSpace` says whether it is empty or ends with a space |
| SearchTextNormalizer.LowerLettersAndDigitsAreLower | RevitHelperBot.Application/Documents/SearchTextNormalizer.cs:19-21 | the kept characters are lower-case letters and digits |
| SearchTextNormalizer.NormalizedFacts | RevitHelperBot.Application/Documents/SearchTextNormalizer.cs:7-39 | no space at either end, no two spaces in a row, only spaces and lower-cased input letters and digits, all of those in order once spaces are removed, never longer than the input |
| SearchTextNormalizer.DropTrailingSpace | RevitHelperBot.Application/Documents/SearchTextNormalizer.cs:33-36 | cutting the trailing space keeps the builder's properties and leaves no space at its end |
| SearchTextNormalizer.DrawnFromLower | RevitHelperBot.Application/Documents/SearchTextNormalizer.cs:19-21 | spaces and characters drawn from a lower-case string make a lower-case string |
| SearchTextNormalizer.BlankHasNoLettersOrDigits | RevitHelperBot.Application/Documents/SearchTextNormalizer.cs:9-12 | a blank text has no letters or digits, so returning "" for it agrees with the loop |
| SearchTextNormalizer.ScanCanonical | RevitHelperBot.Application/Documents/SearchTextNormalizer.cs:17-31 | the loop copies a canonical string character by character |
| SearchTextNormalizer.CanonicalIsFixed | RevitHelperBot.Application/Documents/SearchTextNormalizer.cs:7-39 | a canonical string normalises to itself |
| SearchTextNormalizer.NormalizeIdempotent | RevitHelperBot.Application/Documents/SearchTextNormalizer.cs:7-39 | normalising twice is normalising once |
| DocumentSearch.SplitTokens | RevitHelperBot.Application/Documents/DocumentSearchService.cs:284-305 | the method gives `Tokens`, whose meaning `TokensFacts` states |
| DocumentSearch.KeepDistinctLong | RevitHelperBot.Application/Documents/DocumentSearchService.cs:292-304 | the word loop with its set of seen words keeps the long enough words, each once, in first-seen order |
| DocumentSearch.DistinctLongWordsFacts | RevitHelperBot.Application/Documents/DocumentSearchService.cs:294-302 | the kept words are pairwise distinct, each long enough and one of the words, and every long enough word is kept |
| DocumentSearch.TokensFacts | RevitHelperBot.Application/Documents/DocumentSearchService.cs:284-305 | blank text has no tokens; the tokens are distinct, each at least the minimum length and one of the space-separated words, and every such word is a token |
| DocumentSearch.ParagraphsOf | RevitHelperBot.Application/Documents/DocumentSearchService.cs:318-330 | one paragraph per line |
| DocumentSearch.SplitParagraphs | RevitHelperBot.Application/Documents/DocumentSearchService.cs:307-331 | the method gives `Paragraphs`, whose meaning `ParagraphsFollowLines` states |
| DocumentSearch.ParagraphsLoop | RevitHelperBot.Application/Documents/DocumentSearchService.cs:318-330 | each line becomes a paragraph carrying the line and its normalised form, in order |
| DocumentSearch.LinesAreSolid | RevitHelperBot.Application/Documents/DocumentSearchService.cs:316-325 | the split lines are trimmed and non-blank, so the loop's own trim and blank test change nothing |
| DocumentSearch.ParagraphsAreLines | RevitHelperBot.Application/Documents/DocumentSearchService.cs:307-331 | every paragraph is a trimmed non-blank single line carrying its own normalised text |
| DocumentSearch.ParagraphsComeFromLines | RevitHelperBot.Application/Documents/DocumentSearchService.cs:314-327 | every paragraph is the trim of one line of the text |
| DocumentSearch.LinesBecomeParagraphs | RevitHelperBot.Application/Documents/DocumentSearchService.cs:314-327 | the trim of every non-blank line is a paragraph |
| DocumentSearch.ParagraphsFollowLines | RevitHelperBot.Application/Documents/DocumentSearchService.cs:314-328 | the paragraphs are the trims of the non-blank lines, one per such line and in the lines' order, each with its normalized form |
| DocumentSearch.BlankTextHasBlankLines | RevitHelperBot.Application/Documents/DocumentSearchService.cs:309-312 | a blank text has only blank lines, so returning no paragraphs for it agrees with the split |
| DocumentSearch.ReplaceLineEndingsKeepsBlank | RevitHelperBot.Application/Documents/DocumentSearchService.cs:315 | turning line endings into `\n` keeps a blank text blank |
| DocumentSearch.SplitOnBlank | RevitHelperBot.Application/Documents/DocumentSearchService.cs:316 | every piece of a blank text is blank |
| DocumentSearch.ResolveCandidates | RevitHelperBot.Application/Documents/DocumentSearchService.cs:256-282 | a document is a candidate exactly when every query token is indexed and lists it; a token that is not indexed gives no candidates |
| DocumentSearch.MissingTokenNoCandidates | RevitHelperBot.Application/Documents/DocumentSearchService.cs:261-264 | a query token without a posting set leaves no candidates |
| DocumentSearch.CandidatesOfSets | RevitHelperBot.Application/Documents/DocumentSearchService.cs:258-267 | when every token has a posting set, what lies in all of them is exactly the candidates |
| DocumentSearch.IntersectAll | RevitHelperBot.Application/Documents/DocumentSearchService.cs:270-279 | the intersection loop, stopping early once it is empty, gives what lies in every set |
| DocumentSearch.SameMembers | RevitHelperBot.Application/Documents/DocumentSearchService.cs:269 | ordering the sets by size does not change what lies in all of them |
| DocumentSearch.MatchedTokensBound | RevitHelperBot.Application/Documents/DocumentSearchService.cs:356-363 | the count never exceeds the number of tokens and equals it exactly when every token occurs in the paragraph |
| DocumentSearch.FindParagraphContexts | RevitHelperBot.Application/Documents/DocumentSearchService.cs:333-389 | the loop gives `Contexts`, whose meaning `ContextsFacts` states |
| DocumentSearch.StrongStepSkip | RevitHelperBot.Application/Documents/DocumentSearchService.cs:350-353 | a paragraph that is skipped or not strong leaves the strong list as it was |
| DocumentSearch.StrongStepDuplicate | RevitHelperBot.Application/Documents/DocumentSearchService.cs:367 | a strong paragraph equal to a listed one ignoring case is dropped |
| DocumentSearch.DuplicateNotFirst | RevitHelperBot.Application/Documents/DocumentSearchService.cs:344-367 | the dropped paragraph is not the first of its case-insensitive class |
| DocumentSearch.DuplicateKeepsFirsts | RevitHelperBot.Application/Documents/DocumentSearchService.cs:344-367 | without a new first of a class the listed firsts stay the same |
| DocumentSearch.DuplicateCovered | RevitHelperBot.Application/Documents/DocumentSearchService.cs:344-367 | the dropped paragraph's class is already listed |
| DocumentSearch.StrongStepAppend | RevitHelperBot.Application/Documents/DocumentSearchService.cs:365-370 | a strong paragraph unlike every listed one ignoring case is appended |
| DocumentSearch.AppendedIsFirst | RevitHelperBot.Application/Documents/DocumentSearchService.cs:365-370 | the appended paragraph is the first strong one of its case-insensitive class |
| DocumentSearch.AppendKeepsDistinct | RevitHelperBot.Application/Documents/DocumentSearchService.cs:367-369 | appending a text unlike every listed one keeps the listed texts distinct ignoring case |
| DocumentSearch.AppendCovered | RevitHelperBot.Application/Documents/DocumentSearchService.cs:365-370 | after the append every strong paragraph's class is listed |
| DocumentSearch.AppendKeepsFirsts | RevitHelperBot.Application/Documents/DocumentSearchService.cs:365-370 | after the append the listed texts are again exactly the first strong texts of their classes |
| DocumentSearch.NothingFlaggedNothingListed | RevitHelperBot.Application/Documents/DocumentSearchService.cs:383-388 | with no strong paragraph the strong list is empty |
| DocumentSearch.UniqueKeys | RevitHelperBot.Application/Documents/DocumentSearchService.cs:344-373 | the `unique` set holds exactly the strong matches, ignoring case |
| DocumentSearch.StrongMatchesFacts | RevitHelperBot.Application/Documents/DocumentSearchService.cs:348-373 | the strong matches are the texts of the considered strong paragraphs, one per case-insensitive class, each class by its first paragraph, in paragraph order |
| DocumentSearch.BestStep | RevitHelperBot.Application/Documents/DocumentSearchService.cs:375-380 | one more weak paragraph replaces the best only with a strictly higher score |
| DocumentSearch.BestFacts | RevitHelperBot.Application/Documents/DocumentSearchService.cs:345-381 | the best text is that of the first highest-scoring weak paragraph, and there is none only when no paragraph is weak |
| DocumentSearch.ContextsFacts | RevitHelperBot.Application/Documents/DocumentSearchService.cs:333-389 | with a strong paragraph: the strong matches, one per class, in paragraph order; otherwise at most one context, the first best weak paragraph's text when it is not blank |
| DocumentSearch.ContextsNotEmpty | RevitHelperBot.Application/Documents/DocumentSearchService.cs:307-389 | paragraphs from `SplitParagraphs` have texts, so a document with a considered paragraph always gets a context |
| DocumentSearch.IdsBelow | RevitHelperBot.Application/Documents/DocumentSearchService.cs:108-114 | the enumerated candidates are candidate ids below the document count |
| DocumentSearch.IdsBelowFacts | RevitHelperBot.Application/Documents/DocumentSearchService.cs:108-114 | every candidate below the count is enumerated, in ascending order |
| DocumentSearch.IdsBelowCount | RevitHelperBot.Application/Documents/DocumentSearchService.cs:108-114 | as many ids are enumerated as there are candidates below the count |
| DocumentSearch.MatchesOf | RevitHelperBot.Application/Documents/DocumentSearchService.cs:109-114 | one match per candidate |
| DocumentSearch.RankedCovers | RevitHelperBot.Application/Documents/DocumentSearchService.cs:108-119 | the ranking has one entry per candidate, every candidate appears, and each entry carries its document's path and whether the document holds the whole query |
| DocumentSearch.RankedLength | RevitHelperBot.Application/Documents/DocumentSearchService.cs:119 | the total found is the number of candidates |
| DocumentSearch.RankedDescribes | RevitHelperBot.Application/Documents/DocumentSearchService.cs:108-117 | every ranked entry describes a candidate document |
| DocumentSearch.RankedIds | RevitHelperBot.Application/Documents/DocumentSearchService.cs:108-117 | the ranked entries' ids are exactly the candidates |
| DocumentSearch.RankedOrder | RevitHelperBot.Application/Documents/DocumentSearchService.cs:115-116 | phrase matches come first and, within each tier, paths ascend ignoring case |
| DocumentSearch.TakeFirst | RevitHelperBot.Application/Documents/DocumentSearchService.cs:123 | `Take`: the first `count` elements, none for a count of zero or less, all when there are fewer |
| DocumentSearch.SuccessesFacts | RevitHelperBot.Application/Documents/DocumentSearchService.cs:188-212 | documents plus failures never exceed the files; every document has non-blank text and is one file's; every file with non-blank normalised text gives a document |
| DocumentSearch.SuccessesCount | RevitHelperBot.Application/Documents/DocumentSearchService.cs:188-207 | every file gives a document, counts as failed, or neither |
| DocumentSearch.SuccessesSound | RevitHelperBot.Application/Documents/DocumentSearchService.cs:193-200 | every document has a non-blank normalised text and is what one file gave |
| DocumentSearch.SuccessesComplete | RevitHelperBot.Application/Documents/DocumentSearchService.cs:193-200 | every file read with a non-blank normalised text gives its document |
| DocumentSearch.AddTokensFacts | RevitHelperBot.Application/Documents/DocumentSearchService.cs:218-227 | posting a document's tokens adds exactly those tokens and puts the document in each of their sets, nothing else changing |
| DocumentSearch.InvertsStep | RevitHelperBot.Application/Documents/DocumentSearchService.cs:215-228 | one more document's tokens keep the map an exact inverse of the token lists |
| DocumentSearch.PostingsFacts | RevitHelperBot.Application/Documents/DocumentSearchService.cs:214-228 | document `d` is in the posting set of `t` exactly when `t` is one of its tokens, and no posting set is empty |
| DocumentSearch.BuiltIndexFacts | RevitHelperBot.Application/Documents/DocumentSearchService.cs:209-230 | a built index is sorted by path ignoring case, has only non-blank documents, is inverted correctly, holds exactly the documents the files gave, and with the failures counts no more than were listed |
| DocumentSearch.SortedNonBlank | RevitHelperBot.Application/Documents/DocumentSearchService.cs:209-212 | sorting keeps every document's text non-blank |
| DocumentSearch.EmptyIndexWellFormed | RevitHelperBot.Application/Documents/DocumentSearchService.cs:401-403 | the empty index is well formed |
| DocumentSearch.CollectDocuments | RevitHelperBot.Application/Documents/DocumentSearchService.cs:188-207 | the extraction pass gives the successes in listing order and the number of failed files |
| DocumentSearch.BuildTokenMap | RevitHelperBot.Application/Documents/DocumentSearchService.cs:214-228 | the token-map pass gives `PostingsOf`, whose meaning `PostingsFacts` states |
| DocumentSearch.PostTokens | RevitHelperBot.Application/Documents/DocumentSearchService.cs:218-227 | one document's tokens, each posted in turn, the posting set created when missing |
| DocumentSearch.CandidatesAreMatchingDocuments | RevitHelperBot.Application/Documents/DocumentSearchService.cs:256-282 | over a built index the candidates are exactly the documents that have every query token |
| DocumentSearch.CandidatesInRange | RevitHelperBot.Application/Documents/DocumentSearchService.cs:111 | every candidate is a valid document position |
| DocumentSearch.HitsOf | RevitHelperBot.Application/Documents/DocumentSearchService.cs:126-133 | one hit per kept match |
| DocumentSearch.FoundAnswerCounts | RevitHelperBot.Application/Documents/DocumentSearchService.cs:119-124 | the total counts every candidate; truncated exactly above `MaxResults`, then keeping that many (none for a limit of zero or less) |
| DocumentSearch.FoundAnswerHits | RevitHelperBot.Application/Documents/DocumentSearchService.cs:108-143 | each hit shows a candidate document with its contexts; phrase matches first, then paths ignoring case |
| DocumentSearch.FoundHitsShow | RevitHelperBot.Application/Documents/DocumentSearchService.cs:126-133 | each hit shows a candidate's path, phrase flag and contexts |
| DocumentSearch.FoundHitsOrdered | RevitHelperBot.Application/Documents/DocumentSearchService.cs:115-124 | the hits keep the ranking order after truncation |
| DocumentSearch.ReloadOutcomes | RevitHelperBot.Application/Documents/DocumentSearchService.cs:159-254 | a reload keeps the service consistent and ready; a skipped one changes nothing; a failed listing keeps the index and counts and records the message; an empty listing gives an empty index; otherwise the index holds the documents the files gave and the failures are counted |
| DocumentSearch.ReloadKeepsConsistent | RevitHelperBot.Application/Documents/DocumentSearchService.cs:159-254 | a reload keeps the status count equal to the index size and the index well formed |
| DocumentSearch.AnswerStatus | RevitHelperBot.Application/Documents/DocumentSearchService.cs:53-106 | an error exactly when the last reload left a message and no documents; an empty index when there are no documents otherwise; too short when the query has no token; anything but found carries no hits and counts nothing |
| DocumentSearch.AnswerCountsCandidates | RevitHelperBot.Application/Documents/DocumentSearchService.cs:94-124 | a found answer counts the candidates, is truncated exactly when the count exceeds `MaxResults`, and keeps that many |
| DocumentSearch.AnswerCounts | RevitHelperBot.Application/Documents/DocumentSearchService.cs:80-143 | a found answer counts exactly the documents with every query token, truncated exactly above `MaxResults` |
| DocumentSearch.AnswerHitsCandidates | RevitHelperBot.Application/Documents/DocumentSearchService.cs:94-143 | each hit shows a candidate, in rank order |
| DocumentSearch.AnswerHits | RevitHelperBot.Application/Documents/DocumentSearchService.cs:80-143 | every hit shows a document with every query token, its path, phrase flag and contexts, phrase matches first, then paths ignoring case |
| DocumentSearch.SearchKeepsReadyState | RevitHelperBot.Application/Documents/DocumentSearchService.cs:35-157 | a query normalising shorter than `MinQueryLength` is too short and changes nothing; a ready index is never rebuilt by a search; a search leaves the index ready exactly when it was or the query was long enough |
| DocumentSearch.DocumentSearchService.constructor | RevitHelperBot.Application/Documents/DocumentSearchService.cs:19-31 | an empty index and a status that is not ready, under the repository's root |
| DocumentSearch.DocumentSearchService.Reload | RevitHelperBot.Application/Documents/DocumentSearchService.cs:146 | a forced reload, as `Reloaded` says |
| DocumentSearch.DocumentSearchService.ReloadInternal | RevitHelperBot.Application/Documents/DocumentSearchService.cs:159-254 | the new index and status are `Reloaded` of the old ones |
| DocumentSearch.DocumentSearchService.EnsureIndex | RevitHelperBot.Application/Documents/DocumentSearchService.cs:148-157 | a ready index is returned as is; otherwise an unforced reload runs first |
| DocumentSearch.DocumentSearchService.Search | RevitHelperBot.Application/Documents/DocumentSearchService.cs:35-144 | the result and the new state are `SearchOutcome`, whose meaning `AnswerStatus`, `AnswerCounts`, `AnswerHits` and `SearchKeepsReadyState` state |
| DocumentSearch.DocumentSearchService.Found | RevitHelperBot.Application/Documents/DocumentSearchService.cs:108-143 | rank, count, take `MaxResults`, collect contexts: `FoundAnswer` |
| DocumentSearch.CollectHits | RevitHelperBot.Application/Documents/DocumentSearchService.cs:126-133 | one hit per kept match, with its document's path and contexts |
| DocumentSearchResultFormatter.FindDirectory | RevitHelperBot.Application/Documents/DocumentSearchResultFormatter.cs:114-126 | the lookup gives the first folder whose name equals the key ignoring case, or reports that there is none |
| DocumentSearchResultFormatter.GetOrAddDirectory | RevitHelperBot.Application/Documents/DocumentSearchResultFormatter.cs:120-129 | the result is the folder matching the name ignoring case; it is added empty at the end only when missing, and nothing else changes |
| DocumentSearchResultFormatter.InsertThenFind | RevitHelperBot.Application/Documents/DocumentSearchResultFormatter.cs:64-70 | after a path is added, looking it up gives the stored contexts, so a later hit for the same file overwrites an earlier one |
| DocumentSearchResultFormatter.InsertKeepsOthers | RevitHelperBot.Application/Documents/DocumentSearchResultFormatter.cs:64-70 | adding a path leaves the file of every path that differs ignoring case unchanged |
| DocumentSearchResultFormatter.InsertBelowKeepsOthers | RevitHelperBot.Application/Documents/DocumentSearchResultFormatter.cs:64-70 | the same, when both paths go through a folder |
| DocumentSearchResultFormatter.InsertBelowSameFolder | RevitHelperBot.Application/Documents/DocumentSearchResultFormatter.cs:64-70 | when both paths enter the same folder, the insertion below it leaves the other path's file unchanged |
| DocumentSearchResultFormatter.InsertBelowOtherFolder | RevitHelperBot.Application/Documents/DocumentSearchResultFormatter.cs:64-70 | when the paths enter different folders, the other path's folder is untouched |
| DocumentSearchResultFormatter.FindDirectoryByFold | RevitHelperBot.Application/Documents/DocumentSearchResultFormatter.cs:114 | names equal ignoring case find the same folder |
| DocumentSearchResultFormatter.AddPathFinds | RevitHelperBot.Application/Documents/DocumentSearchResultFormatter.cs:55-71 | a hit whose path has parts can be looked up by those parts |
| DocumentSearchResultFormatter.AddPathKeeps | RevitHelperBot.Application/Documents/DocumentSearchResultFormatter.cs:55-71 | adding a hit leaves the file of every other path unchanged |
| DocumentSearchResultFormatter.AddHitsFinds | RevitHelperBot.Application/Documents/DocumentSearchResultFormatter.cs:38-42 | after all hits are added, each hit with a non-empty path is found with its contexts unless a later hit names the same file |
| DocumentSearchResultFormatter.Render | RevitHelperBot.Application/Documents/DocumentSearchResultFormatter.cs:73-103 | appends `Rendered` to the lines: the folders sorted ignoring case, each as its indented name and then its own lines one level deeper, with an empty line between top-level folders; then the files sorted ignoring case |
| DocumentSearchResultFormatter.RenderDirectory | RevitHelperBot.Application/Documents/DocumentSearchResultFormatter.cs:80-87 | one pass of the folder loop appends that folder's entry |
| DocumentSearchResultFormatter.RenderDirectories | RevitHelperBot.Application/Documents/DocumentSearchResultFormatter.cs:78-88 | the folder loop appends every folder's entry in sorted order |
| DocumentSearchResultFormatter.RenderFiles | RevitHelperBot.Application/Documents/DocumentSearchResultFormatter.cs:90-102 | the file loop appends each file's `- name` line followed by its contexts |
| DocumentSearchResultFormatter.RenderContexts | RevitHelperBot.Application/Documents/DocumentSearchResultFormatter.cs:93-101 | blank contexts are skipped; every other context is appended two spaces deeper |
| DocumentSearchResultFormatter.ContextLinesContains | RevitHelperBot.Application/Documents/DocumentSearchResultFormatter.cs:93-101 | every non-blank context appears in its file's lines |
| DocumentSearchResultFormatter.FileLinesContains | RevitHelperBot.Application/Documents/DocumentSearchResultFormatter.cs:90-102 | every file's `- name` line and each of its non-blank contexts appear |
| DocumentSearchResultFormatter.DirectoryLinesContains | RevitHelperBot.Application/Documents/DocumentSearchResultFormatter.cs:78-88 | every folder's name line and every line rendered inside it appear |
| DocumentSearchResultFormatter.RenderedListsDirectories | RevitHelperBot.Application/Documents/DocumentSearchResultFormatter.cs:78-88 | every folder of a node appears by its indented name, and all of its contents appear |
| DocumentSearchResultFormatter.RenderedListsFiles | RevitHelperBot.Application/Documents/DocumentSearchResultFormatter.cs:90-102 | every file of a node appears as its indented `- name` line, and each of its non-blank contexts two spaces deeper |
| DocumentSearchResultFormatter.FormatOk | RevitHelperBot.Application/Documents/DocumentSearchResultFormatter.cs:31-53 | nothing found gives the fixed message; otherwise the header, an empty line and the rendered tree of the hits, joined by LF with trailing white space cut |
| DocumentSearchResultFormatter.Format | RevitHelperBot.Application/Documents/DocumentSearchResultFormatter.cs:15-29 | the reply for each status, as `Formatted` says, whose meaning `FormattedMessages` states |
| DocumentSearchResultFormatter.HeaderFacts | RevitHelperBot.Application/Documents/DocumentSearchResultFormatter.cs:46 | the header starts with the total and ends in `)` exactly when the list was cut |
| DocumentSearchResultFormatter.FormattedOkFacts | RevitHelperBot.Application/Documents/DocumentSearchResultFormatter.cs:33-52 | an answer with nothing found is the fixed message; a found answer starts with its header, which the final trim leaves intact |
| DocumentSearchResultFormatter.JoinedKeepsHeader | RevitHelperBot.Application/Documents/DocumentSearchResultFormatter.cs:44-52 | a first line that does not end in white space survives the join with LF and the final `TrimEnd` |
| DocumentSearchResultFormatter.FormattedMessages | RevitHelperBot.Application/Documents/DocumentSearchResultFormatter.cs:19-28 | a short query's reply names the minimum and an empty index's reply names the folder of the options it is given, which the engine passes as configured; an error reply carries the message exactly when there is a non-blank one; a found answer is `FormattedOk` |
| PerfArguments.OptionFrom | RevitHelperBot.Perf/Program.cs:256-315 | a recognised argument is one of the `switch` labels, compared ordinally |
| PerfArguments.OptionFromAt | RevitHelperBot.Perf/Program.cs:256-315 | each label is the case taken for its own spelling, since no two labels are equal |
| PerfArguments.IntLabel | RevitHelperBot.Perf/Program.cs:268-309 | every integer option has its own `switch` label |
| PerfArguments.OptionNamesRecognised | RevitHelperBot.Perf/Program.cs:268-309 | every integer option is recognised under the name its messages use |
| PerfArguments.LabelSpelling | RevitHelperBot.Perf/Program.cs:262-309 | each option that takes a value is listed under the name passed to `ReadValue` or `ReadInt` |
| PerfArguments.RecognisedName | RevitHelperBot.Perf/Program.cs:262-309 | an argument recognised as an option that takes a value is spelled as that option's name |
| PerfArguments.WithInt | RevitHelperBot.Perf/Program.cs:268-309 | an integer option's case sets exactly its own field and no text or switch field |
| PerfArguments.WithIntKeepsOthers | RevitHelperBot.Perf/Program.cs:268-309 | setting one integer field leaves every other integer field unchanged |
| PerfArguments.Clamped | RevitHelperBot.Perf/Program.cs:318-329 | the clamps change no text or switch field |
| PerfArguments.ClampedField | RevitHelperBot.Perf/Program.cs:318-329 | after the clamps every integer field is at least 0 for documents and warm-up and at least 1 otherwise; values already in range are kept; lower values are raised to the floor |
| PerfArguments.TrimNumberStart | RevitHelperBot.Perf/Program.cs:366 | `int.TryParse` drops leading white space and keeps what follows |
| PerfArguments.TrimNumberEnd | RevitHelperBot.Perf/Program.cs:366 | `int.TryParse` drops trailing white space and keeps what precedes |
| PerfArguments.ParseInt | RevitHelperBot.Perf/Program.cs:366 | `int.TryParse` succeeds only with a 32-bit value |
| PerfArguments.DigitCharValue | RevitHelperBot.Perf/Program.cs:366 | each decimal digit is read as its value |
| PerfArguments.DigitsOfNat | RevitHelperBot.Perf/Program.cs:366 | reading the digits of a natural number gives that number |
| PerfArguments.TrimNumberNothing | RevitHelperBot.Perf/Program.cs:366 | text that neither starts nor ends with white space is read unchanged |
| PerfArguments.ParseIntOfDigits | RevitHelperBot.Perf/Program.cs:366 | unsigned digits are read as their value when it fits in 32 bits, and rejected otherwise |
| PerfArguments.ParseIntOfNegative | RevitHelperBot.Perf/Program.cs:366 | digits after `-` are read as the negated value when it fits in 32 bits |
| PerfArguments.ParseIntRoundTrip | RevitHelperBot.Perf/Program.cs:366 | every 32-bit integer written in decimal is read back as itself |
| PerfArguments.NextArg | RevitHelperBot.Perf/Program.cs:354-360 | the argument after position `i` exists exactly when `i + 1` is in range, and is that argument |
| PerfArguments.ValueOf | RevitHelperBot.Perf/Program.cs:352-361 | a missing value fails with `Missing value for <name>`; otherwise the value is the next argument |
| PerfArguments.IntValueOf | RevitHelperBot.Perf/Program.cs:363-372 | a missing value fails as in `ReadValue`; a value that is not a 32-bit integer fails with `Invalid int for <name>: <value>`; otherwise the value is the integer read |
| PerfArguments.Round | RevitHelperBot.Perf/Program.cs:256-315 | a case that takes a value needs an argument after it |
| PerfArguments.Second | RevitHelperBot.Perf/Program.cs:255-263 | the argument after the first one, when there is one |
| PerfArguments.Step | RevitHelperBot.Perf/Program.cs:253-316 | a round uses one or two arguments, never more than are left |
| PerfArguments.RoundIgnoresNext | RevitHelperBot.Perf/Program.cs:258-312 | a switch option does not look at the argument after it |
| PerfArguments.ApplyKeepsHelp | RevitHelperBot.Perf/Program.cs:256-315 | no case clears the help flag |
| PerfArguments.StepExtends | RevitHelperBot.Perf/Program.cs:253-316 | a successful round is unaffected by later arguments |
| PerfArguments.ParseFromUnfold | RevitHelperBot.Perf/Program.cs:253-316 | after a successful round the scan continues after the arguments that round used |
| PerfArguments.ParseFromAppend | RevitHelperBot.Perf/Program.cs:253-316 | after a successful scan of `args`, later arguments are scanned from the values it left |
| PerfArguments.StepOf | RevitHelperBot.Perf/Program.cs:255-315 | a round applies the case its argument is recognised as |
| PerfArguments.StepIntOption | RevitHelperBot.Perf/Program.cs:268-309 | an integer option and its value set that field to the integer read, or fail with `Invalid int` |
| PerfArguments.RoundIntValue | RevitHelperBot.Perf/Program.cs:268-309 | an integer option with a value sets its field or fails for an invalid integer |
| PerfArguments.LastValueWins | RevitHelperBot.Perf/Program.cs:253-329 | an integer option given last decides its field, after the clamp, whatever came before |
| PerfArguments.HelpKeepsScanning | RevitHelperBot.Perf/Program.cs:258-261 | `--help` sets the help flag and the scan continues with the following arguments |
| PerfArguments.HelpStays | RevitHelperBot.Perf/Program.cs:253-316 | once set, the help flag stays set |
| PerfArguments.UnknownArgumentThrows | RevitHelperBot.Perf/Program.cs:313-314 | an unknown argument reached by the scan fails with `Unknown argument: <arg>. Use --help.` |
| PerfArguments.MissingValueThrows | RevitHelperBot.Perf/Program.cs:354-357 | an option that takes a value, in last position, fails for its missing value |
| PerfArguments.InvalidIntThrows | RevitHelperBot.Perf/Program.cs:366-369 | an integer option whose value is not a 32-bit integer fails |
| PerfArguments.NoArgumentsGiveDefaults | RevitHelperBot.Perf/Program.cs:234-329 | with no arguments every value takes its default, and the parallelism is raised to at least one |
| PerfArguments.ParsedBounds | RevitHelperBot.Perf/Program.cs:318-329 | after any successful parse, documents and warm-up are at least 0 and every other count at least 1 |
| PerfArguments.ReadValue | RevitHelperBot.Perf/Program.cs:352-361 | takes the next argument and moves past it, or fails without moving |
| PerfArguments.ReadInt | RevitHelperBot.Perf/Program.cs:363-372 | `ReadValue`, then `int.TryParse`, with their failures |
| PerfArguments.StepAt | RevitHelperBot.Perf/Program.cs:253-316 | the round at position `i` is the `switch` on that argument and the one after it |
| PerfArguments.ScanArgument | RevitHelperBot.Perf/Program.cs:255-315 | one round of the `switch`: the case taken and the last argument used, or the failure |
| PerfArguments.Parse | RevitHelperBot.Perf/Program.cs:232-350 | the loop and the clamps give `Parsed`, whose meaning the lemmas above state |
| XmlEscape.Entity | RevitHelperBot.Perf/Program.cs:487-493 | a character becomes its entity, which starts with `&`, exactly when it is one of the five reserved characters; any other character is kept |
| XmlEscape.ReplaceAllAppend | RevitHelperBot.Perf/Program.cs:489-493 | each ordinal `Replace` of one character acts on the two parts of a concatenation separately |
| XmlEscape.ReplaceAllAbsent | RevitHelperBot.Perf/Program.cs:489-493 | a `Replace` leaves text without the character unchanged |
| XmlEscape.ReplaceAllSingle | RevitHelperBot.Perf/Program.cs:489-493 | a `Replace` on one character replaces it when it matches and keeps it otherwise |
| XmlEscape.EntityIsShaped | RevitHelperBot.Perf/Program.cs:489-493 | each of the five entities is `&` followed only by characters that are not reserved |
| XmlEscape.ReplaceAllInEntity | RevitHelperBot.Perf/Program.cs:490-493 | the replacements after the first find nothing to replace in an entity |
| XmlEscape.EscapeXmlAmp | RevitHelperBot.Perf/Program.cs:487-493 | `&` escapes to `&amp;` |
| XmlEscape.EscapeXmlLt | RevitHelperBot.Perf/Program.cs:487-493 | `<` escapes to `&lt;` |
| XmlEscape.EscapeXmlGt | RevitHelperBot.Perf/Program.cs:487-493 | `>` escapes to `&gt;` |
| XmlEscape.EscapeXmlQuot | RevitHelperBot.Perf/Program.cs:487-493 | `"` escapes to `&quot;` |
| XmlEscape.EscapeXmlApos | RevitHelperBot.Perf/Program.cs:487-493 | `'` escapes to `&apos;` |
| XmlEscape.EscapeXmlChar | RevitHelperBot.Perf/Program.cs:487-493 | the chain turns one character into its entity: no replacement touches what an earlier one wrote |
| XmlEscape.EscapeXmlAppend | RevitHelperBot.Perf/Program.cs:487-493 | the chain acts on the two parts of a concatenation separately |
| XmlEscape.EscapeXmlIsEscapeEach | RevitHelperBot.Perf/Program.cs:487-493 | since `&` is replaced first, the chain escapes each character on its own, so nothing is escaped twice |
| XmlEscape.EntityAt | RevitHelperBot.Perf/Program.cs:487-493 | an entity recognised at a position stands for a reserved character and is spelled there |
| XmlEscape.DiffersAt | RevitHelperBot.Perf/Program.cs:487-493 | a text that differs from a prefix at some position does not start with it |
| XmlEscape.EntityAtEntity | RevitHelperBot.Perf/Program.cs:487-493 | an entity at the front of a text is read as its own character, whatever follows |
| XmlEscape.EntityAtShift | RevitHelperBot.Perf/Program.cs:487-493 | what is recognised inside the second part of a concatenation does not depend on the first part |
| XmlEscape.EntityChars | RevitHelperBot.Perf/Program.cs:487-493 | only the leading `&` of an entity is reserved |
| XmlEscape.EntityThenNoRaw | RevitHelperBot.Perf/Program.cs:487-493 | an entity in front of well-escaped text adds no raw reserved character other than `&` |
| XmlEscape.EntityThenAmp | RevitHelperBot.Perf/Program.cs:487-493 | every `&` of an entity in front of well-escaped text starts an entity |
| XmlEscape.EntityThenWellEscaped | RevitHelperBot.Perf/Program.cs:487-493 | an entity in front of well-escaped text keeps it well escaped |
| XmlEscape.EscapeXmlWellEscaped | RevitHelperBot.Perf/Program.cs:487-493 | the output has no raw `<`, `>`, `"` or `'`, and every `&` in it starts one of the five entities |
| XmlEscape.UnescapeEntity | RevitHelperBot.Perf/Program.cs:487-493 | reading back an entity gives its character, followed by whatever came after it |
| XmlEscape.UnescapeEscapeXml | RevitHelperBot.Perf/Program.cs:487-493 | reading the five entities back gives exactly the original text |
| ConversationStateStore.InMemoryConversationStateStore.constructor | RevitHelperBot.Application/Conversation/InMemoryConversationStateStore.cs:7 | the store starts with no state for any chat |
| Ordering.SortBy | RevitHelperBot.Application/Documents/DocumentSearchService.cs:209-212 | `OrderBy` with `StringComparer.OrdinalIgnoreCase` gives its input, permuted, sorted by the upper-cased key |
| Ordering.SortByMembers | RevitHelperBot.Application/Documents/DocumentSearchService.cs:209-212 | sorting neither adds nor drops an element |
| Ordering.FoldKeyEquality | RevitHelperBot.Application/Documents/DocumentSearchService.cs:210 | two keys compare equal exactly when their strings are equal ignoring case |
| Ordering.LexLeTotal | RevitHelperBot.Application/Documents/DocumentSearchService.cs:210 | the ordinal comparison orders any two keys |
| Ordering.LexLeTransitive | RevitHelperBot.Application/Documents/DocumentSearchService.cs:210 | the ordinal comparison is transitive |
| Ordering.LexLeAntisymmetric | RevitHelperBot.Application/Documents/DocumentSearchService.cs:210 | keys ordered both ways are equal |
| Text.SplitOn | RevitHelperBot.Application/Documents/DocumentSearchService.cs:316 | a split without options gives at least one piece, and no piece holds the separator |
| Text.JoinSplitOn | RevitHelperBot.Application/Documents/DocumentSearchService.cs:316 | joining the pieces with the separator gives the text back |
| Text.TrimmedNonEmpty | RevitHelperBot.Application/Documents/DocumentSearchService.cs:291 | `TrimEntries` with `RemoveEmptyEntries` keeps only non-empty trimmed entries, never more than the pieces |
| Text.TrimmedNonEmptySound | RevitHelperBot.Application/Documents/DocumentSearchService.cs:291 | every entry is the trim of one of the pieces |
| Text.TrimmedNonEmptyComplete | RevitHelperBot.Application/Documents/DocumentSearchService.cs:291 | the trim of every non-blank piece is an entry |
| Text.TrimmedNonEmptyNoSeparator | RevitHelperBot.Application/Documents/DocumentSearchService.cs:291 | no entry holds the separator |
| Text.TrimmedNonEmptyIsFilterMap | RevitHelperBot.Application/Documents/DocumentSearchService.cs:316 | the entries of a split are the pieces kept by one trim-and-drop-empty step, in order |
| Text.TrimmedNonEmptyInOrder | RevitHelperBot.Application/Documents/DocumentSearchService.cs:316 | the entries are the trims of the non-blank pieces, one per such piece and in the pieces' order |
| Text.ReplaceLineEndings | RevitHelperBot.Application/Documents/DocumentSearchService.cs:315 | after `ReplaceLineEndings("\n")` every line ending is LF, the text is no longer, and text without line endings is unchanged |
| Text.ReplaceLineEndingsKeepsText | RevitHelperBot.Application/Documents/DocumentSearchService.cs:315 | every character that is not a line ending is kept, in order, and one LF is left per line break: a CR LF pair counts once, any other line-ending character once |
| Text.ReplaceLineEndingsAppend | RevitHelperBot.Application/Documents/DocumentSearchService.cs:315 | the replacement works piece by piece: two texts joined without a CR LF across the join give the two replaced texts joined |
| Text.ReplaceLineEndingsJoinsCrLf | RevitHelperBot.Application/Documents/DocumentSearchService.cs:315 | a CR LF pair formed by a join becomes a single LF |
| Text.ReplaceLineEndingsOfLf | RevitHelperBot.Application/Documents/DocumentSearchService.cs:315 | text whose only line endings are LF is unchanged |
| Text.TrimEmptyIffBlank | RevitHelperBot.Application/Documents/DocumentSearchService.cs:309 | a string trims to nothing exactly when it is blank |
| Text.TrimOfTrimmed | RevitHelperBot.Application/Documents/DocumentSearchService.cs:316 | trimming is idempotent, and a trimmed string is its own trim |

## Left out

- Concurrency: `Parallel.ForEachAsync`, `ConcurrentBag`, `ConcurrentDictionary` and the `SemaphoreSlim` reload lock. The build is a sequential loop in listing order, and a reload runs to completion before anything else reads the index.
- Cancellation tokens and logging.
- Zip and XML parsing (`ZipArchive`, `XmlReader`) and `OpenReadAsync`. The nodes of each part, or the part's absence, are an input.
- `Directory`, `File`, `Path.GetRelativePath`, `EnumerateFiles` and `AppContext.BaseDirectory`. The listing, the per-file outcomes, the exists and rooted predicates and `Path.Combine` are inputs.
- `DateTimeOffset.UtcNow`, which is the `now` parameter.
- `MiniExcel.Query` and `JsonSerializer`. Their rows and DTOs are inputs.
- The other exceptions the two repositories' `LoadScenario` can throw: `File.ReadAllText` or `JsonSerializer.Deserialize` on an unreadable or malformed file (`JsonScenarioRepository.cs:32-36`), `MiniExcel.Query` on an unreadable workbook (`ExcelScenarioRepository.cs:31`), and a `null` element of the DTO list or of a node's button list (`JsonScenarioRepository.cs:41` and `:47`). The model's DTO lists have no null elements and reading always succeeds, so a blank path and a missing file are the only failures; `ReloadData` accepts any failure from the repository.
- The `ScenarioService` constructor's own call of `LoadScenario` (`ScenarioService.cs:11-15`). The modelled constructor takes the first load's nodes, so a first load that throws, leaving no service at all, is not modelled.
- The candidate `HashSet` enumeration order, which .NET leaves unspecified. The model enumerates candidates in ascending document id. This only matters for paths that are equal ignoring case.
- Ordering.SortBy: its contract states sortedness and permutation but not the stability of `OrderBy`, although the definition is a stable insertion sort.
- `ArgumentNullException.ThrowIfNull` and null updates: model values are never null, and an absent string is `None`.
- Exceptions the engine rethrows from the state store or the sender. The collaborators here do not throw.
- The Telegram client: `TelegramResponses.Deliver` returns the call as a `Delivery` value instead of making it.
- Hosting and wiring: `Program.cs`, the polling `TelegramBotService`, `SimulationController`, dependency injection, the `*Options` binding, and the capturing and no-op senders.
- The DI scope and exception handling around `SimulationRunner.RunAsync`.
- `LocalizationService`. The welcome message is a field of the engine.
- The copies of `ExtractCommand` in `RevitHelperBot.Api/Program.cs:90-107` and `TelegramBotService.cs:96-113`, which are identical to the one in `SimulationRunner` and are modelled once.
- `StartsWith("/")` in `ExtractCommand` uses the current culture. The model compares ordinally.
- `int.TryParse`: the model uses the invariant culture (ASCII sign and digits, the space and U+0009 to U+000D around them). It leaves out culture-specific signs and trailing NUL characters.
- `Environment.ProcessorCount`, which is the `processorCount` parameter.
- The load tool's measurement and generation: floating point, `Stopwatch`, GC and memory snapshots, `FormatBytes`, `PercentileMs`, file I/O, `Random`, `DocxGenerator.Generate`, `BuildParagraphs`, `PickDistinctParagraphs` and `RandomWord`.
- Unicode tables beyond ASCII and Cyrillic, for letters, digits and case mapping.
