/**
 * `SimulationRunner`: the web simulator's way into the bot. A request is
 * turned into a `BotUpdate` (the command taken from the text, a missing
 * sender and user name filled in), and the responses the bot sent are
 * turned into the messages the simulator shows.
 */
module Simulation {
  import opened Wrappers
  import opened Chars
  import opened Text
  import opened Entities

  /** `SimulateRequest`; `None` stands for a null field. */
  datatype SimulateRequest = SimulateRequest(
    chatId: int,
    senderId: Option<int>,
    username: Option<string>,
    text: Option<string>,
    callbackData: Option<string>)

  datatype SimulateButton = SimulateButton(text: string, nextNodeId: string)

  datatype SimulateMessage = SimulateMessage(text: string, imageUrl: Option<string>, buttons: seq<SimulateButton>)

  const DefaultUsername := "web-user"

  /** `ExtractCommand`: for text starting with `/`, its first space-separated entry, trimmed and lower-cased. */
  function ExtractCommand(messageText: Option<string>): Option<string> {
    if messageText.None? || IsBlank(messageText.value) then None
    else if StartsWith(messageText.value, "/") then
      var entries := SplitEntries(messageText.value, ' ');
      if entries == [] then None else Some(Lower(entries[0]))
    else None
  }

  /** The characters before the first space, or the whole text when it has none. */
  function FirstWord(text: string): (w: string)
    ensures ' ' !in w
    ensures StartsWith(text, w)
    ensures |w| < |text| ==> text[|w|] == ' '
  {
    if ' ' in text then text[..IndexOf(text, ' ')] else text
  }

  /** A word that starts with a character other than white space keeps it under `Trim`, and `Trim` only cuts its end. */
  lemma TrimKeepsLead(w: string)
    requires w != [] && !IsWhiteSpace(w[0])
    ensures Trim(w) == TrimEnd(w) && Trim(w) != [] && Trim(w)[0] == w[0]
  {
    assert TrimStart(w) == w;
  }

  /** The lower case of a word led by `/`, without its trailing white space, is led by `/`, holds no space and is in lower case. */
  lemma CommandWordFacts(w: string)
    requires w != [] && w[0] == '/' && ' ' !in w
    ensures var command := Lower(TrimEnd(w));
      && command != [] && command[0] == '/'
      && ' ' !in command
      && Lower(command) == command
  {
    TrimKeepsLead(w);
    var t := TrimEnd(w);
    assert ' ' !in t by {
      assert t == w[..|t|];
    }
    LowerNoSpace(t);
    LowerIdempotent(t);
    assert Lower(t)[0] == ToLower('/');
  }

  /** From a text led by `/`, the first entry of the split on spaces is its first word without trailing white space. */
  lemma FirstEntry(text: string)
    requires StartsWith(text, "/")
    ensures FirstWord(text) != [] && FirstWord(text)[0] == '/'
    ensures SplitEntries(text, ' ') != [] && SplitEntries(text, ' ')[0] == TrimEnd(FirstWord(text))
  {
    var w := FirstWord(text);
    assert text[0] == '/';
    var parts := SplitOn(text, ' ');
    assert parts[0] == w;
    assert w[0] == '/';
    TrimKeepsLead(w);
    assert SplitEntries(text, ' ') == [Trim(w)] + TrimmedNonEmpty(parts[1..]);
  }

  /**
   * No command comes from a missing or blank text, nor from one that does
   * not start with `/`. From any other text the command is its first word,
   * with trailing white space cut off, lower-cased: it starts with `/`,
   * holds no space and is already in lower case.
   */
  lemma ExtractCommandFacts(messageText: Option<string>)
    ensures messageText.None? || IsBlank(messageText.value) ==> ExtractCommand(messageText) == None
    ensures messageText.Some? && !StartsWith(messageText.value, "/") ==> ExtractCommand(messageText) == None
    ensures messageText.Some? && StartsWith(messageText.value, "/") ==>
      var command := ExtractCommand(messageText);
      && command == Some(Lower(TrimEnd(FirstWord(messageText.value))))
      && command.value != [] && command.value[0] == '/'
      && ' ' !in command.value
      && Lower(command.value) == command.value
  {
    if messageText.Some? && StartsWith(messageText.value, "/") {
      var text := messageText.value;
      FirstEntry(text);
      CommandWordFacts(FirstWord(text));
    }
  }

  /** The update `RunAsync` hands to the bot: the sender defaults to the chat and the user name to `web-user`. */
  function UpdateOf(request: SimulateRequest): (update: BotUpdate)
    ensures update.chatId == request.chatId
    ensures update.senderId == (if request.senderId.Some? then request.senderId.value else request.chatId)
    ensures update.username == Some(if request.username.Some? then request.username.value else DefaultUsername)
    ensures update.text == request.text && update.callbackData == request.callbackData
    ensures update.command == ExtractCommand(request.text)
  {
    BotUpdate(request.chatId, request.senderId.GetOr(request.chatId), Some(request.username.GetOr(DefaultUsername)),
              request.text, ExtractCommand(request.text), request.callbackData)
  }

  function ButtonOf(option: ButtonOption): SimulateButton {
    SimulateButton(option.text, option.nextNodeId)
  }

  /** The message shown for one response: no keyboard shows as an empty list of buttons. */
  function MessageOf(response: BotResponse): SimulateMessage {
    var buttons := if response.buttons.None? then [] else response.buttons.value;
    SimulateMessage(response.text, response.imageUrl, seq(|buttons|, k requires 0 <= k < |buttons| => ButtonOf(buttons[k])))
  }

  /** The messages of `RunAsync`, one per captured response. */
  function Messages(responses: seq<BotResponse>): (messages: seq<SimulateMessage>)
    ensures |messages| == |responses|
    ensures forall k | 0 <= k < |responses| :: messages[k] == MessageOf(responses[k])
  {
    if responses == [] then [] else [MessageOf(responses[0])] + Messages(responses[1..])
  }

  /** The response a message shows, read back; its buttons are always a list. */
  function ResponseOf(message: SimulateMessage): BotResponse {
    var buttons := message.buttons;
    BotResponse(message.text, Some(seq(|buttons|, k requires 0 <= k < |buttons| => ButtonOption(buttons[k].text, buttons[k].nextNodeId))), message.imageUrl)
  }

  /**
   * A message keeps everything of its response except the difference
   * between no keyboard and an empty one: reading it back gives the
   * response itself when it had buttons, and an empty button list when it
   * had none.
   */
  lemma MessageRoundTrip(response: BotResponse)
    ensures response.buttons.Some? ==> ResponseOf(MessageOf(response)) == response
    ensures response.buttons.None? ==> ResponseOf(MessageOf(response)) == response.(buttons := Some([]))
  {
    var back := ResponseOf(MessageOf(response));
    if response.buttons.Some? {
      var options := response.buttons.value;
      assert |back.buttons.value| == |options|;
      forall k | 0 <= k < |options|
        ensures back.buttons.value[k] == options[k]
      {
        assert MessageOf(response).buttons[k] == ButtonOf(options[k]);
      }
      assert back.buttons.value == options;
    } else {
      assert back.buttons.value == [];
    }
  }

  /** Two responses show as the same message exactly when they agree once no keyboard is read as an empty one. */
  lemma MessageOfSame(a: BotResponse, b: BotResponse)
    ensures MessageOf(a) == MessageOf(b) <==>
      a.text == b.text && a.imageUrl == b.imageUrl && a.buttons.GetOr([]) == b.buttons.GetOr([])
  {
    MessageRoundTrip(a);
    MessageRoundTrip(b);
    if MessageOf(a) == MessageOf(b) {
      assert ResponseOf(MessageOf(a)) == ResponseOf(MessageOf(b));
    }
  }
}
