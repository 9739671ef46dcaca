/**
 * `ConversationEngine`: what the bot does with one update, given the chat
 * states, the scenario, the document search and the response sender.
 */
module Conversation {
  import opened Wrappers
  import opened Text
  import opened Entities
  import opened CaseInsensitiveDictionary
  import opened Scenario
  import opened DocumentSearch
  import opened DocumentSearchResultFormatter
  import opened ConversationStateStore
  import opened Messaging
  import opened HostFileSystem
  import opened WordDocumentsRepository

  const UnknownCommandMessage := "Неизвестная команда. Введите текст для поиска по документам или отправьте /start."

  /** `IsStartCommand`: the command is `/start` ignoring case. */
  predicate IsStartCommand(command: Option<string>) {
    command.Some? && EqualsIgnoreCase(command.value, "/start")
  }

  /** The response `SendNodeAsync` sends: the node's text and picture, and its buttons unless it has none. */
  function NodeResponse(node: DialogueNode): (r: BotResponse)
    ensures r.text == node.text && r.imageUrl == node.imageUrl
    ensures r.buttons.None? <==> node.buttons == []
    ensures r.buttons.Some? ==> r.buttons.value == node.buttons
  {
    BotResponse(node.text, if |node.buttons| == 0 then None else Some(node.buttons), node.imageUrl)
  }

  /** Which branch of `HandleAsync` an update takes. */
  datatype Route =
    | StartNode(node: DialogueNode)
    | Welcome
    | CallbackNode(node: DialogueNode)
    | Ignored
    | UnknownCommand
    | SearchDocuments(text: string)

  /**
   * The start command first; then a non-blank callback, whose node is shown
   * when it exists; then blank text is ignored, text starting with `/` is an
   * unknown command, and any other text is a search.
   */
  function RouteOf(update: BotUpdate, cache: NodeMap): Route {
    if IsStartCommand(update.command) then
      match Get(cache, "start")
      case Some(node) => StartNode(node)
      case None => Welcome
    else if update.callbackData.Some? && !IsBlank(update.callbackData.value) then
      match Get(cache, update.callbackData.value)
      case Some(node) => CallbackNode(node)
      case None => Ignored
    else TextRoute(update.text)
  }

  /** An update that is neither the start command nor a button press: blank text is ignored, a command is unknown, other text is searched for. */
  function TextRoute(text: Option<string>): Route {
    if text.None? || IsBlank(text.value) then Ignored
    else if StartsWith(text.value, "/") then UnknownCommand
    else SearchDocuments(text.value)
  }

  /** The chat states after an update has taken `route`: only the update's chat is written, and only when something is shown or searched. */
  function StateAfter(chatId: int, route: Route, stateByChat: map<int, ConversationState>): map<int, ConversationState> {
    match route
    case StartNode(_) => stateByChat[chatId := TopicSelection]
    case Welcome => stateByChat[chatId := TopicSelection]
    case CallbackNode(_) => stateByChat[chatId := InDialogue]
    case SearchDocuments(_) => stateByChat[chatId := InDialogue]
    case Ignored => stateByChat
    case UnknownCommand => stateByChat
  }

  /** The response an update that took `route` sends; `searchReply` is the formatted search result. */
  function Reply(route: Route, welcomeMessage: string, searchReply: string): Option<BotResponse> {
    match route
    case StartNode(node) => Some(NodeResponse(node))
    case Welcome => Some(BotResponse(welcomeMessage, None, None))
    case CallbackNode(node) => Some(NodeResponse(node))
    case Ignored => None
    case UnknownCommand => Some(BotResponse(UnknownCommandMessage, None, None))
    case SearchDocuments(_) => Some(BotResponse(searchReply, None, None))
  }

  /** What the sender is given for a response, if there is one. */
  function Sent(chatId: int, response: Option<BotResponse>): seq<(int, BotResponse)> {
    match response
    case Some(r) => [(chatId, r)]
    case None => []
  }

  /**
   * The settings the search service runs with when it and the result
   * formatter are given the same `DocumentsOptions`: the service reports the
   * root the repository resolved the configured one to.
   */
  function ServiceSettings(host: FileSystem, options: Settings): Settings {
    options.(rootPath := ResolveDirectoryPath(host, options.rootPath))
  }

  /** A search for `text`: the result formatted with the formatter's options, and the search's new state. */
  function SearchReply(options: Settings, settings: Settings, text: string, state: ServiceState,
                       listing: Result<seq<ExtractedFile>, string>, now: Timestamp): (string, ServiceState)
    requires Consistent(settings, state)
  {
    var (result, after) := SearchOutcome(settings, text, state, listing, now);
    (Formatted(options, result), after)
  }

  /**
   * With the service and the formatter wired to the same options, a reply
   * about an empty index names the configured folder, as it was written in
   * the options, while the search's status reports the resolved root; a
   * reply about a short query names the configured minimum.
   */
  lemma SearchReplyFolders(host: FileSystem, options: Settings, text: string, state: ServiceState,
                           listing: Result<seq<ExtractedFile>, string>, now: Timestamp)
    requires Consistent(ServiceSettings(host, options), state)
    ensures var settings := ServiceSettings(host, options);
      var (result, after) := SearchOutcome(settings, text, state, listing, now);
      var reply := SearchReply(options, settings, text, state, listing, now).0;
      && (result.status == IndexEmpty ==>
            reply == "Документы не найдены. Положите файлы .docx в папку \"" + options.rootPath + "\" и выполните /reindex."
            && Contains(reply, options.rootPath))
      && (result.status == QueryTooShort ==> Contains(reply, IntToString(options.minQueryLength)))
      && after.status.rootPath == ResolveDirectoryPath(host, options.rootPath)
  {
    var settings := ServiceSettings(host, options);
    var (result, after) := SearchOutcome(settings, text, state, listing, now);
    FormattedMessages(options, result);
    SearchReplyFacts(options, settings, text, state, listing, now);
  }

  /**
   * The start command always wins and shows the `start` node when there is
   * one; a non-blank callback comes next and shows only an existing node; a
   * search runs exactly for non-blank text not starting with `/` when there
   * is neither; text starting with `/` is then an unknown command.
   */
  lemma RouteFacts(update: BotUpdate, cache: NodeMap)
    ensures IsStartCommand(update.command) ==>
      (RouteOf(update, cache).StartNode? && Get(cache, "start") == Some(RouteOf(update, cache).node))
      || (RouteOf(update, cache) == Welcome && Get(cache, "start") == None)
    ensures RouteOf(update, cache).CallbackNode? ==>
      !IsStartCommand(update.command) && update.callbackData.Some?
      && Get(cache, update.callbackData.value) == Some(RouteOf(update, cache).node)
    ensures RouteOf(update, cache).SearchDocuments? <==>
      && !IsStartCommand(update.command)
      && (update.callbackData.None? || IsBlank(update.callbackData.value))
      && update.text.Some? && !IsBlank(update.text.value) && !StartsWith(update.text.value, "/")
    ensures RouteOf(update, cache).SearchDocuments? ==> RouteOf(update, cache).text == update.text.value
    ensures RouteOf(update, cache) == UnknownCommand <==>
      && !IsStartCommand(update.command)
      && (update.callbackData.None? || IsBlank(update.callbackData.value))
      && update.text.Some? && !IsBlank(update.text.value) && StartsWith(update.text.value, "/")
  {
  }

  /**
   * Only the update's chat can change state: to `TopicSelection` on the
   * start command, to `InDialogue` otherwise, and to `InDialogue` on every
   * search. Nothing is sent exactly when the update is ignored, and then no
   * state changes; an unknown command changes no state either. A response
   * carries buttons only when it shows a node that has some, and a search
   * sends exactly the formatted result.
   */
  lemma ReplyFacts(update: BotUpdate, cache: NodeMap, stateByChat: map<int, ConversationState>, welcomeMessage: string, searchReply: string)
    ensures var route := RouteOf(update, cache);
      var after := StateAfter(update.chatId, route, stateByChat);
      var response := Reply(route, welcomeMessage, searchReply);
      && (after == stateByChat
          || after == stateByChat[update.chatId := if IsStartCommand(update.command) then TopicSelection else InDialogue])
      && (IsStartCommand(update.command) ==> StateOf(after, update.chatId) == TopicSelection && response.Some?)
      && (response.None? <==> route == Ignored)
      && (route == Ignored || route == UnknownCommand ==> after == stateByChat)
      && (response.Some? && response.value.buttons.Some? ==>
            (route.StartNode? || route.CallbackNode?) && response.value.buttons.value == route.node.buttons != [])
      && (route.SearchDocuments? ==>
            StateOf(after, update.chatId) == InDialogue && response == Some(BotResponse(searchReply, None, None)))
  {
  }

  /** A search leaves the index consistent and ready, and keeps its state when the query is too short or the index was ready. */
  lemma SearchReplyFacts(options: Settings, settings: Settings, text: string, state: ServiceState,
                         listing: Result<seq<ExtractedFile>, string>, now: Timestamp)
    requires Consistent(settings, state)
    ensures var (_, after) := SearchReply(options, settings, text, state, listing, now);
      && Consistent(settings, after)
      && (state.status.isReady ==> after == state)
  {
    ReloadOutcomes(settings, state, false, listing, now);
    SearchKeepsReadyState(settings, text, state, listing, now);
  }

  class ConversationEngine {
    const stateStore: InMemoryConversationStateStore
    const sender: ResponseLog
    const scenario: ScenarioService
    const search: DocumentSearchService
    /** The localization service's welcome message. */
    const welcomeMessage: string
    /** The configured `DocumentsOptions` the result formatter reads. */
    const formatterOptions: Settings
    /** The host on which the documents repository resolved its root. */
    ghost const host: FileSystem

    /** The search service runs on the formatter's options, with the repository's resolved root. */
    ghost predicate Valid()
      reads this, search
    {
      && search.Valid()
      && search.settings == ServiceSettings(host, formatterOptions)
    }

    constructor(stateStore: InMemoryConversationStateStore, welcomeMessage: string, sender: ResponseLog,
                scenario: ScenarioService, search: DocumentSearchService, formatterOptions: Settings, ghost host: FileSystem)
      requires search.Valid() && search.settings == ServiceSettings(host, formatterOptions)
      ensures Valid()
      ensures this.stateStore == stateStore && this.welcomeMessage == welcomeMessage && this.sender == sender
      ensures this.scenario == scenario && this.search == search
      ensures this.formatterOptions == formatterOptions && this.host == host
    {
      this.stateStore := stateStore;
      this.welcomeMessage := welcomeMessage;
      this.sender := sender;
      this.scenario := scenario;
      this.search := search;
      this.formatterOptions := formatterOptions;
      this.host := host;
    }

    /**
     * `HandleAsync`: the update's route decides the chat's new state and the
     * one response sent, if any; only a search touches the document index.
     */
    method Handle(update: BotUpdate, listing: Result<seq<ExtractedFile>, string>, now: Timestamp)
      requires Valid()
      modifies stateStore, sender, search
      ensures Valid()
      ensures var route := RouteOf(update, scenario.cache);
        stateStore.stateByChat == StateAfter(update.chatId, route, old(stateStore.stateByChat))
      ensures var route := RouteOf(update, scenario.cache);
        !route.SearchDocuments? ==>
          && ServiceState(search.index, search.status) == old(ServiceState(search.index, search.status))
          && sender.sent == old(sender.sent) + Sent(update.chatId, Reply(route, welcomeMessage, ""))
      ensures var route := RouteOf(update, scenario.cache);
        route.SearchDocuments? ==>
          ServiceState(search.index, search.status)
            == SearchReply(formatterOptions, search.settings, route.text, old(ServiceState(search.index, search.status)), listing, now).1
      ensures var route := RouteOf(update, scenario.cache);
        route.SearchDocuments? ==>
          sender.sent == old(sender.sent) + Sent(update.chatId, Reply(route, welcomeMessage,
            SearchReply(formatterOptions, search.settings, route.text, old(ServiceState(search.index, search.status)), listing, now).0))
    {
      var route := Decide(update);
      if route.SearchDocuments? {
        ghost var reply := SearchReply(formatterOptions, search.settings, route.text, ServiceState(search.index, search.status), listing, now).0;
        assert Sent(update.chatId, Reply(route, welcomeMessage, reply)) == [(update.chatId, BotResponse(reply, None, None))];
        HandleSearch(update.chatId, route.text, listing, now);
      } else {
        Respond(update.chatId, route);
      }
    }

    /** The tests of `HandleAsync`, in its order, with the scenario lookups they make. */
    method Decide(update: BotUpdate) returns (route: Route)
      ensures route == RouteOf(update, scenario.cache)
    {
      if IsStartCommand(update.command) {
        var rootNode := scenario.GetNode("start");
        if rootNode.Some? {
          return StartNode(rootNode.value);
        }
        return Welcome;
      }
      if update.callbackData.Some? && !IsBlank(update.callbackData.value) {
        var node := scenario.GetNode(update.callbackData.value);
        if node.Some? {
          return CallbackNode(node.value);
        }
        return Ignored;
      }
      if update.text.None? || IsBlank(update.text.value) {
        return Ignored;
      }
      if StartsWith(update.text.value, "/") {
        return UnknownCommand;
      }
      return SearchDocuments(update.text.value);
    }

    /** What `HandleAsync` does on every route but a search: one state write at most, then one response at most. */
    method Respond(chatId: int, route: Route)
      requires !route.SearchDocuments?
      modifies stateStore, sender
      ensures stateStore.stateByChat == StateAfter(chatId, route, old(stateStore.stateByChat))
      ensures sender.sent == old(sender.sent) + Sent(chatId, Reply(route, welcomeMessage, ""))
    {
      match route
      case StartNode(node) =>
        stateStore.SetState(chatId, TopicSelection);
        SendNode(chatId, node);
      case Welcome =>
        stateStore.SetState(chatId, TopicSelection);
        sender.Send(chatId, BotResponse(welcomeMessage, None, None));
      case CallbackNode(node) =>
        stateStore.SetState(chatId, InDialogue);
        SendNode(chatId, node);
      case Ignored =>
      case UnknownCommand =>
        sender.Send(chatId, BotResponse(UnknownCommandMessage, None, None));
    }

    /** Free text: the chat is in a dialogue, the documents are searched and the formatted result is sent. */
    method HandleSearch(chatId: int, text: string, listing: Result<seq<ExtractedFile>, string>, now: Timestamp)
      requires Valid()
      modifies stateStore, sender, search
      ensures Valid()
      ensures stateStore.stateByChat == old(stateStore.stateByChat)[chatId := InDialogue]
      ensures ServiceState(search.index, search.status)
        == SearchReply(formatterOptions, search.settings, text, old(ServiceState(search.index, search.status)), listing, now).1
      ensures sender.sent == old(sender.sent) +
        [(chatId, BotResponse(SearchReply(formatterOptions, search.settings, text, old(ServiceState(search.index, search.status)), listing, now).0, None, None))]
    {
      ghost var outcome := SearchReply(formatterOptions, search.settings, text, ServiceState(search.index, search.status), listing, now);
      stateStore.SetState(chatId, InDialogue);
      var searchResult := search.Search(text, listing, now);
      var responseText := Format(formatterOptions, searchResult);
      assert responseText == outcome.0;
      sender.Send(chatId, BotResponse(responseText, None, None));
    }

    /** `SendNodeAsync`. */
    method SendNode(chatId: int, node: DialogueNode)
      modifies sender
      ensures sender.sent == old(sender.sent) + [(chatId, NodeResponse(node))]
    {
      var buttons := if |node.buttons| == 0 then None else Some(node.buttons);
      sender.Send(chatId, BotResponse(node.text, buttons, node.imageUrl));
    }
  }
}
