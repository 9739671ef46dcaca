/**
 * `BotUpdateService`: the entry point for every update. The `/reload` and
 * `/reindex` commands rebuild the scenario and the document index for an
 * administrator; every other update goes to the conversation engine.
 */
module BotUpdates {
  import opened Wrappers
  import opened Text
  import opened Entities
  import opened CaseInsensitiveDictionary
  import opened Scenario
  import opened DocumentSearch
  import opened ConversationStateStore
  import opened Messaging
  import opened Conversation

  const DenyMessage := "⛔ Доступ запрещён."

  /** `IsReloadCommand`: the command is `/reload` ignoring case; a missing command is not. */
  predicate IsReloadCommand(command: Option<string>) {
    command.Some? && EqualsIgnoreCase(command.value, "/reload")
  }

  /** `IsReindexCommand`: the command is `/reindex` ignoring case. */
  predicate IsReindexCommand(command: Option<string>) {
    command.Some? && EqualsIgnoreCase(command.value, "/reindex")
  }

  /** Whether the update goes to `HandleReindexAsync` rather than to the engine. */
  predicate IsReindexRequest(command: Option<string>) {
    IsReloadCommand(command) || IsReindexCommand(command)
  }

  /** A scenario reload throws when loading fails or the loaded keys clash ignoring case. */
  predicate ScenarioReloadFails(loaded: Result<NodeMap, Error>) {
    loaded.Failure? || !CaseInsensitiveDictionary.DistinctKeys(loaded.value)
  }

  /** The `errors` list of `HandleReindexAsync`, filled by the two reloads in turn. */
  function ReindexErrors(scenarioFailed: bool, documentsFailed: bool): (errors: seq<string>)
    ensures "scenario" in errors <==> scenarioFailed
    ensures "documents" in errors <==> documentsFailed
    ensures |errors| == (if scenarioFailed then 1 else 0) + (if documentsFailed then 1 else 0)
    ensures scenarioFailed && documentsFailed ==> errors[0] == "scenario" && errors[1] == "documents"
  {
    (if scenarioFailed then ["scenario"] else []) + (if documentsFailed then ["documents"] else [])
  }

  function DocumentsTail(documentCount: int): string {
    "Документов: " + IntToString(documentCount) + "."
  }

  /** The reply to an administrator: the success form when nothing failed, else the failures joined by commas. */
  function ReindexMessage(errors: seq<string>, documentCount: int): string {
    if |errors| == 0 then "✅ Индекс обновлён. " + DocumentsTail(documentCount)
    else "⚠️ Обновление завершилось с ошибками (" + Join(errors, ", ") + "). " + DocumentsTail(documentCount)
  }

  /**
   * The reply starts with the success mark exactly when nothing failed,
   * names the failures in order otherwise, and always ends with the
   * document count.
   */
  lemma ReindexMessageForms(errors: seq<string>, documentCount: int)
    ensures var m := ReindexMessage(errors, documentCount);
      var tail := DocumentsTail(documentCount);
      && |m| > |tail|
      && m[|m| - |tail|..] == tail
      && (m[0] == '✅' <==> errors == [])
      && (errors != [] ==> StartsWith(m, "⚠️ Обновление завершилось с ошибками (" + Join(errors, ", ") + ")"))
  {
    var m := ReindexMessage(errors, documentCount);
    var tail := DocumentsTail(documentCount);
    if errors == [] {
      var head := "✅ Индекс обновлён. ";
      assert m == head + tail;
      assert m[|m| - |tail|..] == tail;
    } else {
      var head := "⚠️ Обновление завершилось с ошибками (" + Join(errors, ", ") + "). ";
      assert m == head + tail;
      assert m[|m| - |tail|..] == tail;
      assert m[0] == '⚠';
      var lead := "⚠️ Обновление завершилось с ошибками (" + Join(errors, ", ") + ")";
      assert head == lead + ". ";
      assert m[..|lead|] == lead;
    }
  }

  /** With only the scenario failing, the reply names just the scenario. */
  lemma ScenarioFailureMessage(documentCount: int)
    ensures ReindexMessage(ReindexErrors(true, false), documentCount)
      == "⚠️ Обновление завершилось с ошибками (scenario). " + DocumentsTail(documentCount)
  {
    assert ReindexErrors(true, false) == ["scenario"];
    assert Join(["scenario"], ", ") == "scenario";
  }

  class BotUpdateService {
    const engine: ConversationEngine
    const scenario: ScenarioService
    const search: DocumentSearchService
    const sender: ResponseLog
    /** `AdminOptions.AllowedUserIds`. */
    const allowedUserIds: seq<int>

    /** The services the engine uses are the ones this service reloads, as the host wires them. */
    ghost predicate Valid()
      reads this, engine, search, scenario
    {
      && engine.search == search
      && engine.scenario == scenario
      && engine.sender == sender
      && engine.Valid()
      && scenario.Valid()
      && engine.stateStore as object !in {sender as object, search as object, scenario as object}
    }

    constructor(engine: ConversationEngine, allowedUserIds: seq<int>)
      requires engine.Valid() && engine.scenario.Valid()
      ensures Valid()
      ensures this.engine == engine && this.allowedUserIds == allowedUserIds
    {
      this.engine := engine;
      this.scenario := engine.scenario;
      this.search := engine.search;
      this.sender := engine.sender;
      this.allowedUserIds := allowedUserIds;
    }

    /** `IsAdmin`: the sender is one of the allowed user ids. */
    predicate IsAdmin(senderId: int)
      reads this
    {
      senderId in allowedUserIds
    }

    /**
     * `HandleUpdateAsync`. A reload or reindex command never reaches the
     * engine and leaves every chat's state alone; any other update is
     * handled by the engine, with the scenario as it is. `loaded` is what
     * the scenario repository gives on a reload, `listing` what the
     * documents repository lists.
     */
    method HandleUpdate(update: BotUpdate, loaded: Result<NodeMap, Error>,
                        listing: Result<seq<ExtractedFile>, string>, now: Timestamp)
      requires Valid()
      modifies engine.stateStore, sender, search, scenario
      ensures Valid()
      ensures IsReindexRequest(update.command) ==>
        && engine.stateStore.stateByChat == old(engine.stateStore.stateByChat)
        && ReindexEffect(update, loaded, listing, now, old(scenario.cache), old(ServiceState(search.index, search.status)), old(sender.sent))
      ensures !IsReindexRequest(update.command) ==> scenario.cache == old(scenario.cache)
      ensures var route := RouteOf(update, engine.scenario.cache);
        !IsReindexRequest(update.command) ==>
          engine.stateStore.stateByChat == StateAfter(update.chatId, route, old(engine.stateStore.stateByChat))
      ensures var route := RouteOf(update, engine.scenario.cache);
        !IsReindexRequest(update.command) && !route.SearchDocuments? ==>
          && ServiceState(engine.search.index, engine.search.status) == old(ServiceState(engine.search.index, engine.search.status))
          && engine.sender.sent == old(engine.sender.sent) + Sent(update.chatId, Reply(route, engine.welcomeMessage, ""))
      ensures var route := RouteOf(update, engine.scenario.cache);
        !IsReindexRequest(update.command) && route.SearchDocuments? ==>
          ServiceState(engine.search.index, engine.search.status)
            == SearchReply(engine.formatterOptions, engine.search.settings, route.text, old(ServiceState(engine.search.index, engine.search.status)), listing, now).1
      ensures var route := RouteOf(update, engine.scenario.cache);
        !IsReindexRequest(update.command) && route.SearchDocuments? ==>
          engine.sender.sent == old(engine.sender.sent) + Sent(update.chatId, Reply(route, engine.welcomeMessage,
            SearchReply(engine.formatterOptions, engine.search.settings, route.text, old(ServiceState(engine.search.index, engine.search.status)), listing, now).0))
    {
      if IsReloadCommand(update.command) || IsReindexCommand(update.command) {
        HandleReindex(update, loaded, listing, now);
        return;
      }
      engine.Handle(update, listing, now);
    }

    /** A sender who is not an administrator gets one refusal, and nothing is reloaded. */
    ghost predicate DeniedEffect(update: BotUpdate, cache0: NodeMap, state0: ServiceState, sent0: seq<(int, BotResponse)>)
      reads this, scenario, search, sender
    {
      && scenario.cache == cache0
      && ServiceState(search.index, search.status) == state0
      && sender.sent == sent0 + [(update.chatId, BotResponse(DenyMessage, None, None))]
    }

    /**
     * For an administrator: the scenario reloaded, then the documents, then
     * one reply naming what failed and the document count after the reload.
     */
    ghost predicate AdminEffect(update: BotUpdate, loaded: Result<NodeMap, Error>,
                                listing: Result<seq<ExtractedFile>, string>, now: Timestamp,
                                cache0: NodeMap, state0: ServiceState, sent0: seq<(int, BotResponse)>)
      reads this, scenario, search, sender
    {
      && scenario.cache == (if ScenarioReloadFails(loaded) then cache0 else loaded.value)
      && ServiceState(search.index, search.status) == Reloaded(search.settings, state0, true, listing, now)
      && sender.sent == sent0 + [(update.chatId, BotResponse(
           ReindexMessage(ReindexErrors(ScenarioReloadFails(loaded), false), search.status.documentCount), None, None))]
    }

    /** What `HandleReindexAsync` leaves behind. */
    ghost predicate ReindexEffect(update: BotUpdate, loaded: Result<NodeMap, Error>,
                                  listing: Result<seq<ExtractedFile>, string>, now: Timestamp,
                                  cache0: NodeMap, state0: ServiceState, sent0: seq<(int, BotResponse)>)
      reads this, scenario, search, sender
    {
      if IsAdmin(update.senderId) then AdminEffect(update, loaded, listing, now, cache0, state0, sent0)
      else DeniedEffect(update, cache0, state0, sent0)
    }

    /** `HandleReindexAsync`. */
    method HandleReindex(update: BotUpdate, loaded: Result<NodeMap, Error>,
                         listing: Result<seq<ExtractedFile>, string>, now: Timestamp)
      requires Valid()
      modifies sender, search, scenario
      ensures Valid()
      ensures ReindexEffect(update, loaded, listing, now, old(scenario.cache), old(ServiceState(search.index, search.status)), old(sender.sent))
    {
      if !IsAdmin(update.senderId) {
        sender.Send(update.chatId, BotResponse(DenyMessage, None, None));
        return;
      }
      Reindex(update, loaded, listing, now);
    }

    /**
     * The administrator's part of `HandleReindexAsync`: both reloads are
     * attempted, the scenario first. The documents reload records its own
     * failures in the index status instead of throwing, so only the scenario
     * can end up in the error list.
     */
    method Reindex(update: BotUpdate, loaded: Result<NodeMap, Error>,
                   listing: Result<seq<ExtractedFile>, string>, now: Timestamp)
      requires Valid()
      modifies sender, search, scenario
      ensures Valid()
      ensures AdminEffect(update, loaded, listing, now, old(scenario.cache), old(ServiceState(search.index, search.status)), old(sender.sent))
    {
      var errors: seq<string> := [];
      var outcome := scenario.ReloadData(loaded);
      if outcome.Failure? {
        errors := errors + ["scenario"];
      }
      search.Reload(listing, now);
      var indexStatus := search.GetStatus();
      var message := ReindexMessage(errors, indexStatus.documentCount);
      assert errors == ReindexErrors(ScenarioReloadFails(loaded), false);
      sender.Send(update.chatId, BotResponse(message, None, None));
    }
  }
}
