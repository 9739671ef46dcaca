/** `InMemoryConversationStateStore`: the conversation state of every chat, by chat id. */
module ConversationStateStore {
  import opened Entities

  /** What the store answers for `chatId`: the stored state, or `Unset` for a chat never written. */
  function StateOf(stateByChat: map<int, ConversationState>, chatId: int): ConversationState {
    if chatId in stateByChat then stateByChat[chatId] else Unset
  }

  /**
   * A chat never written reads `Unset`; a read after a write of the same
   * chat gives the value written; a write leaves every other chat as it
   * was; and of two writes to one chat the later one is kept.
   */
  lemma StoreLaws(stateByChat: map<int, ConversationState>, chatId: int, other: int, first: ConversationState, second: ConversationState)
    ensures chatId !in stateByChat ==> StateOf(stateByChat, chatId) == Unset
    ensures StateOf(stateByChat[chatId := first], chatId) == first
    ensures other != chatId ==> StateOf(stateByChat[chatId := first], other) == StateOf(stateByChat, other)
    ensures stateByChat[chatId := first][chatId := second] == stateByChat[chatId := second]
  {
  }

  class InMemoryConversationStateStore {
    var stateByChat: map<int, ConversationState>

    constructor()
      ensures stateByChat == map[]
    {
      stateByChat := map[];
    }

    /** `GetStateAsync`. */
    function GetState(chatId: int): (state: ConversationState)
      reads this
      ensures chatId in stateByChat ==> state == stateByChat[chatId]
      ensures chatId !in stateByChat ==> state == Unset
    {
      StateOf(stateByChat, chatId)
    }

    /** `SetStateAsync`: writes the chat's state and no other. */
    method SetState(chatId: int, state: ConversationState)
      modifies this
      ensures stateByChat == old(stateByChat)[chatId := state]
      ensures GetState(chatId) == state
      ensures forall c | c != chatId :: GetState(c) == old(GetState(c))
    {
      stateByChat := stateByChat[chatId := state];
    }
  }
}
