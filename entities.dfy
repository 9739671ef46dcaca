/** The records the bot passes around; they carry no behaviour. */
module Entities {
  import opened Wrappers

  datatype ButtonOption = ButtonOption(text: string, nextNodeId: string)

  /** A step of the scripted dialogue. */
  datatype DialogueNode = DialogueNode(
    id: string,
    text: string,
    imageUrl: Option<string>,
    keywords: seq<string>,
    buttons: seq<ButtonOption>)

  /** An incoming message or button press; `None` stands for a null field. */
  datatype BotUpdate = BotUpdate(
    chatId: int,
    senderId: int,
    username: Option<string>,
    text: Option<string>,
    command: Option<string>,
    callbackData: Option<string>)

  /** A reply: its text, the buttons under it (`None` for no keyboard) and an optional picture. */
  datatype BotResponse = BotResponse(text: string, buttons: Option<seq<ButtonOption>>, imageUrl: Option<string>)

  /** Where a chat is in the conversation; `Unset` is `ConversationState.None`. */
  datatype ConversationState = Unset | TopicSelection | InDialogue
}
