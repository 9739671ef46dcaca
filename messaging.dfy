/**
 * `IBotResponseSender` as the bot's collaborators see it: every response it
 * is asked to send, with its chat, in order. The transports behind it are
 * not part of this model; `TelegramResponses` says how one response is
 * delivered to Telegram.
 */
module Messaging {
  import opened Entities

  class ResponseLog {
    var sent: seq<(int, BotResponse)>

    constructor()
      ensures sent == []
    {
      sent := [];
    }

    /** `SendAsync`. */
    method Send(chatId: int, response: BotResponse)
      modifies this
      ensures sent == old(sent) + [(chatId, response)]
    {
      sent := sent + [(chatId, response)];
    }
  }
}
