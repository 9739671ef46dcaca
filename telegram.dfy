/**
 * `TelegramBotResponseSender`: how one `BotResponse` becomes one Telegram
 * call. The buttons become an inline keyboard of rows of two; a response
 * with a picture is sent as a photo with the text as its caption, any other
 * as a Markdown text message. The Telegram client itself is not part of
 * this model: the call it would make is returned as a `Delivery` value.
 */
module TelegramResponses {
  import opened Wrappers
  import opened Text
  import opened Entities

  /** `InlineKeyboardButton.WithCallbackData(text, callbackData)`. */
  datatype InlineButton = InlineButton(text: string, callbackData: string)

  /** The keyboard's rows, top to bottom. */
  type Keyboard = seq<seq<InlineButton>>

  /** The one call `SendAsync` makes. */
  datatype Delivery =
    | Photo(chatId: int, photoUrl: string, caption: string, markup: Option<Keyboard>)
    | TextMessage(chatId: int, text: string, markup: Option<Keyboard>, markdown: bool)

  /** `Enumerable.Chunk(xs, size)`: consecutive pieces of `size` elements, the last one possibly shorter. */
  function Chunk<T>(xs: seq<T>, size: nat): seq<seq<T>>
    requires size >= 1
    decreases |xs|
  {
    if xs == [] then []
    else if |xs| <= size then [xs]
    else [xs[..size]] + Chunk(xs[size..], size)
  }

  /** The elements of the rows, row after row. */
  function Flatten<T>(rows: seq<seq<T>>): seq<T> {
    if rows == [] then [] else rows[0] + Flatten(rows[1..])
  }

  /** Putting the pieces back together gives the sequence that was cut up. */
  lemma {:induction false} ChunkFlatten<T>(xs: seq<T>, size: nat)
    requires size >= 1
    ensures Flatten(Chunk(xs, size)) == xs
    decreases |xs|
  {
    if |xs| > size {
      ChunkFlatten(xs[size..], size);
      assert xs == xs[..size] + xs[size..];
    }
    else if xs != [] {
      assert Flatten([xs]) == xs + [];
    }
  }

  /** Every piece but the last has exactly `size` elements, the last one between one and `size`. */
  lemma {:induction false} ChunkRows<T>(xs: seq<T>, size: nat)
    requires size >= 1
    ensures var rows := Chunk(xs, size);
      && (forall k | 0 <= k < |rows| - 1 :: |rows[k]| == size)
      && (rows != [] ==> 1 <= |rows[|rows| - 1]| <= size)
    decreases |xs|
  {
    if |xs| > size {
      var rest := xs[size..];
      ChunkRows(rest, size);
      var rows := Chunk(xs, size);
      assert rows == [xs[..size]] + Chunk(rest, size);
      forall k | 0 <= k < |rows| - 1
        ensures |rows[k]| == size
      {
        if k > 0 {
          assert rows[k] == Chunk(rest, size)[k - 1];
        }
      }
    }
  }

  /** Cut into pairs, a sequence gives half as many pieces as it has elements, rounded up. */
  lemma {:induction false} ChunkPairsCount<T>(xs: seq<T>)
    ensures |Chunk(xs, 2)| == (|xs| + 1) / 2
    decreases |xs|
  {
    if |xs| > 2 {
      ChunkPairsCount(xs[2..]);
    }
  }

  function ToInline(option: ButtonOption): InlineButton {
    InlineButton(option.text, option.nextNodeId)
  }

  /** `Select(option => InlineKeyboardButton.WithCallbackData(option.Text, option.NextNodeId))`. */
  function InlineButtons(options: seq<ButtonOption>): (r: seq<InlineButton>)
    ensures |r| == |options|
    ensures forall k | 0 <= k < |options| :: r[k] == InlineButton(options[k].text, options[k].nextNodeId)
  {
    seq(|options|, k requires 0 <= k < |options| => ToInline(options[k]))
  }

  /** `BuildMarkup`: no keyboard without buttons, else the buttons in rows of two. */
  function BuildMarkup(response: BotResponse): Option<Keyboard> {
    if response.buttons.None? || |response.buttons.value| == 0 then None
    else
      var rows := Chunk(InlineButtons(response.buttons.value), 2);
      if |rows| == 0 then None else Some(rows)
  }

  /**
   * There is a keyboard exactly when the response has at least one button.
   * Read row by row it lists every button, in order; each row holds two
   * buttons except possibly the last, which holds one, so there are half as
   * many rows as buttons, rounded up.
   */
  lemma BuildMarkupFacts(response: BotResponse)
    ensures BuildMarkup(response).None? <==> response.buttons.None? || response.buttons.value == []
    ensures BuildMarkup(response).Some? ==>
      var rows := BuildMarkup(response).value;
      var options := response.buttons.value;
      && Flatten(rows) == InlineButtons(options)
      && |rows| == (|options| + 1) / 2
      && (forall k | 0 <= k < |rows| - 1 :: |rows[k]| == 2)
      && 1 <= |rows[|rows| - 1]| <= 2
  {
    if response.buttons.Some? && response.buttons.value != [] {
      var inline := InlineButtons(response.buttons.value);
      ChunkFlatten(inline, 2);
      ChunkRows(inline, 2);
      ChunkPairsCount(inline);
    }
  }

  /**
   * `SendAsync`. The response goes out as a photo exactly when it names a
   * non-blank picture, captioned with its text; otherwise as a Markdown
   * text message with its text. Either way the one call goes to the chat
   * and carries the keyboard `BuildMarkup` gives.
   */
  function Deliver(chatId: int, response: BotResponse): (d: Delivery)
    ensures d.Photo? <==> response.imageUrl.Some? && !IsBlank(response.imageUrl.value)
    ensures d.chatId == chatId && d.markup == BuildMarkup(response)
    ensures d.Photo? ==> d.photoUrl == response.imageUrl.value && d.caption == response.text
    ensures d.TextMessage? ==> d.text == response.text && d.markdown
  {
    var markup := BuildMarkup(response);
    if response.imageUrl.Some? && !IsBlank(response.imageUrl.value) then
      Photo(chatId, response.imageUrl.value, response.text, markup)
    else
      TextMessage(chatId, response.text, markup, true)
  }
}
