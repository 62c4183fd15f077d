/** The Telegram calls the handlers make, as events. A run of a handler is
    the sequence of calls it makes; which of them raise is decided by a
    Client, so that every path through the try/except blocks is covered. */
module Effects {

  import opened Wrappers

  /** An inline keyboard button: one that sends callback data back to the
      bot, or one that opens a URL. */
  datatype Button =
    | CallbackButton(caption: string, data: string)
    | UrlButton(caption: string, url: string)

  /** InlineKeyboardMarkup: rows of buttons. The empty keyboard is no markup. */
  type Keyboard = seq<seq<Button>>

  datatype Effect =
      /** message.reply(text, reply_markup=keyboard) */
    | Reply(text: string, keyboard: Keyboard)
      /** callback_query.answer(text, show_alert=alert) */
    | Answer(text: string, alert: bool)
      /** client.get_messages(chat_id, message_id) */
    | FetchMessage(chatId: int, messageId: nat)
      /** client.send_message(chat_id, text) */
    | SendMessage(chatId: int, text: string)
      /** the blocking pytube download run on the worker pool */
    | Download(url: string, mode: string)
      /** client.send_audio(chat_id, audio=path, caption=..., reply_markup=...) */
    | SendAudio(chatId: int, path: string, caption: string, keyboard: Keyboard)
      /** client.send_video(chat_id, video=path, caption=..., reply_markup=...) */
    | SendVideo(chatId: int, path: string, caption: string, keyboard: Keyboard)
      /** processing_message.delete(), inside safe_delete */
    | DeleteStatus
      /** os.remove(path) */
    | RemoveFile(path: string)

  /** Which calls raise: Some(str(e)) when the call raises e, None when it
      returns normally. */
  type Client = Effect -> Option<string>
}
