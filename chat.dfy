/**
  The chat framework's side of the plugin protocol: the message context a
  plugin receives and the bot it answers through.
 */
module Chat {

  /** `comm`: who spoke and what they said. */
  datatype Comm = Comm(user: string, message: string)

  /** The bot, seen through its `reply` primitive: every reply sent, in order. */
  class Bot {
    var replies: seq<(Comm, string)>

    constructor ()
      ensures replies == []
    {
      replies := [];
    }

    /** `bot.reply(comm, text)` */
    method Reply(comm: Comm, text: string)
      modifies this
      ensures replies == old(replies) + [(comm, text)]
    {
      replies := replies + [(comm, text)];
    }
  }
}
