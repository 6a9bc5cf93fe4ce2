/** The media player the bot drives, seen from the bot: an ordered play list and
    the log of commands the bot has issued. How the player reacts to a command is
    outside the model; the state the bot reads back from it is a parameter of the
    handlers that read it. */
module Playback {

  /** The player states the bot can read back. */
  datatype State = NothingSpecial | Opening | Buffering | Playing | Paused | Stopped | Ended | Error

  datatype Command = Play | Stop

  /** One queued song: the direct stream address and the title set on it. */
  datatype Media = Media(mrl: string, title: string)

  /** The states in which queueing a song starts playback. */
  predicate Idle(s: State) {
    s == Stopped || s == Ended || s == NothingSpecial
  }

  class Engine {
    var items: seq<Media>
    var issued: seq<Command>

    /** A new play list player: empty, nothing happened yet. */
    constructor()
      ensures items == [] && issued == []
    {
      items := [];
      issued := [];
    }

    /** `media_list.add_media`: appends at the end. */
    method AddMedia(m: Media)
      modifies this
      ensures items == old(items) + [m]
      ensures issued == old(issued)
    {
      items := items + [m];
    }

    /** `media_list.remove_index(0)`: drops the head. */
    method RemoveFirst()
      requires items != []
      modifies this
      ensures items == old(items)[1..]
      ensures issued == old(issued)
    {
      items := items[1..];
    }

    /** `player.play()`. */
    method PlayCommand()
      modifies this
      ensures issued == old(issued) + [Play]
      ensures items == old(items)
    {
      issued := issued + [Play];
    }

    /** `player.stop()`. */
    method StopCommand()
      modifies this
      ensures issued == old(issued) + [Stop]
      ensures items == old(items)
    {
      issued := issued + [Stop];
    }
  }
}
