/** The bot's main program state: the four moderation lists, the table of each
    user's last accepted request time, the play list player and the title cache,
    and the handlers that change them: a chat message, the player moving to its
    next item, one pass of the player watch loop, and the background name fetch
    after a moderation entry was added. Network answers, the player's
    reports and the clock are parameters. */
module Lyte {
  import opened Strings
  import opened Moderation
  import opened Admission
  import opened Playback
  import opened YouTube

  class Bot {
    const config: Config
    const autoremove: bool
    const toasts: bool
    const bannedUsers: ModerationList
    const bannedIds: ModerationList
    const whitelistedUsers: ModerationList
    const whitelistedIds: ModerationList
    var lastCommand: map<string, real>
    const engine: Engine
    const cache: Cache

    /** Start-up: the configuration and the four lists as loaded, an empty play
        list to which play has been issued once, an empty cache and no request
        seen yet. */
    constructor(config: Config, autoremove: bool, toasts: bool, lists: Lists)
      ensures this.config == config && this.autoremove == autoremove && this.toasts == toasts
      ensures CurrentLists() == lists && lastCommand == map[]
      ensures fresh(engine) && engine.items == [] && engine.issued == [Play]
      ensures fresh(cache)
    {
      this.config := config;
      this.autoremove := autoremove;
      this.toasts := toasts;
      bannedUsers := new ModerationList(lists.bannedUsers);
      bannedIds := new ModerationList(lists.bannedIds);
      whitelistedUsers := new ModerationList(lists.whitelistedUsers);
      whitelistedIds := new ModerationList(lists.whitelistedIds);
      lastCommand := map[];
      engine := new Engine();
      cache := new Cache();
      new;
      engine.PlayCommand();
    }

    function CurrentLists(): Lists
      reads bannedUsers, bannedIds, whitelistedUsers, whitelistedIds
    {
      Lists(bannedUsers.entries, bannedIds.entries, whitelistedUsers.entries, whitelistedIds.entries)
    }

    /** What `queue_song` leaves behind, with `title` the title the song was queued
        with (None: nothing queued). Without media nothing changes. Otherwise the
        title is looked up for the queue URL; when that gives a title the song is
        appended with it, play is issued if the player was idle, and with toasts on
        the toast looks the requested id up once more, which may store another
        entry; when it gives none, the exception ends `queue_song` with only the
        first lookup done. */
    twostate predicate Queued(videoId: string, now: real, media: Option<string>, oembed: Lookup,
                              ytdlpById: Lookup, ytdlpByUrl: Lookup, state: State,
                              toastOembed: Lookup, toastYtdlp: Lookup, new title: Option<string>)
      reads engine, cache
    {
      if media.None? then title.None? && unchanged(engine) && unchanged(cache)
      else
        var (found, looked) := UrlLookup(old(cache.Contents()), QueueUrl(videoId), now, oembed, ytdlpById, ytdlpByUrl);
        && title == found
        && cache.Contents() == (if found.Some? && toasts then TitleFetch(looked, videoId, now, toastOembed, toastYtdlp).1
                                else looked)
        && engine.items == old(engine.items) + (if found.Some? then [Media(media.value, found.value)] else [])
        && engine.issued == old(engine.issued) + (if found.Some? && Idle(state) then [Play] else [])
    }

    /** `queue_song`. `media` is the media built from the resolved stream address, or
        None when resolving it or building the media raised; the three lookups are
        the answers the title fetch would get, and the last two those the toast's
        title fetch would get. At most one song is appended, none when the media or
        the title fails, and play is issued only when a song was appended and the
        player was idle. */
    method QueueSong(videoId: string, now: real, media: Option<string>,
                     oembed: Lookup, ytdlpById: Lookup, ytdlpByUrl: Lookup, state: State,
                     toastOembed: Lookup, toastYtdlp: Lookup) returns (title: Option<string>)
      modifies engine, cache
      ensures Queued(videoId, now, media, oembed, ytdlpById, ytdlpByUrl, state, toastOembed, toastYtdlp, title)
      ensures title.Some? <==> media.Some? && (ExtractVideoId(QueueUrl(videoId)).Some? ||
                                               (ytdlpByUrl.Answer? && ytdlpByUrl.field.Some?))
    {
      var url := QueueUrl(videoId);
      if media.None? {
        return None;
      }
      title := cache.VideoTitle(url, now, oembed, ytdlpById, ytdlpByUrl);
      ghost var looked := cache.Contents();
      assert (title, looked) == UrlLookup(old(cache.Contents()), url, now, oembed, ytdlpById, ytdlpByUrl);
      if title.None? {
        return;
      }
      engine.AddMedia(Media(media.value, title.value));
      if Idle(state) {
        engine.PlayCommand();
      }
      var _ := ShowToast(videoId, now, toastOembed, toastYtdlp);
      assert cache.Contents() == if toasts then TitleFetch(looked, videoId, now, toastOembed, toastYtdlp).1 else looked;
    }

    /** `show_toast`: with toasts on, the notification shows the title looked up for
        the id as requested, which is `shown`; with them off nothing happens. */
    method ShowToast(videoId: string, now: real, toastOembed: Lookup, toastYtdlp: Lookup)
      returns (shown: Option<string>)
      modifies cache
      ensures toasts ==> shown.Some? && cache.FetchedTitle(videoId, now, toastOembed, toastYtdlp, shown.value)
      ensures !toasts ==> shown.None? && unchanged(cache)
    {
      shown := None;
      if toasts {
        var t := cache.VideoTitleFast(videoId, now, toastOembed, toastYtdlp);
        shown := Some(t);
      }
    }

    /** `on_chat_message`: the checks in order, each returning at its first failure;
        the song is queued and the author's time stamped only when all pass. The
        verdict and the new time table are those of `Evaluate`. The ban and whitelist
        rejections first look the requested token's title up for their log line,
        with `logOembed` and `logYtdlp` the answers that lookup gets; no other
        rejection touches the cache, and no rejection touches the player. `title`
        is the title looked up: the logged one, or the one the song was queued with. */
    method OnChatMessage(msg: Message, dollars: Option<real>, now: real, media: Option<string>,
                         oembed: Lookup, ytdlpById: Lookup, ytdlpByUrl: Lookup, state: State,
                         toastOembed: Lookup, toastYtdlp: Lookup, logOembed: Lookup, logYtdlp: Lookup)
      returns (verdict: Verdict, title: Option<string>)
      modifies this, engine, cache
      ensures Outcome(verdict, lastCommand) == Evaluate(msg, dollars, config, CurrentLists(), old(lastCommand), now)
      ensures verdict.Reject? ==> unchanged(engine)
      ensures LogsTitle(verdict) ==> title.Some? && cache.FetchedTitle(Words(msg.text)[1], now, logOembed, logYtdlp, title.value)
      ensures verdict.Reject? && !LogsTitle(verdict) ==> title.None? && unchanged(cache)
      ensures verdict.Queue? ==> Queued(verdict.videoId, now, media, oembed, ytdlpById, ytdlpByUrl, state,
                                        toastOembed, toastYtdlp, title)
    {
      if !StartsWith(msg.text, CommandText(config)) {
        return Reject(NotACommand), None;
      }
      var amount := 0.0;
      if msg.isSuperchat {
        if dollars.None? {
          return Reject(ConversionFailed), None;
        }
        amount := dollars.value;
      }
      var parts := Words(msg.text);
      if |parts| != 2 {
        return Reject(WrongArity), None;
      }
      verdict, title := Request(msg, amount, parts[1], now, media, oembed, ytdlpById, ytdlpByUrl, state,
                                toastOembed, toastYtdlp, logOembed, logYtdlp);
    }

    /** `on_chat_message` from the rate-limit check on, for the second word `token`:
        the author's last request time (0 when there is none) decides the rate
        limit, and afterwards the table holds it, or `now` when the song was queued.
        A ban or whitelist rejection first looks the token's title up for its log
        line and returns it as `title`; a queued request returns the title the song
        was queued with. */
    method Request(msg: Message, amount: real, token: string, now: real,
                   media: Option<string>, oembed: Lookup, ytdlpById: Lookup, ytdlpByUrl: Lookup, state: State,
                   toastOembed: Lookup, toastYtdlp: Lookup, logOembed: Lookup, logYtdlp: Lookup)
      returns (verdict: Verdict, title: Option<string>)
      modifies this, engine, cache
      ensures verdict == Check(msg, amount, config, CurrentLists(), token, LastCommand(old(lastCommand), msg.author), now)
      ensures lastCommand == old(lastCommand)[msg.author := if verdict.Queue? then now
                                                            else LastCommand(old(lastCommand), msg.author)]
      ensures verdict.Reject? ==> unchanged(engine)
      ensures LogsTitle(verdict) ==> title.Some? && cache.FetchedTitle(token, now, logOembed, logYtdlp, title.value)
      ensures verdict.Reject? && !LogsTitle(verdict) ==> title.None? && unchanged(cache)
      ensures verdict.Queue? ==> Queued(verdict.videoId, now, media, oembed, ytdlpById, ytdlpByUrl, state,
                                        toastOembed, toastYtdlp, title)
    {
      var previous := LastCommand(lastCommand, msg.author);
      verdict := Screen(msg, amount, token, previous, now);
      // the rate-limit read of the defaultdict stores the default, and the time is
      // stamped after `queue_song`; neither the lookup nor `queue_song` reads the table
      Stamp(msg.author, if verdict.Queue? then now else previous);
      title := None;
      if LogsTitle(verdict) {
        var logged := cache.VideoTitleFast(token, now, logOembed, logYtdlp);
        title := Some(logged);
      } else if verdict.Queue? {
        title := QueueSong(verdict.videoId, now, media, oembed, ytdlpById, ytdlpByUrl, state,
                           toastOembed, toastYtdlp);
      }
    }

    /** Records `time` as the author's last request time. */
    method Stamp(author: string, time: real)
      modifies this
      ensures lastCommand == old(lastCommand)[author := time]
    {
      lastCommand := lastCommand[author := time];
    }

    /** The checks of `on_chat_message` after the split, in order, returning at the
        first failure; a link token is rewritten to the id after "watch?v=" only
        after the ban and whitelist checks have looked at it as typed. */
    method Screen(msg: Message, amount: real, token: string, previous: real, now: real) returns (verdict: Verdict)
      ensures verdict == Check(msg, amount, config, CurrentLists(), token, previous, now)
    {
      var videoId := token;
      if now - previous < config.rateLimitSeconds {
        return Reject(RateLimited);
      }
      if Listed(bannedIds.entries, videoId) {
        return Reject(BannedVideo);
      }
      if Listed(bannedUsers.entries, msg.channelId) {
        return Reject(BannedUser);
      }
      if config.enforceUserWhitelist && !Listed(whitelistedUsers.entries, msg.channelId) {
        return Reject(UserNotWhitelisted);
      }
      if config.enforceIdWhitelist && !Listed(whitelistedIds.entries, videoId) {
        return Reject(VideoNotWhitelisted);
      }
      if Contains(videoId, UrlMarker) {
        if config.allowUrls {
          videoId := AfterFirst(videoId, UrlMarker);
        } else {
          return Reject(UrlsDisabled);
        }
      }
      if config.requireMembership && !msg.isMember {
        return Reject(NotAMember);
      }
      if config.requireSuperchat && (!msg.isSuperchat || amount < config.minimumSuperchat) {
        return Reject(NoSuperchat);
      }
      return Queue(videoId);
    }

    /** The background thread of `ban_user_callback` and `whitelist_user_callback`:
        the channel name is looked up through the cache, which may store it, and the
        first entry of the list still carrying the id is renamed to it. */
    method BackfillUser(list: ModerationList, id: string, now: real,
                        page: Option<(Option<string>, Option<string>)>, ytdlp: Lookup)
      returns (name: string)
      requires list == bannedUsers || list == whitelistedUsers
      modifies list, cache
      ensures cache.FetchedChannel(id, now, page, ytdlp, name)
      ensures list.entries == Renamed(old(list.entries), id, name)
    {
      name := cache.ChannelNameFast(id, now, page, ytdlp);
      list.Backfill(id, Some(name));
    }

    /** The background thread of `ban_id_callback` and `whitelist_id_callback`: the
        video title is looked up by id through the cache, which may store it, and the
        first entry of the list still carrying the id is renamed to it. */
    method BackfillVideo(list: ModerationList, id: string, now: real, oembed: Lookup, ytdlp: Lookup)
      returns (name: string)
      requires list == bannedIds || list == whitelistedIds
      modifies list, cache
      ensures cache.FetchedTitle(id, now, oembed, ytdlp, name)
      ensures list.entries == Renamed(old(list.entries), id, name)
    {
      name := cache.VideoTitleFast(id, now, oembed, ytdlp);
      list.Backfill(id, Some(name));
    }

    /** `on_next_item`: with auto-removal on, the head goes only while more than one
        song is listed, so the play list is never emptied here, and stop is issued
        only when it was empty already; with auto-removal off nothing happens. */
    method OnNextItem()
      modifies engine
      ensures !autoremove ==> unchanged(engine)
      ensures engine.items == if autoremove && |old(engine.items)| > 1 then old(engine.items)[1..] else old(engine.items)
      ensures old(engine.items) != [] ==> engine.items != []
      ensures engine.issued == old(engine.issued) + (if autoremove && old(engine.items) == [] then [Stop] else [])
    {
      if autoremove {
        if |engine.items| > 1 {
          engine.RemoveFirst();
        }
        if |engine.items| == 0 {
          engine.StopCommand();
        }
      }
    }

    /** One pass of the player watch loop: play is issued exactly when the player
        reports that it reached the end and songs are still listed. */
    method WatchTick(state: State)
      modifies engine
      ensures engine.items == old(engine.items)
      ensures engine.issued == old(engine.issued) +
        (if state == Ended && old(engine.items) != [] then [Play] else [])
    {
      if state == Ended && |engine.items| > 0 {
        engine.PlayCommand();
      }
    }
  }
}
