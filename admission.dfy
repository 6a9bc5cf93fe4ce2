/** The admission of a chat request: which chat messages end up queueing a video,
    and how the per-user time of the last accepted request changes. The checks run
    in a fixed order and the first one that fails ends the processing of the
    message. Times are seconds as reals, as the wall clock reports them. */
module Admission {
  import opened Strings
  import opened Moderation

  /** The configuration values the checks read. */
  datatype Config = Config(
    prefix: string,
    queueCommand: string,
    rateLimitSeconds: real,
    allowUrls: bool,
    requireMembership: bool,
    requireSuperchat: bool,
    minimumSuperchat: real,
    enforceIdWhitelist: bool,
    enforceUserWhitelist: bool)

  /** One chat message: its text, the author's display name and channel id, whether
      the author is a channel member, and whether it is a Super Chat. */
  datatype Message = Message(text: string, author: string, channelId: string, isMember: bool, isSuperchat: bool)

  datatype Lists = Lists(bannedUsers: seq<Entry>, bannedIds: seq<Entry>,
                         whitelistedUsers: seq<Entry>, whitelistedIds: seq<Entry>)

  /** Why a message queues nothing, one reason per check. */
  datatype Reason =
    | NotACommand           // the text does not start with prefix + command
    | ConversionFailed      // converting the Super Chat amount to dollars raised
    | WrongArity            // not exactly two whitespace-separated words
    | RateLimited
    | BannedVideo
    | BannedUser
    | UserNotWhitelisted
    | VideoNotWhitelisted
    | UrlsDisabled
    | NotAMember
    | NoSuperchat           // not a Super Chat, or one below the minimum

  datatype Verdict = Queue(videoId: string) | Reject(reason: Reason)

  /** The rejections whose log line looks the requested video's title up first. */
  predicate LogsTitle(v: Verdict) {
    v.Reject? && v.reason in {BannedVideo, BannedUser, UserNotWhitelisted, VideoNotWhitelisted}
  }

  /** The verdict and the table of last request times afterwards. */
  datatype Outcome = Outcome(verdict: Verdict, lastCommand: map<string, real>)

  const UrlMarker: string := "watch?v="

  /** The last request time of a user; one never seen reads as 0. */
  function LastCommand(last: map<string, real>, user: string): real {
    if user in last then last[user] else 0.0
  }

  function CommandText(cfg: Config): string {
    cfg.prefix + cfg.queueCommand
  }

  /** The video id requested by a token: the text after the first "watch?v=" when
      there is one, the token itself otherwise. */
  function Requested(token: string): (id: string)
    ensures !Contains(token, UrlMarker) ==> id == token
    ensures Contains(token, UrlMarker) ==>
      exists k: nat :: && OccursAt(token, UrlMarker, k)
                       && (forall j :: 0 <= j < k ==> !OccursAt(token, UrlMarker, j))
                       && id == token[k + |UrlMarker|..]
  {
    if Contains(token, UrlMarker) then AfterFirst(token, UrlMarker) else token
  }

  /** The checks after the message has been split, first failure first. `previous`
      is the author's last request time and `dollars` the converted amount (0 when
      the message is not a Super Chat). */
  function Check(msg: Message, dollars: real, cfg: Config, lists: Lists, token: string,
                 previous: real, now: real): Verdict
  {
    if now - previous < cfg.rateLimitSeconds then Reject(RateLimited)
    else if Listed(lists.bannedIds, token) then Reject(BannedVideo)
    else if Listed(lists.bannedUsers, msg.channelId) then Reject(BannedUser)
    else if cfg.enforceUserWhitelist && !Listed(lists.whitelistedUsers, msg.channelId) then Reject(UserNotWhitelisted)
    else if cfg.enforceIdWhitelist && !Listed(lists.whitelistedIds, token) then Reject(VideoNotWhitelisted)
    else if Contains(token, UrlMarker) && !cfg.allowUrls then Reject(UrlsDisabled)
    else if cfg.requireMembership && !msg.isMember then Reject(NotAMember)
    else if cfg.requireSuperchat && (!msg.isSuperchat || dollars < cfg.minimumSuperchat) then Reject(NoSuperchat)
    else Queue(Requested(token))
  }

  /** Every check passes, written as one condition. */
  predicate Admissible(msg: Message, dollars: Option<real>, cfg: Config, lists: Lists,
                       last: map<string, real>, now: real)
  {
    && StartsWith(msg.text, CommandText(cfg))
    && (msg.isSuperchat ==> dollars.Some?)
    && |Words(msg.text)| == 2
    && now - LastCommand(last, msg.author) >= cfg.rateLimitSeconds
    && !Listed(lists.bannedIds, Words(msg.text)[1])
    && !Listed(lists.bannedUsers, msg.channelId)
    && (cfg.enforceUserWhitelist ==> Listed(lists.whitelistedUsers, msg.channelId))
    && (cfg.enforceIdWhitelist ==> Listed(lists.whitelistedIds, Words(msg.text)[1]))
    && (Contains(Words(msg.text)[1], UrlMarker) ==> cfg.allowUrls)
    && (cfg.requireMembership ==> msg.isMember)
    && (cfg.requireSuperchat ==> msg.isSuperchat && dollars.value >= cfg.minimumSuperchat)
  }

  /** `on_chat_message`. `dollars` is the Super Chat amount converted to dollars, or
      None when the conversion raised (only consulted for a Super Chat). Reading the
      author's last time inserts the author into the table with 0 if absent; the
      time is set to `now` only when the song is queued. */
  function Evaluate(msg: Message, dollars: Option<real>, cfg: Config, lists: Lists,
                    last: map<string, real>, now: real): (o: Outcome)
    ensures o.verdict.Queue? <==> Admissible(msg, dollars, cfg, lists, last, now)
    ensures o.verdict.Queue? ==> o.verdict.videoId == Requested(Words(msg.text)[1])
    ensures o.lastCommand.Keys <= last.Keys + {msg.author}
    ensures forall u :: u != msg.author ==> LastCommand(o.lastCommand, u) == LastCommand(last, u)
    ensures LastCommand(o.lastCommand, msg.author) ==
            if o.verdict.Queue? then now else LastCommand(last, msg.author)
  {
    if !StartsWith(msg.text, CommandText(cfg)) then Outcome(Reject(NotACommand), last)
    else if msg.isSuperchat && dollars.None? then Outcome(Reject(ConversionFailed), last)
    else
      var parts := Words(msg.text);
      if |parts| != 2 then Outcome(Reject(WrongArity), last)
      else
        var previous := LastCommand(last, msg.author);
        var seen := last[msg.author := previous];
        var amount := if msg.isSuperchat then dollars.value else 0.0;
        var verdict := Check(msg, amount, cfg, lists, parts[1], previous, now);
        if verdict.Queue? then Outcome(verdict, seen[msg.author := now]) else Outcome(verdict, seen)
  }

  // ---------------------------------------------------------------------------
  // Properties of the pipeline
  // ---------------------------------------------------------------------------

  /** A message that is not the command changes nothing at all. */
  lemma NotACommandChangesNothing(msg: Message, dollars: Option<real>, cfg: Config, lists: Lists,
                                  last: map<string, real>, now: real)
    requires !StartsWith(msg.text, CommandText(cfg))
    ensures Evaluate(msg, dollars, cfg, lists, last, now) == Outcome(Reject(NotACommand), last)
  {
  }

  /** The command test is a prefix test: any text may follow the command word
      before the first space, so "!queuex abc" requests "abc" like "!queue abc". */
  lemma {:induction false} CommandIsOnlyAPrefix(cfg: Config, tail: string, gap: string, token: string)
    requires NoSpace(CommandText(cfg) + tail) && CommandText(cfg) + tail != []
    requires gap != [] && AllSpace(gap)
    requires token != [] && NoSpace(token)
    ensures StartsWith(CommandText(cfg) + tail + gap + token, CommandText(cfg))
    ensures Words(CommandText(cfg) + tail + gap + token) == [CommandText(cfg) + tail, token]
  {
    WordsOfTwo(CommandText(cfg) + tail, gap, token);
  }

  /** A rejection leaves every user's last request time as it was. */
  lemma RejectionKeepsTimes(msg: Message, dollars: Option<real>, cfg: Config, lists: Lists,
                            last: map<string, real>, now: real, user: string)
    requires Evaluate(msg, dollars, cfg, lists, last, now).verdict.Reject?
    ensures LastCommand(Evaluate(msg, dollars, cfg, lists, last, now).lastCommand, user) == LastCommand(last, user)
  {
  }

  /** After a request queued at `now`, the same user's next command is turned away by
      the rate limit until `rateLimitSeconds` have passed, whatever it asks for. */
  lemma RateLimitWindow(first: Message, second: Message, dollars: Option<real>, dollars2: Option<real>,
                        cfg: Config, lists: Lists, last: map<string, real>, now: real, later: real)
    requires Evaluate(first, dollars, cfg, lists, last, now).verdict.Queue?
    requires second.author == first.author
    requires StartsWith(second.text, CommandText(cfg)) && (second.isSuperchat ==> dollars2.Some?)
    requires |Words(second.text)| == 2
    requires later - now < cfg.rateLimitSeconds
    ensures var o := Evaluate(first, dollars, cfg, lists, last, now);
            Evaluate(second, dollars2, cfg, lists, o.lastCommand, later).verdict == Reject(RateLimited)
  {
  }

  /** A banned video id is turned away once the earlier checks pass, and the
      rejection changes no user's last request time (there is no automatic ban). */
  lemma BannedVideoRejected(msg: Message, dollars: Option<real>, cfg: Config, lists: Lists,
                            last: map<string, real>, now: real)
    requires StartsWith(msg.text, CommandText(cfg)) && (msg.isSuperchat ==> dollars.Some?)
    requires |Words(msg.text)| == 2 && Listed(lists.bannedIds, Words(msg.text)[1])
    requires now - LastCommand(last, msg.author) >= cfg.rateLimitSeconds
    ensures var o := Evaluate(msg, dollars, cfg, lists, last, now);
            o.verdict == Reject(BannedVideo)
            && forall u :: LastCommand(o.lastCommand, u) == LastCommand(last, u)
  {
  }

  /** The ban and whitelist checks look at the token as typed, before the
      "watch?v=" rewrite: with links allowed, "watch?v=" followed by a banned id
      queues that id. */
  lemma {:induction false} LinkFormPassesBan(msg: Message, dollars: Option<real>, cfg: Config, lists: Lists,
                                             last: map<string, real>, now: real, id: string)
    requires Words(msg.text) == [CommandText(cfg), UrlMarker + id]
    requires StartsWith(msg.text, CommandText(cfg)) && !msg.isSuperchat
    requires Listed(lists.bannedIds, id) && !Listed(lists.bannedIds, UrlMarker + id)
    requires !Listed(lists.bannedUsers, msg.channelId)
    requires cfg.allowUrls && !cfg.enforceIdWhitelist && !cfg.enforceUserWhitelist
    requires !cfg.requireMembership && !cfg.requireSuperchat
    requires now - LastCommand(last, msg.author) >= cfg.rateLimitSeconds
    ensures Evaluate(msg, dollars, cfg, lists, last, now).verdict == Queue(id)
  {
    var token := UrlMarker + id;
    assert OccursAt(token, UrlMarker, 0);
    assert Find(token, UrlMarker) == Some(0);
  }

  /** Whatever precedes the first "watch?v=" of a token, the id requested is exactly
      the text after it: `pre` must not itself hold the marker, even overlapping
      the marker that follows it. */
  lemma {:induction false} RequestedAfterMarker(pre: string, id: string)
    requires !Contains(pre + UrlMarker[..|UrlMarker| - 1], UrlMarker)
    ensures Requested(pre + UrlMarker + id) == id
  {
    var token := pre + UrlMarker + id;
    var head := pre + UrlMarker[..|UrlMarker| - 1];
    assert OccursAt(token, UrlMarker, |pre|) by {
      assert token[|pre|..|pre| + |UrlMarker|] == UrlMarker;
    }
    forall j | 0 <= j < |pre| ensures !OccursAt(token, UrlMarker, j) {
      assert !OccursAt(head, UrlMarker, j);
      assert token[j..j + |UrlMarker|] == head[j..j + |UrlMarker|] by {
        assert forall k :: 0 <= k < |head| ==> token[k] == head[k];
      }
    }
    var k: nat :| OccursAt(token, UrlMarker, k) && (forall j :: 0 <= j < k ==> !OccursAt(token, UrlMarker, j))
             && Requested(token) == token[k + |UrlMarker|..];
    assert k == |pre|;
    assert token[|pre| + |UrlMarker|..] == id;
  }

  /** A Super Chat whose amount cannot be converted is dropped even when Super Chats
      are not required, because the conversion comes before every check. */
  lemma FailedConversionDrops(msg: Message, cfg: Config, lists: Lists, last: map<string, real>, now: real)
    requires StartsWith(msg.text, CommandText(cfg)) && msg.isSuperchat
    ensures Evaluate(msg, None, cfg, lists, last, now) == Outcome(Reject(ConversionFailed), last)
  {
  }

  /** With Super Chats required, a plain message never queues anything. */
  lemma SuperchatRequired(msg: Message, dollars: Option<real>, cfg: Config, lists: Lists,
                          last: map<string, real>, now: real)
    requires cfg.requireSuperchat && !msg.isSuperchat
    ensures Evaluate(msg, dollars, cfg, lists, last, now).verdict.Reject?
  {
  }
}
