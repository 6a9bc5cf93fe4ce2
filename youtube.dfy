/** The metadata helpers: a one-hour cache of video titles and channel names, the
    cache-first title and channel-name lookups, and the video-id search in a URL.
    Network answers and the clock are parameters. */
module YouTube {
  import opened Strings

  /** Entries are valid for one hour. */
  const CacheDuration: real := 3600.0

  const UnknownVideo: string := "Unknown Video"
  const UnknownChannel: string := "Unknown Channel"

  /** Which of the two value maps a cache operation uses. */
  datatype CacheKind = VideoTitles | ChannelNames

  /** The answer of one network lookup: it failed (raised), or it returned a JSON
      document in which the wanted field may be absent. */
  datatype Lookup = Failed | Answer(field: Option<string>)

  /** `info.get(name, default)` / `data.get(name, default)`. */
  function FieldOr(field: Option<string>, default: string): string {
    if field.Some? then field.value else default
  }

  /** `_is_cache_valid`: the key has a timestamp younger than one hour. */
  predicate Fresh(timestamps: map<string, real>, key: string, now: real) {
    key in timestamps && now - timestamps[key] < CacheDuration
  }

  /** The contents of the module-level caches: the two value maps and the one
      timestamp map they share. */
  datatype Store = Store(videoTitles: map<string, string>, channelNames: map<string, string>,
                         timestamps: map<string, real>)
  {
    function Values(kind: CacheKind): map<string, string> {
      match kind
      case VideoTitles => videoTitles
      case ChannelNames => channelNames
    }

    /** `_get_from_cache`: the stored value when the key is fresh and present in that
        map, None otherwise. */
    function Get(key: string, kind: CacheKind, now: real): (r: Option<string>)
      ensures r.Some? <==> Fresh(timestamps, key, now) && key in Values(kind)
      ensures r.Some? ==> r.value == Values(kind)[key]
    {
      if Fresh(timestamps, key, now) && key in Values(kind) then Some(Values(kind)[key]) else None
    }

    /** `_set_cache`: stores the value and stamps the key in the shared timestamp map,
        so an entry of the other kind under the same key is refreshed too. */
    function Put(key: string, value: string, kind: CacheKind, now: real): (s: Store)
      ensures s.Values(kind) == Values(kind)[key := value]
      ensures kind.VideoTitles? ==> s.channelNames == channelNames
      ensures kind.ChannelNames? ==> s.videoTitles == videoTitles
      ensures s.timestamps == timestamps[key := now]
      ensures s.Get(key, kind, now) == Some(value)
    {
      match kind
      case VideoTitles => Store(videoTitles[key := value], channelNames, timestamps[key := now])
      case ChannelNames => Store(videoTitles, channelNames[key := value], timestamps[key := now])
    }
  }

  /** `get_video_title_fast` on the cache contents `st`: the title and the contents
      afterwards. A cached non-empty title is the answer and nothing changes;
      otherwise the oEmbed answer, else the yt-dlp answer ("Unknown Video" for a
      missing title field) is the answer and is stored under the id; when both
      lookups fail the answer is "Unknown Video" and nothing changes. */
  function TitleFetch(st: Store, videoId: string, now: real, oembed: Lookup, ytdlp: Lookup): (r: (string, Store))
    ensures r.1 == st || r.1 == st.Put(videoId, r.0, VideoTitles, now)
    ensures r.1 == st ==> r.0 == UnknownVideo || st.Get(videoId, VideoTitles, now) == Some(r.0)
    ensures r.1 != st ==> oembed.Answer? || ytdlp.Answer?
  {
    var hit := st.Get(videoId, VideoTitles, now);
    if hit.Some? && hit.value != "" then (hit.value, st)
    else if oembed.Answer? || ytdlp.Answer? then
      var title := FieldOr(if oembed.Answer? then oembed.field else ytdlp.field, UnknownVideo);
      (title, st.Put(videoId, title, VideoTitles, now))
    else (UnknownVideo, st)
  }

  /** A second lookup of the same id at the same moment, after one that left a
      non-empty title readable, finds that title and changes nothing, whatever the
      network would answer. */
  lemma {:induction false} RefetchHits(st: Store, videoId: string, now: real, oembed: Lookup, ytdlp: Lookup,
                                       oembed2: Lookup, ytdlp2: Lookup)
    requires TitleFetch(st, videoId, now, oembed, ytdlp).0 != ""
    requires TitleFetch(st, videoId, now, oembed, ytdlp).0 != UnknownVideo ||
             TitleFetch(st, videoId, now, oembed, ytdlp).1 != st
    ensures var (title, after) := TitleFetch(st, videoId, now, oembed, ytdlp);
            TitleFetch(after, videoId, now, oembed2, ytdlp2) == (title, after)
  {
    var (title, after) := TitleFetch(st, videoId, now, oembed, ytdlp);
    assert after.Get(videoId, VideoTitles, now) == Some(title);
  }

  /** `get_channel_name_fast` on the cache contents `st`: the name and the contents
      afterwards. A cached non-empty name is the answer and nothing changes;
      otherwise the acceptable cleaned page title, else the page's JSON-LD name,
      else the yt-dlp uploader ("Unknown Channel" for a missing field) is the answer
      and is stored under the id; when the page fetch and yt-dlp both fail the
      answer is "Unknown Channel" and nothing changes. */
  function ChannelFetch(st: Store, channelId: string, now: real, page: Option<(Option<string>, Option<string>)>,
                        ytdlp: Lookup): (r: (string, Store))
    ensures r.1 == st || r.1 == st.Put(channelId, r.0, ChannelNames, now)
    ensures r.1 == st ==> r.0 == UnknownChannel || st.Get(channelId, ChannelNames, now) == Some(r.0)
    ensures r.1 != st ==> page.Some? || ytdlp.Answer?
  {
    var hit := st.Get(channelId, ChannelNames, now);
    if hit.Some? && hit.value != "" then (hit.value, st)
    else if page.Some? && page.value.0.Some? && AcceptableChannelTitle(page.value.0.value) then
      var name := CleanChannelTitle(page.value.0.value);
      (name, st.Put(channelId, name, ChannelNames, now))
    else if page.Some? && page.value.1.Some? then
      (page.value.1.value, st.Put(channelId, page.value.1.value, ChannelNames, now))
    else if ytdlp.Answer? then
      var name := FieldOr(ytdlp.field, UnknownChannel);
      (name, st.Put(channelId, name, ChannelNames, now))
    else (UnknownChannel, st)
  }

  /** The channel counterpart of `RefetchHits`: once a lookup left a non-empty name
      readable, a second lookup of the same id at the same moment finds it and
      changes nothing, whatever the network would answer. */
  lemma {:induction false} ChannelRefetchHits(st: Store, channelId: string, now: real,
                                              page: Option<(Option<string>, Option<string>)>, ytdlp: Lookup,
                                              page2: Option<(Option<string>, Option<string>)>, ytdlp2: Lookup)
    requires ChannelFetch(st, channelId, now, page, ytdlp).0 != ""
    requires ChannelFetch(st, channelId, now, page, ytdlp).0 != UnknownChannel ||
             ChannelFetch(st, channelId, now, page, ytdlp).1 != st
    ensures var (name, after) := ChannelFetch(st, channelId, now, page, ytdlp);
            ChannelFetch(after, channelId, now, page2, ytdlp2) == (name, after)
  {
    var (name, after) := ChannelFetch(st, channelId, now, page, ytdlp);
    assert after.Get(channelId, ChannelNames, now) == Some(name);
  }

  /** `get_video_title` on the cache contents `st`: for a URL holding an id, the
      title fetch by that id; otherwise the yt-dlp title of the whole URL, or None
      when yt-dlp fails or has no title, with the contents unchanged. */
  function UrlLookup(st: Store, url: string, now: real, oembed: Lookup, ytdlpById: Lookup,
                     ytdlpByUrl: Lookup): (r: (Option<string>, Store))
    ensures ExtractVideoId(url).Some? ==> r.0.Some? && (r.0.value, r.1) == TitleFetch(st, ExtractVideoId(url).value, now, oembed, ytdlpById)
    ensures ExtractVideoId(url).None? ==> r.1 == st && (r.0.Some? <==> ytdlpByUrl.Answer? && ytdlpByUrl.field.Some?)
  {
    match ExtractVideoId(url)
    case Some(id) =>
      var (title, after) := TitleFetch(st, id, now, oembed, ytdlpById);
      (Some(title), after)
    case None => (if ytdlpByUrl.Answer? then ytdlpByUrl.field else None, st)
  }

  /** The module-level caches. Both value maps share one timestamp map. */
  class Cache {
    var videoTitles: map<string, string>
    var channelNames: map<string, string>
    var timestamps: map<string, real>

    constructor ()
      ensures videoTitles == map[] && channelNames == map[] && timestamps == map[]
    {
      videoTitles, channelNames, timestamps := map[], map[], map[];
    }

    /** The current contents. */
    function Contents(): Store
      reads this
    {
      Store(videoTitles, channelNames, timestamps)
    }

    /** `_set_cache`. */
    method Set(key: string, value: string, kind: CacheKind, now: real)
      modifies this
      ensures Contents() == old(Contents()).Put(key, value, kind, now)
    {
      match kind {
        case VideoTitles => videoTitles := videoTitles[key := value];
        case ChannelNames => channelNames := channelNames[key := value];
      }
      timestamps := timestamps[key := now];
    }

    /** `get_video_title_fast`: the title and the new contents are `TitleFetch`'s. */
    method VideoTitleFast(videoId: string, now: real, oembed: Lookup, ytdlp: Lookup)
      returns (title: string)
      modifies this
      ensures FetchedTitle(videoId, now, oembed, ytdlp, title)
    {
      var cached := Contents().Get(videoId, VideoTitles, now);
      if cached.Some? && cached.value != "" {
        return cached.value;
      }
      if oembed.Answer? {
        title := FieldOr(oembed.field, UnknownVideo);
        Set(videoId, title, VideoTitles, now);
        return;
      }
      if ytdlp.Answer? {
        title := FieldOr(ytdlp.field, UnknownVideo);
        Set(videoId, title, VideoTitles, now);
        return;
      }
      title := UnknownVideo;
    }

    /** `get_channel_name_fast`. A cached non-empty name is returned at once. Otherwise
        the page's `<title>` text, cleaned, is used when acceptable; then the first
        JSON-LD `"name"`; then the yt-dlp uploader (or "Unknown Channel" when that
        field is missing). The name found is cached. When the page fetch and yt-dlp
        both fail, "Unknown Channel" is returned and nothing is cached. */
    method ChannelNameFast(channelId: string, now: real, page: Option<(Option<string>, Option<string>)>,
                           ytdlp: Lookup)
      returns (name: string)
      modifies this
      ensures var hit := old(Contents().Get(channelId, ChannelNames, now));
        if hit.Some? && hit.value != "" then
          name == hit.value && unchanged(this)
        else if page.Some? && page.value.0.Some? && AcceptableChannelTitle(page.value.0.value) then
          name == CleanChannelTitle(page.value.0.value) && Cached(channelId, name, now)
        else if page.Some? && page.value.1.Some? then
          name == page.value.1.value && Cached(channelId, name, now)
        else if ytdlp.Answer? then
          name == FieldOr(ytdlp.field, UnknownChannel) && Cached(channelId, name, now)
        else
          name == UnknownChannel && unchanged(this)
      ensures FetchedChannel(channelId, now, page, ytdlp, name)
    {
      var cached := Contents().Get(channelId, ChannelNames, now);
      if cached.Some? && cached.value != "" {
        return cached.value;
      }
      if page.Some? {
        var (titleTag, jsonName) := page.value;
        if titleTag.Some? {
          var cleaned := CleanChannelTitle(titleTag.value);
          if cleaned != "" && cleaned != "YouTube" {
            Set(channelId, cleaned, ChannelNames, now);
            return cleaned;
          }
        }
        if jsonName.Some? {
          Set(channelId, jsonName.value, ChannelNames, now);
          return jsonName.value;
        }
      }
      if ytdlp.Answer? {
        name := FieldOr(ytdlp.field, UnknownChannel);
        Set(channelId, name, ChannelNames, now);
        return;
      }
      name := UnknownChannel;
    }

    /** The channel map gained `key -> name`, stamped `now`; the title map is as before. */
    twostate predicate Cached(key: string, name: string, now: real)
      reads this
    {
      Contents() == old(Contents()).Put(key, name, ChannelNames, now)
    }

    /** A channel-name lookup went from the old contents to the new ones and gave
        `name`, as `ChannelFetch` says. */
    twostate predicate FetchedChannel(channelId: string, now: real, page: Option<(Option<string>, Option<string>)>,
                                      ytdlp: Lookup, name: string)
      reads this
    {
      (name, Contents()) == ChannelFetch(old(Contents()), channelId, now, page, ytdlp)
    }

    /** A title lookup by id went from the old contents to the new ones and gave
        `title`, as `TitleFetch` says. */
    twostate predicate FetchedTitle(videoId: string, now: real, oembed: Lookup, ytdlp: Lookup, title: string)
      reads this
    {
      (title, Contents()) == TitleFetch(old(Contents()), videoId, now, oembed, ytdlp)
    }

    /** A title lookup by URL went from the old contents to the new ones and gave
        `title`, as `UrlLookup` says. */
    twostate predicate LookedUp(url: string, now: real, oembed: Lookup, ytdlpById: Lookup, ytdlpByUrl: Lookup,
                                new title: Option<string>)
      reads this
    {
      (title, Contents()) == UrlLookup(old(Contents()), url, now, oembed, ytdlpById, ytdlpByUrl)
    }

    /** `get_video_title`: the title of the first 11-character id in the URL by the
        fast path; with no such id, the yt-dlp title of the whole URL, which raises
        (None) when yt-dlp fails or the title field is missing. */
    method VideoTitle(url: string, now: real, oembed: Lookup, ytdlpById: Lookup, ytdlpByUrl: Lookup)
      returns (title: Option<string>)
      modifies this
      ensures LookedUp(url, now, oembed, ytdlpById, ytdlpByUrl, title)
    {
      var id := ExtractVideoId(url);
      if id.Some? {
        var t := VideoTitleFast(id.value, now, oembed, ytdlpById);
        return Some(t);
      }
      title := if ytdlpByUrl.Answer? then ytdlpByUrl.field else None;
    }
  }

  /** The page title with every " - YouTube" removed and the ends stripped. */
  function CleanChannelTitle(title: string): string {
    Strip(RemoveAll(title, " - YouTube"))
  }

  /** A cleaned page title is used only when it is non-empty and not just "YouTube". */
  predicate AcceptableChannelTitle(title: string) {
    var c := CleanChannelTitle(title);
    c != "" && c != "YouTube"
  }

  /** An accepted channel name never starts or ends with whitespace. */
  lemma AcceptedChannelNameTrimmed(title: string)
    requires AcceptableChannelTitle(title)
    ensures var c := CleanChannelTitle(title); !IsSpace(c[0]) && !IsSpace(c[|c| - 1])
  {
    StripProperties(RemoveAll(title, " - YouTube"));
  }

  /** A page title without the suffix text is only stripped. */
  lemma CleanTitleWithoutSuffix(title: string)
    requires forall k :: 0 <= k <= |title| ==> !OccursAt(title, " - YouTube", k)
    ensures CleanChannelTitle(title) == Strip(title)
  {
    RemoveAllAbsent(title, " - YouTube");
  }

  // ---------------------------------------------------------------------------
  // The video id in a URL: the regex (?:v=|/)([a-zA-Z0-9_-]{11})
  // ---------------------------------------------------------------------------

  predicate IsIdChar(c: char) {
    IsLetter(c) || IsDigit(c) || c == '_' || c == '-'
  }

  /** Eleven id characters start at `k`. */
  predicate IdRunAt(s: string, k: nat) {
    k + 11 <= |s| && forall j :: k <= j < k + 11 ==> IsIdChar(s[j])
  }

  /** The pattern matches at `p`: `v=` or `/` there, then eleven id characters. */
  predicate MatchAt(s: string, p: nat) {
    || (p + 2 <= |s| && s[p] == 'v' && s[p + 1] == '=' && IdRunAt(s, p + 2))
    || (p < |s| && s[p] == '/' && IdRunAt(s, p + 1))
  }

  /** The captured group of a match at `p`. */
  function Group(s: string, p: nat): (g: string)
    requires MatchAt(s, p)
    ensures |g| == 11 && forall j :: 0 <= j < 11 ==> IsIdChar(g[j])
  {
    var start := if s[p] == 'v' then p + 2 else p + 1;
    var g := s[start..start + 11];
    assert forall j :: 0 <= j < 11 ==> g[j] == s[start + j];
    g
  }

  /** `q` is the first position at or after `p` where the pattern matches. */
  predicate FirstMatchFrom(s: string, p: nat, q: nat) {
    p <= q && MatchAt(s, q) && forall q' :: p <= q' < q ==> !MatchAt(s, q')
  }

  /** The search from position `p` on: the group of the first match at or after `p`. */
  function ExtractFrom(s: string, p: nat): (r: Option<string>)
    ensures r.Some? ==> exists q :: FirstMatchFrom(s, p, q) && r.value == Group(s, q)
    ensures r.None? <==> forall q :: p <= q ==> !MatchAt(s, q)
    decreases |s| - p
  {
    if p >= |s| then None
    else if MatchAt(s, p) then Some(Group(s, p))
    else ExtractFrom(s, p + 1)
  }

  /** `re.search` for the id pattern: the group of the leftmost match, if any. */
  function ExtractVideoId(url: string): (r: Option<string>)
    ensures r.Some? ==> exists q :: FirstMatchFrom(url, 0, q) && r.value == Group(url, q)
    ensures r.Some? ==> |r.value| == 11 && forall j :: 0 <= j < 11 ==> IsIdChar(r.value[j])
    ensures r.None? <==> forall q :: !MatchAt(url, q)
  {
    ExtractFrom(url, 0)
  }

  /** The URL that a queued song is resolved from. */
  function QueueUrl(videoId: string): string {
    "https://music.youtube.com/watch?v=" + videoId
  }

  /** For a queued id that starts with eleven id characters, the title lookup uses
      exactly those eleven characters: nothing in the fixed URL prefix matches. */
  lemma QueueUrlYieldsId(videoId: string)
    requires |videoId| >= 11 && forall j :: 0 <= j < 11 ==> IsIdChar(videoId[j])
    ensures ExtractVideoId(QueueUrl(videoId)) == Some(videoId[..11])
  {
    var url := QueueUrl(videoId);
    var prefix := "https://music.youtube.com/watch?";
    assert |prefix| == 32;
    assert url == prefix + "v=" + videoId;
    forall q | 0 <= q < 32 ensures !MatchAt(url, q) {
      assert url[q] == prefix[q];
      assert url[q + 1] == (prefix + "v")[q + 1];
      NoMatchInPrefix(url, q);
    }
    assert MatchAt(url, 32) by {
      assert url[32] == 'v' && url[33] == '=';
      forall j | 34 <= j < 45 ensures IsIdChar(url[j]) {
        assert url[j] == videoId[j - 34];
      }
    }
    ExtractFromSkips(url, 0, 32);
    assert Group(url, 32) == url[34..45] == videoId[..11];
  }

  /** For a queued id of exactly eleven id characters, the toast's lookup of the id
      after `queue_song`'s lookup of the queue URL finds the title just read or
      stored and changes nothing more, unless that title is empty or both lookups
      failed. A longer id is looked up under the whole token and can add an entry. */
  lemma {:induction false} ToastAfterQueueFindsTitle(st: Store, videoId: string, now: real, oembed: Lookup,
                                                     ytdlpById: Lookup, ytdlpByUrl: Lookup,
                                                     toastOembed: Lookup, toastYtdlp: Lookup)
    requires |videoId| == 11 && forall j :: 0 <= j < 11 ==> IsIdChar(videoId[j])
    requires TitleFetch(st, videoId, now, oembed, ytdlpById).0 != ""
    requires TitleFetch(st, videoId, now, oembed, ytdlpById).0 != UnknownVideo ||
             TitleFetch(st, videoId, now, oembed, ytdlpById).1 != st
    ensures var (found, looked) := UrlLookup(st, QueueUrl(videoId), now, oembed, ytdlpById, ytdlpByUrl);
            found.Some? && TitleFetch(looked, videoId, now, toastOembed, toastYtdlp) == (found.value, looked)
  {
    QueueUrlYieldsId(videoId);
    assert videoId[..11] == videoId;
    RefetchHits(st, videoId, now, oembed, ytdlpById, toastOembed, toastYtdlp);
  }

  lemma NoMatchInPrefix(url: string, q: nat)
    requires |url| >= 45 && q < 32
    requires url[..34] == "https://music.youtube.com/watch?v="
    ensures !MatchAt(url, q)
  {
    var prefix := url[..34];
    assert forall k :: 0 <= k < 34 ==> url[k] == prefix[k];
    if url[q] == '/' {
      assert q == 6 || q == 7 || q == 25;
      if q == 6 {
        assert !IsIdChar(url[7]);
      } else if q == 7 {
        assert !IsIdChar(url[13]);
      } else {
        assert !IsIdChar(url[31]);
      }
    }
  }

  lemma {:induction false} ExtractFromSkips(s: string, p: nat, target: nat)
    requires p <= target < |s| && MatchAt(s, target)
    requires forall q :: p <= q < target ==> !MatchAt(s, q)
    ensures ExtractFrom(s, p) == Some(Group(s, target))
    decreases target - p
  {
    if p < target {
      ExtractFromSkips(s, p + 1, target);
    }
  }

  /** An id shorter than eleven characters yields no match in the queued URL, so the
      title then comes from yt-dlp on the whole URL. */
  lemma ShortIdHasNoMatch(videoId: string)
    requires |videoId| < 11
    ensures ExtractVideoId(QueueUrl(videoId)).None?
  {
    var url := QueueUrl(videoId);
    forall q ensures !MatchAt(url, q) {
      if q < 32 {
        NoMatchInPrefixShort(url, q);
      }
    }
  }

  lemma NoMatchInPrefixShort(url: string, q: nat)
    requires 34 <= |url| < 45 && q < 32
    requires url[..34] == "https://music.youtube.com/watch?v="
    ensures !MatchAt(url, q)
  {
    var prefix := url[..34];
    assert forall k :: 0 <= k < 34 ==> url[k] == prefix[k];
    if url[q] == '/' {
      assert q == 6 || q == 7 || q == 25;
      if q == 6 {
        assert !IsIdChar(url[7]);
      } else if q == 7 {
        assert !IsIdChar(url[13]);
      } else {
        assert !IsIdChar(url[31]);
      }
    }
  }
}
