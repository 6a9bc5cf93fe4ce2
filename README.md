# LYTE song-request bot, modelled in Dafny

LYTE is a desktop bot that reads a YouTube live chat and lets viewers queue songs
with a chat command (`!queue <video id>` by default). The queued songs play in a
VLC play-list player. This project models the bot's decision logic and its
bookkeeping:

- **Admission of a chat request** (`Admission`, `Lyte.Bot.OnChatMessage`):
  - the prefix test and the split into two words;
  - the rate limit, keyed by the author's display name;
  - the banned-video and banned-user checks, then the user and video whitelists;
  - the `watch?v=` link rewrite, the membership requirement and the Super Chat requirement;
  - the table of each user's last accepted request time.
- **Play-list control** (`Playback`, `Lyte.Bot`): `queue_song`, the auto-removal on
  `on_next_item`, and one pass of the player watch loop. The player is a list of
  media plus a log of the commands the bot issued to it.
- **Moderation lists** (`Moderation`): the four ban and whitelist lists. Adding an
  entry puts in a `"Loading..."` placeholder, the background name fetch backfills
  the name, and removal works from the `"Name (ID)"` line picked in the list box.
- **Helpers**:
  - version comparison (`Versions`);
  - `MM:SS` time formatting (`TimeFormat`);
  - the configuration-file repair (`ConfigFile`);
  - the one-hour title/channel cache, the title and channel-name lookups and the video-id search in a URL (`YouTube`);
  - theme discovery and theme lookup by display name (`Themes`).
- **The tic-tac-toe engine** in `test.py` (`TicTacToe`): win detection, and minimax
  and best move on a 3x3 board that is changed in place and restored.
- **Python strings** (`Strings`): the `str` operations the above rely on, such as
  `split()`, `strip()`, `find`, `replace` and `title()`.

Network answers, the wall clock and the VLC player's reported state are parameters.
A failed lookup is a `Failed`/`None` value standing for the exception the source
catches.

`Src/utils.py` holds legacy copies of `ensure_file_exists`, `ensure_json_valid`,
`format_time`, `compare_versions` and the tag normalisation. They are identical to
the versions in `Src/helpers/`, so each Dafny definition models both; the table
cites both places for those members.

## Model

| member | source | states |
|---|---|---|
| Strings.Words | Src/main.py:557 | `split()`: every word is non-empty and holds no whitespace |
| Strings.NoWordsIffAllSpace | Src/main.py:557 | `split()` gives no word exactly when the text is all whitespace |
| Strings.WordsHead | Src/main.py:557 | the first word sits right after the leading whitespace, is followed by whitespace or the end, and the remaining words are those of the rest |
| Strings.FirstWord | Src/main.py:557 | the text is leading whitespace, the first word, and a rest that is empty or starts with whitespace and splits into the remaining words |
| Strings.TwoWordsApart | Src/main.py:557 | text that splits into exactly `[a, b]` is whitespace, `a`, a non-empty whitespace gap, `b`, whitespace: `split()` cuts only at whitespace runs |
| Strings.TwoWordsJoined | Src/main.py:557 | any such layout splits into exactly `[a, b]` |
| Strings.TwoWordsLayout | Src/main.py:557-559 | splitting into exactly two words `a`, `b` holds if and only if the text has that layout |
| Strings.WordsOfTwo | Src/main.py:557 | two words separated by whitespace split into exactly those two words |
| Strings.StripProperties | Src/main.py:708 | `strip()` is empty exactly for all-whitespace input, and otherwise neither starts nor ends with whitespace |
| Strings.SplitOn | Src/main.py:838 | `split("(")`: no part holds the separator, and joining the parts with it gives the input back |
| Strings.TitleIdempotent | Src/helpers/theme_helpers.py:485 | `title()` applied twice changes nothing more |
| Versions.CleanVersion | Src/helpers/version_helpers.py:28 | the compared text is a prefix of the version holding no `-` and no `_` |
| Versions.ComponentValue | Src/helpers/version_helpers.py:33-38 | a component that is not all digits counts as 0 |
| Versions.VersionTuple | Src/helpers/version_helpers.py:25-39 | the loop builds the tuple `Tuple(v)`: one entry per dot component, its decimal value or 0 |
| Versions.CompareVersions | Src/helpers/version_helpers.py:41-49 | the result is -1, 0 or 1, and -1 exactly when the first tuple is lexicographically smaller; the legacy copy at Src/utils.py:199-234 is the same code |
| Versions.CompareReflexive | Src/helpers/version_helpers.py:44-49 | a version compares equal to itself |
| Versions.CompareAntisymmetric | Src/helpers/version_helpers.py:44-49 | swapping the arguments negates the result |
| Versions.CompareZeroIffSameTuple | Src/helpers/version_helpers.py:44-49 | 0 exactly when the two integer tuples are equal |
| Versions.CompareTransitive | Src/helpers/version_helpers.py:44-49 | "older than" is transitive |
| Versions.TupleLessPrefix | Src/helpers/version_helpers.py:44-45 | a proper prefix tuple is smaller |
| Versions.SuffixIgnored | Src/helpers/version_helpers.py:28 | `v-suffix` and `v_suffix` compare equal to `v`; the legacy copy at Src/utils.py:213 is the same code |
| Versions.NonDigitComponentIsZero | Src/helpers/version_helpers.py:29-38 | `1.x.2` compares equal to `1.0.2` |
| Versions.MinorReleaseOrder | Src/helpers/version_helpers.py:44-45 | `1.5.0` is older than `1.6.0` |
| Versions.PrefixReleaseOrder | Src/helpers/version_helpers.py:44-45 | for single-character components `a`, `b`, `c` (none of them `.`, `-` or `_`), `a.b` is older than `a.b.c`, so `1.6` is older than `1.6.0` |
| Versions.NormalizeTag | Src/helpers/version_helpers.py:67-68 | one leading `v` is removed and nothing else changes; the legacy copy at Src/utils.py:252-253 is the same code |
| Versions.NormalizedTagCompares | Src/helpers/version_helpers.py:67-68 | the tag `v` + version compares equal to the version |
| TimeFormat.Minutes | Src/helpers/time_helpers.py:15 | the minutes field is the whole seconds divided by 60, rounded down |
| TimeFormat.SecondsField | Src/helpers/time_helpers.py:16 | the seconds field is the whole seconds modulo 60, so it lies in 0..59 |
| TimeFormat.FormatTime | Src/helpers/time_helpers.py:17 | at least five characters, with `:` before the last two; the legacy copy at Src/utils.py:116-118 is the same code |
| TimeFormat.FieldsRecompose | Src/helpers/time_helpers.py:15-16 | minutes * 60 + seconds gives back the whole seconds, and seconds is at most 59 |
| TimeFormat.ParseFormatRoundTrip | Src/helpers/time_helpers.py:15-17 | reading the `MM:SS` text back gives the whole number of seconds formatted |
| TimeFormat.FormatLength | Src/helpers/time_helpers.py:17 | under 6000 seconds the text is exactly five characters with `:` in the middle |
| TimeFormat.FormatIgnoresFraction | Src/helpers/time_helpers.py:15-16 | fractions of a second are dropped, never rounded |
| ConfigFile.Cleaned | Src/helpers/file_helpers.py:115-121 | the cleaned object has exactly the default keys, with the file's value where it has one |
| ConfigFile.CleanKeys | Src/helpers/file_helpers.py:112-128 | the loop's result is that object, and `modified` holds exactly when a default key is missing or an extra key is present; the legacy copy at Src/utils.py:68-84 is the same code |
| ConfigFile.EnsureFileExists | Src/helpers/file_helpers.py:85-88 | the defaults are written only where there is no file; the legacy copy at Src/utils.py:41-44 is the same code |
| ConfigFile.EnsureJsonValid | Src/helpers/file_helpers.py:101-143 | undecodable JSON becomes the defaults, with no backup; a missing file or a non-object is left alone; an object needing no change is left alone; otherwise the original is backed up and the file becomes the object with exactly the default keys, each holding the file's value where it had one and the default otherwise; the legacy copy at Src/utils.py:57-100 is the same code |
| ConfigFile.RepairedFileHasDefaultKeys | Src/helpers/file_helpers.py:103-140 | unless missing or not an object, the repaired file is an object with exactly the default keys |
| ConfigFile.RepairIdempotent | Src/helpers/file_helpers.py:112-140 | a second repair changes nothing and writes no backup |
| ConfigFile.FreshInstall | Src/helpers/file_helpers.py:77-143 | on a fresh install the file is created from the defaults and then left alone |
| YouTube.Cache.constructor | Src/helpers/youtube_helpers.py:47-50 | both value maps and the shared timestamp map start empty |
| YouTube.Store.Get | Src/helpers/youtube_helpers.py:53-63 | a value is returned exactly when the key is younger than 3600 s and present in that map, and it is the stored value |
| YouTube.Store.Put | Src/helpers/youtube_helpers.py:65-68 | the value is stored in its own map only, the key is stamped in the shared timestamp map, and the key then reads back the value |
| YouTube.Cache.Set | Src/helpers/youtube_helpers.py:65-68 | the cache contents become `Put`'s |
| YouTube.TitleFetch | Src/helpers/youtube_helpers.py:70-121 | the cache is either unchanged or has the returned title put under the id; unchanged means a fresh cached title or "Unknown Video"; a change needs an oEmbed or a yt-dlp answer |
| YouTube.RefetchHits | Src/helpers/youtube_helpers.py:83-86 | a second lookup of the same id, at the same time, after one that stored or found a non-empty title, returns that title from the cache and changes nothing, whatever the network would answer |
| YouTube.UrlLookup | Src/helpers/youtube_helpers.py:192-216 | a URL holding an id gets `TitleFetch` of that id and some title; otherwise the cache is unchanged and a title comes back exactly when yt-dlp names one |
| YouTube.Cache.VideoTitleFast | Src/helpers/youtube_helpers.py:70-121 | `FetchedTitle`, the title and new cache of `TitleFetch`: a cached non-empty title is returned with nothing changed; otherwise the oEmbed title, else the yt-dlp title ("Unknown Video" for a missing field), is returned, stored under the id and stamped `now`, with the channel names untouched; if both fail, "Unknown Video" is returned and nothing is cached |
| YouTube.ChannelFetch | Src/helpers/youtube_helpers.py:123-189 | the cache is either unchanged or has the returned name put under the id; unchanged means a fresh cached name or "Unknown Channel"; a change needs a page or a yt-dlp answer |
| YouTube.ChannelRefetchHits | Src/helpers/youtube_helpers.py:134-136 | a second lookup of the same channel at the same moment, after one that stored or found a non-empty name, returns that name from the cache and changes nothing, whatever the network would answer |
| YouTube.Cache.ChannelNameFast | Src/helpers/youtube_helpers.py:123-189 | `FetchedChannel`, the name and new cache of `ChannelFetch`: the cached name; else the cleaned page title when acceptable; else the JSON-LD name; else the yt-dlp uploader; the name found is cached; "Unknown Channel" with nothing cached when both fetches fail |
| YouTube.Cache.VideoTitle | Src/helpers/youtube_helpers.py:192-216 | `LookedUp`: the title and new cache are `UrlLookup`'s; a URL holding an id gets exactly the title and cache change of `VideoTitleFast` for `ExtractVideoId(url)`; otherwise the cache is unchanged and the result is the yt-dlp title, or None when yt-dlp fails or has no title |
| YouTube.AcceptedChannelNameTrimmed | Src/helpers/youtube_helpers.py:157-162 | an accepted channel title never starts or ends with whitespace |
| YouTube.CleanTitleWithoutSuffix | Src/helpers/youtube_helpers.py:158-159 | a title without " - YouTube" is only stripped |
| YouTube.Group | Src/helpers/youtube_helpers.py:203-205 | the captured group is eleven id characters |
| YouTube.ExtractFrom | Src/helpers/youtube_helpers.py:203 | the group of the first match at or after a position, or None exactly when nothing matches there |
| YouTube.ExtractVideoId | Src/helpers/youtube_helpers.py:203-206 | the id of the leftmost match of `v=` or `/` followed by eleven id characters; None exactly when there is no match |
| YouTube.ExtractFromSkips | Src/helpers/youtube_helpers.py:203 | the search skips non-matching positions up to the first match |
| YouTube.QueueUrlYieldsId | Src/main.py:500-505 | for an id starting with eleven id characters, the title lookup of the queued URL finds those eleven characters |
| YouTube.ToastAfterQueueFindsTitle | Src/main.py:483-517 | for a well-formed id, when queueing found or stored a non-empty title, the toast's lookup of the raw id returns that same title and leaves the cache as queueing left it |
| YouTube.ShortIdHasNoMatch | Src/main.py:500-505 | for an id shorter than eleven characters, the queued URL holds no match, so the title comes from yt-dlp |
| Themes.GetAt | Src/helpers/theme_helpers.py:132-190 | with distinct keys, each item is what its name looks up |
| Themes.Put | Src/helpers/theme_helpers.py:152-156 | a new name goes to the end and an existing one keeps its place; keys stay distinct |
| Themes.PutGet | Src/helpers/theme_helpers.py:179-183 | after storing, the name maps to the new entry and every other name to its old one |
| Themes.Filled | Src/helpers/theme_helpers.py:484-486 | a missing display name is filled with the title-cased name, and nothing else changes |
| Themes.FillUpTo | Src/helpers/theme_helpers.py:482-486 | the first n items are filled in, the rest untouched, and the keys are kept |
| Themes.FillStep | Src/helpers/theme_helpers.py:482-486 | one loop iteration fills exactly the next item |
| Themes.FillKeepsDistinct | Src/helpers/theme_helpers.py:482-486 | filling display names keeps the keys distinct |
| Themes.Displays | Src/helpers/theme_helpers.py:481-488 | one display name per theme, in dictionary order |
| Themes.FirstWithDisplay | Src/helpers/theme_helpers.py:506-512 | the first position showing the display name, or None when no theme shows it |
| Themes.Blank | Src/helpers/theme_helpers.py:500 | blank means no value, or only whitespace |
| Themes.ThemeForDisplay | Src/helpers/theme_helpers.py:490-517 | a non-blank name that some theme shows gives the first theme showing it; a blank name, or one no theme shows, gives the first theme, or "dark_theme" when there are no themes |
| Themes.Scanned | Src/helpers/theme_helpers.py:506-512 | the lookup fills in no more items than there are |
| Themes.DropdownLookupRoundTrip | Src/helpers/theme_helpers.py:474-517 | looking up a non-blank dropdown item returns a theme showing it, no later than the item, and exactly that theme when no earlier theme shows the same text |
| Themes.BlankDisplayFallsBack | Src/helpers/theme_helpers.py:500-504 | a blank display name gives the first theme, or "dark_theme" when there are none |
| Themes.Stem | Src/helpers/theme_helpers.py:141-142 | the theme name plus `.json` is the file name |
| Themes.Step | Src/helpers/theme_helpers.py:141-159 | one file's iteration keeps the keys distinct and only adds names |
| Themes.ScanFolder | Src/helpers/theme_helpers.py:139-161 | a folder's loop keeps the keys distinct |
| Themes.ScanFolderLoop | Src/helpers/theme_helpers.py:139-161 | the loop computes `ScanFolder` |
| Themes.Discover | Src/helpers/theme_helpers.py:124-190 | the bundled folder is scanned, then the user folder over it; keys are distinct |
| Themes.ScanExtends | Src/helpers/theme_helpers.py:166-186 | scanning only adds: earlier keys keep their place, and each entry is either old or from a loaded file of this folder |
| Themes.ScanKeepsLocation | Src/helpers/theme_helpers.py:166-186 | an entry from this folder stays from this folder |
| Themes.ScanReaches | Src/helpers/theme_helpers.py:166-186 | a loaded file the scan reaches becomes an entry of this folder under its stem |
| Themes.UserOverridesBundled | Src/helpers/theme_helpers.py:178-183 | a loaded user theme the scan reaches replaces a bundled theme of the same name |
| Themes.DiscoveredNamesAreJsonStems | Src/helpers/theme_helpers.py:141-142 | every discovered theme is named after a loaded `.json` file of one of the two folders |
| Themes.Registry.constructor | Src/helpers/theme_helpers.py:110 | the current theme starts as "dark_theme" |
| Themes.Registry.DropdownItems | Src/helpers/theme_helpers.py:474-488 | returns the display names in order and fills every missing one in place |
| Themes.Registry.ThemeNameFromDisplay | Src/helpers/theme_helpers.py:490-517 | returns `ThemeForDisplay` and fills in exactly the items the loop passed |
| Themes.Registry.SearchDisplay | Src/helpers/theme_helpers.py:506-517 | the loop returns the first theme showing the name, else the fallback, filling items as it goes |
| Themes.Registry.SetCurrentTheme | Src/helpers/theme_helpers.py:537-552 | None or blank selects "dark_theme", anything else is stored as given; the current theme is never blank |
| TicTacToe.Max | test.py:83 | `max`: an upper bound of both, equal to one of them |
| TicTacToe.Min | test.py:92 | `min`: a lower bound of both, equal to one of them |
| TicTacToe.FullIffNoEmpty | test.py:32-34 | the board is full exactly when no cell is empty |
| TicTacToe.PlaceDecreases | test.py:81-82 | placing a mark on an empty cell leaves one empty cell fewer |
| TicTacToe.FirstComplete | test.py:46-55 | the first complete line in check order, or None when no line is complete |
| TicTacToe.Winner | test.py:43-56 | None exactly when no line is complete; otherwise the non-empty mark of a complete line |
| TicTacToe.Evaluate | test.py:61-68 | 10 exactly when the AI's mark wins, -10 exactly when the human's does, else 0 |
| TicTacToe.MinimaxIsStaticScore | test.py:70-94 | the search always ends in one of -10, 0 or 10 |
| TicTacToe.BestOverIsStaticScore | test.py:77-94 | the running best stays at infinity until an empty cell is tried, then is one of -10, 0 or 10 |
| TicTacToe.BestOverBounds | test.py:77-94 | the running best is no worse for the player to move than the child score of any empty cell tried so far |
| TicTacToe.BestOverReached | test.py:77-94 | once an empty cell has been tried, the running best is the child score of one tried empty cell |
| TicTacToe.MinimaxIsBestChild | test.py:70-94 | on a board nobody has won with a free cell, the score bounds every empty cell's child score (from above for the maximiser, from below for the minimiser) and equals one of them |
| TicTacToe.MoveOverWithoutEmpty | test.py:96-109 | on a full board the move is (-1, -1) |
| TicTacToe.MoveOverIsTriedCell | test.py:96-109 | once a cell is empty, the move is an empty cell and the best value is that cell's value |
| TicTacToe.MoveOverIsMaximal | test.py:100-108 | no empty cell has a higher value than the chosen one |
| TicTacToe.MoveOverIsFirstMaximal | test.py:106-108 | no earlier empty cell reaches the chosen value, so ties go to the first cell in row-major order |
| TicTacToe.CreateBoard | test.py:19-21 | a new 3x3 board with every cell empty |
| TicTacToe.BoardFull | test.py:32-34 | holds exactly when no cell is empty |
| TicTacToe.ValidMove | test.py:36-38 | holds exactly when the position is inside the board and the cell is empty |
| TicTacToe.SetCell | test.py:82-84 | writing a cell changes exactly that cell |
| TicTacToe.CheckWin | test.py:43-56 | the loop over rows, columns and diagonals returns `Winner` of the board |
| TicTacToe.EvaluateBoard | test.py:61-68 | returns `Evaluate` of the board |
| TicTacToe.Minimax | test.py:70-94 | returns `MinimaxScore` of the board and leaves the board as it was |
| TicTacToe.TryCell | test.py:81-84 | one search step (also 90-93): an occupied cell keeps the running best, an empty one folds in its child's score; the board comes back unchanged |
| TicTacToe.TryMove | test.py:102-105 | the value of marking an empty cell for the AI, with the board left as it was |
| TicTacToe.BestMove | test.py:96-109 | returns the move of `MoveOver` (first maximal empty cell, or (-1, -1)) and leaves the board as it was |
| Moderation.Added | Src/main.py:708-711 | the stripped input is appended with "Loading..." exactly when it is non-empty and not listed; earlier entries never change |
| Moderation.FirstIndex | Src/main.py:721-724 | the first position carrying the id |
| Moderation.Renamed | Src/main.py:721-724 | only the first entry with the id gets the new name; ids and length are kept; an absent id changes nothing |
| Moderation.Without | Src/main.py:839 | no entry with the id is left, and nothing new appears |
| Moderation.WithoutKeepsOthers | Src/main.py:839 | every entry with another id survives |
| Moderation.WithoutAppend | Src/main.py:839 | removal goes entry by entry, keeping the order of what remains |
| Moderation.WithoutAbsent | Src/main.py:839 | removing an unlisted id changes nothing |
| Moderation.AddedKeepsDistinct | Src/main.py:708-711 | adding keeps ids distinct |
| Moderation.RenamedKeepsIds | Src/main.py:717-724 | the backfill keeps the set of listed ids: it never re-adds a removed entry |
| Moderation.WithoutDistinct | Src/main.py:839 | with distinct ids, removing a listed id drops exactly one entry |
| Moderation.ExtractDisplayedId | Src/main.py:838 | the id read from a `Name (ID)` line is the entry's id when the id holds no `(` and has no `)` at either end |
| Moderation.StripOneParen | Src/main.py:838 | stripping `)` from `id)` gives the id back |
| Moderation.AddBackfillRemove | Src/main.py:700-841 | banning a new id, backfilling its name, then unbanning its line restores the list |
| Moderation.ModerationList.constructor | Src/main.py:172-179 | a list starts as loaded |
| Moderation.ModerationList.Add | Src/main.py:707-711 | the four add callbacks (also 740-744, 773-777, 806-810): the list becomes `Added` |
| Moderation.ModerationList.Backfill | Src/main.py:720-724 | the rename step of the name-fetch threads (also 753-757, 786-790, 819-823; the lookup before it is `Lyte.Bot.BackfillUser` and `Lyte.Bot.BackfillVideo`): the list becomes `Renamed` with the fetched name, which is "Unknown Channel" or "Unknown Video" when the lookup failed; only an exception before the rename (None) changes nothing |
| Moderation.ModerationList.Remove | Src/main.py:832-841 | the four remove callbacks (also 843-874): nothing happens without a selection; otherwise the list becomes `Without` the id read from the line |
| Playback.Engine.constructor | Src/main.py:232-235 | a new play-list player is empty and has issued nothing |
| Playback.Engine.AddMedia | Src/main.py:507 | appends at the end |
| Playback.Engine.RemoveFirst | Src/main.py:222 | drops the head |
| Playback.Engine.PlayCommand | Src/main.py:514 | logs a play command |
| Playback.Engine.StopCommand | Src/main.py:227 | logs a stop command |
| Admission.Requested | Src/main.py:587-589 | a link token becomes the text after its first `watch?v=` (no earlier occurrence starts before it); any other token is kept |
| Admission.RequestedAfterMarker | Src/main.py:587-589 | the inverse view: a prefix holding no `watch?v=`, then `watch?v=`, then `id`, requests exactly `id` |
| Admission.Evaluate | Src/main.py:526-610 | queues exactly when every check passes, and then the rewritten second word; only the author's time changes, to `now` and only when queued |
| Admission.NotACommandChangesNothing | Src/main.py:541 | a message without the command prefix changes nothing |
| Admission.CommandIsOnlyAPrefix | Src/main.py:541-560 | the command test is a prefix test: the first word may run on past the command, as in `!queuex abc` |
| Admission.RejectionKeepsTimes | Src/main.py:562-607 | a rejection leaves every user's last request time as it was |
| Admission.RateLimitWindow | Src/main.py:563-607 | after a queued request, the same author's next command within the limit is rejected by the rate limit, whatever it asks |
| Admission.BannedVideoRejected | Src/main.py:567-569 | a banned video id past the rate limit is rejected, and no user's time changes |
| Admission.LinkFormPassesBan | Src/main.py:567-592 | with links allowed, `watch?v=` followed by a banned id queues that id, because the ban check sees the token as typed |
| Admission.FailedConversionDrops | Src/main.py:550-552 | a Super Chat whose amount cannot be converted is dropped even when Super Chats are not required |
| Admission.SuperchatRequired | Src/main.py:600-602 | with Super Chats required, a plain message queues nothing |
| Lyte.Bot.constructor | Src/main.py:232-236 | an empty play list, play issued once, an empty cache, no request times, and the given toast flag |
| Lyte.Bot.ShowToast | Src/main.py:472-485 | with toasts on, the title is looked up by the raw id with `VideoTitleFast`'s cache effect; with them off nothing changes |
| Lyte.Bot.QueueSong | Src/main.py:491-520 | `Queued`: without media nothing changes; otherwise the title and cache change are `VideoTitle`'s for the queue URL, followed, when a title came back and toasts are on, by the toast's `VideoTitleFast` of the raw id; the song is appended with that title, and play issued when the player was idle, exactly when a title came back; a title comes back exactly when the URL holds an id or yt-dlp names one |
| Lyte.Bot.OnChatMessage | Src/main.py:526-610 | the verdict and the new time table are `Evaluate`'s; a rejection leaves the player alone; a ban or whitelist rejection has done `VideoTitleFast` on the second word as typed and returns that title, any other rejection leaves the cache alone; a queued request is `Queued` for the rewritten id, toast lookup included |
| Lyte.Bot.Request | Src/main.py:562-607 | from the rate-limit check on: `Check`'s verdict with the author's stored time, the author's time set to `now` exactly when queued and to the time read otherwise, and the same title and cache effects as `OnChatMessage` |
| Lyte.Bot.Stamp | Src/main.py:607 | only the author's time changes, to the given one |
| Lyte.Bot.Screen | Src/main.py:562-602 | the checks in order return `Check`'s verdict |
| Lyte.Bot.BackfillUser | Src/main.py:717-729 | the channel-name thread of the ban-user and whitelist-user callbacks (also 783-795): the name and cache change are `ChannelNameFast`'s, and the list becomes `Renamed` with that name |
| Lyte.Bot.BackfillVideo | Src/main.py:750-762 | the title thread of the ban-id and whitelist-id callbacks (also 816-828): the title and cache change are `VideoTitleFast`'s, and the list becomes `Renamed` with that title |
| Lyte.Bot.OnNextItem | Src/main.py:208-229 | with auto-removal on, the head goes only when more than one song is listed, so a non-empty list stays non-empty; stop is issued only for an empty list; with it off nothing happens |
| Lyte.Bot.WatchTick | Src/main.py:1518-1520 | play is issued exactly when the player reports Ended and songs are listed |

## Left out

- The GUI (DearPyGui windows, list boxes, sliders, the toast pop-up, `update_now_playing`) is not modelled. The selected list-box line and the typed input are parameters. `update_now_playing` is taken not to raise between queueing and stamping the time.
- Threads and polling loops (`poll_chat`, the `vlc_loop` timing, `update_slider_thread`) are not modelled; each handler is one step. The background name fetch after adding a moderation entry is one step too (`Lyte.Bot.BackfillUser`, `Lyte.Bot.BackfillVideo`), taken at some later moment `now`; how it interleaves with other handlers is not modelled. The code has no locking, so a step runs as one unit.
- The VLC player is an abstract play list plus a log of issued commands. How it reacts to a command, and its state changes, are outside the model; the state it reports is a parameter.
- yt-dlp, the oEmbed and channel-page requests, and the currency conversion are network calls. Their answers are parameters, and a raised exception is `Failed` or `None`.
- Lyte.Bot.QueueSong: a failure to resolve the stream address and a failure to build the media are folded into one `None` parameter. The desktop notification is not shown; only the title lookup it makes is modelled (`ShowToast`).
- YouTube.Store.Put: one clock reading per handler (`now`) stands for every `time.time()` read inside it. `_set_cache` stamps the entry after the network call returned, so in the program an entry can expire a few seconds later than in the model.
- Lyte.Bot.Request: the title for a ban or whitelist log line is looked up after all checks have run rather than inside the failing branch, and the author's time is stored after the lookup and `queue_song`; neither step reads the time table, so the final state is the same. The log text itself is left out.
- Configuration values are typed: the rate limit and the Super Chat minimum are numbers, and the flags are booleans. A configuration value of the wrong JSON type, which makes the comparison raise and drops the message, is not modelled.
- Reading the rate-limit table of a `defaultdict` inserts the author with time 0. The model does this insertion; stated properties speak of the time read, which is the same either way.
- Times are reals; floating-point rounding is not modelled.
- TimeFormat.FormatTime: only non-negative inputs are modelled (a play position).
- Python's `str.isdigit` also accepts non-ASCII digits; the model accepts only `0`-`9` in version components.
- Python's `str.title` and `str.isspace` are modelled on ASCII letters and on the Unicode whitespace set respectively; other Unicode case rules are not.
- TicTacToe.Minimax and TicTacToe.BestMove require both marks to differ from the empty cell. Otherwise a placement changes nothing and the search does not end, which the source does not guard against.
- `test.py`'s `print_board`, `get_move` and `main` are console I/O and are not modelled.
- File I/O around the configuration repair (paths, backups' time-stamped names, `get_app_folder`), config loading and saving, and `Src/helpers/moderation_helpers.py` (JSON load/save) are not modelled beyond the values written.
- `Src/helpers/update_helpers.py` and `Src/helpers/currency_helpers.py` are network code and are not part of this model.
