# NPO Radio 2 Top 2000 integration — a Dafny model

This project models the core of the Home Assistant integration that follows
the NPO Radio 2 Top 2000 broadcast: it works out which song is playing,
matches it against a local catalog of the 2000 listed songs, publishes the
song with its fun facts, position history and trend, keeps a cache of cover
art, and sends notifications when a song picked out by the user's rules
comes on or is about to come on.

The model has one module per source file, plus two helper modules:

- `Basics` (basics.dfy) holds `Option` and the Python string operations the
  source relies on: `lower()`, substring search, `split(sep, 1)`,
  `strip()`, `split(",")`, `str(int)` and `int(str)`.
- `Seqs` (seqs.dfy) holds filtering, a descending sort, and "ORDER BY key
  DESC LIMIT n" (`Top`).
- `NpoClient` (npo_client.dfy) models the three metadata sources: the NPO
  web page's `__NEXT_DATA__`, the Icecast ICY headers and OnlineRadioBox.
  These sources are tried in order. `Client` is the metadata cache, which
  lasts 30 seconds.
- `Database` (database.dfy) holds the SQLite tables as the value `Tables`.
  Its reads are pure members of that value; its writes are functions on it.
  The class `Catalog` is the database manager: its methods update its table
  fields in place, and each one is proved against the write function it
  mirrors. `Catalog.MatchSong` keeps the source's scoring loop; it is proved
  to return the first row with the best combined fuzzy score that reaches
  the threshold.
- `CoverArt` (coverart.dfy) models the MusicBrainz / Cover Art Archive
  lookup: at most three releases are tried, and a thumbnail is chosen from
  the front image.
- `Coordinator` (coordinator.dfy) models the update coordinator. It has
  one polling step (`Tick`) and the class `Coordinator`. Its methods
  change the catalog, the last song id and the log of notification service
  calls, and each is proved against `Tick` and its parts.
- `DataImporter` (data_importer.dfy) models the first-run import of the
  track list and the edition listings. The newest edition creates the
  songs; older editions add position history only.
- `ConfigFlow` (config_flow.dfy) models the set-up form and the options
  forms: notification settings, adding a rule, and deleting a rule.
- `Sensor` (sensor.dfy) models the current-song sensor and the
  upcoming-songs sensor.

Everything outside the process becomes a parameter of the operation that
uses it:

- the clock is an integer `now`, in seconds;
- HTTP replies are values of type `Http`;
- the MusicBrainz search is a `Search` value;
- file downloads are functions from file name to parsed content;
- `fuzz.partial_ratio` is a `ratio` parameter whose values are reals in
  0..100;
- a storage call that raises is `fault: Option<Step>`;
- notification services that fail are the set `failing`.

## Model

| member | source | states |
|---|---|---|
| Basics.Lower | custom_components/npo_top2000/database.py:185-186 | `lower()` keeps the length and lower-cases each character |
| Basics.LowerIdempotent | custom_components/npo_top2000/coordinator.py:214-219 | lower-casing twice is lower-casing once |
| Basics.FindFirst | custom_components/npo_top2000/npo_client.py:178 | the index returned is the first occurrence of the pattern; None means no occurrence |
| Basics.SplitOnce | custom_components/npo_top2000/npo_client.py:178-183 | `split(sep, 1)` yields two parts exactly when the separator occurs; the text is head + sep + tail, and the separator does not occur earlier |
| Basics.SplitOnceJoin | custom_components/npo_top2000/npo_client.py:178-183 | splitting `a + sep + b` recovers `a` and `b` when `sep` does not occur in `a` |
| Basics.Strip | custom_components/npo_top2000/config_flow.py:105-106 | the result is no longer than the text and neither starts nor ends with whitespace |
| Basics.StripRemovesOnlySpace | custom_components/npo_top2000/config_flow.py:105-106 | the result is a slice of the text, and only whitespace is cut on either side |
| Basics.StripUnpadded | custom_components/npo_top2000/config_flow.py:105-106 | text without outer whitespace is unchanged by strip |
| Basics.Split | custom_components/npo_top2000/config_flow.py:105 | `split(",")` gives at least one part, no part contains the separator, and joining the parts gives the text back |
| Basics.SplitJoin | custom_components/npo_top2000/config_flow.py:105 | splitting the join of separator-free parts gives those parts back |
| Basics.IntToString | custom_components/npo_top2000/config_flow.py:150 | `str(int)` is non-empty, contains no comma and has no outer whitespace |
| Basics.ParseInt | custom_components/npo_top2000/config_flow.py:114 | `int()` succeeds exactly when the text is an optional sign followed by one or more decimal digits; the value is the digits' decimal value, negated after a minus sign |
| Basics.ParseIntToString | custom_components/npo_top2000/config_flow.py:114 | `int(str(i)) == i` for every integer |
| Basics.ParseDigits | custom_components/npo_top2000/data_importer.py:155-158 | a digit string, with or without a leading minus, parses to its decimal value |
| Seqs.Filter | custom_components/npo_top2000/database.py:423-442 | a WHERE clause: the rows kept are exactly the rows that satisfy the condition |
| Seqs.FilterPairwise | custom_components/npo_top2000/database.py:44 | a pairwise uniqueness constraint still holds after filtering |
| Seqs.First | custom_components/npo_top2000/database.py:273-281 | the first row that satisfies the condition; None when there is none |
| Seqs.SortDesc | custom_components/npo_top2000/data_importer.py:98 | `sorted(..., reverse=True)`: a permutation of the input, in descending order |
| Seqs.SortDescStrict | custom_components/npo_top2000/database.py:311 | with distinct keys, the descending order is strict |
| Seqs.Top | custom_components/npo_top2000/database.py:306-316 | `ORDER BY key DESC LIMIT n`: at most n matching rows, in descending order; a matching row is left out only when the result is full and it ranks no higher than every listed row |
| Seqs.TopStrict | custom_components/npo_top2000/database.py:461-468 | with distinct keys, the result is strictly descending, and every row left out ranks strictly lower |
| NpoClient.ImageText | custom_components/npo_top2000/npo_client.py:130-134 | an image field yields a URL exactly when it is a string |
| NpoClient.FromTrackPlay | custom_components/npo_top2000/npo_client.py:124-144 | artist and title fall back to "Unknown"; the cover comes from `image`, or else from `imageUrl` |
| NpoClient.WebsiteStage | custom_components/npo_top2000/npo_client.py:77-148 | raises on a transport error or a non-200 status; gives metadata exactly when the page parses and lists a track, and then it is the first track |
| NpoClient.SplitArtistTitle | custom_components/npo_top2000/npo_client.py:176-184 | the text yields metadata exactly when it contains " - "; artist and title are the stripped parts around the first occurrence |
| NpoClient.SplitArtistTitleJoin | custom_components/npo_top2000/npo_client.py:176-184 | "artist - title" is read back as that artist and title |
| NpoClient.IcyText | custom_components/npo_top2000/npo_client.py:174 | the `icy-name` header when it is present and non-empty, otherwise `ice-audio-info`, otherwise empty text; `NpoClient.IcecastStage` parses this text |
| NpoClient.IcecastStage | custom_components/npo_top2000/npo_client.py:150-186 | raises on a transport error or a non-200 status; otherwise the ICY title is split into artist and title |
| NpoClient.RadioboxStage | custom_components/npo_top2000/npo_client.py:188-236 | raises on a transport error or a non-200 status; uses the artist and title elements when both exist, or else splits the text |
| NpoClient.FirstAnswer | custom_components/npo_top2000/npo_client.py:40-69 | the metadata of the first source whose call neither raised nor came back empty, None when there is none; `NpoClient.FirstAnswerIsFirstSuccess` proves this |
| NpoClient.FirstAnswerIsFirstSuccess | custom_components/npo_top2000/npo_client.py:40-69 | the answer is the metadata of the first source that returned some; it is None exactly when no source did |
| NpoClient.Attempted | custom_components/npo_top2000/npo_client.py:40-69 | the sources tried are those up to and including the first success |
| NpoClient.LaterSourcesIgnored | custom_components/npo_top2000/npo_client.py:40-69 | sources after the first success do not change the answer |
| NpoClient.Resolve | custom_components/npo_top2000/npo_client.py:30-69 | a cache younger than 30 seconds is returned as is; otherwise the first answer of the chain |
| NpoClient.Client.constructor | custom_components/npo_top2000/npo_client.py:23-28 | starts with an empty cache |
| NpoClient.Client.CacheMetadata | custom_components/npo_top2000/npo_client.py:71-75 | stores the metadata with the current time, which makes the cache fresh |
| NpoClient.Client.GetCurrentMetadata | custom_components/npo_top2000/npo_client.py:30-69 | a fresh cache answers without trying any source; otherwise the sources are tried in order until one succeeds; a result is cached, and a miss leaves the cache alone |
| Database.SongAt | custom_components/npo_top2000/database.py:233-266 | finds a song at the given position; None exactly when there is none |
| Database.SongWithId | custom_components/npo_top2000/database.py:352-368 | finds a song with the given id; None exactly when there is none |
| Database.SongNamed | custom_components/npo_top2000/database.py:268-293 | finds a song whose artist and title equal the given ones, ignoring case; None exactly when there is none |
| Database.SongNamedIgnoresCase | custom_components/npo_top2000/database.py:273-279 | lower-casing the query does not change the answer |
| Database.SongAtUnique | custom_components/npo_top2000/database.py:20-22 | with unique positions, the lookup by position returns that very song |
| Database.SongWithIdUnique | custom_components/npo_top2000/database.py:20-22 | with unique ids, the lookup by id returns that very song |
| Database.Score | custom_components/npo_top2000/database.py:185-189 | the combined score is the average of the artist and title partial ratios: it lies between the two and within 0..100 |
| Database.BestIndex | custom_components/npo_top2000/database.py:179-201 | the index the scan keeps lies among the rows scanned; `Database.BestIndexIsFirstBest` proves it is the first best row that reaches the threshold |
| Database.BestIndexIsFirstBest | custom_components/npo_top2000/database.py:179-201 | the scan returns None exactly when no row reaches the threshold; otherwise it returns the first row with the highest score |
| Database.FirstBestUnique | custom_components/npo_top2000/database.py:188-192 | the first best match is unique |
| Database.FirstBestIgnoresCase | custom_components/npo_top2000/database.py:185-186 | matching ignores the case of the query |
| Database.Tables.IsPopulated | custom_components/npo_top2000/database.py:117-123 | true exactly when the songs table has a row |
| Database.Tables.FactsOf | custom_components/npo_top2000/database.py:212-218 | the fun facts of one song in `fact_order`; `Database.Tables.FactsOfOrdered` proves they are exactly its rows, in order |
| Database.Tables.FactsOfOrdered | custom_components/npo_top2000/database.py:212-218 | a song's fun facts are exactly its rows, ordered by fact order |
| Database.Tables.PositionHistory | custom_components/npo_top2000/database.py:453-480 | the song's past editions, newest first, at most `limit`; `Database.Tables.PositionHistoryRows` and `Database.PositionHistoryNewestFirst` prove this |
| Database.Tables.PositionHistoryRows | custom_components/npo_top2000/database.py:453-480 | at most `limit` entries, each from a past edition of this song, with the years not increasing |
| Database.Tables.Details | custom_components/npo_top2000/database.py:212-221 | a song's details are its row, its history of 5 editions and its fun-fact texts |
| Database.Tables.Match | custom_components/npo_top2000/database.py:162-231 | `match_song`: the details of the row the scan keeps, or None; `Database.Tables.MatchIsFirstBest` proves which row that is |
| Database.Tables.MatchIsFirstBest | custom_components/npo_top2000/database.py:162-231 | None exactly when no song scores at least 85 on average; otherwise the details of the first best-scoring song |
| Database.Tables.SongByPosition | custom_components/npo_top2000/database.py:233-266 | None exactly when no song has that position; otherwise the details of that song |
| Database.Tables.SongByArtistTitle | custom_components/npo_top2000/database.py:268-293 | a song whose artist and title match, ignoring case; None exactly when none does |
| Database.Tables.WithHistory | custom_components/npo_top2000/database.py:318-330 | each listed song carries its own position history, in the same order |
| Database.Tables.UpcomingSongs | custom_components/npo_top2000/database.py:295-332 | at most `count` songs with a lower position than the current one, in descending order, each with its history |
| Database.Tables.IsCoverArtCached | custom_components/npo_top2000/database.py:352-368 | true exactly when the song exists and has a non-empty URL that was cached less than 24 hours ago |
| Database.Tables.NotificationSettings | custom_components/npo_top2000/database.py:499-532 | the stored settings with an unset list replaced by its default; the defaults when nothing is stored |
| Database.Tables.NotificationRules | custom_components/npo_top2000/database.py:423-442 | all rules, or only the enabled ones |
| Database.Tables.InsertSong | custom_components/npo_top2000/database.py:125-142 | uses the next song id, and changes only the songs table |
| Database.Tables.InsertFunFact | custom_components/npo_top2000/database.py:144-160 | appends one fact and changes nothing else |
| Database.Tables.AddPositionHistory | custom_components/npo_top2000/database.py:482-497 | the row is present afterwards, and only the history changes |
| Database.Tables.UpdateCoverArt | custom_components/npo_top2000/database.py:334-350 | sets the URL, the cache time and the MusicBrainz id of the song with that id; every other song stays the same |
| Database.Tables.UpdatePlaylistState | custom_components/npo_top2000/database.py:370-385 | the single playlist row holds the new state, and nothing else changes |
| Database.Tables.AddNotificationRule | custom_components/npo_top2000/database.py:405-421 | appends a rule with the next id, and changes nothing else |
| Database.Tables.DeleteNotificationRule | custom_components/npo_top2000/database.py:444-451 | the remaining rules are exactly those with a different id |
| Database.Tables.UpdateNotificationSettings | custom_components/npo_top2000/database.py:534-591 | with no field given, nothing changes; only the settings row is touched |
| Database.SetCoverArt | custom_components/npo_top2000/database.py:340-348 | `UPDATE songs ... WHERE id = ?` on each row |
| Database.SetCoverArtFound | custom_components/npo_top2000/database.py:334-350 | looking the song up afterwards shows the new cover art fields |
| Database.BestIndexSameScores | custom_components/npo_top2000/database.py:179-201 | the scan depends only on the scores |
| Database.MatchIgnoresCoverArt | custom_components/npo_top2000/database.py:162-231 | caching cover art does not change which song matches |
| Database.MatchReadsOnlyRows | custom_components/npo_top2000/database.py:162-231 | matching reads only songs, facts and history |
| Database.Empty | custom_components/npo_top2000/database.py:103-115 | a fresh database is consistent and not populated |
| Database.UpcomingSongsAreNextDown | custom_components/npo_top2000/database.py:295-332 | the list is strictly descending, and a lower song is left out only when the list is full and every listed song is above it |
| Database.PositionHistoryNewestFirst | custom_components/npo_top2000/database.py:453-480 | the history is newest first, and a past edition is left out only when the list is full of newer editions |
| Database.InsertSongReplaces | custom_components/npo_top2000/database.py:125-142 | `INSERT OR REPLACE` keeps the tables consistent; the position now holds the new song and other positions are unchanged |
| Database.AddPositionHistoryUpserts | custom_components/npo_top2000/database.py:482-497 | `INSERT OR REPLACE` keeps one row per song and year, holding the new position; other rows are untouched |
| Database.UpdateCoverArtCaches | custom_components/npo_top2000/database.py:334-368 | after an update, the song counts as cached exactly while the URL is non-empty and less than 24 hours old |
| Database.UpdateCoverArtValid | custom_components/npo_top2000/database.py:334-350 | storing cover art keeps song ids and positions unique and below the id counter |
| Database.InsertFunFactValid | custom_components/npo_top2000/database.py:144-160 | adding a fun fact keeps the schema's constraints |
| Database.UpdatePlaylistStateValid | custom_components/npo_top2000/database.py:370-385 | replacing the playlist state keeps the schema's constraints |
| Database.UpdateNotificationSettingsValid | custom_components/npo_top2000/database.py:534-591 | writing the settings keeps the schema's constraints |
| Database.AddNotificationRuleListed | custom_components/npo_top2000/database.py:405-442 | the new rule is listed last, and among the enabled rules exactly when it is enabled |
| Database.DeleteNotificationRuleRemoves | custom_components/npo_top2000/database.py:444-451 | no rule with that id remains, and every other rule does |
| Database.UpdateNotificationSettingsReadBack | custom_components/npo_top2000/database.py:499-591 | reading back gives each given field, the earlier value of each field not given, and the default for an empty list written on first save |
| Database.Catalog.constructor | custom_components/npo_top2000/database.py:98-115 | opens with empty tables |
| Database.Catalog.InsertSong | custom_components/npo_top2000/database.py:125-142 | the tables become `InsertSong` of the old tables, and the schema's constraints still hold; returns the new song's id, now at that position |
| Database.Catalog.InsertFunFact | custom_components/npo_top2000/database.py:144-160 | the tables become `InsertFunFact` of the old tables, and the schema's constraints still hold |
| Database.Catalog.AddPositionHistory | custom_components/npo_top2000/database.py:482-497 | the tables become `AddPositionHistory` of the old tables, and the schema's constraints still hold |
| Database.Catalog.UpdateCoverArt | custom_components/npo_top2000/database.py:334-350 | the tables become `UpdateCoverArt` of the old tables, and the schema's constraints still hold |
| Database.Catalog.UpdatePlaylistState | custom_components/npo_top2000/database.py:370-385 | the tables become `UpdatePlaylistState` of the old tables, and the schema's constraints still hold |
| Database.Catalog.AddNotificationRule | custom_components/npo_top2000/database.py:405-421 | the tables become `AddNotificationRule` of the old tables, and the schema's constraints still hold; returns the new rule's id |
| Database.Catalog.DeleteNotificationRule | custom_components/npo_top2000/database.py:444-451 | the tables become `DeleteNotificationRule` of the old tables, and the schema's constraints still hold |
| Database.Catalog.UpdateNotificationSettings | custom_components/npo_top2000/database.py:534-591 | the tables become `UpdateNotificationSettings` of the old tables, and the schema's constraints still hold |
| Database.Catalog.MatchSong | custom_components/npo_top2000/database.py:162-231 | the scoring loop returns `Match`: the first best song at or above the threshold, with its details |
| CoverArt.ThumbnailUrl | custom_components/npo_top2000/coverart.py:128-129 | the 500-pixel thumbnail when it is non-empty, or else the large one; never an empty URL |
| CoverArt.FrontUrl | custom_components/npo_top2000/coverart.py:123-133 | the URL of the first front image that has one |
| CoverArt.ImageChoice | custom_components/npo_top2000/coverart.py:123-137 | the front image's URL, or else the first image's; nothing for no images |
| CoverArt.TryReleases | custom_components/npo_top2000/coverart.py:109-145 | Found names the first release with a usable id and image; Missing means every release was passed over; Failed means an image request raised on a release reached |
| CoverArt.SearchMusicBrainz | custom_components/npo_top2000/coverart.py:77-158 | a failed search fails; an empty release list gives nothing; otherwise the first three releases are tried |
| CoverArt.OnlyFirstThreeTried | custom_components/npo_top2000/coverart.py:108-109 | releases after the third do not affect the result |
| CoverArt.GetCoverArt | custom_components/npo_top2000/coverart.py:32-75 | a fresh cache answers with no id; otherwise the search result; a returned id comes with a non-empty URL |
| Coordinator.RuleMatches | custom_components/npo_top2000/coordinator.py:217-229 | an artist rule matches when its lower-cased pattern occurs in the lower-cased artist, a title rule likewise in the title; a `position_range` rule never matches |
| Coordinator.MatchesRules | custom_components/npo_top2000/coordinator.py:203-231 | whether some rule in the list matches; `Coordinator.MatchesRulesAny` proves this |
| Coordinator.MatchesRulesAny | custom_components/npo_top2000/coordinator.py:203-231 | the song matches exactly when some enabled rule matches its artist or title |
| Coordinator.OnlyArtistAndTitleRulesMatch | custom_components/npo_top2000/coordinator.py:217-229 | rules of any other type never match |
| Coordinator.MatchesRulesIgnoresCase | custom_components/npo_top2000/coordinator.py:214-219 | the case of artist and title does not matter |
| Coordinator.Message | custom_components/npo_top2000/coordinator.py:237-254 | the header for the kind of message, `#position: artist - title`, the year and the first fun fact; `Coordinator.MessageYear`, `Coordinator.MessageFact` and `Coordinator.MessageShape` prove this shape |
| Coordinator.MessageYear | custom_components/npo_top2000/coordinator.py:237-250 | the year is quoted, in parentheses after the title, exactly when it is known and non-zero |
| Coordinator.MessageFact | custom_components/npo_top2000/coordinator.py:252-254 | the first fun fact is appended, after a blank line and a light bulb, exactly when the song has one |
| Coordinator.MessageShape | custom_components/npo_top2000/coordinator.py:237-254 | the "now playing" and "coming up" messages differ, and only the first fun fact is used |
| Coordinator.Route | custom_components/npo_top2000/coordinator.py:262-283 | the domain and service a target is sent to; `Coordinator.RouteSplitsAtFirstDot` proves the three cases |
| Coordinator.RouteSplitsAtFirstDot | custom_components/npo_top2000/coordinator.py:262-292 | `persistent_notification` is special; "domain.service" splits at the first dot; a bare name is a `notify` service |
| Coordinator.Call | custom_components/npo_top2000/coordinator.py:262-292 | one service call: the target's route, the fixed title, the message, and either the id `top2000_<song id>_<True or False>` (persistent notification) or the cover URL as image |
| Coordinator.Dispatched | custom_components/npo_top2000/coordinator.py:257-302 | at most one call per target; `Coordinator.DispatchedReachesTargets` proves which targets get a call |
| Coordinator.DispatchedStep | custom_components/npo_top2000/coordinator.py:257-302 | one more target adds its call, unless that target fails |
| Coordinator.DispatchedMessages | custom_components/npo_top2000/coordinator.py:237-302 | every call carries the song's message |
| Coordinator.DispatchedReachesTargets | custom_components/npo_top2000/coordinator.py:257-302 | a call is sent exactly to each configured target that does not fail; a failing target does not stop the others |
| Coordinator.SendsFor | custom_components/npo_top2000/coordinator.py:320-328 | a position with no song sends nothing |
| Coordinator.UpcomingPositions | custom_components/npo_top2000/coordinator.py:316-323 | at most one position per offset; `Coordinator.UpcomingPositionsMembers` proves they are exactly current minus the offsets that stay at least 1 |
| Coordinator.UpcomingPositionsMembers | custom_components/npo_top2000/coordinator.py:316-323 | the positions checked are exactly current minus each offset, where that is at least 1 |
| Coordinator.SendsForMatchingSong | custom_components/npo_top2000/coordinator.py:316-328 | only a song that matches the rules is announced, and only with the "coming up" message |
| Coordinator.SendsAt | custom_components/npo_top2000/coordinator.py:316-328 | the calls for the checked positions, in order; `Coordinator.SendsAtNeedSongs`, `Coordinator.SendsAtFrom` and `Coordinator.SendsAtStep` prove what they are |
| Coordinator.SendsAtNeedSongs | custom_components/npo_top2000/coordinator.py:316-328 | positions without songs send nothing |
| Coordinator.SendsAtFrom | custom_components/npo_top2000/coordinator.py:316-328 | every upcoming call comes from one of the positions checked |
| Coordinator.SendsAtStep | custom_components/npo_top2000/coordinator.py:316-328 | positions are handled in order |
| Coordinator.NotifySends | custom_components/npo_top2000/coordinator.py:177-201 | a notification is sent only if its kind is enabled and the song matches the rules |
| Coordinator.NotifySendsExactly | custom_components/npo_top2000/coordinator.py:177-302 | a call is sent exactly when its kind is enabled, the song matches an enabled rule, and the target is configured and does not fail; the message is the one for that kind |
| Coordinator.UpcomingSends | custom_components/npo_top2000/coordinator.py:304-328 | nothing is sent when no song is playing or upcoming notices are off |
| Coordinator.CoverArtEffect | custom_components/npo_top2000/coordinator.py:127-165 | the NPO cover is stored and used; a valid cache skips the lookup; a write to the catalog only stores the URL that is shown; nothing but the cover URL of the song changes |
| Coordinator.CoverArtLookupOnlyWhenNeeded | custom_components/npo_top2000/coordinator.py:131-153 | MusicBrainz is not consulted when NPO gives a cover or the cache is valid |
| Coordinator.StaleCacheNeverReused | custom_components/npo_top2000/coordinator.py:142-153 | when the catalog says the cache is stale, the cover art lookup does not reuse it either |
| Coordinator.ChangeEffects | custom_components/npo_top2000/coordinator.py:86-114 | earlier calls are kept; the catalog and the song follow the storage steps |
| Coordinator.StoreChange | custom_components/npo_top2000/coordinator.py:98-108 | only the cover URL of the song may change |
| Coordinator.ChangeEffectsInOrder | custom_components/npo_top2000/coordinator.py:86-114 | a fault in the cover step changes nothing; a fault in the playlist step sends nothing; without a fault, the current notice is sent and then the upcoming ones |
| Coordinator.Tick | custom_components/npo_top2000/coordinator.py:47-125 | no metadata publishes "no metadata"; an unmatched song publishes "not in Top 2000"; a failed tick changes nothing it was not given a fault for; the song id is recorded on a match, and `song_changed` is true exactly when it differs from the last id |
| Coordinator.OnMatch | custom_components/npo_top2000/coordinator.py:77-121 | earlier calls are kept |
| Coordinator.FailedTickRecordsSong | custom_components/npo_top2000/coordinator.py:86-125 | the song id is stored before the storage steps, so a song whose tick failed is not treated as new on the next tick and its notifications are not retried |
| Coordinator.ChangeEffectsKeepMatch | custom_components/npo_top2000/coordinator.py:86-114 | handling a change does not alter which song matches the same metadata |
| Coordinator.CoverArtEffectKeepsMatch | custom_components/npo_top2000/coordinator.py:127-165 | caching cover art does not alter which song matches |
| Coordinator.Coordinator.constructor | custom_components/npo_top2000/coordinator.py:25-45 | starts with no last song, no data and no calls |
| Coordinator.Coordinator.GetUpcomingSongs | custom_components/npo_top2000/coordinator.py:167-175 | nothing when no song is playing; otherwise the catalog's songs below the current position |
| Coordinator.Coordinator.FetchAndCacheCoverArt | custom_components/npo_top2000/coordinator.py:127-165 | the catalog and the song become `CoverArtEffect` |
| Coordinator.Coordinator.SendNotification | custom_components/npo_top2000/coordinator.py:233-302 | the loop appends exactly the dispatched calls |
| Coordinator.Coordinator.CheckAndSendNotifications | custom_components/npo_top2000/coordinator.py:177-201 | appends exactly `NotifySends` |
| Coordinator.Coordinator.CheckUpcomingNotifications | custom_components/npo_top2000/coordinator.py:304-328 | appends exactly `UpcomingSends` for the published data |
| Coordinator.Coordinator.NotifyPositions | custom_components/npo_top2000/coordinator.py:316-328 | the loop appends the calls of each position in order |
| Coordinator.Coordinator.NotifyPosition | custom_components/npo_top2000/coordinator.py:321-328 | appends the calls for one position and leaves the catalog alone |
| Coordinator.Coordinator.UpdateData | custom_components/npo_top2000/coordinator.py:47-125 | fetches metadata as `Resolve` says, then performs `Tick` on the catalog, the calls and the last song id |
| Coordinator.Coordinator.ProcessMetadata | custom_components/npo_top2000/coordinator.py:60-125 | performs `Tick` for the metadata given |
| Coordinator.Coordinator.ApplyMatch | custom_components/npo_top2000/coordinator.py:75-121 | performs `OnMatch` for the match given |
| Coordinator.Coordinator.RecordChange | custom_components/npo_top2000/coordinator.py:86-114 | performs `ChangeEffects` |
| Coordinator.Coordinator.Refresh | custom_components/npo_top2000/coordinator.py:47-125 | performs `Tick` on the catalog, the calls and the last song id, starting from the metadata `Resolve` gives; published data replaces the coordinator's data, and a failed update keeps the old data; the schema's constraints still hold |
| DataImporter.Unescape | custom_components/npo_top2000/data_importer.py:155-158 | never longer than its input; text without a quote is unchanged |
| DataImporter.Escape | custom_components/npo_top2000/data_importer.py:155-158 | SQL quote doubling: one extra character per quote; text without a quote is unchanged |
| DataImporter.UnescapeEscape | custom_components/npo_top2000/data_importer.py:155-158 | unescaping undoes SQL quote doubling, for any text |
| DataImporter.TrackOf | custom_components/npo_top2000/data_importer.py:155-166 | a track holds the unescaped title and artist and the year |
| DataImporter.MergeMatches | custom_components/npo_top2000/data_importer.py:150-166 | the track map after adding the tuples in order, without overwriting; `DataImporter.MergeMatchesKeys` and `DataImporter.FirstOccurrenceWins` prove this |
| DataImporter.MergeMatchesKeys | custom_components/npo_top2000/data_importer.py:150-166 | the track ids afterwards are the earlier ones plus every id read; earlier tracks are never overwritten |
| DataImporter.MergeMatchesAppend | custom_components/npo_top2000/data_importer.py:139-166 | reading two files in turn is reading their matches in order |
| DataImporter.FirstOccurrenceWins | custom_components/npo_top2000/data_importer.py:160-166 | for a repeated track id, the first occurrence is kept |
| DataImporter.AllMatches | custom_components/npo_top2000/data_importer.py:134-166 | the tuples of every downloaded file, in file order; `DataImporter.AllMatchesFromDownloadedFiles` proves this |
| DataImporter.AllMatchesFromDownloadedFiles | custom_components/npo_top2000/data_importer.py:134-166 | the matches are exactly those of the files that downloaded; a failed file is skipped |
| DataImporter.ApplyListing | custom_components/npo_top2000/data_importer.py:203-247 | an unknown track is skipped; the newest edition creates the song and its history row; an older edition adds history only to a song found by artist and title |
| DataImporter.ApplyListings | custom_components/npo_top2000/data_importer.py:203-247 | older editions never create songs |
| DataImporter.ListingsEffect | custom_components/npo_top2000/data_importer.py:170-254 | a year without an edition file, or whose download fails, changes nothing |
| DataImporter.HistoryEffect | custom_components/npo_top2000/data_importer.py:105-106 | importing the older editions leaves the songs alone |
| DataImporter.ImportEffect | custom_components/npo_top2000/data_importer.py:98-106 | the songs come from the newest edition only |
| DataImporter.ImportOrder | custom_components/npo_top2000/data_importer.py:98 | the years, sorted newest first |
| DataImporter.ApplyListingValid | custom_components/npo_top2000/data_importer.py:203-247 | one listing line keeps the catalog consistent |
| DataImporter.ApplyListingsValid | custom_components/npo_top2000/data_importer.py:203-247 | one edition keeps the catalog consistent |
| DataImporter.HistoryEffectValid | custom_components/npo_top2000/data_importer.py:105-106 | the older editions keep the catalog consistent |
| DataImporter.ImportKeepsCatalogValid | custom_components/npo_top2000/data_importer.py:79-113 | the whole import keeps the catalog consistent |
| DataImporter.NewestYearCreatesSong | custom_components/npo_top2000/data_importer.py:215-230 | a known track in the newest edition ends up as the song at its position, with a history row for that year |
| DataImporter.Importer.constructor | custom_components/npo_top2000/data_importer.py:68-77 | an empty or missing list of years means the default years |
| DataImporter.Importer.ImportTracks | custom_components/npo_top2000/data_importer.py:126-168 | reads every track file into the track map |
| DataImporter.Importer.ReadTrackFiles | custom_components/npo_top2000/data_importer.py:134-166 | the loop over the files merges their matches in order |
| DataImporter.Importer.AddTracks | custom_components/npo_top2000/data_importer.py:150-166 | the loop over the matches keeps the first track for each id |
| DataImporter.Importer.ImportListings | custom_components/npo_top2000/data_importer.py:170-254 | the catalog becomes `ListingsEffect` |
| DataImporter.Importer.ImportData | custom_components/npo_top2000/data_importer.py:79-113 | a populated catalog is left alone; otherwise the tracks are read, and the editions are imported newest first |
| DataImporter.Importer.ImportYears | custom_components/npo_top2000/data_importer.py:98-106 | the catalog becomes `ImportEffect` |
| ConfigFlow.Coerce | custom_components/npo_top2000/config_flow.py:54-57 | a number is accepted as is |
| ConfigFlow.ValidateUser | custom_components/npo_top2000/config_flow.py:33-68 | the entry is created exactly when the count is an allowed choice and the interval lies between 15 and 120 seconds; unset fields take their defaults |
| ConfigFlow.DefaultsAccepted | custom_components/npo_top2000/config_flow.py:45-63 | the default form is accepted |
| ConfigFlow.Kept | custom_components/npo_top2000/config_flow.py:105-106 | the stripped parts that are not empty, in order: none is empty and none is added |
| ConfigFlow.ParseTargets | custom_components/npo_top2000/config_flow.py:105-109 | the targets are the non-empty stripped parts, or `persistent_notification` when there are none |
| ConfigFlow.ParseAll | custom_components/npo_top2000/config_flow.py:112-116 | on success, one integer per kept part; `ConfigFlow.ParseAllFails` proves when it fails |
| ConfigFlow.ParseAllFails | custom_components/npo_top2000/config_flow.py:113-116 | parsing fails exactly when some non-empty part is not an integer |
| ConfigFlow.ParseOffsets | custom_components/npo_top2000/config_flow.py:112-116 | the parsed positions, or 1, 2, 3 when a part is not an integer |
| ConfigFlow.Texts | custom_components/npo_top2000/config_flow.py:150 | each position is written as its decimal text |
| ConfigFlow.TargetsRoundTrip | custom_components/npo_top2000/config_flow.py:103-151 | targets written into the form are read back unchanged |
| ConfigFlow.ParseAllTexts | custom_components/npo_top2000/config_flow.py:112-150 | the decimal texts parse back to the positions |
| ConfigFlow.PositionsRoundTrip | custom_components/npo_top2000/config_flow.py:112-151 | positions written into the form are read back unchanged |
| ConfigFlow.Submitted | custom_components/npo_top2000/config_flow.py:103-124 | the settings read from the form: parsed targets, parsed positions, and the two switches with their defaults |
| ConfigFlow.Prefilled | custom_components/npo_top2000/config_flow.py:134-151 | the form's defaults: the targets joined by commas, the two switches, and the positions as decimal text joined by commas |
| ConfigFlow.StoreSettings | custom_components/npo_top2000/config_flow.py:118-124 | the store call the settings form makes, with every field given |
| ConfigFlow.PrefilledRoundTrip | custom_components/npo_top2000/config_flow.py:103-151 | submitting the pre-filled form gives back the settings it was filled from |
| ConfigFlow.UnchangedFormKeepsSettings | custom_components/npo_top2000/config_flow.py:97-167 | saving the options form unchanged leaves the stored settings as they were |
| ConfigFlow.AcceptedRule | custom_components/npo_top2000/config_flow.py:178-201 | only "artist" and "title" rules are accepted, and they are enabled |
| ConfigFlow.OptionsFlow.constructor | custom_components/npo_top2000/config_flow.py:97-101 | the options flow works on the given catalog |
| ConfigFlow.OptionsFlow.SubmitNotificationSettings | custom_components/npo_top2000/config_flow.py:97-127 | stores the submitted settings |
| ConfigFlow.OptionsFlow.SubmitRule | custom_components/npo_top2000/config_flow.py:169-209 | an accepted rule is added and enabled; anything else leaves the catalog alone |
| ConfigFlow.OptionsFlow.SubmitDelete | custom_components/npo_top2000/config_flow.py:211-261 | an existing rule is deleted; no choice is accepted without change; an unknown id is refused |
| Sensor.CurrentSong | custom_components/npo_top2000/sensor.py:68-78 | a song is shown exactly when the data says one is playing |
| Sensor.CurrentValue | custom_components/npo_top2000/sensor.py:68-78 | "#position: artist - title" while a song plays; the unavailable text otherwise |
| Sensor.SongLine | custom_components/npo_top2000/sensor.py:72-77 | `#position: artist - title`; `Sensor.SongLineReadsBack` proves the position and the rest can be read back |
| Sensor.SongLineReadsBack | custom_components/npo_top2000/sensor.py:73-78 | the state can be split back into the position and "artist - title" |
| Sensor.TrendOf | custom_components/npo_top2000/sensor.py:106-125 | up when the song was lower last year, down when it was higher, and the same when equal; a move has a positive size |
| Sensor.Trend.Text | custom_components/npo_top2000/sensor.py:115-123 | `↑ n`, `↓ n` or `→ 0`; `Sensor.TrendRecoversPrevious` proves that `→ 0` is shown exactly when the position did not change |
| Sensor.Trend.Direction | custom_components/npo_top2000/sensor.py:115-123 | `up`, `down` or `same`, according to the kind of move |
| Sensor.TrendRecoversPrevious | custom_components/npo_top2000/sensor.py:106-125 | the position minus the signed change is last year's position; "→ 0" means no change |
| Sensor.HistoryTrend | custom_components/npo_top2000/sensor.py:106-113 | a trend exists exactly when there is history, and it compares with the newest entry |
| Sensor.FactSlot | custom_components/npo_top2000/sensor.py:98-104 | the k-th fun fact attribute exists exactly when there are at least k facts |
| Sensor.Attributes | custom_components/npo_top2000/sensor.py:81-127 | the attributes are present exactly while a song plays, and copy its fields; history and trend exist exactly when there is history |
| Sensor.ShownFactsAreFirstThree | custom_components/npo_top2000/sensor.py:98-104 | at most the first three fun facts are shown, in order |
| Sensor.AttributesTrend | custom_components/npo_top2000/sensor.py:106-125 | the trend attributes describe the move from the newest past edition |
| Sensor.CurrentAvailable | custom_components/npo_top2000/sensor.py:129-136 | the current-song sensor is available when the last update succeeded and a song is playing |
| Sensor.UpcomingAvailable | custom_components/npo_top2000/sensor.py:219-225 | the upcoming-songs sensor is available when the last update succeeded and there is data |
| Sensor.AvailabilityAgreesWithState | custom_components/npo_top2000/sensor.py:130-136 | the current sensor is available exactly when the last update succeeded and its state is not "unavailable"; then the upcoming sensor is available too |
| Sensor.Entry | custom_components/npo_top2000/sensor.py:190-213 | an upcoming entry copies the song's fields; its history and trend exist exactly when there is history |
| Sensor.Entries | custom_components/npo_top2000/sensor.py:188-215 | one entry per song, in the same order |
| Sensor.UpcomingSensor.constructor | custom_components/npo_top2000/sensor.py:142-154 | starts with no songs |
| Sensor.UpcomingSensor.Value | custom_components/npo_top2000/sensor.py:156-159 | the state is the number of upcoming songs shown |
| Sensor.UpcomingSensor.Attributes | custom_components/npo_top2000/sensor.py:162-172 | the count is the number of songs shown; the current position is present exactly while a song plays |
| Sensor.UpcomingSensor.UpdateUpcoming | custom_components/npo_top2000/sensor.py:183-217 | shows nothing when no song plays; otherwise the catalog's next songs, in order |
| Sensor.UpcomingSensor.Show | custom_components/npo_top2000/sensor.py:188-215 | the loop builds one entry per song, in order |
| Sensor.UpcomingSensor.HandleCoordinatorUpdate | custom_components/npo_top2000/sensor.py:175-181 | the list is refreshed exactly when the song changed |

## Left out

- Async execution, logging, Home Assistant's scheduling and the entity plumbing are not modelled. Sensor names, icons, unique ids and device info are left out too.
- The network is not modelled. HTTP replies, the MusicBrainz search and file downloads are inputs, and HTML/JSON parsing is reduced to the fields the source reads. The regular expressions of the importer are not modelled: their matches are inputs.
- Database.Tables.UpdateNotificationSettings: the contract states only that an empty update changes nothing and that no other table is touched. What the stored settings read back as is stated by `Database.UpdateNotificationSettingsReadBack`.
- `lower()` is modelled for ASCII letters only, as SQLite's `LOWER`. Python's full Unicode case mapping is not modelled.
- `int()` accepts an optional sign and ASCII digits. Underscores and non-ASCII digits are not modelled.
- ConfigFlow.Coerce: `vol.Coerce(int)` on floats and numeric strings is not modelled; only whole numbers and unparseable values are.
- `fuzz.partial_ratio` is a parameter: the model proves what the matching does for any scorer whose values are reals in 0..100, not the scores rapidfuzz computes. Python floats are modelled as exact reals, so rounding in the average is not modelled.
- Rows are read in insertion order, as SQLite's rowid scan does. Ties between fun facts with the same order are not fixed by the model.
- SQLite's negative LIMIT, which means "no limit", is not modelled: counts are natural numbers.
- `insert_song` is `INSERT OR REPLACE` on the unique position column, so inserting at a taken position deletes the old song row (`Database.Tables.InsertSong` removes it). SQLite does not enforce foreign keys unless they are switched on, and the source never switches them on, so `ON DELETE CASCADE` does not fire. The replaced song's history and fun-fact rows stay behind as orphans under its old id, and the model keeps them the same way. The new row gets a fresh id, so the orphans are not attached to it.
- The cover art cache time in coverart.py is compared as a clock value. The source compares a stored string with a datetime, which raises TypeError there. That failure path is not reproduced.
- A JSON `null` artist or title on the NPO page is treated like a missing field.
- A fault is modelled per storage step, as `fault: Option<Step>`. A fault in the middle of a step is not modelled.
- The upcoming notification check reads the data published by the previous update, as the source does: the new data is stored only after `_async_update_data` returns.
- The importer's database-error path is not modelled: `import_data` returning False after an exception, and the `imported_count` log line. DataImporter.Importer.ImportData therefore always ends with `ok`.
- The `edition` field of a listing line is read but not used by the source; it is not modelled.
- The `track_to_song_id` map in `_import_listings` is filled but never read. The model fills it too and proves nothing about it.
- `get_playlist_state` is the `playlist` field of `Tables`. `initialize` is the `Catalog` constructor, and `close` is not modelled.
- `import_top2000_data` is the `Importer` constructor followed by `ImportData`.
- `last_update_success` is a parameter of the availability predicates.
- The `detected_at` timestamp in the published data is the clock parameter.
- The form schemas are not rendered. The text listing the rules in the delete form is not modelled; its choices are the rule ids.
- Coordinator.Coordinator.NotifyPositions: the upcoming positions are computed before the loop. The source computes each one inside its loop; the calls sent are the same.
