# lightshowpi `synchronized_lights.py`, modelled in Dafny

`synchronized_lights.py` plays one audio file and drives eight lights in
time with it. Before playback it can pick the file from a tab-separated
playlist: the song with the most votes is chosen, and the playlist is
written back with that song marked `playing!`. For every audio block of
4096 frames it then does one of two things:

- **replay**: when a cache file `.<name>.sync.gz` exists beside the audio
  file, the block's row of that cache is replayed onto the lights;
- **fresh**: otherwise it computes eight band levels from the block's
  spectrum and decides each light with an adaptive per-channel threshold.
  Each channel has a `limit` that is raised ×1.2 when the level outgrows
  it and decays ×0.8 after eleven consecutive off blocks. The decisions
  are recorded as a `'1'`/`'0'` row, and the rows are written out as the
  cache at the end.

The model has five modules:

- `Threshold` (`threshold.dfy`): the per-channel threshold step as a pure
  function, its iteration over a block sequence, and the in-place
  controller. `ThresholdController` holds the `limit` and `offct` arrays;
  its `Step` method is the per-channel loop, proved equal to the
  functional step.
- `Bands` (`bands.dfy`): the `piff` frequency-to-bin map, the eight band
  slices, band means, and the weight/divide/clip tail of
  `calculate_levels`.
- `SyncCache` (`cache.dfy`): the cache row codec. It covers Python's
  `int()` applied to a cached field and the replay of one row, including
  the partial update made before `int()` or the indexing raises. It also
  builds the cache file name with `posixpath` `dirname`/`basename`.
- `Playback` (`playback.dfy`): the main loop.
  - `BlockSpec` and `RunSpec` state the loop on values.
  - The `Player` class runs it over the controller, a `bool` light array,
    the cache rows and the row counter.
  - `Play` is the whole playback, including the cache write.
- `Playlist` (`playlist.dfy`): `str.split(',')` and `','.join`, the parse
  loop with its running "most votes" choice, and the rewrite loop.

Headline results:

- The on/off verdict is `level > limit` on the limit before the block. A
  level equal to the limit is off, and the ×1.2 raise never changes the
  verdict.
- Limits stay positive and counters stay in 0..10. Under silence the
  limit decays exactly once per eleven blocks.
- A fresh run records exactly the controller's decisions, one row per
  block, after any rows already loaded.
- A replay completes exactly when every cached row it reaches is
  readable. It shows the cached rows applied in order, and the lights
  freeze once the rows run out.
- Record-then-replay round trip: replaying a cache that a fresh run wrote
  from an empty cache, over the same blocks, shows the same light
  sequence. When the fresh run started after rows left by a failed cache
  read, its rows follow those rows. Its own decisions are then shown only by
  a replay that starts at the first of its rows.
- `split`/`join` are inverse to each other. A rewritten playlist row
  parses back to the same name, file and votes. When its file is playing
  and it has no fourth field, the `playing!` marker is added to its tail. A vote-less song that is
  playing comes back with the one vote `playing!`. The chosen song is
  written with four fields, so it is never chosen again.

Where the model had to settle a behaviour, it follows the code:

- A cache read that fails part-way leaves the rows read so far in `cache`,
  with `cache_found` false. Fresh rows are then appended after them, and
  the whole list is written out. `Play` takes `loaded` and `found` as
  inputs to cover this. The next replay starts at row 0, so it shows the
  loaded rows before the fresh decisions. The fresh decisions come back
  only from row `len(loaded)` on (`Playback.RecordAfterLoaded`).
- A two-field playlist row gets an empty vote set. In the rewrite it has
  length 3, so it receives `playing!` when its file is playing. Its empty
  vote column is then dropped, which leaves `[name, file, "playing!"]`. Read
  back, that is a three-field row whose one vote is `playing!`
  (`Playlist.MarkerBecomesVote`).
- A three-field row with an empty vote column votes `{""}`, one vote,
  because `"".split(',')` is `[""]`.

## Model

| member | source | states |
|---|---|---|
| Threshold.ChannelStep | py/synchronized_lights.py:232-246 | one channel for one block keeps the invariant: a positive limit stays positive and the off-run counter stays in 0..10 |
| Threshold.DecisionIsStrict | py/synchronized_lights.py:232-235 | with a positive limit the channel is on exactly when the level is strictly above the limit held before the block; the raise never flips the verdict and a level equal to the limit is off |
| Threshold.LimitUpdate | py/synchronized_lights.py:232-243 | the limit is multiplied by 1.2 exactly when it is below 0.6 × level (and the channel is then on), by 0.8 exactly on an off block that finds the counter at 10, and is otherwise unchanged |
| Threshold.CounterUpdate | py/synchronized_lights.py:237-242 | the counter is 0 after an on block and (counter + 1) mod 11 after an off block |
| Threshold.BlockStep | py/synchronized_lights.py:231-246 | a block yields eight decisions and eight new channel states, and keeps every channel valid |
| Threshold.Run | py/synchronized_lights.py:212-247 | one row of eight decisions per block, in block order |
| Threshold.InitialStates | py/synchronized_lights.py:145-146 | every channel starts with limit 5 and counter 0, which satisfies the invariant |
| Threshold.RunKeepsValid | py/synchronized_lights.py:231-246 | over any block sequence every limit stays positive and every counter stays in 0..10 |
| Threshold.DecayedPositive | py/synchronized_lights.py:243 | repeated ×0.8 decay never reaches zero |
| Threshold.OffRunDecays | py/synchronized_lights.py:240-243 | n consecutive off blocks entered with counter c leave counter (c + n) mod 11 and the limit decayed (c + n) div 11 times |
| Threshold.ElevenOffBlocks | py/synchronized_lights.py:240-243 | from counter 0, ten off blocks leave the limit unchanged with counter 10, and the eleventh decays it once and resets the counter |
| Threshold.SilenceKeepsOff | py/synchronized_lights.py:235-239 | with all levels zero every channel stays off in every block |
| Threshold.SilenceDecays | py/synchronized_lights.py:240-243 | under silence each limit equals the start limit × 0.8^((c + n) div 11) and stays positive |
| Threshold.ThresholdController.constructor | py/synchronized_lights.py:145-146 | fresh arrays with every limit 5 and every counter 0 |
| Threshold.ThresholdController.Step | py/synchronized_lights.py:231-246 | the in-place loop over the eight channels returns the decisions of BlockStep on the old arrays and leaves the arrays holding its new states, keeping the invariant |
| Bands.Piff | py/synchronized_lights.py:181-182 | the bin is the floor of 2·chunk·hz / rate: bin·rate ≤ 2·chunk·hz < (bin + 1)·rate |
| Bands.PiffZero | py/synchronized_lights.py:181-182 | frequency 0 maps to bin 0 |
| Bands.PiffMonotone | py/synchronized_lights.py:181-182 | a higher frequency never maps to a lower bin |
| Bands.BandsOrderedAndDisjoint | py/synchronized_lights.py:195-202 | the eight bin ranges start at 0, each is non-decreasing, each ends where the next begins, and no band starts before an earlier band ends |
| Bands.SumBounds | py/synchronized_lights.py:195-202 | proof helper for MeanBounds: a sum of n values in [0, top] lies in [0, n·top] |
| Bands.MeanBounds | py/synchronized_lights.py:195-202 | the mean of a non-empty slice of values in [0, top] lies in [0, top] |
| Bands.BandMeans | py/synchronized_lights.py:195-202 | one mean per band, over the band's Python-clamped slice of the spectrum |
| Bands.BandMeansBounded | py/synchronized_lights.py:195-202 | a spectrum bounded by top gives band means bounded by top |
| Bands.Clip | py/synchronized_lights.py:206 | the result is in [0, 100], equals the input inside that range, and is 0 below it and 100 above it |
| Bands.Levels | py/synchronized_lights.py:204-206 | eight levels, each in [0, 100] |
| Bands.LevelValue | py/synchronized_lights.py:204-206 | below saturation a level is exactly weight × mean / 100000; it is 100 once weight × mean reaches 10^7, and 0 for a non-positive mean |
| Bands.LevelsMonotone | py/synchronized_lights.py:204-206 | a larger band mean never gives a lower level |
| Bands.SilentLevels | py/synchronized_lights.py:204-206 | all-zero band means give all-zero levels |
| Bands.CalculateLevels | py/synchronized_lights.py:184-207 | the eight levels of one block, each in [0, 100] |
| Bands.SilentBlockDark | py/synchronized_lights.py:184-207 | an all-zero spectrum gives all-zero levels |
| SyncCache.EncodeRow | py/synchronized_lights.py:235-246 | one field per channel, "1" for on and "0" for off |
| SyncCache.EncodeRows | py/synchronized_lights.py:229-247 | one encoded row per block, in block order |
| SyncCache.FieldOn | py/synchronized_lights.py:220 | int() accepts a field exactly when, after surrounding whitespace, one optional sign and any whitespace after the sign are removed, a non-empty run of decimal digits remains; the light is then on exactly when that numeral's value is non-zero |
| SyncCache.NonZeroDigitValue | py/synchronized_lights.py:220 | a decimal numeral has a non-zero value exactly when one of its digits is non-zero |
| SyncCache.FieldOnSpacedSign | py/synchronized_lights.py:220 | "- 1" reads as a light on and "+ 0" as a light off, since whitespace after the sign is accepted |
| SyncCache.FieldOnEncoded | py/synchronized_lights.py:220 | int() reads "1" as true and "0" as false |
| SyncCache.FirstBadIs | py/synchronized_lights.py:219-220 | the replay loop stops at the first field that is missing or not an integer |
| SyncCache.ReplayRow | py/synchronized_lights.py:217-223 | the replay loop over one row: eight lights; the channels from the first missing or non-integer field on keep their state (the loop raised there), and a readable row sets every light from its field |
| SyncCache.ReplayRowReadable | py/synchronized_lights.py:217-223 | a row is readable exactly when its first eight fields exist and are integers, and the lights then follow exactly those fields |
| SyncCache.ReplayEncoded | py/synchronized_lights.py:220-246 | a recorded row is readable and replays to the decisions that produced it, whatever the lights were before |
| SyncCache.DecodeRow | py/synchronized_lights.py:218-220 | the decoded values of a row are as many as the fields before the first bad one, at most eight |
| SyncCache.ReplayRowDecoded | py/synchronized_lights.py:217-223 | replaying a row lays its decoded values over the lights, and the row is readable exactly when all eight decode |
| SyncCache.DecodeEncoded | py/synchronized_lights.py:220-246 | a recorded row decodes to the decisions that produced it |
| SyncCache.Dirname | py/synchronized_lights.py:170 | posixpath.dirname: a prefix of the path ending at or before its last '/', followed in the path only by slashes up to that '/', and without a trailing '/' unless it is all slashes; when everything up to the last '/' is slashes, exactly that part |
| SyncCache.Basename | py/synchronized_lights.py:170 | posixpath.basename: the longest suffix of the path without a '/' |
| SyncCache.CacheFilename | py/synchronized_lights.py:170 | the cache file's base name is "." + the audio file's base name + ".sync.gz" |
| SyncCache.CacheName | py/synchronized_lights.py:170 | the cache's own name holds no '/' when the audio base name holds none |
| SyncCache.BasenameJoined | py/synchronized_lights.py:170 | basename of x + "/" + y, for y without a '/', is y |
| SyncCache.LastSlashEndAfter | py/synchronized_lights.py:170 | in x + "/" + y with no '/' in y, the last '/' is the one after x |
| SyncCache.SplitJoined | py/synchronized_lights.py:170 | dirname and basename split d + "/" + name back into d and name when d is non-empty without a trailing '/' and name has no '/' |
| SyncCache.CacheAtRoot | py/synchronized_lights.py:170 | for a file directly under the root (or with no directory part), the cache's directory part is the file's directory part plus one '/', e.g. "//" for "/x" |
| SyncCache.CacheBesideSource | py/synchronized_lights.py:170 | for a file not directly under the root, the cache file lies in the same directory, named "." + base name + ".sync.gz" |
| Playback.InitialPlayer | py/synchronized_lights.py:138-210 | the state before the first block: row 0, all lights off, initial controller |
| Playback.BlockSpec | py/synchronized_lights.py:215-251 | one pass keeps the mode; in replay mode it leaves the cache and the controller untouched |
| Playback.RunSpec | py/synchronized_lights.py:210-251 | a run shows at most one row per block, and exactly one per block when it completes; replay never touches the cache or the controller |
| Playback.RunStops | py/synchronized_lights.py:216-223 | once a replay has stopped at an unreadable row, later blocks change nothing |
| Playback.FreshRecords | py/synchronized_lights.py:228-251 | fresh mode completes; it shows the controller's decisions, appends their encoding to the cache, leaves the controller in the final state and advances the row once per block |
| Playback.ReplayBlock | py/synchronized_lights.py:216-225 | a replayed block succeeds exactly when its row, if any, is readable, and shows that row applied to the lights |
| Playback.DecodeCache | py/synchronized_lights.py:217-220 | one decoded row per cached row, each holding the int() values of its leading fields up to the first bad one, at most eight |
| Playback.DecodedStep | py/synchronized_lights.py:216-225 | a replayed block on the cache and on its decoded rows agree: the row is readable exactly when it decodes to eight values, and the lights are the decoded values laid over the old lights |
| Playback.RowsFullExtend | py/synchronized_lights.py:216-223 | proof helper for the replay inductions: rows lo..lo+n are all full exactly when rows lo..lo+n-1 are and row lo+n is |
| Playback.ReplayRun | py/synchronized_lights.py:210-251 | the replay loop over decoded rows keeps eight lights and shows at most one row per block, exactly one per block when it completes |
| Playback.ReplayAgrees | py/synchronized_lights.py:210-251 | the main loop in replay mode is ReplayRun on the decoded cache: same verdict, same shown rows, same lights and row, cache and controller untouched |
| Playback.ReplayRunCompletes | py/synchronized_lights.py:216-251 | ReplayRun completes exactly when every row it reaches is full, and then has advanced one row per block |
| Playback.ReplaySeq | py/synchronized_lights.py:216-225 | reference sequence for replay: one light row of eight per block |
| Playback.ReplayRunLights | py/synchronized_lights.py:216-225 | after a completed ReplayRun the lights are the last row it showed |
| Playback.ReplayRunShows | py/synchronized_lights.py:216-225 | ReplayRun shows a prefix of ReplaySeq |
| Playback.ReplaySeqStep | py/synchronized_lights.py:216-225 | proof helper: one more block extends ReplaySeq by the next row laid over the last lights shown |
| Playback.ReplayCompletes | py/synchronized_lights.py:216-251 | a replay completes exactly when every cached row it reaches decodes to eight values (is readable), and then advances the row once per block |
| Playback.ReplayShows | py/synchronized_lights.py:216-225 | a replay shows exactly ReplaySeq, the decoded cached rows applied one after another; the lights end as the last shown row, frozen once the rows run out |
| Playback.DecodeCacheEncoded | py/synchronized_lights.py:220-246 | recorded rows appended to any cache decode to the recorded decisions, after what the earlier rows decode to |
| Playback.ReplaySeqFull | py/synchronized_lights.py:216-225 | rows of eight values placed after any others are all full and replay to themselves from where they start, whatever the lights were before |
| Playback.ReplayEncodedRun | py/synchronized_lights.py:216-246 | replaying recorded rows from the row where they start completes and shows the recorded decisions |
| Playback.RecordAfterLoaded | py/synchronized_lights.py:167-257 | a fresh run after rows left by a failed cache read keeps those rows first and writes one row per block after them; a replay started at the first fresh row completes and shows the fresh run's lights |
| Playback.RecordReplayRoundTrip | py/synchronized_lights.py:216-247 | a fresh run from an empty cache records one row per block, and replaying those rows over the same blocks completes and shows the same lights |
| Playback.Player.constructor | py/synchronized_lights.py:138-210 | the player starts in InitialPlayer's state |
| Playback.Player.ReplayInto | py/synchronized_lights.py:217-223 | the in-place loop reports whether the row is readable and leaves the light array equal to ReplayRow of its old contents |
| Playback.Player.ProcessBlock | py/synchronized_lights.py:215-251 | one pass over the objects moves them to BlockSpec of their old state |
| Playback.Player.Run | py/synchronized_lights.py:210-251 | the main loop moves the objects to RunSpec of their old state and returns its shown rows, stopping at the first unreadable row |
| Playback.Play | py/synchronized_lights.py:167-257 | replay writes nothing; fresh mode shows the controller's decisions from the initial state and writes the loaded rows plus their encoding to the cache file name |
| Playlist.Split | py/synchronized_lights.py:92 | at least one piece, none containing a comma |
| Playlist.Join | py/synchronized_lights.py:110 | ','.join of a non-empty list starts with its first piece; with Split it is inverse (SplitJoin, JoinSplit) |
| Playlist.JoinCommas | py/synchronized_lights.py:110 | joining n comma-free pieces puts exactly n - 1 commas into the string |
| Playlist.SplitJoin | py/synchronized_lights.py:92-110 | splitting a join of comma-free pieces gives the pieces back |
| Playlist.JoinSplit | py/synchronized_lights.py:92-110 | joining the pieces of a split gives the string back |
| Playlist.ParseSong | py/synchronized_lights.py:86-92 | a row parses exactly when it has 2 to 4 fields; the votes are empty exactly for a two-field row |
| Playlist.ChosenUnique | py/synchronized_lights.py:93-94 | at most one row satisfies the choice rule |
| Playlist.ChosenKept | py/synchronized_lights.py:93-95 | a row that is not a three-field row with at least the chosen row's votes leaves the chosen row chosen |
| Playlist.ChosenTaken | py/synchronized_lights.py:93-95 | a three-field row with at least as many votes as the chosen row, or the first three-field row, becomes the chosen row |
| Playlist.Parse | py/synchronized_lights.py:80-95 | fails at the first row with fewer than 2 or more than 4 fields; otherwise gives each row's song and the last three-field row with the most votes, or none when there is no three-field row |
| Playlist.JoinVotes | py/synchronized_lights.py:110 | the joined string splits back into exactly the votes, each once |
| Playlist.Rewrite | py/synchronized_lights.py:106-112 | each written row is its song with "playing!" appended when the file is playing and nothing follows the votes, and with the votes joined or, when empty, dropped |
| Playlist.RewrittenValid | py/synchronized_lights.py:106-113 | every written row has 2 to 4 fields |
| Playlist.RewriteRoundTrip | py/synchronized_lights.py:86-112 | a written row parses back to its song, with the marker in its tail, unless a vote-less song was marked |
| Playlist.ParseOneVote | py/synchronized_lights.py:92 | a three-field row whose vote column has no comma has exactly that one vote |
| Playlist.MarkerBecomesVote | py/synchronized_lights.py:89-112 | a vote-less song for the playing file is written as [name, file, "playing!"], which parses back as one vote for "playing!" |
| Playlist.VotedRowMarked | py/synchronized_lights.py:93-108 | every three-field row for the playing file, the chosen one included, is written with four fields ending in "playing!" |
| Playlist.ChooseFromPlaylist | py/synchronized_lights.py:79-114 | an invalid row aborts at the first one; with no three-field row no song is chosen; otherwise the chosen row's file plays and every row is written back as Rewrite states |

## Left out

- Argument parsing, logging and process exit. A rejected playlist is an
  `InvalidPlaylist` result rather than an exit.
- File I/O, `fcntl` locking, gzip and the csv reader and writer. The
  playlist and the cache are in-memory rows of fields. The outcome of
  reading the cache is the input pair `loaded`/`found`. The cache write is
  returned as a `CacheWrite` value. csv quoting is not modelled.
- The random pick when the playlist has no three-field row. It is
  nondeterministic, so `ChooseFromPlaylist` returns the parsed songs
  instead. The empty playlist, where that pick raises, is not singled out.
- `os.path.abspath`: `Play` takes a path that is already absolute.
- GPIO set-up, `TurnOnLight`/`TurnOffLight` and the final
  `TurnOffLights()`: the lights are an array of booleans.
- Audio decoding, the ALSA output and reading the file in blocks. The
  blocks are given as their eight levels each.
- The `unpack`/FFT/`abs` part of `calculate_levels`. `Bands.BandMeans`
  takes the magnitude spectrum as input.
- Bands.BandMeans: requires every band slice to be non-empty, because
  `np.mean` of an empty slice is NaN.
- Floating point: levels, limits and the ×1.2/×0.8 updates are exact
  reals, so no property depends on rounding.
- Threshold.ThresholdController.Step: the source switches each light
  inside the per-channel loop. In the model the decisions are returned
  and `Player.ProcessBlock` copies them into the light array after the
  loop. The end state is the same.
- Playback.Player.ProcessBlock: on an unreadable cached row the source
  raises and the script dies. The model stops the run with `ok` false and
  keeps the lights set before the bad field.
- Playlist.JoinVotes: Python iterates a set in an unspecified order, so
  the model promises only that the joined string holds each vote once, in
  some order.
- SyncCache.CacheBesideSource: it is not stated for files directly under
  `/`, where `dirname` of the cache name is `//`. That case is
  `SyncCache.CacheAtRoot`.
