# Fantasy football standings dashboard — verified model of its core logic

This project models, in Dafny, the sequential logic of a dashboard that shows
fantasy-football league standings and rotates through several leagues. The
modelled pieces are:

- **Rotation hook** (`Rotation`, from `useRotation.ts`): which league is shown,
  play/pause, progress through the current interval, and what happens when
  the number of leagues changes.
- **Standings transforms**: two distinct functions over one shared stable
  sort (`Ranking`).
  - The service's transform (`SleeperApi.LeagueStandings`): ties are not wins,
    and rows are ordered by wins, then points for.
  - The stand-alone page's transform (`StaticApp.Standings`): a tie is half a
    win, and rows are ordered by wins, then win percentage, then points for.
  - Both map the rosters, sort them, and number the rows from 1.
- **Five-minute response cache** of the service (`SleeperApi`): the clock is
  a `now` parameter and the cache is an immutable map.
- **Stand-alone page** (`StaticApp`): its rotation controls, how loaded leagues
  are collected, team initials, and the record and point-difference cells.
- **Persisted configuration** (`Config`): defaults, the merge applied on load,
  partial updates, reset, and per-league edits.
- **Configuration editor** (`ConfigPanel`): draft editing, the 5–60 second
  interval stepper, save/cancel/reset, and the enabled/valid counts.
- **League header helpers** (`LeagueHeader`): the status label and the status
  colour class.

Shared helpers:

- `Wrappers`: `Option`, `Result`, and collecting successes.
- `Text`: JavaScript whitespace, `trim`, splitting on whitespace and on a
  separator, ASCII case mapping, and decimal numerals.

Modelling conventions:

- Points are integers.
- Win percentages are exact `real` ratios.
- Times and intervals are in milliseconds.
- Fetches, timers and storage are inputs: an `Option`, a `Result`, the
  `Stored` datatype, or a `now` parameter.

## Model

| member | source | states |
|---|---|---|
| Rotation.DefaultOptions | src/hooks/useRotation.ts:22-27 | the item count is the one given; options left out default to a 20-second interval, auto-start and looping |
| Rotation.Init | src/hooks/useRotation.ts:22-34 | the mounted hook shows item 0 with zero progress and plays iff `autoStart`, whatever the item count |
| Rotation.NextItem | src/hooks/useRotation.ts:53-66 | no items: nothing changes, not even progress; otherwise progress restarts and play state is kept; with looping the index becomes (i+1) mod n; without looping it stops at the last item; an in-range index stays in range |
| Rotation.PreviousItem | src/hooks/useRotation.ts:68-81 | no items: nothing changes; with looping the index becomes (i+n-1) mod n; without looping it stops at 0; progress restarts; play state kept; in range preserved |
| Rotation.GoToItem | src/hooks/useRotation.ts:83-89 | a target in [0, n) becomes the index with progress reset; any other target changes nothing |
| Rotation.Play | src/hooks/useRotation.ts:91-96 | with at most one item nothing changes; otherwise the hook plays and the timers run |
| Rotation.Pause | src/hooks/useRotation.ts:98-101 | always stops playing and the timers; index and progress kept |
| Rotation.Reset | src/hooks/useRotation.ts:103-108 | index 0, progress 0, playing iff `autoStart` |
| Rotation.ProgressPercent | src/hooks/useRotation.ts:47-51 | progress is at most 100, non-negative for non-negative elapsed time, exactly 100 once a full interval has passed, and otherwise the elapsed share of the interval times 100 |
| Rotation.ProgressTick | src/hooks/useRotation.ts:111-126 | the progress timer only updates progress while the hook plays with more than one item |
| Rotation.Fire | src/hooks/useRotation.ts:111-120 | the advance timer only advances while the hook plays with more than one item |
| Rotation.CountChanged | src/hooks/useRotation.ts:129-135 | an index past the new end goes back to 0 (not to the last item), a valid index is kept, progress restarts |
| Rotation.StepInRange | src/hooks/useRotation.ts:53-135 | every transition keeps the index valid for the item count in force after it and progress at most 100 |
| Rotation.Run | src/hooks/useRotation.ts:53-135 | any sequence of events from a valid state ends in a valid state with progress at most 100 |
| Rotation.NextNIndex | src/hooks/useRotation.ts:56-61 | with looping, k advances from index i land on (i+k) mod n |
| Rotation.FullCycle | src/hooks/useRotation.ts:56-61 | with looping, n advances return to the starting item |
| Rotation.NextPreviousInverse | src/hooks/useRotation.ts:56-76 | with looping, previous undoes next and next undoes previous |
| Rotation.NoLoopStopsAtEnds | src/hooks/useRotation.ts:57-58 | without looping, next at the last item and previous at the first leave the index unchanged |
| Rotation.ResetIsInit | src/hooks/useRotation.ts:103-108 | reset is the mount state again |
| Rotation.PlayingWithOneItem | src/hooks/useRotation.ts:29 | with one item and auto-start the hook reports playing, yet nothing auto-advances and `play` is a no-op |
| Rotation.ShrinkGoesToFirst | src/hooks/useRotation.ts:130-132 | shrinking below the current index goes to the first item, not the last |
| Ranking.BeforeIsStrictWeakOrder | src/services/sleeperAPI.ts:124-128 | for both comparators "before" is asymmetric and "not before" is transitive, so a stable sort's result is well defined |
| Ranking.Insert | src/services/sleeperAPI.ts:124-128 | inserting into a sorted table keeps it sorted and adds exactly the new row |
| Ranking.Sort | src/services/sleeperAPI.ts:124-128 | the sorted table is a permutation of its input and in comparator order |
| Ranking.SortAndRank | src/services/sleeperAPI.ts:124-129 | ranks are exactly 1..n by position, the rows are sorted, and with ranks cleared they are a permutation of the input |
| Ranking.SortStable | src/services/sleeperAPI.ts:124-128 | rows the comparator ties keep their input order |
| Ranking.RankStable | src/services/sleeperAPI.ts:124-129 | after sorting and numbering, rows the comparator ties still keep their input order |
| Ranking.SortOfSorted | src/services/sleeperAPI.ts:124-128 | sorting an already sorted table changes nothing |
| Ranking.RankIdempotent | src/services/sleeperAPI.ts:124-129 | sorting and ranking a ranked table again gives the same table |
| Ranking.IndexUsers | src/services/sleeperAPI.ts:101-102 | every user's id is a key, each key maps to a user with that id, and a user whose id is not repeated later is the one found |
| SleeperApi.TeamName | src/services/sleeperAPI.ts:108 | the name is the user's team name if non-empty, else their display name if non-empty, else "Team " and the roster id; never empty |
| SleeperApi.WinPercentage | src/services/sleeperAPI.ts:109-110 | wins over games played when any game was played, else 0; always within [0, 1] |
| SleeperApi.ToStanding | src/services/sleeperAPI.ts:106-122 | the row keeps the roster id, wins and losses; a missing ties count is 0; missing decimal points are 0; the team name is the owner's name by the fallback order above; the percentage is the win ratio of its own record; the rank starts at 0 |
| SleeperApi.LeagueStandings | src/services/sleeperAPI.ts:105-129 | one row per roster, ranks 1..n by position, wins non-increasing with points for non-increasing among equal wins, a permutation of the mapped rosters, win percentages within [0, 1] |
| SleeperApi.NoRostersNoStandings | src/services/sleeperAPI.ts:105-129 | no rosters give an empty table |
| SleeperApi.RowOrigin | src/services/sleeperAPI.ts:105-129 | every row of the table is the mapped record of some roster, with its position as rank |
| SleeperApi.LeagueStandingsStable | src/services/sleeperAPI.ts:124-128 | teams tied on wins and points for keep the order the rosters came in |
| SleeperApi.RankingExample | src/services/sleeperAPI.ts:124-129 | three concrete teams: a tie on wins is broken by points for, ranks 1, 2, 3 |
| SleeperApi.GetCached | src/services/sleeperAPI.ts:22-28 | a lookup returns the stored value iff an entry exists and is younger than five minutes |
| SleeperApi.SetCached | src/services/sleeperAPI.ts:30-32 | the key now holds the value stamped with the current time; other keys are untouched |
| SleeperApi.ClearCache | src/services/sleeperAPI.ts:168-170 | the cleared cache holds no entries |
| SleeperApi.SetThenGet | src/services/sleeperAPI.ts:22-32 | a value read back at the time it was stored is found |
| SleeperApi.CachedForFiveMinutes | src/services/sleeperAPI.ts:20-28 | a stored value is served exactly while less than 300000 ms have passed |
| SleeperApi.SetKeepsOtherKeys | src/services/sleeperAPI.ts:30-32 | storing under one key leaves every other key's lookups unchanged |
| SleeperApi.ClearedCacheMisses | src/services/sleeperAPI.ts:168-177 | after clearing, every lookup misses and the size is 0 |
| SleeperApi.SetCachedSize | src/services/sleeperAPI.ts:30-32 | `getCacheSize` (sleeperAPI.ts:175-177) counts every stored key: a store adds one exactly when the key is new, and an entry too old to be served still counts |
| SleeperApi.KeysDisjoint | src/services/sleeperAPI.ts:38-74 | the league, roster and user cache keys of any two league ids never collide |
| SleeperApi.Fetch | src/services/sleeperAPI.ts:22-50 | a cache entry fresh at the request time whose payload JavaScript treats as true is returned without a request; otherwise (no entry, an expired one, or a falsy payload such as `null`) a response is stored stamped with the time the answer arrived and returned, and a failure is an error that leaves the cache alone |
| SleeperApi.FetchTwice | src/services/sleeperAPI.ts:37-50 | after a fetch that went to the network and got a payload treated as true, every fetch starting less than five minutes after that answer arrived returns the same value and leaves the cache alone |
| SleeperApi.FalsyPayloadRefetched | src/services/sleeperAPI.ts:40-44 | a falsy payload is cached but never served: any later fetch answers with the network's response |
| SleeperApi.FetchSameInstant | src/services/sleeperAPI.ts:37-50 | a later fetch whose clock still reads the first request's time, run on the cache the first fetch left behind, returns the same value when the first yielded a payload treated as true (its answer arriving no earlier than its request); two requests in flight at once are not modelled |
| SleeperApi.MultipleLeagueStandings | src/services/sleeperAPI.ts:144-163 | the result is exactly the successful fetches, in request order, no more than the number of ids |
| SleeperApi.MultipleInOrder | src/services/sleeperAPI.ts:144-163 | collecting a batch split in two is collecting each part, one after the other |
| StaticApp.NextLeague | static/script.js:283-289 | with at most one league nothing changes; otherwise the index becomes (i+1) mod n; play state kept |
| StaticApp.PreviousLeague | static/script.js:275-281 | with at most one league nothing changes; otherwise the index becomes (i+n-1) mod n; play state kept |
| StaticApp.GoToLeague | static/script.js:291-297 | the index changes only to a target in [0, n) |
| StaticApp.StartRotation | static/script.js:309-318 | with at most one league nothing changes; otherwise playing |
| StaticApp.PauseRotation | static/script.js:320-328 | always stops playing |
| StaticApp.ToggleRotation | static/script.js:299-307 | with at most one league nothing changes; otherwise the play state flips |
| StaticApp.LoadAllLeagues | static/script.js:34-62 | the successfully fetched leagues in order, or the error "No leagues could be loaded" exactly when none succeeded |
| StaticApp.InitialCannotStart | static/script.js:9-10 | before any league has loaded the page is paused on the first league, and start, toggle, next and previous all leave it so |
| StaticApp.Retry | static/script.js:354-360 | afterwards the page is paused at the first league, with as many leagues as reloaded successfully |
| StaticApp.NextPreviousInverse | static/script.js:275-289 | previous undoes next and next undoes previous |
| StaticApp.ToggleTwice | static/script.js:299-307 | toggling twice restores the play state |
| StaticApp.NextAgreesWithHook | static/script.js:275-289 | the page's next and previous agree with the hook's looping next and previous |
| StaticApp.GoToAgreesWithHook | static/script.js:291-297 | jumping to any target, in range or not, leaves the page on the same index as the hook's jump |
| StaticApp.WinPercentage | static/script.js:96-97 | wins plus half the ties, over games played, else 0; always within [0, 1] |
| StaticApp.DisplayName | static/script.js:102-103 | the user's display name if non-empty, else the user name if non-empty, else "Team " and the roster id; never empty |
| StaticApp.ToStanding | static/script.js:89-112 | the row keeps the roster id and has the owner as user id; display and team name coincide and are the owner's name by the fallback order above; all five settings fields read as 0 when missing; the percentage is the tie-as-half-win ratio of its own record; rank starts at 0 |
| StaticApp.MissingSettingsAreZero | static/script.js:91-95 | a roster without settings is 0-0-0 with no points and a 0 percentage |
| StaticApp.Standings | static/script.js:88-119 | one row per roster, ranks 1..n by position, ordered by wins, then win percentage, then points for (all non-increasing), a permutation of the mapped rosters, percentages within [0, 1] |
| StaticApp.RowOrigin | static/script.js:88-119 | every row of the table is the mapped record of some roster, with its position as rank |
| StaticApp.StandingsStable | static/script.js:113-118 | teams tied on all three keys keep the order the rosters came in |
| StaticApp.VariantsDiffer | static/script.js:113-118 | with equal wins, the page ranks the team with more ties first even when the other has more points |
| StaticApp.TeamInitials | static/script.js:362-371 | "T" for a missing or empty name; at most two characters; the first is the upper-cased first non-blank character (a character here is a Unicode scalar value, see "Left out"); one word gives its first two characters upper-cased; more words give the upper-cased first characters of the first two; a blank name gives "" |
| StaticApp.RecordRoundTrip | static/script.js:186 | the record reads "W-L" with "-T" appended exactly when there are ties, and reading it back gives the record |
| StaticApp.RecordPieces | static/script.js:186 | the record cell splits at its dashes into exactly the numerals of wins and losses, then ties when there are any |
| StaticApp.Difference | static/script.js:166-168 | the class is positive, negative or neutral by the sign of points for minus points against, and "+" is shown exactly when positive |
| StaticApp.DifferenceAntisymmetric | static/script.js:166-168 | swapping the two totals swaps positive and negative and keeps neutral |
| StaticApp.RankClass | static/script.js:162-164 | ranks 1 to 3 get their own class, every other rank "rank-other" |
| Config.DefaultShape | src/hooks/useLocalStorage.ts:4-16 | the defaults have eight distinct league ids, eight enabled flags and a 20-second interval, the same as the rotation hook's default |
| Config.MergeDisplay | src/hooks/useLocalStorage.ts:78-83 | each display field present in the update wins; absent fields keep the previous value |
| Config.UpdateConfig | src/hooks/useLocalStorage.ts:70-87 | exactly the fields present in the update are replaced; display settings are merged field by field, not substituted |
| Config.LoadConfig | src/hooks/useLocalStorage.ts:32-57 | nothing stored or unparseable text gives the defaults; a parsed object overrides exactly the fields it has, and its display settings are merged into the default ones field by field |
| Config.ResetConfig | src/hooks/useLocalStorage.ts:89-96 | the stored copy is removed, and the configuration equals what a load would then produce |
| Config.LoadIsUpdateOfDefault | src/hooks/useLocalStorage.ts:39-46 | loading a parsed object is the same as applying it as an update to the defaults |
| Config.SaveLoadRoundTrip | src/hooks/useLocalStorage.ts:59-68 | a saved configuration loads back unchanged |
| Config.UpdateWithWhole | src/hooks/useLocalStorage.ts:70-76 | an update carrying every field replaces the whole configuration |
| Config.UpdateIdentityAndIdempotent | src/hooks/useLocalStorage.ts:70-87 | the empty update changes nothing, and applying the same update twice is applying it once |
| Config.UpdateCompose | src/hooks/useLocalStorage.ts:70-87 | two updates in a row equal one combined update |
| Config.SetIndex | src/hooks/useLocalStorage.ts:110-113 | writing index i changes only element i; a negative index changes no element; writing past the end grows the array |
| Config.Flip | src/hooks/useLocalStorage.ts:116-119 | flipping an in-range flag negates only it; a missing flag reads as false, so flipping past the end sets it |
| Config.FlipTwice | src/hooks/useLocalStorage.ts:116-119 | flipping an in-range flag twice restores the flags |
| Config.UpdateLeagueId | src/hooks/useLocalStorage.ts:110-114 | only the id at the index changes; everything else is kept |
| Config.ToggleLeague | src/hooks/useLocalStorage.ts:116-120 | only the flag at the index flips; everything else is kept |
| Config.ToggleLeagueTwice | src/hooks/useLocalStorage.ts:116-120 | toggling the same league twice restores the configuration |
| Config.UpdateLeagueIdSame | src/hooks/useLocalStorage.ts:110-114 | writing a league id with its current value changes nothing |
| ConfigPanel.Open | src/components/ConfigPanel.tsx:23-24 | a freshly mounted panel holds the given configuration both as the saved copy and as the draft, with no unsaved changes |
| ConfigPanel.HandleLeagueIdChange | src/components/ConfigPanel.tsx:26-31 | only the draft's id at the index changes, and the panel has unsaved changes |
| ConfigPanel.HandleToggleLeague | src/components/ConfigPanel.tsx:33-38 | only the draft's flag at the index flips (ids, interval and display settings kept), and the panel has unsaved changes |
| ConfigPanel.HandleIntervalChange | src/components/ConfigPanel.tsx:40-43 | the draft interval is the given seconds in milliseconds, and the panel has unsaved changes |
| ConfigPanel.StepDown | src/components/ConfigPanel.tsx:128 | the minus button gives five seconds less, never below five seconds; the draft's ids, flags and display settings and the saved copy are unchanged, and changes are flagged |
| ConfigPanel.StepUp | src/components/ConfigPanel.tsx:139 | the plus button gives five seconds more, never above sixty seconds; the draft's ids, flags and display settings and the saved copy are unchanged, and changes are flagged |
| ConfigPanel.StepperBounds | src/components/ConfigPanel.tsx:128-139 | an interval within 5–60 s stays there; away from the ends, plus undoes minus and minus undoes plus |
| ConfigPanel.StepDownReachesMinimum | src/components/ConfigPanel.tsx:128 | enough presses of minus reach exactly five seconds |
| ConfigPanel.HandleSave | src/components/ConfigPanel.tsx:45-48 | the draft becomes the saved configuration and there are no unsaved changes |
| ConfigPanel.HandleCancel | src/components/ConfigPanel.tsx:56-60 | the draft is discarded for the saved configuration and there are no unsaved changes |
| ConfigPanel.HandleResetAsWritten | src/components/ConfigPanel.tsx:50-54 | the saved configuration becomes the defaults while the draft becomes the configuration from before the reset |
| ConfigPanel.ResetAsWrittenShowsStaleDraft | src/components/ConfigPanel.tsx:50-54 | from a non-default configuration, the reset leaves a draft that differs from the saved configuration while no changes are flagged |
| ConfigPanel.HandleReset | src/components/ConfigPanel.tsx:50-54 | corrected reset: saved configuration and draft are both the defaults, with no unsaved changes |
| ConfigPanel.Run | src/components/ConfigPanel.tsx:26-60 | every sequence of panel events keeps the draft equal to the saved configuration whenever no changes are flagged; after save, cancel or reset nothing is flagged |
| ConfigPanel.EnabledCount | src/components/ConfigPanel.tsx:62-64 | the count is at most the number of flags, equals it iff all are set, and is 0 iff none is |
| ConfigPanel.ValidCount | src/components/ConfigPanel.tsx:66-70 | counts ids that are not blank after trimming and whose flag is set (a missing flag reads as false); at most the number of ids |
| ConfigPanel.ValidCountAll | src/components/ConfigPanel.tsx:66-70 | every id counts exactly when every id is non-blank and enabled |
| ConfigPanel.ValidCountNone | src/components/ConfigPanel.tsx:66-70 | the count is 0 exactly when no id is both non-blank and enabled |
| ConfigPanel.ValidAtMostEnabled | src/components/ConfigPanel.tsx:62-70 | the valid count never exceeds the enabled count |
| ConfigPanel.ToggleChangesCount | src/components/ConfigPanel.tsx:33-38 | toggling an in-range flag moves the enabled count by exactly one |
| ConfigPanel.DefaultEnabledCount | src/hooks/useLocalStorage.ts:10 | the defaults have eight enabled leagues |
| ConfigPanel.DefaultValidCount | src/hooks/useLocalStorage.ts:5-10 | all eight default leagues are valid |
| LeagueHeader.FormatStatus | src/components/LeagueHeader.tsx:31-34 | "In Season" for a missing or empty status; otherwise the same length, no underscore, each first letter or digit of a word upper-cased, underscores shown as spaces, everything else kept |
| LeagueHeader.FormatStatusIdempotent | src/components/LeagueHeader.tsx:31-34 | formatting a label again changes nothing |
| LeagueHeader.StatusColor | src/components/LeagueHeader.tsx:15-29 | green for a missing status; otherwise chosen by the lower-cased status among the four known ones, gray for anything else |
| LeagueHeader.StatusColorIgnoresCase | src/components/LeagueHeader.tsx:17 | statuses equal up to letter case get the same colour |
| LeagueHeader.MissingStatusIsInSeason | src/components/LeagueHeader.tsx:16-33 | a missing status is labelled and coloured like "in_season" in any letter case |
| LeagueHeader.InSeasonLabel | src/components/LeagueHeader.tsx:31-34 | the status "in_season" is shown as "In Season" |
| LeagueHeader.InSeasonColor | src/components/LeagueHeader.tsx:17-19 | "in_season" takes the green in-season colour in lower or upper case |

## Left out

- HTTP requests, `Promise.all`, the 200 ms delay between league requests, and error logging are not modelled. A fetch's outcome is an `Option` or `Result` input.
- Timers (`setInterval`, `clearInterval`), React effect scheduling and `Date.now` are replaced by explicit events and time parameters. A service fetch reads the clock twice, as the source does: `now` when the cache is consulted, and `responded` when the answer is stored. The page script's five-second timer is not modelled; each of its firings is a call of `StaticApp.NextLeague`.
- Rendering is left out. This covers the React components other than the helpers above, DOM updates in the page script, `escapeHtml`, `updateLeagueHeader`'s status text, the rotation indicator and its progress-ring geometry, and `useDisplaySettings`.
- `localStorage` and JSON are abstracted. What a load finds is the `Stored` input, and saving is `Config.Save`. Stored values are assumed to have the configuration's field types, and an explicitly `undefined` field is treated like an absent one.
- Rotation.ProgressPercent: requires a positive interval. With a zero interval JavaScript divides by zero and yields `Infinity` or `NaN`, which is not modelled.
- SleeperApi.ToStanding: points are integers. `Math.round(x * 100) / 100` on the points and the three-decimal rounding of the win percentage are not modelled; the percentage is exact.
- SleeperApi.WinPercentage: exact ratio. The value is not rounded to three decimals as the service does.
- StaticApp.WinPercentage: exact real arithmetic instead of floating point, so `ties * 0.5` has no rounding error.
- ConfigPanel.StepDown and ConfigPanel.StepUp: the interval and the stepper's seconds arithmetic (divide by 1000, add or subtract 5, multiply by 1000) are exact reals instead of doubles. For whole-second intervals doubles compute the same values exactly.
- Number formatting (`toFixed(1)`) of points and percentages is not modelled. The points-difference cell is modelled by its class and sign only.
- StaticApp.TeamInitials: only ASCII letters are upper-cased. JavaScript's `toUpperCase` also maps other letters, and some expand ("ß" becomes "SS"), so the at-most-two-characters bound holds for ASCII names only. JavaScript also slices and indexes names by UTF-16 code units, while the model uses Unicode scalar values: for a name starting outside the Basic Multilingual Plane, such as "🏈 Gridiron Gang", JavaScript keeps half of a surrogate pair and the model keeps the whole character. The model therefore agrees with the page only on names whose first two words start with, and whose one word consists of, Basic Multilingual Plane characters.
- Text.ToUpper: ASCII only. This is exact for `LeagueHeader`, because `\w` and `\b` are ASCII-only and no non-ASCII character lower-cases into a status word. Elsewhere it is a simplification.
- Config.SetIndex: holes that JavaScript leaves when writing past the end of an array are modelled as `""` for league ids and `false` for flags. Both are falsy, as `undefined` is.
- Config.ResetConfig: the stored copy is modelled as removed. In the hook, the save effect then writes the defaults back because the configuration changed. Both load as the defaults (`Config.SaveLoadRoundTrip`).
- The league types and the mock league data are not part of this model. They are declarations and fixtures only.

## Findings

| source | as written | input that shows it | evidently intended | confidence | as-written member | corrected member |
|---|---|---|---|---|---|---|
| src/components/ConfigPanel.tsx:50-54 | `handleReset` resets the stored configuration but sets the draft from the `config` prop it was rendered with. That prop is still the pre-reset configuration, and the unsaved-changes flag is cleared. | Any saved configuration other than the defaults (e.g. interval 30000), then Reset: the saved configuration becomes the defaults, but the panel keeps showing 30 s with no unsaved changes. The Save button is hidden while no changes are flagged, but after any further edit Save writes the stale draft plus that edit back, undoing the reset. | After a reset the draft shows the defaults, so the draft equals the saved configuration whenever no changes are flagged. | not executed | ConfigPanel.HandleResetAsWritten (with ConfigPanel.ResetAsWrittenShowsStaleDraft) | ConfigPanel.HandleReset (with ConfigPanel.Run) |
