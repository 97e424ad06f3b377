# Verified model of the résumé site's interactive logic

This project is a Dafny model of four small pieces of logic on a personal
résumé site. Each comes with proofs of what it promises.

- **Bug hunter** (`src/components/BugHunter.tsx`). A bug crawls across the
  viewport and the visitor can squash it. Squashes are counted cumulatively in
  `localStorage` under `bugHunter.totalBugsSquashed`. The count maps to one of
  ten rank tiers, and a celebration dialog opens when a new tier is unlocked.
  Module `BugHunter` holds:
  - the rank table and its lookup;
  - the spawn geometry;
  - the component, as a class whose fields are the React state, refs and
    pending timers. Its methods are the event handlers, effects and timer
    callbacks.
- **Spotify episode analytics** (`src/components/SpotifyEmbed.tsx`). The
  `playback_started` and `playback_update` listeners of the embed controller
  share five refs and emit tracking events. Module `SpotifyEmbed` describes
  them twice:
  - as pure functions over the refs (`StartedOutcome`, `UpdateOutcome`,
    `Run`), about which the at-most-once properties are proved;
  - as the class `Tracker`, whose methods mutate the refs in place and append
    to the event log. Each method is proved equal to the pure function.
- **Consent persistence** (`src/lib/consent.ts`, `src/lib/consent-storage.ts`).
  Modules `Consent` and `ConsentStorage` each hold one validated storage key,
  with get, set, clear and has-decision operations.
  - `Consent` swallows storage failures.
  - `ConsentStorage` lets them propagate. It also dispatches a
    `consentChange` window event, and does nothing without a window.
- **Theme persistence** (`src/lib/theme.ts`). Module `Theme` holds the theme
  style and light/dark mode. They are stored under two keys and mirrored into
  the `data-theme` / `data-mode` attributes of the document element. A failed
  write still applies the attribute.

Shared browser objects are in module `Browser`:
- `LocalStorage` is a class over a `map<string, string>`. Two flags decide
  which calls throw:
  - when `available` is false, every access throws;
  - when `writable` is false (the quota is used up), `setItem` throws while
    reads and removals still work.
- `DocumentElement` is a class over an attribute map.
- `BrowserWindow` holds the storage and the log of dispatched events.
- A JavaScript exception is the `Thrown` case of the `Completion` datatype.

Module `Js` models two conversions:
- `Number.parseInt(s, 10)`, following section 19.2.5 of ECMA-262: skip
  StrWhiteSpaceChar code points, take one optional sign, then the longest run
  of decimal digits. No digit gives NaN.
- `String(n)` for a non-negative integer.

A squash celebrates when the new rank's id differs from `previousRankRef`'s
(src/components/BugHunter.tsx:264). That ref follows the in-memory count; the
class invariant `Component.Valid` keeps it equal to the rank of
`totalBugsSquashed`. The new count, however, is taken from storage when storage
holds a positive count. The two can disagree when another tab has advanced the
stored count:
- `BugHunter.SquashCelebratesAtThreshold` proves that a squash celebrates
  exactly at a tier's threshold when storage and memory agree;
- `BugHunter.StaleRankCelebrates` shows a squash from a stored 3 to 4 opening
  the celebration for a rank that 3 already had.

## Model

| member | source | states |
|---|---|---|
| BugHunter.RankTableShape | src/components/BugHunter.tsx:32-103 | The table has ten tiers with ids 1..10 in order. Thresholds are strictly ascending, from 1 up to 1000. |
| BugHunter.RankFor | src/components/BugHunter.tsx:107-119 | The lookup's specification, with no contract of its own: the last tier of the ascending table whose threshold the total reaches. `RankForMeaning`, `RankMonotone` and `RankTopTier` state what it means. |
| BugHunter.GetRankForTotal | src/components/BugHunter.tsx:107-119 | The loop with `break` returns `RankFor(total)`: the last tier whose threshold the total reaches, or none. |
| BugHunter.RankForMeaning | src/components/BugHunter.tsx:107-119 | There is no rank exactly when total ≤ 0. Otherwise the rank is a table entry with minBugs ≤ total, and total is below the next entry's minBugs. |
| BugHunter.RankMonotone | src/components/BugHunter.tsx:107-119 | a ≤ b implies rank id(a) ≤ rank id(b), where "no rank" has id 0. |
| BugHunter.RankTopTier | src/components/BugHunter.tsx:92-119 | Every total of at least 1000 has the top rank, id 10. |
| BugHunter.RankUpAtThreshold | src/components/BugHunter.tsx:262-264 | Going from count to count+1 moves to a new tier exactly when count+1 is one of the thresholds (both directions). |
| BugHunter.SquashCelebratesAtThreshold | src/components/BugHunter.tsx:259-280 | Case: storage agrees with memory. The squash counts one up and sets the previous rank to the new count's rank. It opens the celebration with that rank when the new count is a threshold. Otherwise it leaves the celebration state as it was. |
| BugHunter.StaleRankCelebrates | src/components/BugHunter.tsx:259-280 | Memory holds 2 and storage 3. The squash counts 3 to 4, both in rank 2, yet opens the celebration for rank 2, because `previousRank` is still rank 1. |
| BugHunter.EdgeFor | src/components/BugHunter.tsx:155-157 | `Math.floor(roll * 4)` indexes the four edges: top below 0.25, right below 0.5, bottom below 0.75, left above. |
| BugHunter.RandomEdgePosition | src/components/BugHunter.tsx:150-179 | Picks the edge from the first draw. The point lies 50 px outside that edge, inside the edge's span. |
| BugHunter.OppositeEdgePosition | src/components/BugHunter.tsx:182-199 | The point lies 50 px outside the edge opposite the given one, inside its span. |
| BugHunter.SpawnedBug | src/components/BugHunter.tsx:209-223 | A new bug is visible and not squashing. It enters outside one edge, leaves outside the opposite edge, and travels for a duration in [10000, 15000) ms. |
| BugHunter.ParsePositiveTotal | src/components/BugHunter.tsx:247-251 | A stored text counts exactly when it is non-empty and `parseInt` gives a positive integer. The result is that integer. |
| BugHunter.StoredTotal | src/components/BugHunter.tsx:243-256 | The stored count is present exactly when storage is readable, holds the key, and its value parses to a positive integer. |
| BugHunter.WrittenTotalReadsBack | src/components/BugHunter.tsx:282-288 | `parseInt(String(n))` recovers n, so every written count is read back unchanged. |
| BugHunter.StoredTotalOfWritten | src/components/BugHunter.tsx:243-256 | Storage holding a written count n yields n. |
| BugHunter.AfterSquash | src/components/BugHunter.tsx:259-291 | The updater's result total is the base plus one. |
| BugHunter.Component.constructor | src/components/BugHunter.tsx:134-147 | The initial state is a hidden bug, count 0, no rank, no celebration and no timers. It satisfies the invariant. |
| BugHunter.Component.SpawnBug | src/components/BugHunter.tsx:209-223 | Installs `SpawnedBug` and changes nothing else. |
| BugHunter.Component.UpdateTotal | src/components/BugHunter.tsx:259-291 | Updates count, previous rank, unlocked rank, celebration flag and timer as `AfterSquash` of the base. Writes `String(base+1)` when storage accepts writes. Keeps the invariant. |
| BugHunter.Component.WriteTotal | src/components/BugHunter.tsx:282-288 | Storage gains the decimal count when it is available and writable. Otherwise it is unchanged, and the failure is swallowed. |
| BugHunter.Component.Celebrate | src/components/BugHunter.tsx:264-278 | When the new rank exists and its id differs from `previousRank`'s, it becomes the unlocked rank, the dialog opens and the 5 s timer is armed. Otherwise nothing changes. |
| BugHunter.Component.HandleBugClick | src/components/BugHunter.tsx:226-318 | A squashing bug: nothing changes. Otherwise the full squash effect, counted from the stored total, falling back to the in-memory one. |
| BugHunter.Component.Squash | src/components/BugHunter.tsx:243-317 | Given the stored total, the count update, storage write, frozen bug, score animations and the three timers. |
| BugHunter.Component.ShowSquash | src/components/BugHunter.tsx:293-317 | The bug freezes at the click position as squashing. The score animation and the "+1" show, and their timers plus the 300 ms removal timer are armed. |
| BugHunter.Component.HandleKeyDown | src/components/BugHunter.tsx:439-447 | Enter and Space act exactly like a click. Any other key changes nothing. |
| BugHunter.Component.LoadEffect | src/components/BugHunter.tsx:321-339 | Adopts a positive stored count and its rank without celebrating. Then it spawns the first bug. |
| BugHunter.Component.HandleStorage | src/components/BugHunter.tsx:347-367 | Other keys are ignored. A missing, empty, unparseable or non-positive value resets the count to 0. Any other value is adopted, with its rank recomputed and no celebration. |
| BugHunter.Component.VisibilityEffect | src/components/BugHunter.tsx:377-382 | Spawns exactly when the bug went from visible to invisible. Records the committed visibility. |
| BugHunter.Component.OnAnimationEnd | src/components/BugHunter.tsx:408-416 | Hides the bug only when it is visible and not squashing. Nothing else changes. |
| BugHunter.Component.FireSquashTimer | src/components/BugHunter.tsx:315-317 | The removal timer clears only `isVisible`. |
| BugHunter.Component.FireScoreAnimationTimer | src/components/BugHunter.tsx:297-299 | A pending timer turns the score animation off. |
| BugHunter.Component.FireFloatingOneTimer | src/components/BugHunter.tsx:304-306 | A pending timer turns the floating "+1" off. |
| BugHunter.Component.FireCelebrationTimer | src/components/BugHunter.tsx:274-277 | A pending timer closes the dialog and forgets the rank. |
| BugHunter.Component.OnCelebrationOpenChange | src/components/BugHunter.tsx:520-534 | Only acts while a rank is unlocked. Closing cancels the timer, closes the dialog and forgets the rank. Opening keeps it open. |
| BugHunter.Component.Unmount | src/components/BugHunter.tsx:385-400 | Every pending timer is cancelled. |
| BugHunter.TwoTabsSquash | src/components/BugHunter.tsx:243-261 | Two tabs each loaded n, and tab A has stored n+1. Tab B's squash then counts from storage, showing and writing n+2. |
| BugHunter.FullStorageSquashes | src/components/BugHunter.tsx:243-288 | Storage holds n and can be read but not written. Two squashes in a row both show n+1, and storage keeps n: the count is stuck. |
| Js.ParseInt | src/components/BugHunter.tsx:248 | The definition of `Number.parseInt(s, 10)`, with no contract of its own: skip white space, take one optional sign, then the digit prefix; no digit gives NaN. The `Js.ParseInt…` lemmas state what it returns. |
| Js.ParseIntOfDecimalString | src/components/BugHunter.tsx:248 | `parseInt(String(n), 10) == n` for every n ≥ 0. |
| Js.ParseIntSkipsWhiteSpace | src/components/BugHunter.tsx:248 | Leading white space never changes the result. |
| Js.ParseIntIgnoresTrailing | src/components/BugHunter.tsx:326 | Text after a count's digits that does not start with a digit is ignored. |
| Js.ParseIntOfNegative | src/components/BugHunter.tsx:358-359 | "-" followed by a count parses to its negation, which the positivity guard rejects. |
| Js.ParseIntNaN | src/components/BugHunter.tsx:358-359 | Text that does not start with white space, a sign or a digit gives NaN. |
| Js.TrimStart | src/components/BugHunter.tsx:248 | The result is the suffix left after removing every leading white space code point. |
| Js.DigitPrefix | src/components/BugHunter.tsx:248 | The result is the longest prefix made of decimal digits. |
| Js.DecimalString | src/components/BugHunter.tsx:284 | `String(n)`: non-empty, all digits, and no leading zero unless n is 0. |
| SpotifyEmbed.EpisodeId | src/components/SpotifyEmbed.tsx:35 | The id is either the whole URI, or a non-empty, colon-free suffix right after a colon. A URI ending in a colon is its own id. |
| SpotifyEmbed.EpisodeIdOfUri | src/components/SpotifyEmbed.tsx:35 | A URI `…:<id>`, with a non-empty id free of colons, yields that id. |
| SpotifyEmbed.LastSegment | src/components/SpotifyEmbed.tsx:35 | The result is the colon-free suffix after the last colon, or the whole string when there is none. |
| SpotifyEmbed.Reaches | src/components/SpotifyEmbed.tsx:87-95 | The percentage test `(position / duration) * 100 >= percent`, with no contract of its own, stated over integers. A zero duration reaches a milestone only for a positive position, since the quotient is then +Infinity. `ReachesIsPercent` relates it to the real quotient. |
| SpotifyEmbed.ReachesIsPercent | src/components/SpotifyEmbed.tsx:87-95 | For a non-zero duration, the integer comparison equals `(position / duration) * 100 >= percent` over exact reals. |
| SpotifyEmbed.Seconds | src/components/SpotifyEmbed.tsx:88-89 | `Math.floor(ms / 1000)`: the result s satisfies s·1000 ≤ ms < s·1000 + 1000. |
| SpotifyEmbed.Tracker.constructor | src/components/SpotifyEmbed.tsx:27-31 | The refs start as no milestones, not completed, last paused, last position 0 and not started. The log starts empty. |
| SpotifyEmbed.StartedOutcome | src/components/SpotifyEmbed.tsx:66-77 | `playback_started` sets `hasStarted` and no other ref. It tracks one start, carrying the playing URI, exactly when not started before. |
| SpotifyEmbed.Tracker.OnPlaybackStarted | src/components/SpotifyEmbed.tsx:66-77 | Refs and log change as `StartedOutcome`: one start, with the playing URI, only when not started yet. |
| SpotifyEmbed.StepStart | src/components/SpotifyEmbed.tsx:66-77 | One event tracks a start exactly when it is the first `playback_started`, and it marks the embed started. |
| SpotifyEmbed.StartAtMostOnce | src/components/SpotifyEmbed.tsx:66-77 | Over any event sequence, at most one start is tracked, and none once started. |
| SpotifyEmbed.StartedAfterRun | src/components/SpotifyEmbed.tsx:66-77 | After any run the embed has started exactly when it had before or the run holds a `playback_started`. |
| SpotifyEmbed.BufferingIsInert | src/components/SpotifyEmbed.tsx:82-85 | A buffering update tracks nothing and leaves every ref unchanged. |
| SpotifyEmbed.ProgressUpTo | src/components/SpotifyEmbed.tsx:92-110 | The milestone loop after its first i iterations, with no contract of its own. `ProgressUpToReached`, `ProgressUpToPayload` and `ProgressUpToCounts` state what it computes. |
| SpotifyEmbed.Tracker.TrackMilestones | src/components/SpotifyEmbed.tsx:91-110 | The loop leaves the milestone set and log as `ProgressUpTo` over all four milestones. |
| SpotifyEmbed.ProgressUpToReached | src/components/SpotifyEmbed.tsx:92-110 | The milestone set afterwards is the old set plus exactly the milestones reached. |
| SpotifyEmbed.ProgressUpToPayload | src/components/SpotifyEmbed.tsx:98-106 | The loop tracks only progress events, each carrying this update's seconds. |
| SpotifyEmbed.ProgressUpToCounts | src/components/SpotifyEmbed.tsx:92-110 | Each milestone is tracked at most once, and exactly once when it is reached and not seen before. |
| SpotifyEmbed.UpdateOutcome | src/components/SpotifyEmbed.tsx:80-181 | The `playback_update` listener as a function of the refs, with no contract of its own. `BufferingIsInert`, `UpdateEventCounts` and `UpdateRefs` state what it tracks and leaves. |
| SpotifyEmbed.UpdateEventCounts | src/components/SpotifyEmbed.tsx:80-181 | A non-buffering update tracks each newly reached milestone once. It tracks pause, resume, seek and complete each once exactly when its condition holds, and never a start. |
| SpotifyEmbed.TransitionCounts | src/components/SpotifyEmbed.tsx:112-174 | The four checks emit one event of their kind exactly when their condition holds, and no progress. |
| SpotifyEmbed.Tracker.TrackTransitions | src/components/SpotifyEmbed.tsx:112-174 | Appends `TransitionEvents` of the refs before the update, and records completion. |
| SpotifyEmbed.Tracker.TrackPause | src/components/SpotifyEmbed.tsx:113-126 | A pause is appended only when paused now, playing at the last update, and after a start. |
| SpotifyEmbed.Tracker.TrackResume | src/components/SpotifyEmbed.tsx:129-143 | A resume is appended only when playing now, paused at the last update, after a start, with position > 0. |
| SpotifyEmbed.Tracker.TrackSeek | src/components/SpotifyEmbed.tsx:146-162 | A seek from the last position is appended only when \|Δ\| > 2000 ms, the last position is > 0, after a start, and playing. |
| SpotifyEmbed.Tracker.TrackComplete | src/components/SpotifyEmbed.tsx:165-174 | The completion is appended at ≥ 95 % only when not completed before, and completion is recorded. |
| SpotifyEmbed.CompleteAtMostOnce | src/components/SpotifyEmbed.tsx:165-174 | Over any event sequence, at most one completion is tracked, and none after an earlier one. |
| SpotifyEmbed.MilestoneAtMostOnce | src/components/SpotifyEmbed.tsx:92-110 | Over any event sequence, each milestone is tracked at most once, and never once seen. |
| SpotifyEmbed.UpdateRefs | src/components/SpotifyEmbed.tsx:177-180 | After a non-buffering update, lastPaused is isPaused. lastPosition changes, to position, only while playing. Completion and milestones grow as reached. |
| SpotifyEmbed.StepGrows | src/components/SpotifyEmbed.tsx:108-180 | No event shrinks the milestones or forgets a start or a completion. |
| SpotifyEmbed.Tracker.OnPlaybackUpdate | src/components/SpotifyEmbed.tsx:80-181 | The in-place listener leaves refs and log exactly as `UpdateOutcome` of the refs before it. |
| Consent.GetConsentState | src/lib/consent.ts:12-23 | A decision is returned exactly when storage is readable and holds "granted" or "denied"; it is the stored one. Anything else, including a storage error, gives null. |
| Consent.SetConsentState | src/lib/consent.ts:28-35 | Stores the decision's name when storage is available and writable, and then reads back the decision. A failure is swallowed and leaves storage unchanged. |
| Consent.ClearConsentState | src/lib/consent.ts:41-48 | Removes the key when storage works. Afterwards no decision is read, also on failure. |
| Consent.HasConsentDecision | src/lib/consent.ts:53-55 | True exactly when a valid decision is stored and readable. |
| ConsentStorage.GetConsent | src/lib/consent-storage.ts:7-18 | No window gives null, and a storage error propagates. A missing key gives null. Otherwise the result is true exactly when the stored string is "true". |
| ConsentStorage.EmitConsentChange | src/lib/consent-storage.ts:24-33 | Dispatches exactly one `consentChange(accepted)` event when there is a window. |
| ConsentStorage.SetConsent | src/lib/consent-storage.ts:39-46 | Stores `String(accepted)` and dispatches one event, after which `getConsent` returns `accepted`. A throwing write, from unavailable or full storage, stores and dispatches nothing. No window does nothing. |
| ConsentStorage.HasConsentDecision | src/lib/consent-storage.ts:52-54 | True exactly when the key exists. Errors propagate, and no window gives false. |
| ConsentStorage.ClearConsent | src/lib/consent-storage.ts:60-66 | Removes the key, after which there is no decision. Errors propagate, and no window does nothing. |
| Theme.GetThemeStyle | src/lib/theme.ts:15-26 | Cyberpunk exactly when storage is readable and holds "cyberpunk". Purple otherwise, also on error. |
| Theme.GetThemeMode | src/lib/theme.ts:47-65 | A valid stored mode wins. Otherwise, also on error, the system preference decides. |
| Theme.SystemThemeMode | src/lib/theme.ts:135-137 | The watcher's callback gets dark exactly when the media query matches. |
| Theme.ApplyThemeStyle | src/lib/theme.ts:86-90 | Sets `data-theme` and no other attribute. |
| Theme.ApplyThemeMode | src/lib/theme.ts:96-100 | Sets `data-mode` and no other attribute. |
| Theme.ApplyTheme | src/lib/theme.ts:107-110 | Sets both attributes and no other. |
| Theme.SetThemeStyle | src/lib/theme.ts:32-41 | Stores the style when storage is available and writable, and then reads it back. Applies `data-theme` even when the write fails. |
| Theme.SetThemeMode | src/lib/theme.ts:71-80 | Stores the mode when storage is available and writable, and then reads it back. Applies `data-mode` even when the write fails. |
| Theme.InitializeTheme | src/lib/theme.ts:116-120 | Both attributes equal the current getter results, and no other attribute or storage changes. |

## Left out

- Time: the 300, 400, 1000 and 5000 ms timers are pending flags, and their callbacks are explicit events. Clearing and re-arming a timer is re-setting its flag. The CSS `animationend` is an event too.
- React scheduling: one handler's state updates are applied as one commit, with the count updater first. StrictMode double invocation of updaters is not modelled.
- `Math.random()` results are `real` parameters in [0, 1), and the viewport size is a pair of naturals. `window.innerWidth` / `innerHeight` and `getBoundingClientRect` are parameters too.
- Floating point:
  - Spotify positions and durations are integer milliseconds.
  - Bug counts are exact integers: double rounding above 2^53 and the exponent form of `String` for huge counts are not modelled.
  - Bug coordinates, draws and durations are exact reals, not IEEE doubles.
  - The Spotify percentage test is stated exactly over integers. `SpotifyEmbed.ReachesIsPercent` relates it to exact reals, not to doubles.
- BugHunter.SpawnedBug: the upper duration bound is strict only over exact reals. In doubles, `10000 + Math.random() * 5000` rounds to exactly 15000 for the largest draw, 1 − 2^-52.
- Storage quota is a flag: `writable` false makes every `setItem` throw, whatever the size of the value.
- Cross-tab races: two tabs interleaving a read-modify-write are not modelled. `BugHunter.TwoTabsSquash` shows only one handler run after another tab's write.
- Haptics (`triggerHaptic`), icons, colour classes, the dialog and all rendering are presentation only.
- `watchSystemThemePreference`: registering and removing the media-query listener is not modelled, only the mode its callback receives (`Theme.SystemThemeMode`).
- `getThemeMode` without a `window` (server-side rendering), and `matchMedia` itself: the media query's answer is the parameter `prefersDark`.
- `console.warn` in the theme setters and in the consent setter and clear is output only.
- The Spotify iFrame plumbing is not modelled: script loading, `createController`, the `ready` and `select_content` events, `destroy` and the `trackEvent` transport. The tracked events keep only their varying fields, so the constant content type, URI, item id and title are dropped.
- The milestone ref is a `set<int>` value, so the in-place `Set.add` becomes a reassignment of the `Tracker` field. Aliasing of the `Set` object is not modelled.
