# ¿De quién son estos huesos? — a Dafny model of the game session and the image service

The app is a children's quiz: a skeleton drawing of an animal is shown, the
player guesses before a 30-second countdown runs out, and then a photo of the
living animal is revealed with its name. Both pictures are generated on demand
by a remote image model.

This project models the two components with real control flow:

- **The image service** (`services/geminiService.ts`): `fetchWithRetry`, the
  retry-with-exponential-backoff wrapper (modules `Retry`, `Strings`), and
  `generateAnimalImages` with `extractUrl` (module `Images`). The model call is
  an oracle: for each request the caller supplies what its i-th attempt
  produces (a response or a thrown error). Sleeps are not performed; the
  functions return the delays they would sleep, in order.
- **The game session** (`App.tsx`): the `GameState` record plus the view, with
  every handler as a pure transition (module `Game`), a step function over
  events (button presses, timer ticks, fetch completions) and its properties
  (modules `GameProperties`, `Scenarios`). Constants and the animal list come
  from `constants.ts` (module `Constants`).

`startLevel` is split at its `await`: the first update begins the level and
issues a fetch, and a later `FetchSettled` event commits that fetch's result.
The event carries what `generateAnimalImages` settled with. It can be any
outcome the service can produce (`Game.ServiceOutcome`), and every run of the
service produces one of them (`Game.ServiceOutcomes`, `Game.ServiceOutcomesReached`).
The session keeps the level index of every fetch still in flight; any of them
may settle next, in any view. A disabled or hidden control, and a tick while
the countdown is stopped, change nothing.

Behaviour of the code worth knowing when reading the model:

- `fetchWithRetry` defaults to 3 attempts, and it also sleeps after the last
  failed attempt. Three quota errors followed by a success therefore
  end in the third error after sleeping 2000, 4000 and 8000 ms
  (`Retry.DefaultScheduleExhausted`).
- A 403 is an ordinary non-retryable error. It is rethrown at once and reported with the generic message.
- The game ignores the service's message and always shows one fixed error
  text.
- A settling fetch is never checked against the current level. A late result
  overwrites the session: it can put images next to an error, or put level 0's
  images on level 1 (`Scenarios.LateSuccessKeepsError`,
  `Scenarios.LateImagesLandOnNextLevel`).
- Play does not reset the index or the score; it restarts the level at the
  current index. Home keeps both. Only restart from the game-over view resets
  them.
- The error panel does not stop the level. While it is shown, the countdown
  keeps running and reveals the animal at 0, and the "¡LO SÉ!" button stays
  enabled, so a level whose images never arrived can still score a point
  (`Scenarios.FailedLevelStillPlays`).
- A level can be revisited and scored again, so the score is not bounded by
  the number of levels.

## Model

| member | source | states |
|---|---|---|
| Strings.ContainsIffOccurs | services/geminiService.ts:17 | the substring scan used for `includes` finds a needle exactly when it occurs at some position of the text |
| Retry.RetryFrom | services/geminiService.ts:9-30 | the retry loop makes at most `maxRetries` calls, and each call is followed by a sleep, except a last call that ended the loop itself |
| Retry.SleptOnlyAfterRetryable | services/geminiService.ts:16-25 | every call that was followed by a sleep had failed with a retryable error (a message containing "429" or "RESOURCE_EXHAUSTED", or a status of at least 500) |
| Retry.DelaysDouble | services/geminiService.ts:21-23 | the sleep after failed attempt j lasts `initialDelay * 2^j` ms |
| Retry.StoppedByLastCall | services/geminiService.ts:11-27 | a call without a following sleep was a success, which is returned unchanged, or a non-retryable error, which is rethrown |
| Retry.ExhaustedByRetries | services/geminiService.ts:11-29 | when every call was followed by a sleep, the attempts ran out and the last caught error is thrown |
| Retry.RetryFromShape | services/geminiService.ts:9-30 | the four facts above together describe the whole trace of the loop |
| Retry.CallsBounded | services/geminiService.ts:11 | `fn` is called at most `maxRetries` times, and at least once when `maxRetries` is positive |
| Retry.FirstSuccessReturned | services/geminiService.ts:11-13 | the first success after retryable failures is returned unchanged, after exactly that many calls and the doubling sleeps |
| Retry.FatalErrorRethrown | services/geminiService.ts:20-26 | a non-retryable error is rethrown from its attempt, with no sleep after it and no further call |
| Retry.ExhaustedThrowsLast | services/geminiService.ts:15-29 | when all attempts fail retryably, all are made, each is followed by its sleep (the last one too), and the last error is thrown |
| Retry.NoAttemptsThrowsUndefined | services/geminiService.ts:10-29 | with no attempts allowed, `fn` is never called and the uninitialised `lastError` is thrown |
| Retry.StopIndex | services/geminiService.ts:11-27 | the first attempt that does not fail retryably ends the loop, and its result is the outcome |
| Retry.QuotaIsRetryable | services/geminiService.ts:17-20 | a RESOURCE_EXHAUSTED error is retried |
| Retry.PermissionDeniedIsFatal | services/geminiService.ts:16-20 | a 403 PERMISSION_DENIED error is not retried |
| Retry.DefaultScheduleExhausted | services/geminiService.ts:9-29 | with the defaults, three quota errors sleep 2000, 4000 and 8000 ms, then throw the third error, and a fourth call is never made |
| Retry.FourthAttemptSucceeds | services/geminiService.ts:9-24 | with 4 attempts allowed, the same failures are followed by the returned success after the same three sleeps |
| Retry.PermissionDeniedNotRetried | services/geminiService.ts:20-26 | a permission error on the first call gives one call, no sleep, and that error thrown |
| Images.FirstInline | services/geminiService.ts:69-73 | finds the first part carrying inline data: every earlier part has none, and when it finds nothing, no part has any |
| Images.ExtractUrl | services/geminiService.ts:67-76 | the result is "" exactly when the first candidate has no parts or none carries inline data; otherwise it is the data-URL prefix followed by the data of the first such part |
| Images.ExtractUrlFirstMatch | services/geminiService.ts:68-72 | parts after the first image, and candidates after the first, never change an extracted URL |
| Images.FirstInlinePrefix | services/geminiService.ts:69-73 | appending parts keeps the position of a first image already found |
| Images.UserMessage | services/geminiService.ts:88-92 | a caught error is reported with one of two messages: the rate-limit message exactly when its message contains "429" or "RESOURCE_EXHAUSTED" |
| Images.NoImagesIsGeneric | services/geminiService.ts:81-92 | the "no image" error is reported with the generic message |
| Images.GenerateAnimalImages | services/geminiService.ts:41-93 | either returns two non-empty data URLs, or throws one of the two user messages without a status; the living request is attempted only after skeleton calls; each request is attempted at most 3 times |
| Images.SkeletonFailureSkipsLiving | services/geminiService.ts:43-57 | a failed skeleton request ends the call: the living request is never attempted, and the only sleeps are the skeleton's backoffs |
| Images.SuccessIffBothImages | services/geminiService.ts:43-85 | the call succeeds exactly when both requests return responses that both hold an image; the result is the two extracted URLs, and the sleeps are the skeleton's backoffs, the 500 ms pause, then the living backoffs |
| Images.FailureAfterSkeleton | services/geminiService.ts:57-92 | after a successful skeleton request, a living-request error is mapped by its message, and a missing image gives the generic message |
| Images.RateLimitMessageIff | services/geminiService.ts:86-92 | the rate-limit message is shown exactly when the error that stopped the call names a rate limit |
| Constants.LevelCount | constants.ts:4-23 | there are 15 levels, and the hint threshold lies strictly inside the 30-second countdown |
| Game.SettleLevel | App.tsx:39-50 | a settled fetch always ends loading; a success sets both images and keeps the error as it was; a failure sets the fixed error text and keeps the images as they were; nothing else changes |
| Game.Tick | App.tsx:63-69 | a tick takes exactly one second off a positive countdown, never goes below 0, and reveals exactly when it reaches 0; nothing else changes |
| Game.HandleReveal | App.tsx:80-87 | a reveal on a revealed level changes nothing; otherwise it reveals and adds 1 to the score exactly for a correct guess; nothing else changes |
| Game.ServiceOutcomes | App.tsx:36-44 | whatever the image model answers, `generateAnimalImages` settles with two non-empty data URLs or with one of the two user messages and no status, so every real settlement is a `FetchSettled` event |
| Game.ServiceOutcomesReached | services/geminiService.ts:32-94 | conversely, every such outcome is what some run of the service settles with: any two data URLs, the rate-limit message, and the generic message |
| Game.InitInv | App.tsx:10-20 | the session the app mounts with satisfies the invariant |
| Game.StepInv | App.tsx:24-95 | every event keeps the invariant: index in [0, 15), countdown in [0, 30] and 0 only once revealed, a loading level freshly begun with its fetch in flight, both images or neither, images non-empty, no loading on the game-over view |
| Game.RunInv | App.tsx:24-95 | any sequence of events keeps the invariant |
| Game.Reachable | App.tsx:24-95 | from the start, after any events, the index is a valid level, the countdown is never negative and never shows 0 on an unrevealed level |
| GameProperties.LevelStarts | App.tsx:25-34 | play, back, retry and next begin the target level loading, with no error, no images, nothing revealed and a full countdown; one more fetch for the target is in flight; the score is unchanged |
| GameProperties.NextAfterLastEndsGame | App.tsx:89-95 | next on the last level only switches to the game-over view |
| GameProperties.SettleAfterBegin | App.tsx:36-50 | after a level begins, its fetch settling with the result of any run of the service leaves it either failed (error, no images) or loaded (both images non-empty, no error), never both, and not loading |
| GameProperties.TickStep | App.tsx:60-73 | a tick does nothing unless the game view shows an unrevealed level that is not loading (loaded or failed) with time left; then it decrements, or sets 0 and reveals at once |
| GameProperties.TimeLeftChanges | App.tsx:60-73 | the time left changes only by an enabled tick (by exactly one second) or by the start of a level (back to the full countdown) |
| GameProperties.Countdown | App.tsx:60-78 | k ticks on a running countdown leave `timeLeft - k` while positive, then 0 with the animal revealed; nothing else changes |
| GameProperties.RevealedIsFrozen | App.tsx:61 | ticks on a revealed level change nothing |
| GameProperties.HintTiming | App.tsx:214-220 | on a loaded level with a full countdown, the hint is shown exactly from the 15th tick until the countdown runs out |
| GameProperties.RevealIdempotent | App.tsx:80-87 | two reveals in a row have the effect of the first |
| GameProperties.ScoreChanges | App.tsx:80-151 | the score changes only by a reveal (+1 for a correct guess on an unrevealed level) and by restart (to 0); ticks, level starts and both commits keep it |
| GameProperties.RestartResets | App.tsx:149-151 | restart returns to the landing view with index 0 and score 0 and keeps the rest |
| GameProperties.HomeThenPlayResumes | App.tsx:54-58 | home then play restarts the same level with the same score |
| GameProperties.BackNavigation | App.tsx:234-242 | back is possible exactly past the first level while nothing loads, and it begins the previous level |
| GameProperties.IndexStaysInRange | App.tsx:89-95 | from a reachable session, no event takes the index outside the animal list |
| Scenarios.AnsweredFetchSucceeds | services/geminiService.ts:41-84 | when every attempt answers with an image, each request is made once and the level loads that image twice |
| Scenarios.RefusedFetchFails | services/geminiService.ts:41-93 | when the skeleton request is refused with a 403, the living request is never made and the generic message is thrown |
| Scenarios.OneLevel | App.tsx:80-95 | one level played to the end begins the next level, or ends the game after the last; the score grows by one exactly when the button was used |
| Scenarios.RevealLevel | App.tsx:60-87 | once a level's images arrive, the button or the full countdown reveals the animal with nothing in flight, and the score grows by one exactly when the button was used |
| Scenarios.NextAfterReveal | App.tsx:89-95 | Next on a revealed level begins the following level with its one fetch in flight, or shows game over after the last, and keeps the score |
| Scenarios.Levels | App.tsx:80-95 | playing every remaining level ends on the game-over view with the score raised by the number of button reveals |
| Scenarios.FullGame | App.tsx:80-146 | a whole game from the start ends on the game-over view with the number of button reveals as its score |
| Scenarios.ZeroAndFullScores | App.tsx:144-146 | never pressing the button scores 0 of 15; pressing it on every level scores 15 of 15 |
| Scenarios.BackFromThree | App.tsx:237-238 | back from level index 3 issues a fetch for level 2 (LEÓN) and restarts the countdown |
| Scenarios.FailedLevelStillPlays | App.tsx:60-87 | after the first level's fetch fails, the error panel is shown with no images, yet the countdown runs (one tick leaves 29 seconds) and a correct guess reveals the animal and scores one point |
| Scenarios.LateSuccessKeepsError | App.tsx:36-50 | with two fetches in flight for one level, a failure then a success leave the error and both images set together |
| Scenarios.RevealThenNext | App.tsx:80-95 | on level 0, unrevealed and no longer loading with one fetch in flight, a correct guess adds one to the score and Next begins level 1 (loading, no error, no images, a 30-second countdown), with its fetch queued after the one still in flight for level 0 |
| Scenarios.LateImagesLandOnNextLevel | App.tsx:36-44 | a fetch issued for level 0 that settles on level 1 ends level 1's loading while level 1's own fetch is still in flight |

## Left out

- Rendering: all JSX, `components/Button.tsx` and `components/Icon.tsx`. These only present the state. Their effect is kept as which events are enabled in which state.
- The progress bar width (`App.tsx:269`). It is a floating-point percentage that nothing else reads.
- The image-model call. This covers the SDK client, the API key, the model name and image configuration, and the prompt text with `toLowerCase`. The model replaces it with attempt oracles chosen by the caller. Because of this, the animal name reaches the service only as the index recorded for each in-flight fetch.
- Timing. `setTimeout`, `sleep`, `setInterval` and effect scheduling are not modelled. Sleeps become returned delay lists. Each interval firing becomes one `TimerTick` event, enabled exactly while the interval runs.
- Races between an interval firing and a React state update are left out. So is the gap between the snapshot `handleReveal` reads and its update. Each event is applied atomically to the current state.
- Logging with `console.warn` and `console.error`.
- Non-Error thrown values. The service reads only `message` and `status`. A missing message reads as "". A thrown `undefined` is modelled as an error with an empty message and no status.
- An index outside the list. `ANIMALS_LIST[index]` would give `undefined`, reading `animal.name` would throw a `TypeError` (`App.tsx:38`), and the catch at `App.tsx:45` would turn it into the error state. The invariant shows that no fetch is ever issued for such an index.
- Images.GenerateAnimalImages: models only failures inside the `try` block (`services/geminiService.ts:41-85`). A throw from the client constructor (`services/geminiService.ts:34`, e.g. a missing API key) or from building the prompts (`services/geminiService.ts:38-39`) reaches `App.tsx` without being mapped to a user message; the game shows its fixed error text either way.
- The reveal button always passes `true` to `handleReveal`, so `PressReveal(false)` is an event the screen cannot produce. The model allows it, which over-approximates the interface; every property proved holds for both values.
- Floating-point powers. The model computes `Math.pow(2, i)` as an exact integer, which matches the floating-point result for the exponents the loop reaches.
