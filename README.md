# Lingo client core in Dafny

This project models the logic inside a small React language-learning client.
It covers four pieces:

- **The progress store of `App`.** It holds the experience grant, which adds
  XP to the running total and to today's slot of the seven-slot weekday
  histogram. It also derives the level and the level-progress figure, and it
  holds the two updates that append to the store: finishing a lesson
  (+100 XP) and mastering a word (+15 XP).
- **The lesson step controller of `App`.** It starts a lesson, checks
  answers by trimming, lower-casing and comparing exactly, then advances or
  finishes the lesson; the ✕ button cancels it.
- **The tutor send protocol of `ChatInterface`.** A guard refuses blank
  input and a second send while one is in flight. The user's message is
  appended at once. The grammar critique is attached unless it says
  "Excellent". Completion is all-or-nothing and grants 10 XP.
- **The vocabulary browser of `VocabSection`.** A fetch of three words
  replaces the list and stamps per-index ids. "Master" forwards the word to
  the progress store and filters it out by id. A strip shows the last five
  mastered words, newest first.

It also models the initial progress record and histogram (`constants.tsx`).
And it models the string handling of `decodeJwt`: it takes the payload
segment of a compact JWT (section 3 of RFC 7519) and maps the base64url
alphabet (section 5 of RFC 4648) to base64 (section 4).

Modules, one per source concern:

- `JsString` holds the JavaScript string operations the code relies on:
  `trim`, `toLowerCase`, `includes`, `split`, global `replace`, and decimal
  rendering in template literals.
- `Types` holds the records of `types.ts`.
- `Progress` holds the pure updaters of the progress store.
- `Constants` holds the initial state.
- `Jwt` holds the token handling.
- `App`, `ChatInterface` and `VocabSection` each pair a `class Component`
  with a pure part.
  - The class fields are the component's `useState` cells, and its methods
    are the handlers.
  - Each `async` handler is split at its `await` into a begin method and a
    complete method. The complete method takes a `Settled` outcome, either
    fulfilled with the gateway's result or rejected.
  - The `App` handlers are proved to follow pure transition functions on
    `AppState`, and the lesson properties are lemmas about those functions.

The gateway's results, the `Date.now()` readings and today's weekday key
(`toLocaleDateString('en-US', { weekday: 'short' })`) are parameters.

Behaviour the model keeps exactly as the code has it:

- `handleLearn` forwards the word to `onMasterWord` unconditionally, even
  when it is no longer listed.
- `startNewLesson` has no guard against a load already in flight. Only the
  disabled topic buttons prevent one.
- A failed lesson load has no `catch`: only the loading flag drops, and the
  previous lesson state stays.
- Finishing a lesson clears `activeLesson` but leaves the step index, the
  answer and the feedback as they were.
- A grant accepts any amount, negative ones included.

## Model

| member | source | states |
|---|---|---|
| Progress.Gain | App.tsx:67-74 | the total grows by exactly `amount`; the history becomes `AddToDay` of it; no other field changes |
| Progress.AddToDay | App.tsx:72 | the slot count stays; each slot keeps its key; each slot gains `amount` exactly when its key is today |
| Progress.GainWithoutTodaySlot | App.tsx:72 | when no slot carries today's key, the history is unchanged and only the total grows |
| Progress.GainKeepsDays | App.tsx:72 | a grant never changes the number, order or keys of the histogram slots |
| Progress.HistoryTotalAfterGain | App.tsx:72 | the histogram total grows by `amount` once per slot keyed today |
| Progress.DistinctDayCountIsOne | App.tsx:72 | with distinct keys, a key that is present labels exactly one slot |
| Progress.GainAdditive | App.tsx:67-74 | two grants on one day equal one grant of their sum |
| Progress.GainCommutes | App.tsx:67-74 | grants on any two days commute |
| Progress.GainNeverLowers | App.tsx:71-72 | a non-negative grant lowers neither the total nor any slot |
| Progress.Level | App.tsx:113 | `calculateLevel(xp)` is the level whose thousand-XP band `[1000(l-1), 1000l)` holds xp |
| Progress.JsRemainder1000 | App.tsx:115 | JS `%` by 1000: differs from xp by a multiple of 1000 and takes the sign of xp |
| Progress.LevelProgress | App.tsx:115 | `levelProgress` lies strictly between -100 and 100 and takes the sign of xp |
| Progress.LevelProgressBounds | App.tsx:113-115 | for xp ≥ 0 the level progress lies in [0, 100), and level and progress together recover xp |
| Progress.LevelMonotone | App.tsx:113 | more XP never gives a lower level |
| Progress.FinishLesson | App.tsx:106-107 | +100 XP through the gain rule, and the lesson id appended once with no duplicate check |
| Progress.MasterWord | App.tsx:197 | +15 XP through the gain rule, and the word appended once with no duplicate check |
| Jwt.Base64UrlToBase64 | App.tsx:16 | the two global replaces keep the length |
| Jwt.Base64UrlToBase64At | App.tsx:16 | the two replaces act position by position: '-' becomes '+', '_' becomes '/', and other characters stay |
| Jwt.PayloadBase64 | App.tsx:13-19 | the result is null exactly when the token has no '.' |
| Jwt.PayloadOfCompactToken | App.tsx:15-16 | for `header.payload.signature`, the translated payload segment is returned, whatever the signature |
| Jwt.PayloadTranslation | App.tsx:13-19 | no '.' yields null; otherwise the second segment has the same length, with only '-' and '_' rewritten |
| App.Normalize | App.tsx:94 | `trim().toLowerCase()` is no longer than its input, has no upper-case ASCII letter, and is empty exactly for all-whitespace input |
| App.AnswerMatches | App.tsx:94 | a step without an expected answer never matches |
| App.AnswerMatchesIff | App.tsx:94 | an answer is accepted exactly when its trim agrees with the trimmed expected answer character by character, up to case |
| App.ExpectedAnswerMatches | App.tsx:94 | the expected answer, padded with any whitespace, is accepted |
| App.AnyCaseAnswerMatches | App.tsx:94 | the expected answer in any mix of upper and lower case, padded with any whitespace, is accepted |
| App.AnswerTyped | App.tsx:155-162 | typing or picking an option sets the answer and changes nothing else |
| App.LessonRequested | App.tsx:77 | starting a lesson raises the loading flag and changes nothing else |
| App.LessonLoaded | App.tsx:78-86 | a generated lesson opens at step 0 with a blank answer and no feedback; a failure keeps the lesson state; the flag drops in both cases and progress is untouched |
| App.NextStep | App.tsx:89-111 | keeps the step index inside the lesson; never lowers experience; leaves the loading flag alone |
| App.Cancel | App.tsx:144 | ✕ drops the lesson; progress, step index, answer, feedback and loading flag all stay |
| App.NextStepWithoutLesson | App.tsx:90 | with no open lesson the handler changes nothing |
| App.WrongAnswerStays | App.tsx:93-98 | a mismatched answer on a quiz or practice step sets only the retry prompt |
| App.UnanswerableStepBlocks | App.tsx:93-98 | a checked step with no expected answer blocks every typed answer |
| App.CheckedStepMovesIffMatch | App.tsx:93-110 | on a checked step the controller moves on exactly when the normalized answers match |
| App.AcceptedStepAdvances | App.tsx:101-104 | an accepted non-last step moves to index+1 with a blank answer and no feedback; progress is untouched |
| App.LastStepFinishes | App.tsx:105-108 | accepting the last step closes the lesson, grants exactly 100 XP and appends the id once |
| App.InitialState | App.tsx:27-40 | the mounted state holds the default progress, no lesson and no load in flight |
| App.ThreeStepWalkthrough | App.tsx:89-111 | a three-step lesson: a padded correct answer passes, a wrong one gets the prompt and no XP, and the last step ends at 550 XP with one id |
| App.Component.constructor | App.tsx:27-40 | mounting gives the initial progress and no open lesson |
| App.Component.HandleExperienceGain | App.tsx:67-74 | only `progress` changes, to the gain of the old one |
| App.Component.StartNewLesson | App.tsx:76-79 | raises the loading flag and asks for a lesson in the learner's language and level on the topic |
| App.Component.StartNewLessonSettled | App.tsx:79-86 | the new state is `LessonLoaded` of the old one |
| App.Component.SetLessonAnswer | App.tsx:155 | the answer becomes the typed text or the picked option |
| App.Component.HandleNextStep | App.tsx:89-111 | the new state is `NextStep` of the old one, and the step index stays in range |
| App.Component.CloseLesson | App.tsx:144 | the new state is `Cancel` of the old one |
| App.Component.OnMasterWord | App.tsx:197 | progress becomes `MasterWord` of the old progress |
| ChatInterface.Transcript | components/ChatInterface.tsx:40 | one turn per message, in order, carrying its role and text |
| ChatInterface.GrammarCorrection | components/ChatInterface.tsx:48 | absent exactly when "Excellent" occurs in the analysis, case-sensitively; otherwise the analysis verbatim |
| ChatInterface.GrammarCorrectionDropsMarker | components/ChatInterface.tsx:48 | the marker anywhere in the analysis, whatever surrounds it, drops the correction |
| ChatInterface.GrammarCorrectionKeepsShort | components/ChatInterface.tsx:48 | an analysis shorter than the marker, including the empty one, is kept verbatim |
| ChatInterface.GrammarCorrectionIsCaseSensitive | components/ChatInterface.tsx:48 | an analysis with no capital 'E', lower-case "excellent" included, is kept verbatim |
| ChatInterface.Refused | components/ChatInterface.tsx:25 | a send is refused exactly when the input is all whitespace or a reply is awaited |
| ChatInterface.Component.constructor | components/ChatInterface.tsx:13-15 | empty transcript, empty input, not loading |
| ChatInterface.Component.SetInput | components/ChatInterface.tsx:119 | the input becomes the typed text |
| ChatInterface.Component.BeginSend | components/ChatInterface.tsx:24-42 | refused sends change nothing. An accepted send appends exactly one user message with the raw input, clears the input and raises the flag. The tutor gets the old transcript and the raw input. The transcript only grows |
| ChatInterface.Component.CompleteSend | components/ChatInterface.tsx:39-57 | on success, exactly one tutor message and exactly 10 XP; on failure, neither; the flag drops in both cases; the transcript only grows |
| ChatInterface.SendRoundTrip | components/ChatInterface.tsx:24-57 | a send, a refused second press and a successful completion add the user message and then the tutor message, plus 10 XP |
| VocabSection.VocabId | components/VocabSection.tsx:22 | the id starts with `vocab-`, and splitting the rest on '-' gives exactly the rendered clock reading and index |
| VocabSection.VocabIdInjective | components/VocabSection.tsx:22 | an id determines both its clock reading and its index |
| VocabSection.StampIds | components/VocabSection.tsx:20-23 | the batch keeps its order, length and fields; each id is overwritten with the template; the ids are pairwise distinct |
| VocabSection.RemoveById | components/VocabSection.tsx:38 | no kept entry has the id, and the list never grows |
| VocabSection.RemoveByIdConcat | components/VocabSection.tsx:38 | the filter keeps order, so filtering a concatenation concatenates the filtered parts |
| VocabSection.RemoveByIdKeeps | components/VocabSection.tsx:38 | every entry with another id is kept |
| VocabSection.RemoveByIdAbsent | components/VocabSection.tsx:38 | filtering by an id nobody has changes nothing |
| VocabSection.RemoveByIdUnique | components/VocabSection.tsx:38 | filtering by a unique id removes exactly that entry |
| VocabSection.Reverse | components/VocabSection.tsx:86 | `reverse()`: the same length, read back to front |
| VocabSection.RecentMastered | components/VocabSection.tsx:86 | at most five words, the newest first, and all of them when there are fewer |
| VocabSection.MasterSecondOfBatch | components/VocabSection.tsx:19-38 | mastering the second word of a stamped batch leaves the other two in order and grants the word and 15 XP |
| VocabSection.Component.constructor | components/VocabSection.tsx:13-14 | empty list, not loading |
| VocabSection.Component.BeginFetch | components/VocabSection.tsx:17-19 | raises the flag and asks for exactly 3 words |
| VocabSection.Component.CompleteFetch | components/VocabSection.tsx:19-29 | a batch replaces the list, stamped with distinct ids; a failure keeps the list; the flag drops in both cases |
| VocabSection.Component.HandleLearn | components/VocabSection.tsx:36-39 | the word goes to `onMasterWord` once, unconditionally; every entry with its id is dropped, in order |
| Constants.InitialProgress | constants.tsx:22-31 | the default record stamps the given date, holds the seeded histogram with distinct keys, and has nothing mastered or completed |
| Constants.InitialHistoryKeys | constants.tsx:12-20 | seven slots keyed Mon to Sun, in that order |
| Constants.InitialHistoryWellFormed | constants.tsx:12-20 | distinct keys, and no slot starts below zero |
| Constants.InitialProgressValues | constants.tsx:22-31 | Spanish, Beginner, streak 3, 450 XP (level 1 and 45% progress), and nothing mastered or completed |
| Constants.InitialGainReachesOneSlot | constants.tsx:12-31 | from the initial histogram, a grant on any weekday adds exactly `amount` to its total |
| JsString.TrimStartSpec | App.tsx:94 | `trimStart` drops exactly the leading whitespace |
| JsString.TrimEndSpec | App.tsx:94 | `trimEnd` drops exactly the trailing whitespace |
| JsString.TrimIsInfix | App.tsx:94 | the trimmed text is an infix with whitespace only around it |
| JsString.TrimEmptyIff | components/ChatInterface.tsx:25 | `trim()` is empty exactly when the text is all whitespace |
| JsString.TrimIdempotent | App.tsx:94 | trimming twice is trimming once |
| JsString.TrimIgnoresPadding | App.tsx:94 | whitespace padded around a text does not change its trim |
| JsString.Lower | App.tsx:94 | `toLowerCase` maps each character, keeping the length |
| JsString.LowerIdempotent | App.tsx:94 | lower-casing twice is lower-casing once |
| JsString.LowerEqualIff | App.tsx:94 | two strings lower-case to the same string exactly when they agree character by character up to case |
| JsString.TrimStartSameCase | App.tsx:94 | strings that agree up to case lose the same leading whitespace |
| JsString.TrimEndSameCase | App.tsx:94 | strings that agree up to case lose the same trailing whitespace |
| JsString.TrimSameCase | App.tsx:94 | `trim` keeps agreement up to case |
| JsString.ContainsIff | components/ChatInterface.tsx:48 | `includes` holds exactly when the needle occurs at some index |
| JsString.Split | App.tsx:15 | `split` returns at least one part, no part contains the separator, and there is a second part exactly when the separator occurs |
| JsString.SplitJoin | App.tsx:15 | joining the parts with the separator gives the text back |
| JsString.SplitWithoutSeparator | App.tsx:15 | a string without the separator splits into itself alone |
| JsString.SplitAfterPiece | App.tsx:15 | splitting a separator-free head, the separator and a rest gives the head followed by the rest's parts |
| JsString.ReplaceAllAt | App.tsx:16 | a global one-character replace acts position by position |
| JsString.Decimal | components/VocabSection.tsx:22 | a number renders as a non-empty string of digits |
| JsString.DecimalRoundTrip | components/VocabSection.tsx:22 | reading the rendered digits back gives the number |
| JsString.DecimalInjective | components/VocabSection.tsx:22 | different numbers render differently |

## Left out

- Rendering is not modelled. That covers all JSX, `Header.tsx` (display only) and `StatsPanel.tsx` (a chart and a floating-point "weekly best").
- `services/geminiService.ts` is not part of this model. It wraps a hosted language model and `JSON.parse`, so its results are parameters of the complete methods. A lesson's `id` is stamped there after parsing (services/geminiService.ts:49), so a loaded lesson carries whatever id it was given.
- `localStorage` persistence is I/O and is not modelled. Note that a corrupt saved snapshot makes `JSON.parse` throw at App.tsx:29 rather than fall back to the defaults.
- The Google Identity initialisation, `atob` and `JSON.parse` are foreign code. `Jwt` models only the segment split and the alphabet mapping, and no signature is checked.
- The clock and the weekday are parameters. `Date.now()` is read once per word when stamping ids, so `StampIds` takes one reading per word.
- The concurrency of `Promise.all` is not modelled. The begin/complete split captures the only ordering the handler exposes, and a rejection of either call is one `Rejected` outcome.
- `JsString.Trim`: JavaScript's `trim` strips all Unicode white space and line terminators. The model strips only ASCII space, tab, LF, CR, VT and FF.
- `JsString.Lower`: JavaScript's `toLowerCase` folds all of Unicode. The model folds only 'A' to 'Z'.
- `App.LessonLoaded`: a generated lesson must have at least one step, because the code indexes `steps[currentStepIdx]` unchecked (App.tsx:91, 148).
- `Progress.LevelProgress`: a `real`, not an IEEE double. Experience is an unbounded integer, so the loss of precision beyond 2^53 is not modelled.
- Not modelled because nothing uses them: the challenge state and `generateChallenge` (App.tsx:37-39).
- Not modelled because they hold only text: the `SYSTEM_PROMPTS` templates and `LANGUAGES`.
- Not modelled because they only report or display:
  - `alert` and `console.error`;
  - the chat's scroll effect.
- The language selector and the refetch effect on a language change (components/VocabSection.tsx:32-34) are not modelled; the effect only re-runs a fetch, which `BeginFetch` and `CompleteFetch` cover.
- The user record and the login, guest and logout flow are not modelled.
- The streak and `lastStudyDate` have no update rule: the code never changes them after the initial state, so the model only carries them along.
