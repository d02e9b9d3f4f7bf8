# Sankalpa habit logging, modelled in Dafny

Sankalpa is a voice-first habit log. A user says what they did ("walked 30 minutes, two
glasses of water"). The transcript goes to `/api/parse-habits`, where a language model
turns it into habits. Habits it is unsure of (confidence below 0.7) go back to the user
for confirmation; the rest are stored as rows of `habit_logs`. A follow-up prompt can
complete a log later through `/api/update-habit-log`. The home page shows a seven-day
summary with streaks and up to three nudges for streaks at risk.

This project models that core and proves what it promises:

| file | module | models |
|---|---|---|
| `text.dfy` | `Text` | JavaScript `trim`, ASCII `toLowerCase`, `\w`, `join`, and a string order standing in for `localeCompare` |
| `jsvalue.dfy` | `JsValue` | JavaScript values, `??`, truthiness, `Number()` and `String()` on the values the core meets |
| `habit_summary.dfy` | `HabitSummary` | `lib/habitSummary.js`: grouping, streaks, averages, the unit choice, sorting, the summary filter and the nudges |
| `parse_habits.dfy` | `ParseHabits` | `app/api/parse-habits/route.js`: the `POST` decision procedure, the reply clean-up, the confidence gate and `saveHabits` |
| `update_habit_log.dfy` | `UpdateHabitLog` | `app/api/update-habit-log/route.js`: validation, the payload and the one-row update of the table |
| `voice_button.dfy` | `VoiceButton` | `components/VoiceButton.js`: the `status`/`message` machine, `busy` and the label |
| `habit_confirm_card.dfy` | `HabitConfirmCard` | `components/HabitConfirmCard.js`: the habit-list line |
| `progressive_prompt.dfy` | `ProgressivePrompt` | `components/ProgressivePrompt.js`: the Done guard, trimming, Skip and the input kind |

Conventions:
- Calendar dates are integer day numbers. The day before `d` is `d - 1`.
- "Today", the start of the seven-day window and the day rows are dated are inputs.
- The session's user id, `nextAuthIdToUuid` (`keyOf`), the model's reply, `JSON.parse` (`jsonParse`) and the store's success or failure are inputs.
- Quantities are integers.
- `Math.round(sum / n)` for a non-negative count `n` is written as the integer nearest to the mean, with halves rounded up.
- Stateful code is written in the source's own form:
  - `countConsecutiveDaysFrom`, `mostFrequent`, and the two loops of `getHabitSummary` are methods with loops. Each is proved equal to a specification function, and the properties are proved about that function.
  - The `habit_logs` table in the update route is a class holding a map, with a `Patch` method.
  - The voice button and the follow-up prompt are classes whose fields are the component's state. Each event handler is a method.

Where the source and its documentation disagree, the model follows the source:
- The voice button has five statuses (`idle`, `recording`, `sending`, `success`, `error`). It has no confirmation or follow-up phases, and no `onSuccess` callback, although some of the project's tests exercise such phases.
- The transcript is posted as heard: neither trimmed nor checked for emptiness.
- `saveHabits` is returned from inside the `try` without `await`. A habit whose name is not a string therefore makes the request's promise reject instead of answering 500. The model keeps this as the `Rejected` response.

## Model

Functions that only define what the source computes (`VoiceButton.Next`, `VoiceButton.Busy`,
`ParseHabits.StripFences`, `ParseHabits.NeedsConfirmationOf`, `HabitConfirmCard.HabitList`,
`UpdateHabitLog.Applied`, `HabitSummary.Streak`, `HabitSummary.MostFrequent`,
`HabitSummary.UnitChoice`, `HabitSummary.AtRisk`, `HabitSummary.SortByName`,
`HabitSummary.SortByStreak`, `HabitSummary.Summarize`, `ProgressivePrompt.IsEmpty`) carry no
contract of their own; each row below names the lemma, method or function whose contract states
what they promise.

| member | source | states |
|---|---|---|
| `HabitSummary.CountConsecutiveDaysFrom` | lib/habitSummary.js:116-124 | the loop returns exactly the streak function's value: the number of consecutive logged days ending at `from` |
| `HabitSummary.StreakSpec` | lib/habitSummary.js:116-124 | the `k` days ending at `d` are all logged, the day before them is not, and the streak never exceeds the number of logged days |
| `HabitSummary.StreakUnique` | lib/habitSummary.js:116-124 | any run of logged days ending at `d` followed by an unlogged day has exactly the streak's length |
| `HabitSummary.RunSpec` | lib/habitSummary.js:116-124 | a run of `count` days ending at `d` holds exactly the days in `(d - count, d]` and has `count` elements |
| `HabitSummary.ThreeDayStreak` | lib/habitSummary.js:116-124 | three consecutive logged days ending today give a streak of 3 |
| `HabitSummary.MostFrequentScan` | lib/habitSummary.js:160-174 | the counting loop returns the specification's most frequent unit |
| `HabitSummary.MostFrequentIsMode` | lib/habitSummary.js:160-174 | there is no result exactly for an empty list; otherwise the result is in the list and occurs most often, and among equally frequent units it is the one whose count reaches the top first while scanning |
| `HabitSummary.FirstModeIndex` | lib/habitSummary.js:165-171 | the winner index is a maximum of the running counts, and it is the first index reaching that maximum |
| `HabitSummary.CountsOfSpec` | lib/habitSummary.js:162-167 | the counts map holds each unit's number of occurrences, and a missing key has none |
| `HabitSummary.RoundedMean` | lib/habitSummary.js:67-68 | the result is the mean rounded to the nearest integer, halves up |
| `HabitSummary.Average` | lib/habitSummary.js:67-69 | the average is null exactly when there are no quantities; otherwise it is the mean rounded to the nearest integer, halves up |
| `HabitSummary.AverageExample` | lib/habitSummary.js:67-69 | quantities 30 and 40 average to 35 |
| `HabitSummary.TitleCase` | lib/habitSummary.js:126-132 | the display name is the trimmed, lower-cased name title-cased: the same length, an upper-case letter exactly where that name has a letter starting a word (`\b\w`), every other character copied, and each character lower-casing back to the name's |
| `HabitSummary.CapitalizeSpec` | lib/habitSummary.js:126-132 | the word-start replacement on a lower-case string upper-cases exactly the letters that start a word and leaves every other character as it was |
| `HabitSummary.CapitalizeExample` | lib/habitSummary.js:126-132 | the word-start replacement turns "surya namaskar" into "Surya Namaskar" |
| `HabitSummary.TitleCaseExample` | lib/habitSummary.js:126-132 | "surya namaskar" is displayed as "Surya Namaskar" |
| `HabitSummary.TitleCaseLowersBack` | lib/habitSummary.js:126-132 | lower-casing the display name gives back the trimmed lower-case name, so only letter case changes |
| `HabitSummary.FormatUnit` | lib/habitSummary.js:154-158 | no unit or "" shows nothing; a unit whose trimmed lower-case form is in the table shows that form's entry, and any other unit shows its trimmed lower-case form |
| `HabitSummary.FormatUnitAbbreviates` | lib/habitSummary.js:134-158 | "Minutes" is shown as "min" |
| `HabitSummary.FormatUnitFallsBack` | lib/habitSummary.js:154-158 | "laps", which has no entry, is shown as itself |
| `HabitSummary.FormatUnitNormalises` | lib/habitSummary.js:154-158 | formatting a non-blank unit gives the same result as formatting its trimmed lower-case form |
| `Text.TrimLowerCommute` | lib/habitSummary.js:38 | trimming and lower-casing can be done in either order |
| `Text.NormalisedKeyIsFixed` | lib/habitSummary.js:38 | a normalised habit name is unchanged by normalising it again |
| `HabitSummary.BlankKeyAbsent` | lib/habitSummary.js:38-39 | no group is ever keyed by the empty name |
| `HabitSummary.GroupRows` | lib/habitSummary.js:35-60 | the grouping keeps the insertion order and the name table in step, with no repeated names |
| `HabitSummary.GroupRowsSpec` | lib/habitSummary.js:35-60 | the groups are exactly the non-blank normalised names, and each group matches an independent definition: its days are every logged day, and its count, quantities and units come from the window's rows in order |
| `HabitSummary.GroupsOfRows` | lib/habitSummary.js:35-65 | iterating the groups visits each name's group, and every name's group is visited |
| `HabitSummary.GroupLogs` | lib/habitSummary.js:35-60 | the grouping loop builds the specification's group table |
| `HabitSummary.AddLog` | lib/habitSummary.js:37-59 | one iteration of the grouping loop is one step of the specification's grouping |
| `HabitSummary.ExtendLog` | lib/habitSummary.js:49-58 | the updates to one group are those of the specification's step |
| `HabitSummary.UnitChoiceIsMostFrequent` | lib/habitSummary.js:70 | with no empty units the chosen unit is the most frequent one, and there is none only for an empty list |
| `HabitSummary.EntryOf` | lib/habitSummary.js:66-88 | an entry carries its group's name, title-cased display name and count; it is logged today exactly when today is a logged day, and its streak is then the streak up to today and otherwise 0; its average is the rounded mean of the quantities, null exactly when there are none; with no empty unit its unit is the most frequent one; its unit display is the formatted unit |
| `HabitSummary.UnitsNonEmpty` | lib/habitSummary.js:56-57 | every unit a group collects is non-empty, since only non-blank units are pushed, trimmed and lower-cased |
| `HabitSummary.EntryUnitIsMostFrequent` | lib/habitSummary.js:56-70 | a habit's entry unit is the most frequent unit among its rows in the window |
| `HabitSummary.SummarizeGroup` | lib/habitSummary.js:65-96 | the loop body produces the specification's entry, and a nudge exactly when the habit is at risk |
| `HabitSummary.SummarizeGroups` | lib/habitSummary.js:62-97 | the loop produces the specification's entries and at-risk nudges, in group order |
| `HabitSummary.EntriesMembers` | lib/habitSummary.js:79-88 | every group contributes its entry, and every entry comes from its own group |
| `HabitSummary.AtRiskNudgesMembers` | lib/habitSummary.js:90-96 | a nudge is produced for a group exactly when its streak up to yesterday is at least 2 and it is not logged today |
| `HabitSummary.TwoDayStreakAtRisk` | lib/habitSummary.js:90-96 | a habit logged on the two previous days but not today is at risk, with streak 2 |
| `HabitSummary.SortByNameSpec` | lib/habitSummary.js:99 | sorting by name yields a name-ordered permutation of the entries |
| `HabitSummary.InsertByNameStrict` | lib/habitSummary.js:99 | inserting an entry with a new name into a list with strictly ascending names keeps them strictly ascending |
| `HabitSummary.SortByNameStrict` | lib/habitSummary.js:99 | sorting entries with distinct names makes the names strictly ascending |
| `HabitSummary.InsertByNameSpec` | lib/habitSummary.js:99 | inserting into a name-ordered list keeps it ordered and adds exactly that entry |
| `Text.LessTotal` | lib/habitSummary.js:99 | any two different names are ordered one way or the other |
| `Text.LessTransitive` | lib/habitSummary.js:99 | the name order is transitive |
| `HabitSummary.Logged` | lib/habitSummary.js:101 | the filter keeps exactly the entries with a positive count, and a name-sorted list stays name-sorted |
| `HabitSummary.LoggedKeepsOrder` | lib/habitSummary.js:101 | what the filter keeps is a subsequence of its input: the entries stay in their original order |
| `HabitSummary.LoggedStrict` | lib/habitSummary.js:101 | the filter keeps the names strictly ascending |
| `HabitSummary.SortByStreakSpec` | lib/habitSummary.js:103-104 | sorting the nudges yields a permutation in non-increasing streak order |
| `HabitSummary.InsertByStreakSpec` | lib/habitSummary.js:103-104 | inserting into a streak-ordered list keeps it ordered and adds exactly that nudge |
| `HabitSummary.Take` | lib/habitSummary.js:105 | `slice(0, 3)` keeps a prefix of at most 3 nudges, and exactly 3 when there are more |
| `HabitSummary.TakeKeepsLongest` | lib/habitSummary.js:103-105 | a nudge left out of the top three sees three kept nudges, none with a shorter streak |
| `HabitSummary.CappedNudges` | lib/habitSummary.js:103-105 | at most three nudges, in streak order, all at risk; every at-risk nudge is kept unless three with at least its streak are |
| `HabitSummary.HabitSummaryOf` | lib/habitSummary.js:32-33 | a store error is thrown, no rows give an empty summary, and otherwise a summary is returned |
| `HabitSummary.EntriesOfRows` | lib/habitSummary.js:35-88 | before sorting and filtering there is an entry for every non-blank name, computed from that name's group, and no other entry |
| `HabitSummary.SummaryEntries` | lib/habitSummary.js:35-101 | the summary is in name order and holds exactly the entries of the habits logged in the window, each computed from that habit's group and carrying the most frequent unit of its window rows (one per habit: `SummaryNamesAscend`) |
| `HabitSummary.SummaryNamesAscend` | lib/habitSummary.js:35-101 | the grouping gives each habit one group, so the sorted, filtered summary has strictly ascending names |
| `HabitSummary.NudgeRules` | lib/habitSummary.js:90-105 | at most three nudges, longest streak first, each for an at-risk habit; an at-risk habit is left out only when three nudges with streaks at least as long are shown |
| `HabitSummary.GetHabitSummary` | lib/habitSummary.js:24-107 | the whole procedure returns the specification's outcome |
| `JsValue.StringToNumber` | app/api/update-habit-log/route.js:25 | `Number` of a blank string is 0 |
| `JsValue.NumberIgnoresPadding` | app/api/update-habit-log/route.js:25 | white space around a numeric string does not change its number |
| `JsValue.NumberOfDecimalString` | app/api/update-habit-log/route.js:25 | `Number(String(n))` is `n` for every integer |
| `Text.Trim` | app/api/parse-habits/route.js:34 | the trimmed string has neither end blank and is empty exactly when the input is all white space |
| `Text.TrimIsInfix` | app/api/parse-habits/route.js:34 | the trimmed string is the input with a blank prefix and a blank suffix removed |
| `Text.TrimIgnoresPadding` | app/api/parse-habits/route.js:34 | white space added around a string does not change its trimmed form |
| `Text.TrimIdempotent` | app/api/parse-habits/route.js:34 | trimming twice is trimming once |
| `ParseHabits.WordRun` | app/api/parse-habits/route.js:140 | `\w*` matches the longest word-character prefix: the next character, if any, is not one |
| `ParseHabits.StripFencedBlock` | app/api/parse-habits/route.js:140 | a fenced block with a language tag gives back exactly its trimmed body |
| `ParseHabits.StripUnfenced` | app/api/parse-habits/route.js:140 | text with no fence at either end is only trimmed |
| `ParseHabits.Normalise` | app/api/parse-habits/route.js:144-150 | the name is `habit_name`, else `name`, else ""; the quantity and the unit are passed through, null or undefined becoming null; a numeric confidence is kept and a missing one is 1.0 |
| `ParseHabits.ParseReply` | app/api/parse-habits/route.js:130-150 | habits result exactly for an answered, non-blank reply whose cleaned text parses as an array, and they are that array's elements normalised one for one |
| `ParseHabits.GateThreshold` | app/api/parse-habits/route.js:58 | the gate stays shut exactly when every confidence is at least 0.7, so exactly 0.7 saves |
| `ParseHabits.MissingConfidenceIsConfident` | app/api/parse-habits/route.js:148-149 | an element without a numeric confidence never opens the gate |
| `ParseHabits.UnitColumn` | app/api/parse-habits/route.js:84 | the stored unit is null exactly when the unit is missing or blank, and is otherwise the trimmed `String(unit)`, which is non-empty |
| `ParseHabits.InsertRowsSpec` | app/api/parse-habits/route.js:80-88 | one row per habit, in order, with the caller's id, today's date, the transcript, the trimmed name, the coerced quantity, the cleaned unit, and completion exactly when a quantity other than "" was given |
| `ParseHabits.NumericStringQuantity` | app/api/parse-habits/route.js:83-87 | a quantity "8" is stored as 8 and completes the log |
| `ParseHabits.EmptyAndZeroQuantity` | app/api/parse-habits/route.js:83-87 | "" is stored as 0 without completing; 0 completes; null stores nothing and does not complete |
| `ParseHabits.Save` | app/api/parse-habits/route.js:76-101 | a non-string name rejects the request; a failed insert answers 500 with nothing stored; otherwise the inserted rows are returned |
| `ParseHabits.Post` | app/api/parse-habits/route.js:26-68 | no session user answers 401 with nothing stored; rows are stored only by a successful save that returns them; a confirmation request stores nothing |
| `ParseHabits.VoiceInputRequired` | app/api/parse-habits/route.js:33-37 | after the session check, a missing, non-string or blank `voiceInput` answers 400 |
| `ParseHabits.InsertedRowsCarryRequest` | app/api/parse-habits/route.js:77-86 | every stored row belongs to the caller's derived id, is dated today and carries the non-empty trimmed transcript |
| `ParseHabits.ConfirmedPath` | app/api/parse-habits/route.js:40-49 | a confirmed request never depends on the model's reply; without habits it answers 400, and with habits it saves them without the gate |
| `ParseHabits.ParsePath` | app/api/parse-habits/route.js:52-63 | a parse failure answers 500 and an empty array 422; a confirmation is asked exactly when some confidence is below 0.7, echoing the habits and storing nothing; otherwise the habits are saved |
| `UpdateHabitLog.Validate` | app/api/update-habit-log/route.js:13-39 | an update is decided exactly for a session user, a non-empty string id and a quantity that is present and numeric; the payload carries `Number(quantity)` and the trimmed unit, or null when it is missing or blank; otherwise 401, a 500 for a body that is not JSON, 400 "id required" or 400 "quantity required…", in that order |
| `UpdateHabitLog.ValidateCoerces` | app/api/update-habit-log/route.js:25-39 | a quantity "42" becomes 42, and a blank unit becomes null |
| `UpdateHabitLog.BlankQuantityIsZero` | app/api/update-habit-log/route.js:25-31 | a blank quantity passes as 0, while a missing quantity or a word is refused |
| `UpdateHabitLog.Completed` | app/api/update-habit-log/route.js:37-41 | the updated row has the new quantity and unit and is complete; its owner, name, date, transcript and deletion flag are kept |
| `UpdateHabitLog.AppliedChangesOneRow` | app/api/update-habit-log/route.js:35-44 | the update keeps every row id, changes no row but `id`, and changes that one only when it is the caller's and not deleted |
| `UpdateHabitLog.AppliedIdempotent` | app/api/update-habit-log/route.js:35-44 | repeating the same update changes nothing more |
| `UpdateHabitLog.LogTable.Patch` | app/api/update-habit-log/route.js:11-62 | a refused request or a store error leaves the table unchanged; otherwise the matching row is updated and the answer is 200, or 404 when no row matches |
| `VoiceButton.ErrorText` | components/VoiceButton.js:28 | the server's non-empty error is shown, else "Something went wrong." |
| `VoiceButton.SpeechErrorText` | components/VoiceButton.js:61-65 | "Microphone access denied." is shown exactly for `not-allowed`, and "Voice recognition failed. Try again." for every other code |
| `VoiceButton.Label` | components/VoiceButton.js:81-92 | the label is "Listening…" while recording, "Saving…" while sending, and "Tell me" exactly when the button is not busy |
| `VoiceButton.NextConsistent` | components/VoiceButton.js:16-75 | every event keeps the rule that success shows "✨ Logged." and an error shows a message |
| `VoiceButton.RunConsistent` | components/VoiceButton.js:13-75 | every state reachable from the initial one obeys that rule |
| `VoiceButton.RunPostsTranscripts` | components/VoiceButton.js:16-56 | the transcripts posted are exactly those heard, in order and unchanged |
| `VoiceButton.BusyDuringRequest` | components/VoiceButton.js:17-88 | a transcript makes the button busy with no message; an answer, a failed request or a speech error make it not busy; a click makes it busy exactly when speech recognition is supported |
| `VoiceButton.EndedOnlyStopsRecording` | components/VoiceButton.js:68-70 | the end event turns recording into idle and changes nothing else |
| `VoiceButton.Button.constructor` | components/VoiceButton.js:13-14 | the button starts idle with no message and nothing posted |
| `VoiceButton.Button.StartRecording` | components/VoiceButton.js:39-75 | a click records with a cleared message, or shows the "not supported" error |
| `VoiceButton.Button.OnStart` | components/VoiceButton.js:51 | the start event sets recording |
| `VoiceButton.Button.OnResult` | components/VoiceButton.js:16-24 | a transcript sets sending, clears the message and posts the transcript |
| `VoiceButton.Button.OnResponse` | components/VoiceButton.js:25-32 | a non-ok answer shows the error, and an ok one shows success |
| `VoiceButton.Button.OnRequestFailed` | components/VoiceButton.js:33-36 | a thrown request shows "Could not save. Try again." |
| `VoiceButton.Button.OnError` | components/VoiceButton.js:58-66 | a speech error shows the message for its code |
| `VoiceButton.Button.OnEnd` | components/VoiceButton.js:68-70 | the end event turns recording into idle |
| `HabitConfirmCard.JoinPart` | components/HabitConfirmCard.js:14 | the join writes a null or undefined element as the empty string and any other element as its string |
| `HabitConfirmCard.EntryText` | components/HabitConfirmCard.js:9-14 | with a quantity and a truthy unit the entry is `name (q unit)`, with a quantity only `name (q)` (a missing name reads "null" or "undefined" there), and without a quantity it is the name as the join writes it, so "" for a missing name; a present name starts the entry, which is the bare name exactly when there is no quantity |
| `HabitConfirmCard.MissingName` | components/HabitConfirmCard.js:9-14 | a habit with neither name nor quantity is an empty entry, and a missing name with quantity 8 shows as "null (8)" |
| `HabitConfirmCard.HabitListShort` | components/HabitConfirmCard.js:8-14 | no habits give "", and one habit gives its entry |
| `HabitConfirmCard.HabitListSnoc` | components/HabitConfirmCard.js:8-14 | a further habit appends ", " and its entry |
| `HabitConfirmCard.HabitListLength` | components/HabitConfirmCard.js:8-14 | n entries are joined by n − 1 separators |
| `Text.JoinLength` | components/HabitConfirmCard.js:14 | a join of n parts has n − 1 separators |
| `HabitConfirmCard.ZeroQuantityShown` | components/HabitConfirmCard.js:10-11 | a quantity of 0 is shown |
| `HabitConfirmCard.EmptyUnitDropped` | components/HabitConfirmCard.js:10-11 | an empty unit shows the quantity alone |
| `HabitConfirmCard.UnitNeedsQuantity` | components/HabitConfirmCard.js:12 | without a quantity the unit is not shown |
| `HabitConfirmCard.QuantityAndUnitShown` | components/HabitConfirmCard.js:10 | a quantity and a unit are shown together |
| `ProgressivePrompt.IsEmptyIffBlank` | components/ProgressivePrompt.js:15-22 | the prompt is empty exactly when the value is all white space, and it starts empty |
| `ProgressivePrompt.DoneSubmission` | components/ProgressivePrompt.js:17-20 | Done submits nothing exactly for a blank value; otherwise it submits `value.trim()`, which is non-empty, and `unit ?? null` |
| `ProgressivePrompt.DoneIgnoresPadding` | components/ProgressivePrompt.js:17-20 | white space around the value changes nothing about Done |
| `ProgressivePrompt.InputKindOf` | components/ProgressivePrompt.js:30-50 | the number input is shown exactly for a truthy unit |
| `ProgressivePrompt.Prompt.constructor` | components/ProgressivePrompt.js:15 | the value starts as "", so Done starts disabled |
| `ProgressivePrompt.Prompt.Change` | components/ProgressivePrompt.js:36-46 | typing replaces the value and calls nothing |
| `ProgressivePrompt.Prompt.Done` | components/ProgressivePrompt.js:17-20 | a blank value calls nothing; otherwise `onSubmit` is called once with the specification's submission |
| `ProgressivePrompt.Prompt.Skip` | components/ProgressivePrompt.js:61-64 | Skip calls `onSkip` once, whatever the value |

## Left out

- Dates are day numbers. ISO date strings, `Date` arithmetic, time zones and the clock are not modelled. Today and the summary window's first day are inputs.
- The query in `getHabitSummary` (owner filter, deletion filter, 30-day cut-off, order by date) is not modelled. The rows it returns are an input.
- Quantities are integers. Fractions, exponents, hexadecimal literals and `Infinity` are not modelled in `Number()`; such strings are NaN in the model. `Number()` of a value other than a string, number, boolean, null or undefined is not modelled.
- Case mapping is ASCII only: `toLowerCase` and `toUpperCase` leave letters outside ASCII unchanged in the model.
- `localeCompare` is replaced by code-point order.
- `UNIT_DISPLAY_MAP` is looked up as a plain table. Keys inherited from `Object.prototype` (such as `constructor`) are not modelled.
- The HTTP call to the language model, its system prompt file, `JSON.parse` and the database client are not modelled. Their results are inputs.
- An element of the model's array that is not an object is not modelled. Nor is a confirmed habit that is not an object. Either makes the handler throw on property access.
- The ids and columns the database returns after an insert are not modelled. A successful save returns the inserted rows.
- `.single()` in the update route reports an error when no row, or more than one row, matches. The model answers 404 when nothing matches, as the handler's own branch does.
- The model assumes a store error writes nothing.
- `VoiceUnsupportedFallback` is used by `components/VoiceButton.js` but not defined in it, so it is not part of this model.
- The rendering of the components is not modelled, except the label, the disabled flags and the input kind. Neither are React's asynchronous state updates. The recognition's settings are not modelled either.
- `HabitSummary.SortByStreakSpec`: does not state that nudges with equal streaks keep their order. JavaScript's stable `sort` keeps that order, and `SortByStreak` is a stable insertion sort, but only sortedness and permutation are proved.
- `HabitSummary.SortByNameSpec`: states the order and the permutation, but not stability. Names are unique after grouping, so stability has nothing to add.
- `HabitSummary.MostFrequentIsMode`: states the tie rule in terms of running counts, which is what the loop does. It does not state "the first to appear in the list", which is not what the loop does.
- `ParseHabits.Post`: a request body that is not JSON is modelled as a 500 from the `catch`. The actual error raised by `request.json()` is not modelled.
