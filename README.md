# LuyenTapMaster exam engine in Dafny

LuyenTapMaster is a practice and test application for school mathematics. A
teacher or student loads a JSON file of questions, the upload screen
normalizes every record into a `Question`, and the application then runs one
of two exam kinds:

- a *custom* (practice) exam, filtered by difficulty and type;
- a *standard* test, split 50/30/20 over the recall (NB), comprehension (TH)
  and application (VD, VDC) tiers.

The student answers on the exam screen, which has a countdown. The result
screen counts the right multiple-choice answers, shows a score out of 10 and a
verdict, and explains each question. A teacher's dashboard composes an exam
from a four-tier matrix and exports it as a JSON file. A login form checks the
student's name and class.

This project models that engine. There is one module per source file:

| module | source file | what it holds |
|---|---|---|
| `Types` | `types.ts` | the data types and the label tables |
| `Utils` | `utils.ts` | the shuffle, the clock format and the record normalizer |
| `App` | `App.tsx` | the screen-state machine and exam composition |
| `ExamConfigView` | `components/ExamConfigView.tsx` | the configuration screen |
| `AdminDashboard` | `components/AdminDashboard.tsx` | the teacher's dashboard |
| `ExamRunner` | `components/ExamRunner.tsx` | the exam screen |
| `ResultView` | `components/ResultView.tsx` | the result screen |
| `LoginView` | `components/LoginView.tsx` | the login form |

Five helper modules model the JavaScript semantics these files rely on, each
stated for whole numbers and strings:

- `Json`: parsed JSON values, property access, truthiness, `String(...)` and
  `String.fromCharCode`.
- `JsStrings`: `trim` over the white-space set of `\s`, `replace` of the first
  match, ASCII `toUpperCase`, number printing and `padStart`.
- `JsMath`: `Math.round` and `Math.floor` of the decimal factors.
- `Seqs`: `filter` and `slice`.
- `Pool`: the difficulty buckets.

State that React keeps with `useState` becomes a class with those fields:

- `App.AppState`, `ExamConfigView.ConfigView`, `AdminDashboard.Dashboard`,
  `ExamRunner.Runner`, `ResultView.ResultPanel` and `LoginView.LoginForm`.
- Each handler is a method. Its `modifies this` and its `ensures` give the
  whole new state.
- The values the handlers compute are functions, and lemmas state what the
  source promises about them.

Two loops keep their imperative form, each proved against a specification
function:

- `Utils.ShuffleArray` (the Fisher-Yates `for` loop over a copied array);
- `ResultView.CountCorrect` (the `forEach` counter).

The environment enters as parameters:

- `Math.random` is a sequence of drawn swap partners per shuffle, bounded as
  `Math.floor(Math.random() * (i + 1))` bounds them (`Utils.SwapsFor`).
- `Date.now()` is a number passed in, and the export's creation stamp is a
  string passed in.

Where the code and the application's documented behaviour disagree, the
model follows the code:

- Scoring is case-sensitive ("a" does not score for "A"). See
  `ResultView.ScoringExamples`.
- The standard exam is reshuffled after the three tier picks, not ordered by
  tier.
- No result history is stored anywhere in the code, so none is modelled.
- `ExamConfig.questionTypes` is declared as an array in `types.ts`, but every
  reader and writer uses a scalar `questionType`. The model has the scalar.
- `UserInfo` is imported by `LoginView.tsx` but not declared in `types.ts`. Its
  shape here is the object literal `LoginView.tsx` passes to `onLogin`.

Three places where the code evidently does not do what its authors meant
are listed under "## Findings". Each is modelled twice: once as written,
and once corrected. The rest of the model uses the corrected side:

- `Utils.NormalizeQuestion` uses the corrected difficulty lookup
  `Utils.NormalizeDifficulty`; `Utils.DifficultyAsWritten` is the lookup as
  written.
- `ExamRunner.Runner.Tick` hands in the current answers and the whole duration
  when time runs out; `ExamRunner.TimeoutSubmissionAsWritten` is what the
  screen as written hands in (no answers, no time spent).
- `AdminDashboard.Dashboard.HandleMatrixChange` keeps the hand-edited entry,
  and the dashboard has no method for the effect on the total; that effect is
  modelled only by `AdminDashboard.MatrixAfterEditAsWritten`.

`App.tsx` wires the screens together in ways the model keeps as written:

- It passes no `mode` to the exam screen, so the practice-mode lock and the
  coloured sidebar never apply. `ExamRunner.Runner` takes an `Option<Mode>`
  and `App` would pass `None`.
- It ignores the time spent that the exam screen reports.
- It connects the result screen's home button to `handleConfigReset`, so
  `handleHome` is unused. `App.AppState.HandleHome` is modelled all the same.

## Model

| member | source | states |
|---|---|---|
| Types.DifficultyCodeInjective | types.ts:2 | the four difficulty codes are distinct, so a code names one tier |
| Types.DifficultyLabelsKeys | types.ts:32-38 | the difficulty label table has an entry for every tier code plus ALL, and no other key |
| Types.TypeLabelsKeys | types.ts:40-46 | the type label table has an entry for every question type plus ALL, and no other key |
| Utils.Swap | utils.ts:8 | the destructuring swap exchanges positions i and j, keeps every other position, and keeps the multiset |
| Utils.ShufflePasses | utils.ts:6-9 | the loop passes from i down to 1 keep the length and the multiset of the list |
| Utils.Shuffle | utils.ts:4-11 | the shuffle of a list is a permutation of it: same length, same multiset |
| Utils.ShuffleArray | utils.ts:4-11 | the in-place loop over a copy returns the specified shuffle for the drawn partners, a permutation of the input; the argument is a value and so stays unchanged |
| Utils.ShufflePassesIdentity | utils.ts:6-9 | when every position draws itself as its partner, the passes leave the list unchanged |
| Utils.IdentityPass | utils.ts:7-8 | a pass whose drawn partner is its own position changes nothing |
| Utils.SwapSelf | utils.ts:8 | swapping a position with itself is the identity |
| Utils.ShuffleIdentity | utils.ts:4-11 | the shuffle with all-identity draws returns the list unchanged |
| Utils.ShuffleDistinct | utils.ts:4-11 | a shuffle of a duplicate-free list is duplicate-free |
| Utils.JsRem | utils.ts:15 | JavaScript's `%` by a positive divisor: the remainder lies in 0..b-1 for a non-negative dividend and in -(b-1)..0 for a negative one |
| Utils.JsRemReconstructs | utils.ts:15 | the truncated quotient times b plus the JavaScript remainder gives back the dividend |
| Utils.FormatTime | utils.ts:13-17 | for a time that is not negative the clock ends in a colon and two characters; below 6000 seconds it is exactly five characters, "mm:ss" |
| Utils.FormatTimeReadsBack | utils.ts:13-17 | for t >= 0 the clock is digits, a colon and two digits; the seconds read below 60, and minutes * 60 + seconds reads back as t |
| Utils.ClockParts | utils.ts:16 | the minutes and seconds pieces can be read back off "mm:ss" |
| Utils.PaddedValue | utils.ts:16 | padding with leading zeros keeps a digit string a digit string with the same value |
| Utils.FormatTimeNegative | utils.ts:13-17 | a negative time is not clamped: -5 seconds shows as "-1:-5" |
| Utils.SignedDigit | utils.ts:16 | a negative one-digit number prints as a minus and its digit, already two wide, so padStart adds nothing |
| Utils.MapKeysNotInherited | utils.ts:19-28 | none of the eight keys of the difficulty table is a name every object inherits |
| Utils.DifficultyAsWritten | utils.ts:56-57 | the lookup as written yields an inherited value exactly when the key is a name every object inherits |
| Utils.DifficultyAsWrittenLeaks | utils.ts:56-57 | a record whose difficulty is "constructor" or "toString" gets no tier at all |
| Utils.NormalizeDifficulty | utils.ts:56-57 | a key of the table gives that table entry; a missing, falsy or unknown value gives NB |
| Utils.NormalizeDifficultyAgrees | utils.ts:56-57 | the corrected lookup agrees with the written one wherever the written one yields a tier, and gives NB where it leaks |
| Utils.DifficultyReadsBack | utils.ts:19-28 | every tier is read back from its code and from its Vietnamese label; a missing or empty difficulty gives NB |
| Utils.SelectRecords | utils.ts:31-38 | a bare array is used as is, an object's array `questions` field is used, and anything else gives no records |
| Utils.FirstTruthy | utils.ts:75 | the `a or b or ...` chain gives the first truthy field in key order; it gives nothing iff no listed field is truthy |
| Utils.FieldChain | utils.ts:75-79 | `a or b or ... or ''` gives the value of the first truthy field, kept as read, and the empty string when no field is truthy |
| Utils.ObjectOption | utils.ts:46-48 | an object option is written "ID. Content": without a truthy id it starts with the letter of its position and ". ", a text id is its prefix, and a text content its suffix |
| Utils.NormalizeOptions | utils.ts:43-53 | a non-array gives no options; an array whose first entry is not object-typed is kept as it is; otherwise as many texts as entries; the mapping fails iff the first entry is object-typed and some entry is null or has an id or content that cannot be converted to text |
| Utils.OptionTexts | utils.ts:44-52 | object options become the "ID. Content" texts with the id defaulting to the letter of the position; other arrays are kept unchanged, entries included |
| Utils.NormalizeCorrectAnswer | utils.ts:64-72 | a numeric correctOptionId gives one letter; a string one is used as is; with neither correctOptionId nor correctAnswer present and non-null, the answer is "" |
| Utils.CorrectAnswerPrecedence | utils.ts:64-72 | a string correctOptionId is used as is; a numeric one k gives the letter 65+k; without one, a non-null correctAnswer is `String` of it |
| Utils.TypeTagOf | utils.ts:80 | one of the four type codes is read as that type and any other value is kept as read |
| Utils.NormalizeQuestion | utils.ts:40-86 | a record yields a question unless it throws: it is null, an object-format option throws, or the difficulty key, the correct answer or the id is an object with its own `toString` (or an array holding one), which `String` cannot convert; the id is String(id) when truthy and "q-" and the index otherwise; the content is the truthy `content`, else the truthy `text`, else "", kept as read; the type defaults to MCQ; difficulty, options, correct answer and explanation are as their own functions give them |
| Utils.NormalizeQuestions | utils.ts:30-87 | the output has one question per selected record, the k-th normalized at index k; it fails iff some record makes the mapping throw |
| Utils.OwnToStringThrows | utils.ts:78 | a record whose id is an object with its own `toString` makes the whole file fail to load |
| Utils.DefaultIdsDistinct | utils.ts:78 | a record without a truthy id gets "q-" and its position, so two such records never share an id |
| Utils.CorrectOptionIdNamesOption | utils.ts:46-48 | a numeric correctOptionId k names option k: that option's text starts with the same letter and ". " |
| App.StandardQuotas | App.tsx:44-46 | the three quotas are the rounded 50% and 30% shares and the remainder; they sum to the limit and are non-negative for a non-negative limit |
| App.TakeShuffled | App.tsx:48-50 | a shuffled bucket cut to k has the length `slice(0, k)` gives and holds only questions of the bucket |
| App.StandardPicksShape | App.tsx:48-50 | each tier pick holds only its tier, has length min(quota, bucket size), and all three together come from the pool |
| App.StandardExamComposition | App.tsx:42-52 | the standard exam is a permutation of the three picks, comes from the pool, has the picks' tier counts, has `limit` questions when every bucket fills its quota, and has no duplicates when the pool has none |
| App.StandardExamTiers | App.tsx:52 | the reshuffled exam has as many questions of each tier as that tier's pick |
| App.StandardExamLength | App.tsx:44-52 | when every bucket can fill its quota, the standard exam has exactly `limit` questions |
| App.TierCountsIn | App.tsx:52 | a rearrangement of the three picks has each pick's size as its tier count |
| App.CountOneBucket | App.tsx:52 | in a rearrangement of three lists, filtering for one list's test counts that list |
| App.StandardExam | App.tsx:42-52 | the standard exam has the length and the multiset of the three picks joined |
| App.CustomExamComposition | App.tsx:55-60 | a custom exam holds only pool questions matching both filters, min(limit, matches) of them, with no duplicates when the pool has none |
| App.CustomExam | App.tsx:55-60 | the custom exam has min(limit, matches) questions, all drawn from the matching questions |
| App.CustomAllIsPermutation | App.tsx:55-60 | with both filters ALL and a limit no smaller than the bank, the custom exam is the whole bank in a new order |
| App.ComposeExam | App.tsx:39-61 | in either mode the exam is drawn from the bank, has no duplicates when the bank has none, and in custom mode holds only questions matching both filters |
| App.TimeSpentSeconds | App.tsx:102-104 | the floor of the elapsed milliseconds over 1000 when both time stamps are set and non-zero, otherwise 0 |
| App.TimeSpentNonNegative | App.tsx:102-104 | a clock that does not run backward gives a time spent between 0 and the elapsed seconds |
| App.AppState.constructor | App.tsx:10-24 | the upload screen, no questions or answers, no time stamps, and a custom configuration of 20 questions in 30 minutes |
| App.AppState.HandleDataLoaded | App.tsx:26-37 | goes to CONFIG with the new bank and clears the active questions, answers and time stamps; the configuration is kept |
| App.AppState.HandleStartExam | App.tsx:39-71 | goes to RUNNING with the composed exam, the given configuration, a start time and no answers; the bank and end time are kept |
| App.AppState.HandleCompleteExam | App.tsx:73-80 | goes to RESULT with the submitted answers and the end time; everything else is kept |
| App.AppState.HandleRetry | App.tsx:82-85 | starts again with the stored configuration and fresh draws |
| App.AppState.HandleHome | App.tsx:87-95 | goes to UPLOAD with the bank, the exam and the answers cleared; time stamps and configuration are kept |
| App.AppState.HandleConfigReset | App.tsx:97-99 | changes only the status, to CONFIG |
| App.AppState.TimeSpent | App.tsx:102-104 | the seconds between start and end, never negative and never more than the elapsed time; 0 when a time stamp is missing |
| ExamConfigView.PresetsWellFormed | components/ExamConfigView.tsx:10-16 | five presets, each caption its minute count followed by " Phút" |
| ExamConfigView.PresetCaption | components/ExamConfigView.tsx:10-16 | preset k's caption is its minute count followed by " Phút" |
| ExamConfigView.StatsCoverBank | components/ExamConfigView.tsx:33-38 | the NB, TH and VD-or-VDC counts add up to the bank size |
| ExamConfigView.StandardMax | components/ExamConfigView.tsx:60-64 | the largest m with m*0.5 <= nb, m*0.3 <= th and m*0.2 <= vd |
| ExamConfigView.StandardMaxEmptyBucket | components/ExamConfigView.tsx:60-64 | with any bucket empty the standard maximum is 0 |
| ExamConfigView.QuotasFitBelowMax | components/ExamConfigView.tsx:58-65 | a limit up to the standard maximum never asks a bucket for more questions than it holds |
| ExamConfigView.MaxPossible | components/ExamConfigView.tsx:44-70 | between 0 and the bank size; in custom mode exactly the number of questions matching both filters |
| ExamConfigView.ClampCustomLimit | components/ExamConfigView.tsx:52-56 | a limit above a non-zero count becomes the count, a zero limit becomes min(20, count), and otherwise it is unchanged |
| ExamConfigView.MatrixCounts | components/ExamConfigView.tsx:76-81 | the split shown is the standard quotas of min(limit, maxPossible) |
| ExamConfigView.ValidToStart | components/ExamConfigView.tsx:100 | starting needs maxPossible > 0, and in standard mode a limit within maxPossible |
| ExamConfigView.Submitted | components/ExamConfigView.tsx:96-97 | the submitted limit is min(limit, maxPossible) and every other field is unchanged |
| ExamConfigView.SubmittedExamHasLimit | components/ExamConfigView.tsx:93-100 | with the start button enabled, the exam composed from the submitted configuration has exactly the submitted number of questions; in standard mode its tiers are the split shown |
| ExamConfigView.StandardSubmission | components/ExamConfigView.tsx:58-81 | a standard exam within the maximum has `limit` questions with exactly the quota of each tier |
| ExamConfigView.ConfigView.constructor | components/ExamConfigView.tsx:20-30 | standard mode, all tiers and types, 30 questions in 45 minutes, maxPossible 0 and an empty split |
| ExamConfigView.ConfigView.SelectMode | components/ExamConfigView.tsx:129 | sets only the mode |
| ExamConfigView.ConfigView.SyncConfigMode | components/ExamConfigView.tsx:40-42 | copies the mode into the configuration and changes nothing else |
| ExamConfigView.ConfigView.SelectDifficulty | components/ExamConfigView.tsx:167 | sets only the configuration's difficulty |
| ExamConfigView.ConfigView.SelectType | components/ExamConfigView.tsx:194 | sets only the configuration's question type |
| ExamConfigView.ConfigView.SetLimit | components/ExamConfigView.tsx:257-262 | sets only the limit, to a slider value between 5 and max(5, maxPossible) |
| ExamConfigView.ConfigView.SetDuration | components/ExamConfigView.tsx:286-291 | sets only the duration, to a slider value from 5 to 180 in steps of 5 |
| ExamConfigView.ConfigView.HandlePresetSelect | components/ExamConfigView.tsx:85-91 | sets only the duration and the limit, to the chosen preset's values |
| ExamConfigView.ConfigView.RecomputeMaxPossible | components/ExamConfigView.tsx:44-70 | maxPossible becomes the current mode's maximum; in custom mode the limit is clamped, in standard mode the configuration is kept |
| ExamConfigView.ConfigView.RecomputeMatrix | components/ExamConfigView.tsx:73-83 | in standard mode the shown split is recomputed from the limit and maxPossible; in custom mode it is kept |
| ExamConfigView.ConfigView.IsValidToStart | components/ExamConfigView.tsx:100 | the start button is enabled only with maxPossible > 0, and in standard mode only with the limit within maxPossible |
| ExamConfigView.ConfigView.HandleSubmit | components/ExamConfigView.tsx:93-98 | hands over the configuration with its limit clamped to maxPossible |
| AdminDashboard.SetEntry | components/AdminDashboard.tsx:49 | the keyed entry takes the new value and the other three are kept |
| AdminDashboard.Stats | components/AdminDashboard.tsx:28-36 | the four tier counts add up to the total, which is the bank size |
| AdminDashboard.Distribute | components/AdminDashboard.tsx:39-45 | the 40%, 30% and 20% rounded shares and the VDC remainder sum to the total and are non-negative for a non-negative total |
| AdminDashboard.InitialMatrixIsDistributed | components/AdminDashboard.tsx:21-24 | the starting matrix 8-6-4-2 is the automatic split of the starting total 20 |
| AdminDashboard.MatrixAfterEditAsWritten | components/AdminDashboard.tsx:39-55 | after an edit and the effect it triggers, the matrix sums to the edited total |
| AdminDashboard.MatrixEditOverwritten | components/AdminDashboard.tsx:39-55 | on the starting matrix, raising NB from 8 to 10 shows 9-7-4-2: the hand edit is lost |
| AdminDashboard.MatrixAfterEdit | components/AdminDashboard.tsx:47-55 | the edited entry becomes max(0, v), the other entries are kept, and the total changes by the difference |
| AdminDashboard.ExportCheck | components/AdminDashboard.tsx:61-64 | no error iff every tier's request fits its stock; otherwise the message of the first short tier in the order NB, TH, VD, VDC |
| AdminDashboard.TierPick | components/AdminDashboard.tsx:67-70 | one tier's pick has length min(request, stock), holds only that tier and comes from the bank |
| AdminDashboard.ExportQuestions | components/AdminDashboard.tsx:67-72 | the export's length is the sum of min(request, stock) over the four tiers, and every exported question is in the bank |
| AdminDashboard.ExportMatchesMatrix | components/AdminDashboard.tsx:61-72 | when the checks pass, the export has exactly the matrix count of each tier and the matrix sum in all; its tiers never decrease along it; it comes from the bank, with no duplicates when the bank has none |
| AdminDashboard.ExportCounts | components/AdminDashboard.tsx:67-72 | with every request within stock, the export has each tier's request and the matrix sum in all |
| AdminDashboard.JoinedCounts | components/AdminDashboard.tsx:72 | the four single-tier lists joined have each list's size as that tier's count |
| AdminDashboard.ExportOrdered | components/AdminDashboard.tsx:72 | the exported questions run NB, then TH, then VD, then VDC |
| AdminDashboard.ExportFromBank | components/AdminDashboard.tsx:67-72 | the exported questions come from the bank, with no duplicates when the bank has none |
| AdminDashboard.FromBank | components/AdminDashboard.tsx:72 | four picks from the four tier buckets together fit inside the bank |
| AdminDashboard.PickCounts | components/AdminDashboard.tsx:72 | the tier counts of the joined picks are the sizes of the picks |
| AdminDashboard.PickCount | components/AdminDashboard.tsx:72 | one tier's count in the joined picks is that tier's pick size |
| AdminDashboard.TierCountConcat | components/AdminDashboard.tsx:72 | tier counts add over concatenation |
| AdminDashboard.TierCountUniform | components/AdminDashboard.tsx:67-70 | in a list of one tier, a tier count is all or nothing |
| AdminDashboard.RankOrdered | components/AdminDashboard.tsx:72 | in NB ++ TH ++ VD ++ VDC each position's tier rank is the rank of its block |
| AdminDashboard.QuestionJson | components/AdminDashboard.tsx:81 | a question serializes as an object with id, content, type and difficulty, with options and explanation present iff the question has them |
| AdminDashboard.QuestionsJson | components/AdminDashboard.tsx:81 | the questions serialize one by one, in order |
| AdminDashboard.ExamJson | components/AdminDashboard.tsx:76-82 | the exported object has exactly the fields title, duration, createdAt, questionCount and questions, and questionCount is the number of questions |
| AdminDashboard.NormalizedIsCanonical | components/AdminDashboard.tsx:81 | every question the upload step produces, with a non-empty id, is one that an export writes back faithfully |
| AdminDashboard.QuestionJsonFields | components/AdminDashboard.tsx:81 | an exported question carries id, content, type, difficulty, options, correctAnswer and explanation as written |
| AdminDashboard.ContentReadsBack | components/AdminDashboard.tsx:81 | an exported content field that is truthy or "" is read back as the same value |
| AdminDashboard.ExplanationReadsBack | components/AdminDashboard.tsx:81 | an exported explanation field that is truthy or "" is read back as the same value |
| AdminDashboard.RecordReadsBack | components/AdminDashboard.tsx:81 | a record holding exactly an exported question's fields is normalized back to that question |
| AdminDashboard.QuestionReadsBack | components/AdminDashboard.tsx:81 | one exported question is read back by the upload step as itself |
| AdminDashboard.ExportReadsBack | components/AdminDashboard.tsx:76-82 | uploading an exported exam gives back its questions, in order |
| AdminDashboard.UnderscoreSpaces | components/AdminDashboard.tsx:88 | the title with its white space replaced: no longer than the title, with no white space left, and unchanged when it has none |
| AdminDashboard.UnderscoreRun | components/AdminDashboard.tsx:88 | a word, a whole run of white space and the rest become the word, one "_" and the rest replaced in turn, so every maximal run becomes exactly one underscore |
| AdminDashboard.UnderscoreKeepsVisible | components/AdminDashboard.tsx:88 | every character that is neither white space nor "_" is kept, in order: the replacement only removes white space and only adds underscores |
| AdminDashboard.FileName | components/AdminDashboard.tsx:88 | the download name is the underscored title followed by ".json", and holds no white space |
| AdminDashboard.Dashboard.constructor | components/AdminDashboard.tsx:19-25 | title "Đề kiểm tra Toán 12", 45 minutes, 20 questions split 8-6-4-2, no error |
| AdminDashboard.Dashboard.SetTitle | components/AdminDashboard.tsx:180 | sets only the title |
| AdminDashboard.Dashboard.SetDuration | components/AdminDashboard.tsx:189 | sets only the duration, to the parsed number or 0 |
| AdminDashboard.Dashboard.HandleMatrixChange | components/AdminDashboard.tsx:47-55 | applies the corrected edit: the matrix entry becomes max(0, v) and the total stays the matrix sum |
| AdminDashboard.Dashboard.HandleExport | components/AdminDashboard.tsx:57-82 | the error becomes the first shortage, or is cleared; a file is produced iff there is no error, named after the title and holding the composed exam |
| AdminDashboard.ExportedFileMatchesScreen | components/AdminDashboard.tsx:57-82 | when the export passes, the file's questionCount is the matrix sum the screen shows |
| ExamRunner.NormalizeAnswer | components/ExamRunner.tsx:78-80 | the normalized answer has no lower-case letter and is no longer than the trimmed input |
| ExamRunner.NormalizeAnswerExamples | components/ExamRunner.tsx:78-80 | a missing answer and "" both give ""; "a.", " A " and "A" all give "A" |
| ExamRunner.PaddedLetter | components/ExamRunner.tsx:78-80 | a letter padded with spaces gives the letter in upper case |
| ExamRunner.LoneLetter | components/ExamRunner.tsx:78-80 | a lone letter survives trimming and dot removal and is upper-cased |
| ExamRunner.DotAfterLetter | components/ExamRunner.tsx:78-80 | a letter and one dot give the letter in upper case |
| ExamRunner.NormalizeAnswerNotIdempotent | components/ExamRunner.tsx:79 | only the first dot goes: "A.." gives "A.", which normalizes again to "A" |
| ExamRunner.LetterDots | components/ExamRunner.tsx:79 | a capital letter and two dots lose exactly one dot |
| ExamRunner.OptionLabel | components/ExamRunner.tsx:68-72 | the label is the leading A-D letter when a dot follows it, otherwise the letter 65+idx |
| ExamRunner.OptionContent | components/ExamRunner.tsx:74-76 | with a letter prefix, the content is the rest after the dot with leading white space removed; otherwise the option unchanged |
| ExamRunner.OptionSplits | components/ExamRunner.tsx:68-76 | an option with a letter prefix is its label, a dot, only white space and its content |
| ExamRunner.SplitAfterDot | components/ExamRunner.tsx:75 | cutting after the letter and dot and again at n puts the text back together |
| ExamRunner.OptionReadsBack | components/ExamRunner.tsx:68-76 | an option written "X. content" is read back with label X and that content |
| ExamRunner.SpaceThenContent | components/ExamRunner.tsx:75 | the white space after the dot is removed and the content is kept |
| ExamRunner.ManualSubmission | components/ExamRunner.tsx:39-41 | the submission carries the answers, and the time spent plus the time left is the duration in seconds |
| ExamRunner.TimeoutSubmissionAsWritten | components/ExamRunner.tsx:25-37 | as written, the timeout hands in no answers and reports no time spent, whatever the duration |
| ExamRunner.TimeoutDropsAnswers | components/ExamRunner.tsx:25-41 | the timer's captured handler submits no answers and zero time spent, unlike the current handler |
| ExamRunner.TimeoutSubmission | components/ExamRunner.tsx:39-41 | on timeout, the current answers are submitted with the full duration spent |
| ExamRunner.TickValue | components/ExamRunner.tsx:27-33 | a tick at 1 second or less goes to 0, and otherwise counts down by one; never negative |
| ExamRunner.Toggled | components/ExamRunner.tsx:51-56 | the id's membership flips and every other id's membership is kept |
| ExamRunner.ToggledTwice | components/ExamRunner.tsx:51-56 | flagging twice restores the original set |
| ExamRunner.SidebarCell | components/ExamRunner.tsx:167-190 | the current cell, unanswered cells, and in practice mode answered cells coloured right iff the normalized answers agree |
| ExamRunner.Runner.constructor | components/ExamRunner.tsx:15-22 | the first question, the full time, no answers, no flags and font size 18 |
| ExamRunner.Runner.HandleSelectAnswer | components/ExamRunner.tsx:43-49 | in practice mode with an answer already given, the answers are unchanged; otherwise only the current question's entry is set |
| ExamRunner.Runner.HandleTypeAnswer | components/ExamRunner.tsx:368-369 | sets only the current question's entry, to the typed text |
| ExamRunner.Runner.ToggleFlag | components/ExamRunner.tsx:51-56 | flips one id in the flag set and changes nothing else |
| ExamRunner.Runner.ChangeFontSize | components/ExamRunner.tsx:58-63 | the font size becomes the new size clamped to 14..32 |
| ExamRunner.Runner.Prev | components/ExamRunner.tsx:378 | the index moves back one, not below 0 |
| ExamRunner.Runner.Next | components/ExamRunner.tsx:387 | the index moves on one, not past the last question |
| ExamRunner.Runner.JumpTo | components/ExamRunner.tsx:183 | the index becomes the chosen question |
| ExamRunner.Runner.HandleSubmit | components/ExamRunner.tsx:39-41 | submits the current answers and the time spent |
| ExamRunner.Runner.Tick | components/ExamRunner.tsx:25-37 | while the clock runs, the time left counts down and never goes negative; the tick that runs the time out stops the clock (`clearInterval`) and submits, with the corrected timeout submission; a stopped clock changes nothing and submits nothing, so the exam is handed in once |
| ResultView.Counted | components/ResultView.tsx:19-25 | a question is counted only if it is multiple choice with a non-empty correct answer |
| ResultView.CorrectCount | components/ResultView.tsx:19-27 | the count of right answers is at most the number of questions |
| ResultView.CountCorrect | components/ResultView.tsx:19-27 | the forEach counter computes the specified count |
| ResultView.CorrectCountAppend | components/ResultView.tsx:20-26 | counting adds over concatenation |
| ResultView.CorrectCountIsFilter | components/ResultView.tsx:20-26 | the count is the number of questions that are MCQ, have a non-empty correct answer, and whose trimmed answer without its first dot equals the correct one treated alike |
| ResultView.CorrectCountPermutation | components/ResultView.tsx:20-26 | the count does not depend on the order of the questions |
| ResultView.UncountedQuestions | components/ResultView.tsx:21 | questions that are not MCQ, or have no or an empty correct answer, never count |
| ResultView.ScoringExamples | components/ResultView.tsx:23-24 | scoring is case-sensitive ("a" is not "A"), "A." and " A " agree with "A", and only the first dot goes ("A.." is not "A") |
| ResultView.CountedIsRightInSidebar | components/ResultView.tsx:23-24 | an answer that counts on the result screen is also shown right in the exam screen's sidebar |
| ResultView.SidebarRightNotCounted | components/ResultView.tsx:23-24 | the converse fails: "a" for "A" is right in the sidebar but not counted |
| ResultView.Score | components/ResultView.tsx:29 | for a non-empty exam, the nearest whole number to 10*correct/n with halves rounded up; none (NaN) for an empty exam |
| ResultView.Percentage | components/ResultView.tsx:30 | for a non-empty exam, the nearest whole number to 100*correct/n with halves rounded up; none (NaN) for an empty exam |
| ResultView.ScoreBounds | components/ResultView.tsx:29 | the score is within 0..10, grows with the count, is 10 for all right and 0 for none |
| ResultView.PercentageBounds | components/ResultView.tsx:30 | the percentage is within 0..100, grows with the count, is 100 for all right and 0 for none |
| ResultView.RoundRatioExact | components/ResultView.tsx:29-30 | all right rounds to the full scale and none to 0 |
| ResultView.RoundRatioMonotone | components/ResultView.tsx:29-30 | a larger count never rounds to a smaller score |
| ResultView.GradeOf | components/ResultView.tsx:32-36 | excellent iff the percentage is at least 80, pass iff it is 50..79, needs effort otherwise (and for NaN) |
| ResultView.GradeMonotone | components/ResultView.tsx:32-36 | a higher percentage never gets a lower verdict |
| ResultView.GradeText | components/ResultView.tsx:83 | each grade shows its own verdict: "Xuất sắc!", "Đạt yêu cầu" or "Cần cố gắng" |
| ResultView.ShownCorrect | components/ResultView.tsx:98-101 | a non-MCQ question is always shown correct; an MCQ is shown correct iff the raw answer equals the correct answer |
| ResultView.IsSkipped | components/ResultView.tsx:103 | a question is skipped iff its answer is missing or empty |
| ResultView.MarkOf | components/ResultView.tsx:98-125 | skipped iff the answer is missing or empty; wrong only for an MCQ whose raw answer differs from the correct one; a non-MCQ is never wrong |
| ResultView.RightMarkIffExact | components/ResultView.tsx:99-101 | an answered MCQ is marked right iff its raw answer equals the correct answer |
| ResultView.ShownCorrectIsCounted | components/ResultView.tsx:19-27 | an MCQ shown right, with a non-empty correct answer, is counted |
| ResultView.CountedButShownWrong | components/ResultView.tsx:23-24 | the converse fails: "A." for "A" counts but is shown wrong |
| ResultView.MarkOption | components/ResultView.tsx:156-158 | an option's letter is its label, selected iff the answer is that letter, and correct iff the correct answer is that letter |
| ResultView.LookOf | components/ResultView.tsx:160-162 | the option is drawn as correct iff it is correct, and as a wrong choice iff it is selected but not correct |
| ResultView.AtMostOneCorrectOption | components/ResultView.tsx:156-158 | among options lettered A-D in order, at most one is marked correct |
| ResultView.Toggle | components/ResultView.tsx:38-40 | toggling the open question closes it; any other id becomes the open one |
| ResultView.ToggleTwice | components/ResultView.tsx:38-40 | opening and clicking again closes |
| ResultView.ResultPanel.constructor | components/ResultView.tsx:16 | no question is open |
| ResultView.ResultPanel.ToggleExpand | components/ResultView.tsx:38-40 | the open question becomes the toggled value |
| LoginView.Validate | components/LoginView.tsx:14-26 | the name is checked before the class; a blank name gives the name message, a blank class the class message, otherwise the trimmed name and class are accepted |
| LoginView.ValidateByCharacters | components/LoginView.tsx:16-23 | blank means white space only: an all-space name is refused with the name message whatever the class |
| LoginView.AcceptedIsStable | components/LoginView.tsx:24-25 | the accepted values carry no outer white space, so submitting them again is accepted with the same values |
| LoginView.TrimIdempotent | components/LoginView.tsx:25 | trimming twice is trimming once |
| LoginView.LoginForm.constructor | components/LoginView.tsx:10-12 | empty name and class, no error |
| LoginView.LoginForm.SetName | components/LoginView.tsx:58 | sets only the name |
| LoginView.LoginForm.SetClassName | components/LoginView.tsx:76 | sets only the class |
| LoginView.LoginForm.HandleSubmit | components/LoginView.tsx:14-26 | a refused submission sets the error and logs no one in; an accepted one clears the error and logs in with the trimmed values; the typed fields stay as typed |
| Pool.OfTier | App.tsx:48-49 | one tier's bucket holds exactly the pool's questions of that tier |
| Pool.OfVdTiers | App.tsx:50 | the application bucket holds exactly the pool's VD and VDC questions |
| Pool.Matching | App.tsx:55-59 | the custom filter keeps exactly the questions matching both choices, ALL matching everything |
| Pool.MatchingAll | App.tsx:55-59 | with both choices ALL, nothing is filtered out |
| Pool.ThreeBucketsPartition | components/ExamConfigView.tsx:33-38 | the NB, TH and VD-or-VDC buckets partition the pool |
| Pool.FourTiersPartition | components/AdminDashboard.tsx:28-36 | the four tier buckets partition the pool |
| Pool.TierCountsSum | components/AdminDashboard.tsx:28-36 | the four tier counts add up to the pool size |
| Json.FromCharCode | utils.ts:47 | codes below the surrogate range give that character, so 65+k is the k-th capital letter |
| JsMath.RoundTenths | App.tsx:44-45 | `Math.round(n * 0.k)` is the nearest whole number to n*k/10, halves rounded up |
| JsMath.FloorOverTenths | components/ExamConfigView.tsx:60-62 | `Math.floor(c / 0.k)` is the largest whole r with r*k <= 10*c |
| JsMath.RoundRatio | components/ResultView.tsx:29-30 | `Math.round((c / n) * scale)` is the nearest whole number to c*scale/n, halves rounded up |
| JsStrings.RemoveFirst | components/ResultView.tsx:23-24 | `replace('.', '')` removes the first dot and only that, and leaves a dot-free string unchanged |
| JsStrings.PadStart2 | utils.ts:16 | `padStart(2, '0')` keeps the string at its end and fills to width 2 with zeros |

## Left out

- Rendering is not modelled: JSX, CSS classes, icons, and the progress bar's percentage (components/ExamRunner.tsx:66).
- The sidebar's open and closed state is not modelled.
- `MathText` is not modelled. Its DOM and MathJax calls are foreign code.
- `FileUpload` is not modelled. It is file reading, `JSON.parse` and drag and drop, and `normalizeQuestions` is modelled on the parsed value.
- Of the export's download, `JSON.stringify` is modelled as a JSON value. The `encodeURIComponent` data URL, the temporary anchor and the click are browser I/O and are not modelled. `new Date().toISOString()` is a string parameter.
- `Math.random` and `Date.now()` are parameters. The uniformity of the shuffle is probabilistic and not stated.
- Floating point is replaced by whole-number forms of each `Math.round` and `Math.floor`. A double can differ from the exact value by one in rare rounding cases, for example `Math.floor(vd / 0.2)`. JSON numbers are whole numbers only, and `Json.ToJsString` and `Utils.FormatTime` print every digit of one: JavaScript rounds a whole number beyond 2^53 to the nearest double and prints numbers from 10^21 up in exponent form ("1e+21"), and neither is modelled.
- ResultView.Score: the 0/0 case is NaN in the source, modelled as no value. The screen printing "NaN" is not modelled.
- The limit and duration sliders call `parseInt` on the slider text. `ConfigView.SetLimit` and `ConfigView.SetDuration` take the whole number the slider's range produces.
- `handleMatrixChange` receives `parseInt` of the field. An empty field gives NaN, which `Math.max(0, NaN)` keeps. `Dashboard.HandleMatrixChange` takes a whole number, so the NaN case is not modelled.
- ExamRunner.OptionLabel, ExamRunner.OptionContent and ResultView.MarkOption take an option as text. A file whose options (or content) are not text is kept as read by `normalizeQuestions`, and the screens then throw a TypeError on `opt.match` (components/ExamRunner.tsx:69) or `q.content.substring` (components/ResultView.tsx:139); that failure is not modelled.
- ExamRunner.Runner.constructor: requires a non-empty question list, because the screen reads `questions[currentIdx]` on its first render and fails on an empty exam.
- The answer map and the result screen look answers up with `answers[id]`. A question id that is a name every object inherits (such as "constructor") would read an inherited value there. The model treats answers as a plain map with no inherited entries.
- Upper-casing and trimming cover ASCII letters and the white-space set of `\s`, without Unicode case mapping. `String.fromCharCode` of a lone surrogate code unit is U+FFFD.
- React's batching and effect scheduling are not modelled. On the configuration screen each effect is a separate method, run in the order React runs it: `SyncConfigMode`, `RecomputeMaxPossible` and `RecomputeMatrix`. The dashboard's effect on the total is not a method of `Dashboard`; it is the function `MatrixAfterEditAsWritten`, and `Dashboard.HandleMatrixChange` takes the corrected side.

## Findings

| source | as written | input that shows it | evidently intended | confidence | as-written member | corrected member |
|---|---|---|---|---|---|---|
| utils.ts:57 | `DIFFICULTY_MAP[diffInput]` also finds the properties every object inherits, so the fallback to 'NB' does not apply to them | a record with difficulty "constructor" gets the Object constructor function as its difficulty | any value that is not one of the eight keys gives 'NB' | not executed | Utils.DifficultyAsWritten, Utils.DifficultyAsWrittenLeaks | Utils.NormalizeDifficulty, Utils.DifficultyReadsBack |
| components/ExamRunner.tsx:25-37 | the interval is created once and calls the `handleSubmit` of the first render, which captured no answers and the full time left | answer any question, then let the time run out: `onComplete({}, 0)` | submit the current answers and the full duration as time spent | not executed | ExamRunner.TimeoutSubmissionAsWritten, ExamRunner.TimeoutDropsAnswers | ExamRunner.TimeoutSubmission, ExamRunner.Runner.Tick |
| components/AdminDashboard.tsx:39-55 | editing one matrix entry changes the total, and the effect on the total then replaces the whole matrix with the automatic split | on 8-6-4-2 (total 20), set NB to 10: the screen shows 9-7-4-2 | the edited entry is kept and the total follows it | not executed | AdminDashboard.MatrixAfterEditAsWritten, AdminDashboard.MatrixEditOverwritten | AdminDashboard.MatrixAfterEdit, AdminDashboard.Dashboard.HandleMatrixChange |
