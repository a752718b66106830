# QuizMe front end, modelled in Dafny

QuizMe is a Next.js application. A user uploads a PDF or text file and asks a remote service
for quiz questions about it. The user can then copy the questions, download them as CSV,
practise them one at a time with a score and a timer, and browse saved question sets in a
library. This project models the decision logic of its pages and components, and proves
properties of that logic:

- **Data shapes** (`Api`): the question, choice, correct-answer and question-set records the
  service returns.
- **Shared question logic** (`Quiz`):
  - the practice-side question shape;
  - the two spellings of a question type (`multiple-choice` on the form, `MULTIPLE_CHOICE` at the
    service) and the conversions between them;
  - the conversion of service questions into practice questions, which the library page and the
    generator page spell out identically;
  - the option letters.
- **Practice page** (`Practice`): the session state as a class. This covers answer selection,
  checking and scoring, moving between questions, resetting, pausing, and the `m:ss` time display.
- **Library page** (`Library`):
  - the three-stage filter over the stored sets;
  - pagination in pages of six, with page clamping;
  - the local update after a delete;
  - the de-duplicated subject list;
  - the difficulty badge mappings;
  - the hand-off of a set's questions to practice.
- **Generator page** (`Generator`):
  - the upload checks (type first, then the 10 MiB limit);
  - the checks before a generation request, and the request itself;
  - the question-type checkboxes;
  - the conversion of the service's answer;
  - the clipboard text and the CSV content.
- **Login page** (`Login`):
  - the e-mail regular expression, decided directly and proved equal to the pattern's reading;
  - the per-field messages in login and register mode;
  - the input-change rule, the demo-account button and the mode switch.
- **Question renderer** (`QuestionRenderer`):
  - which view a question type selects, and the type badge;
  - which options count as correct;
  - each option's colour state, check and cross markers;
  - the result badge;
  - how a completion question's text is cut at its `_____` blanks.
- **Route guard** (`ProtectedRoute`): what is rendered and where the guard navigates, for every
  combination of loading state, session and props.

Two modules carry the JavaScript built-ins the pages rely on:

- `Seqs`: `filter`, de-duplication through a `Set`, and flattening.
- `Strings`:
  - ASCII `toLowerCase`/`toUpperCase`;
  - `includes`;
  - `indexOf`;
  - `replace` of the first occurrence;
  - `split` and `join`;
  - decimal rendering and `padStart(2, '0')`;
  - `length`, counted in UTF-16 code units.

`Wrappers` holds `Option` and `Result`.

Page state that React keeps in `useState` is modelled as fields of a class, one class per page.
Each handler is a method with a `modifies` clause that names exactly the state it sets. The
session class of the practice page keeps an invariant `Valid()`:

- the current index stays on a question;
- recorded answers belong to questions and are non-empty;
- selections are duplicate-free.

The library class's `Valid()` says that the listed sets are always the filter of the stored sets.
Service answers, the current user and uploaded files are parameters of the methods that use
them.

## Model

| member | source | states |
|---|---|---|
| Quiz.TypeRoundTrip | src/app/page.tsx:84 | A form-side type (no upper-case letter, no underscore) sent in the service's spelling and normalised back with `toLowerCase().replace('_', '-')` is itself again |
| Quiz.OfferedTypesRoundTrip | src/app/page.tsx:347-352 | Each of the four types the form offers survives the round trip through the service's spelling |
| Quiz.NormalizeType | src/app/page.tsx:108 | `toLowerCase().replace('_', '-')` keeps the length of the type code; Quiz.TypeRoundTrip states that it undoes the service spelling |
| Quiz.ToApiType | src/app/page.tsx:84 | `toUpperCase().replace('-', '_')` keeps the length of the type; Quiz.TypeRoundTrip states that Quiz.NormalizeType undoes it |
| Quiz.FindLabel | src/app/page.tsx:105 | `choices.find` by label: the index found carries the label and no earlier choice does; no index means no choice carries it |
| Quiz.LookedUp | src/app/page.tsx:104-106 | One lookup per correct answer, in order: entry `k` is the content of the first choice whose label is answer `k`'s label, or empty when no choice has it |
| Quiz.ResolveAnswers | src/app/page.tsx:104-107 | The resolved answers are at most as many as the correct answers, and none is empty (`filter(Boolean)`) |
| Quiz.ResolveAnswersSpec | src/app/page.tsx:104-107 | The resolved answers are the looked-up contents in order with exactly the empty ones removed: a sub-list that keeps every non-empty content as often as it was looked up |
| Quiz.RepeatedLabelRepeatsAnswer | src/app/page.tsx:104-107 | Two correct answers naming the same label resolve to the same content twice; nothing removes repeats |
| Quiz.ToPractice | src/app/library/page.tsx:122-131 | The conversion yields one practice question per service question |
| Quiz.ToPracticeSpec | src/app/library/page.tsx:122-131 | Question `i` gets id `i + 1`, its text, its choice contents in order, its explanation, its normalised type, and exactly the correct answers its labels resolve to, each of them one of its options |
| Quiz.ResolvedAnswersAreOptions | src/app/page.tsx:104-106 | Every resolved correct answer is a non-empty option text of the same question |
| Quiz.ResolvedAnswersWhenAllMatch | src/app/page.tsx:104-106 | When every correct-answer label names a choice with non-empty content, nothing is dropped and answer `k` is the content of the first choice with label `k` |
| Quiz.OptionLetter | src/app/page.tsx:135 | `String.fromCharCode(65 + i)` is the code unit `65 + i` below the surrogate range |
| Practice.AnswerMatchesIffSameSet | src/app/practice/page.tsx:81-86 | For duplicate-free selections and answer lists, the length-and-every rule holds exactly when the selected answers and the correct answers are the same set |
| Practice.RepeatedSelectionMatches | src/app/practice/page.tsx:85-86 | The rule alone accepts `["a", "a"]` against `["a", "b"]`, since it compares lengths and membership only |
| Practice.AnswerMatches | src/app/practice/page.tsx:81-86 | Selecting exactly the correct answers always matches, and a match selects only correct answers |
| Practice.RepeatedAnswerUnscoreable | src/app/practice/page.tsx:81-86 | When the correct answers hold a repeat, no duplicate-free selection (the only kind the page can build) ever matches, so the question cannot be scored |
| Practice.Toggle | src/app/practice/page.tsx:59-63 | Selecting an answer of a multiple-response question flips its membership, leaves every other answer's membership alone and keeps the selection duplicate-free |
| Practice.FormatTime | src/app/practice/page.tsx:128-132 | The display has at least four characters and a colon third from the end, before the two-digit seconds |
| Practice.FormatTimeRoundTrip | src/app/practice/page.tsx:128-132 | `formatTime(s)` reads back as `floor(s / 60)` minutes and `s % 60` two-digit seconds, so `mins * 60 + secs == s` |
| Practice.PracticePage.constructor | src/app/practice/page.tsx:24-41 | The page after loading the saved questions: every session value initial, invariant established |
| Practice.PracticePage.CompletedQuestions | src/app/practice/page.tsx:164 | The number of answered questions never exceeds the number of questions |
| Practice.PracticePage.HandleAnswerSelect | src/app/practice/page.tsx:56-68 | Toggle for `multiple-response`, a single-answer selection for every other type; the invariant is kept |
| Practice.PracticePage.CheckAnswer | src/app/practice/page.tsx:70-94 | With nothing selected nothing changes; otherwise the answer is shown, the selection is recorded for the current question, and the score rises by one exactly when the rule holds |
| Practice.PracticePage.NextQuestion | src/app/practice/page.tsx:96-105 | Below the last question: move on, clear the selection and hide the answer; at the last one: mark the session complete and change nothing else |
| Practice.PracticePage.PrevQuestion | src/app/practice/page.tsx:107-113 | Above the first question: go back, restore the answer recorded there (or an empty one), and show the answer exactly when one was recorded |
| Practice.PracticePage.ResetPractice | src/app/practice/page.tsx:115-126 | Every session value is back to its initial value; the questions stay |
| Practice.PracticePage.TogglePause | src/app/practice/page.tsx:203 | The pause button flips `isPaused` |
| Practice.ScoreExceedsQuestionCount | src/app/practice/page.tsx:96-113 | A reachable session with two questions and score three: moving on hides an answered question's answer, so it can be checked again |
| Library.Filtered | src/app/library/page.tsx:50-70 | The listed sets are at most the stored ones, and each passes all three filters |
| Library.FilteredSpec | src/app/library/page.tsx:50-70 | The listed sets are an order-preserving sub-list of the stored sets, holding exactly the stored sets that pass all three filters, each as often as stored |
| Library.NoFiltersListsAll | src/app/library/page.tsx:19-21 | With the initial empty search and both selectors on `all`, every stored set is listed |
| Library.TotalPages | src/app/library/page.tsx:73 | `Math.ceil(n / 6)`: the fewest pages of six that hold `n` sets |
| Library.Page | src/app/library/page.tsx:74-76 | Page `p` holds at most six sets, namely the sets from index `(p - 1) * 6` on; it is non-empty up to the last page full when enough sets follow, and the last page holds exactly the remainder |
| Library.PagesRebuildList | src/app/library/page.tsx:73-76 | Pages `1..totalPages` in order rebuild the filtered list exactly |
| Library.ClampPage | src/app/library/page.tsx:79 | The page chosen is at least 1, at most `totalPages` when there is a page, the requested page when it is in range, and the nearer end otherwise |
| Library.RemoveId | src/app/library/page.tsx:89 | After a delete the list is no longer than before and no set carries the id |
| Library.RemoveIdSpec | src/app/library/page.tsx:89-91 | After a delete no set carries the id, every other set remains as often as before, and the order is kept |
| Library.DeleteCommutesWithFilter | src/app/library/page.tsx:89-91 | Removing the set from the listed sets gives what the filter effect computes from the stored sets after the removal |
| Library.UniqueSubjects | src/app/library/page.tsx:185 | `filter(Boolean)` leaves no empty subject in the list |
| Library.UniqueSubjectsSpec | src/app/library/page.tsx:185 | The subject list has no repeats and no empty subject, contains every non-empty stored subject, and keeps first-appearance order |
| Library.FormatSetType | src/app/library/page.tsx:172-183 | Each of the seven known type codes has its label, and any other code is shown unchanged |
| Library.DifficultyTint | src/app/library/page.tsx:154-161 | Green, yellow and red exactly for `easy`, `medium` and `hard`; gray for anything else |
| Library.DifficultyMarker | src/app/library/page.tsx:163-170 | The green, yellow and red circles exactly for `easy`, `medium` and `hard`; the white circle for anything else |
| Library.BadgeDifficulty | src/app/library/page.tsx:290 | The badge's fallback: a present non-empty difficulty is kept, and an absent or empty one becomes `medium` |
| Library.MissingDifficultyIsMedium | src/app/library/page.tsx:290 | A set without a usable difficulty gets the medium colour and marker |
| Library.StartPractice | src/app/library/page.tsx:102-138 | A thrown request: the loading-error message. An unsuccessful answer or no detail: the detail message. No questions: the empty-set message. Otherwise (and only then) the converted questions, one per question of the set |
| Library.LibraryPage.constructor | src/app/library/page.tsx:17-22 | No sets, empty search, both selectors on `all`, page 1, invariant established |
| Library.LibraryPage.CurrentQuizSets | src/app/library/page.tsx:74-76 | The current page holds at most six sets, and at least one whenever any set is listed |
| Library.LibraryPage.ApplyFilters | src/app/library/page.tsx:50-70 | Skipping inactive stages and narrowing by each active one gives exactly the sets passing all three filters, and the page goes back to 1 |
| Library.LibraryPage.LoadQuizSets | src/app/library/page.tsx:27-43 | A successful response replaces the stored sets, and the filter effect follows; a failure changes nothing |
| Library.LibraryPage.SetSearchTerm | src/app/library/page.tsx:226 | The new term is stored and the list re-filtered from page 1 |
| Library.LibraryPage.SetFilterDifficulty | src/app/library/page.tsx:233 | The new difficulty is stored and the list re-filtered from page 1 |
| Library.LibraryPage.SetFilterSubject | src/app/library/page.tsx:246 | The new subject is stored and the list re-filtered from page 1 |
| Library.LibraryPage.GoToPage | src/app/library/page.tsx:78-80 | The requested page, clamped to `1..totalPages` |
| Library.LibraryPage.HandleDeleteQuizSet | src/app/library/page.tsx:84-100 | On success the set leaves both lists and the listed sets still equal the filter of the stored ones; on failure nothing changes |
| Generator.CheckUpload | src/app/page.tsx:44-55 | A file is kept exactly when its type mentions `text` or `pdf` and it is at most 10 MiB; an unsupported type is reported before the size |
| Generator.PrepareGeneration | src/app/page.tsx:66-87 | Without a file or a subject, or without a question type, no request is made, with the matching message; otherwise the request carries the form's values with each type in the service's spelling |
| Generator.RequestTypesRoundTrip | src/app/page.tsx:84 | Every form-side type in a request reads back as itself |
| Generator.ConvertResponse | src/app/page.tsx:100-109 | No question list gives no questions; a list gives one question per entry |
| Generator.SameConversionAsLibrary | src/app/page.tsx:100-109 | The generator converts a question list exactly as the library does before practice |
| Generator.CheckUncheckRestores | src/app/page.tsx:358-363 | Checking an unselected type and unchecking it again restores the type list |
| Generator.ClipboardText | src/app/page.tsx:133-136 | No questions give empty clipboard text, and one question gives exactly its block |
| Generator.BlockIsItsLines | src/app/page.tsx:134-136 | A question's clipboard block is its header line, its option lines, its answer line and a final empty line, joined by newlines |
| Generator.ClipboardLines | src/app/page.tsx:133-136 | When no text contains a newline, splitting the clipboard text at newlines gives the blocks' lines one after the other |
| Generator.CsvContent | src/app/page.tsx:142-155 | The CSV content always starts with the header row |
| Generator.CsvCells | src/app/page.tsx:145-154 | Every question row has as many cells as the header |
| Generator.CsvTable | src/app/page.tsx:143-155 | The table is the header followed by one row per question, in order |
| Generator.CsvRowCells | src/app/page.tsx:155 | When no cell contains a comma, splitting a row at commas gives its quoted cells back |
| Generator.CsvLines | src/app/page.tsx:155 | When no cell contains a newline, splitting the content at newlines gives the rows back |
| Generator.CsvRoundTrip | src/app/page.tsx:142-155 | When no cell contains a comma or newline, the CSV reads back as the header and one row per question, each of eight quoted cells |
| Generator.GeneratorPage.constructor | src/app/page.tsx:30-36 | The form's initial values: no file, ten questions, only `multiple-choice` selected, no questions |
| Generator.GeneratorPage.HandleFileUpload | src/app/page.tsx:40-64 | No file, or a refused file, leaves the kept file alone; an accepted file is kept |
| Generator.GeneratorPage.SetQuestionType | src/app/page.tsx:358-363 | Checking appends the type; unchecking removes every occurrence |
| Generator.GeneratorPage.GenerateQuestions | src/app/page.tsx:66-131 | The request is the one the checks prepare; the converted questions are kept only when a request was made and the service succeeded |
| Generator.GeneratorPage.CopyAllQuestions | src/app/page.tsx:133-140 | The clipboard text of the current questions |
| Generator.GeneratorPage.DownloadCsv | src/app/page.tsx:142-155 | The CSV content of the current questions |
| Login.ValidateEmail | src/app/login/page.tsx:34-37 | An accepted e-mail contains `@` and has at least five characters |
| Login.ValidateEmailMatchesPattern | src/app/login/page.tsx:34-37 | The direct check accepts exactly the strings that `/^[^\s@]+@[^\s@]+\.[^\s@]+$/` matches |
| Login.GetWith | src/app/login/page.tsx:80-83 | Writing one form field changes that field and no other |
| Login.Errors | src/app/login/page.tsx:39-76 | Each field's message is empty or one of that field's own messages |
| Login.ErrorsPerField | src/app/login/page.tsx:39-76 | Each field's message is empty exactly when that field is acceptable, the password's length counted in UTF-16 code units; in login mode the name and confirmation messages are always empty |
| Login.ErrorsClearIff | src/app/login/page.tsx:74-75 | Every message is empty exactly when the e-mail is valid, the password has at least six UTF-16 code units and, when registering, the name is given and the confirmation equals the password |
| Strings.Utf16Length | src/app/login/page.tsx:57 | A string's `length` lies between its number of characters and twice that, since each character takes one or two UTF-16 code units |
| Login.PasswordLengthInCodeUnits | src/app/login/page.tsx:57 | `password.length` counts UTF-16 code units: three emoji (six units) are long enough, five letters are too short |
| Login.DemoEmailShape | src/app/login/page.tsx:35-36 | The demo e-mail has the shape the e-mail pattern requires |
| Login.DemoAccountValid | src/app/login/page.tsx:301-307 | The demo e-mail and password pass the login-mode checks |
| Login.LoginPage.constructor | src/app/login/page.tsx:16-29 | Login mode, every input and every message empty |
| Login.LoginPage.ValidateForm | src/app/login/page.tsx:39-76 | The stored messages are built field by field, and the result is true exactly when the form is acceptable, with the password's length counted in UTF-16 code units as `length` does |
| Login.LoginPage.HandleInputChange | src/app/login/page.tsx:78-92 | The named input takes the value and its message is cleared; every other input and message stays |
| Login.LoginPage.FillDemo | src/app/login/page.tsx:301-307 | The demo e-mail and password are filled in, the other inputs kept, and the form then passes in login mode |
| Login.LoginPage.ToggleMode | src/app/login/page.tsx:277 | The link switches between login and register mode |
| QuestionRenderer.FormatQuestionType | src/components/QuestionRenderer.tsx:32-41 | The five normalised types have their labels; any other type is shown as written |
| QuestionRenderer.Dispatch | src/components/QuestionRenderer.tsx:278-295 | Each normalised type selects its view exactly; any other type falls back to the multiple-choice view |
| QuestionRenderer.OfferedTypesSelectTheirView | src/components/QuestionRenderer.tsx:278-295 | The four types the generator offers each select their own view |
| QuestionRenderer.OptionIsCorrect | src/components/QuestionRenderer.tsx:51-53 | An option is correct exactly when it is among the correct answers |
| QuestionRenderer.TreatedAsCorrect | src/components/QuestionRenderer.tsx:196 | The matching view takes every option as correct; the other views use the rule above |
| QuestionRenderer.StateOf | src/components/QuestionRenderer.tsx:59-68 | Once the answer is shown, correct options look correct, chosen incorrect ones look wrong and the rest neutral; before that only the choice shows |
| QuestionRenderer.MarkerRules | src/components/QuestionRenderer.tsx:77-82 | A cross exactly on a shown, chosen, incorrect option outside matching. A check exactly on a shown option that is matching or correct. Never both. Only the true/false view omits the letter |
| QuestionRenderer.RenderOption | src/components/QuestionRenderer.tsx:55-95 | An option shows its own text, its own letter when it has one, and no check or cross before the answer is shown |
| QuestionRenderer.RenderOptions | src/components/QuestionRenderer.tsx:55-95 | One view per option, in order, each rendered by the rule above |
| QuestionRenderer.MatchingAllCorrect | src/components/QuestionRenderer.tsx:196-222 | In the matching view, once the answer is shown, every option looks correct and is checked |
| QuestionRenderer.TrueFalseGlyphs | src/components/QuestionRenderer.tsx:120 | `True` and `đúng` get the check glyph; `False` and `Sai` get the cross |
| QuestionRenderer.TrueFalseGlyphIsCheck | src/components/QuestionRenderer.tsx:120 | Only an option of at least four characters gets the check glyph |
| QuestionRenderer.ResultBadge | src/components/QuestionRenderer.tsx:304-308 | The badge appears exactly while the answer is shown, and reads right exactly when the verdict is true |
| QuestionRenderer.CompletionSegments | src/components/QuestionRenderer.tsx:314-325 | Segment `i` is a blank exactly when `i` is odd: the segments alternate text and blanks, start and end with text, and are odd in number |
| QuestionRenderer.QuestionSegments | src/components/QuestionRenderer.tsx:313-327 | The question area always shows the question text: a completion question has one blank per `_____`, and any other type is one plain text segment without blanks |
| QuestionRenderer.CompletionSegmentsSpec | src/components/QuestionRenderer.tsx:314-325 | A completion question shows one blank fewer than it has parts, and writing each blank back as `_____` gives the question text |
| ProtectedRoute.Decide | src/components/ProtectedRoute.tsx:15-76 | Loading shows the spinner. A required session that is missing shows the access-denied card and navigates to the target. A signed-in user on a public page whose target is `/login` is sent home. Everything else renders the children |
| ProtectedRoute.DefaultsGuardPages | src/components/ProtectedRoute.tsx:15-27 | With the defaults, a visitor without a session is denied and sent to `/login`, and a signed-in user sees the page |
| ProtectedRoute.LoginPageNeverRedirects | src/app/login/page.tsx:123 | The login page's guard (`requireAuth={false}`, `redirectTo="/"`) always shows the form once loaded and never navigates |
| ProtectedRoute.SignedInUserLeavesLoginTarget | src/components/ProtectedRoute.tsx:70-74 | A public page that keeps the `/login` target sends a signed-in user home |

## Left out

- The practice timer (`setInterval`, `Date.now`) is left out because it is clock-driven; `timeElapsed` is only reset by the model.
- Floating-point displays are left out because they involve floating point: the progress bar, the accuracy `toFixed(1)`, and the KB/MB file sizes in the upload message.
- `localStorage` and `JSON` are left out because they are I/O. The practice page's constructor takes the parsed questions directly.
- The service calls (`ApiService`: `generateMultipleQuestions`, `getQuestionSets`, `getQuestionSet`, `deleteQuestionSet`) are left out because they are network I/O. Each page method takes the service's answer as a parameter instead. `textProcessingInfo` and `qualityMetrics` are display-only and not modelled.
- Toasts, router navigation, `navigator.clipboard`, the `Blob`/download link and `toLocaleDateString` are left out because they are browser effects. The model returns message text only for:
  - the upload checks (Generator.CheckUpload);
  - the generation preconditions (Generator.PrepareGeneration);
  - the practice hand-off (Library.StartPractice);
  - the login form's field messages (Login.Errors).

  It also returns the clipboard text, the CSV content and the service request, and ProtectedRoute.Decide gives the redirect target. The other toasts have no counterpart:
  - the answer check's warning, success and error toasts (the last lists the correct answers joined with `, `);
  - the reset notice;
  - the library's two load errors;
  - the three delete outcomes;
  - the generator's success and failure toasts;
  - the copy notice.
- Strings.Lower and Strings.Upper do not model Unicode case mapping, because only ASCII letters are needed for the type codes. As a consequence QuestionRenderer.TrueFalseGlyphIsCheck does not recognise an upper-case `Đúng` the way JavaScript's `toLowerCase` does. The library search likewise compares non-ASCII letters case-sensitively.
- Quiz.OptionLetter yields U+FFFD for the surrogate code units that `String.fromCharCode` would produce past 55231 options, because a Dafny `char` cannot hold a lone surrogate.
- Generator.ClipboardLines and Generator.CsvRoundTrip hold only for texts without newlines, or without commas and newlines, because the page escapes nothing. A multiple-response answer is written with commas, so its CSV row does not split back into eight cells.
- JSX layout, styling, icons, the navigation bar and the loading flags (`isLoading`, `isGenerating`, `practiceLoading`) are left out because they carry no decision logic.
- The login form's submit (`handleSubmit`) and the authentication context's `login`, `register` and session storage are left out because they are foreign code. The guard receives `isLoading` and whether a user is signed in.
- The click gates in the views (`!showAnswer && onAnswerSelect(option)`) are left out because the handlers themselves check nothing, and the methods model the handlers.
- The access-denied card's button is left out because it is a click handler. It navigates to the same target the guard's effect already uses.
- Practice.PracticePage.NextQuestion models the handler, including its branch that marks the session complete. That branch is not reachable from the page, because the Next button is disabled on the last question (src/app/practice/page.tsx:407).
- Library.LibraryPage.SetSearchTerm, Library.LibraryPage.SetFilterDifficulty and Library.LibraryPage.SetFilterSubject go back to page 1 even when the value is unchanged. React would skip such an update and keep the page. The inputs fire no change for an identical value, so the page never meets that case.
- Practice.PracticePage.HandleAnswerSelect assumes at least one question, as the handler is only reachable from a rendered question.
