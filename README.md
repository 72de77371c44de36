# Homework-help platform: page logic and request handlers

A Dafny model of a school homework-help site (ready-made solutions, a
textbook library, video lessons, puzzles, exam preparation and a
calculator). It covers the rules behind the site's React pages and its
Python request handlers:

- the calculator's keystroke state machine;
- the client-side list filters, the duration formatter, the puzzle
  answer check, step navigation and the like button;
- the library's query-string builder and its fetch trigger;
- the difficulty colour and label mappings;
- the handlers' method dispatch, their SQL query builders (one
  `AND` clause per supplied filter, then a fixed `ORDER BY`), their
  post-processing of `created_at`, the answer check of the `solve`
  action, and the view counter.

Modules follow the source files: `Calculator`, `Videos`, `Puzzles`,
`TextbookView`, `TaskSolution`, `IndexPage`, `Library` and `ExamPrep` for
the pages; `TasksApi`, `GradesApi`, `VideosApi` and `ExamApi` for the
handlers. Four modules hold what they share:

- `Common`: Option/Result, decimal numerals, the restricted case folding
  and trimming, substring search, order-preserving filtering.
- `Py`: Python values, truthiness, `str()` and `int()`.
- `Http`: responses, `json.dumps`, and the `Outcome` of a request.
- `SqlQuery`: the `WHERE 1=1` query builder, specified once by a table
  of conditions. `SqlQuery.AddCondition` is the `if v: query += ...` step
  proved against that specification.

`CreatedAt` is the `created_at` post-processing loop.

Pages whose state cells change step by step are classes:
`Calculator.CalculatorPage`, `Puzzles.PuzzlesPage`,
`TaskSolution.TaskSolutionPage`, `IndexPage.HomePage`,
`Library.LibraryPage` and `Library.SearchParams`. Each method states its
new state as a pure function of the old one; the properties are lemmas
about those functions.

The database is a parameter `db: Statement -> seq<Row>`: the rows a
statement returns. A handler's result is an `Outcome`: the statements it
executed, in order, and either the response or the Python exception that
escapes. Network responses on the pages are parameters too (`Option` for
a field that may be missing). The calculator's `eval` is a parameter
`evaluate: string -> Option<real>`, and `toText` renders its value.

## Model

| member | source | states |
|---|---|---|
| Calculator.NumberKey | src/pages/Calculator.tsx:14-20 | a number or point key replaces a display of exactly "0" and is appended to any other display; equation and result are untouched |
| Calculator.OperatorKey | src/pages/Calculator.tsx:22-25 | the equation becomes display + " " + op + " ", whatever was pending; the display becomes "0"; the result is kept |
| Calculator.ReplaceFirstAbsent | src/pages/Calculator.tsx:30 | `replace` with a string pattern leaves a text without the glyph unchanged |
| Calculator.ReplaceFirstAt | src/pages/Calculator.tsx:30 | `replace` changes only the first occurrence of the glyph |
| Calculator.EqualKey | src/pages/Calculator.tsx:27-37 | on success the value becomes the result and, as text, the display, and the equation is cleared; on failure the display becomes "Ошибка" and equation and result are kept |
| Calculator.ClearKey | src/pages/Calculator.tsx:39-43 | from any state: display "0", empty equation, no result |
| Calculator.KeypadRoutes | src/pages/Calculator.tsx:45-95 | of the sixteen keypad buttons, the digits and the point reach the number handler, "=" the equals handler, and the rest, which are exactly the four operators, the operator handler |
| Calculator.AnswerPanel | src/pages/Calculator.tsx:119 | the answer panel is shown after a key iff it was shown before or the key was a successful "="; it is hidden after clear |
| Calculator.DropLeadingZeros | src/pages/Calculator.tsx:15-18 | what remains of typed keys after leading zeros is a suffix of them that does not start with '0' |
| Calculator.TypingAppends | src/pages/Calculator.tsx:14-20 | typing keys on a display other than "0" appends them all, and nothing else changes |
| Calculator.TypingFromZero | src/pages/Calculator.tsx:14-20 | typing keys from a display of "0" shows them without their leading zeros, and nothing else changes |
| Calculator.TranslateOperator | src/pages/Calculator.tsx:29-30 | in "left op right" with glyph-free operands, the two replacements turn the operator glyph into its JavaScript operator and change nothing else |
| Calculator.FreeOfGlyphsAppend | src/pages/Calculator.tsx:30 | joining two glyph-free texts gives a glyph-free text |
| Calculator.TypedFreeOfGlyphs | src/pages/Calculator.tsx:14-20 | typed digits contain no operator glyph |
| Calculator.EvaluatesPendingOperation | src/pages/Calculator.tsx:29-30 | a pending "d1 op " with display d2 is evaluated as "d1 op d2", op made a JavaScript operator |
| Calculator.EvaluatesOperandsAndOperator | src/pages/Calculator.tsx:14-30 | after an operand, an operator and typed keys, "=" evaluates "operand op typed", op made a JavaScript operator |
| Calculator.SevenPlusEight | src/pages/Calculator.tsx:14-30 | keys 7, +, 8 hand "7 + 8" to the evaluator |
| Calculator.PressKeepsWellFormed | src/pages/Calculator.tsx:22-43 | the pending equation stays either empty or "operand operator " under every key and under clear |
| Calculator.CalculatorPage.constructor | src/pages/Calculator.tsx:10-12 | the page starts with display "0", no equation and no result |
| Calculator.CalculatorPage.HandleNumber | src/pages/Calculator.tsx:14-20 | the state cells become NumberKey of the old ones |
| Calculator.CalculatorPage.HandleOperator | src/pages/Calculator.tsx:22-25 | the state cells become OperatorKey of the old ones |
| Calculator.CalculatorPage.HandleEqual | src/pages/Calculator.tsx:27-37 | the state cells become EqualKey of the old ones |
| Calculator.CalculatorPage.HandleClear | src/pages/Calculator.tsx:39-43 | the state cells become ClearKey of the old ones |
| Calculator.CalculatorPage.PressButton | src/pages/Calculator.tsx:91-95 | a keypad press changes the cells as the dispatched handler does |
| Videos.FilteredVideosSpec | src/pages/Videos.tsx:69-73 | the shown videos keep the loaded order and are exactly those matching every filter in force; a null or 0 filter is not in force; each matching video appears as often as in the loaded list |
| Videos.UnfilteredShowsAll | src/pages/Videos.tsx:69-73 | with both filters null every loaded video is shown |
| Videos.JsRemainder | src/pages/Videos.tsx:77 | JavaScript `%` agrees with the mathematical remainder on a non-negative dividend |
| Videos.PadStart2 | src/pages/Videos.tsx:78 | `padStart(2, '0')` leaves texts of two or more characters alone |
| Videos.FormatDurationShape | src/pages/Videos.tsx:75-79 | for s >= 0: minutes and seconds recombine to s with 0 <= seconds < 60, and the text is the minutes' digits, one ':', and exactly two seconds digits |
| Videos.TwoDigits | src/pages/Videos.tsx:78 | the two-digit seconds field reads back as the seconds |
| Videos.ParseJoined | src/pages/Videos.tsx:78 | a text "m:ss" of digits reads back as m·60 + ss |
| Videos.DurationRoundTrip | src/pages/Videos.tsx:75-79 | reading the duration text back gives the duration: the text determines it |
| Videos.SixtyFiveSeconds | src/pages/Videos.tsx:75-79 | 65 seconds render as "1:05" |
| Videos.NegativeDuration | src/pages/Videos.tsx:75-79 | a negative duration keeps JavaScript's signed remainder: -5 renders as "-1:-5" |
| Puzzles.FilteredPuzzlesSpec | src/pages/Puzzles.tsx:59-63 | the shown puzzles keep the loaded order and are exactly those matching the grade and difficulty filters in force, each as often as in the loaded list |
| Puzzles.Checked | src/pages/Puzzles.tsx:47-57 | a correct answer sets `revealed[id]` to true; a wrong one leaves `revealed` unchanged; no other entry changes |
| Puzzles.Typed | src/pages/Puzzles.tsx:189 | typing sets `userAnswers[id]` to the text and keeps every other entry |
| Puzzles.MissingAnswerNeverCorrect | src/pages/Puzzles.tsx:48 | with nothing typed for the puzzle the check is never correct and reveals nothing |
| Puzzles.CheckIgnoresCaseAndPadding | src/pages/Puzzles.tsx:48-51 | the verdict ignores the case and the surrounding whitespace of the typed answer |
| Puzzles.TypedThenChecked | src/pages/Puzzles.tsx:48-51 | after typing a text, the check holds iff the trimmed, lower-cased text equals the trimmed, lower-cased correct answer |
| Puzzles.CheckKeepsRevealed | src/pages/Puzzles.tsx:28-57 | entries of `revealed` are only ever set to true: every revealed puzzle stays revealed |
| Puzzles.PuzzlesPage.constructor | src/pages/Puzzles.tsx:27-28 | the page starts with no typed answers and nothing revealed |
| Puzzles.PuzzlesPage.TypeAnswer | src/pages/Puzzles.tsx:189 | `userAnswers` becomes Typed of the old map; `revealed` is kept |
| Puzzles.PuzzlesPage.CheckAnswer | src/pages/Puzzles.tsx:47-57 | reports the verdict; `revealed` becomes Checked of the old map; `userAnswers` is kept |
| TextbookView.JsNumber | src/pages/TextbookView.tsx:55 | `Number` of a route id is a non-negative integer or NaN |
| TextbookView.JsNumberOfDecimal | src/pages/TextbookView.tsx:55 | `Number` reads a decimal numeral back as its value |
| TextbookView.FindByIdSpec | src/pages/TextbookView.tsx:55 | `find` returns the first textbook with the id, and nothing exactly when no textbook has it |
| TextbookView.FindTextbookByRoute | src/pages/TextbookView.tsx:55-56 | the textbook shown for route id n is `find`'s result for n: the first textbook with id n, or none when no textbook has that id |
| TextbookView.NoTextbookList | src/pages/TextbookView.tsx:55-56 | a response without a `textbooks` list shows no textbook |
| TextbookView.FilteredSolutionsSpec | src/pages/TextbookView.tsx:93-97 | the shown solutions keep the loaded order and are exactly those matching the difficulty filter and the page search in force, each as often as in the loaded list |
| TextbookView.PageSearchMatchesPage | src/pages/TextbookView.tsx:95 | searching for the numeral of n keeps exactly the solutions on page n |
| TextbookView.LeadingZeroMatchesNothing | src/pages/TextbookView.tsx:95 | a page search with a leading zero, such as "05", matches no solution |
| TextbookView.ResetShowsAll | src/pages/TextbookView.tsx:242 | after the reset (no difficulty, empty search) every solution is shown |
| TextbookView.CountIgnoresFilters | src/pages/TextbookView.tsx:57-280 | the count shown is the loaded count, never below the filtered count; a missing `solutions` list counts 0 |
| TaskSolution.StepButtons | src/pages/TaskSolution.tsx:167-183 | Prev and Next keep the step in range; each button is disabled exactly when pressing it would not move the step; otherwise it moves by one |
| TaskSolution.OneHighlightedCard | src/pages/TaskSolution.tsx:137-177 | exactly one step card is highlighted, the current one, and the counter shows a step between 1 and the step count |
| TaskSolution.RepeatedPresses | src/pages/TaskSolution.tsx:171-182 | k presses of Next give min(len-1, cur+k), k presses of Prev give max(0, cur-k) |
| TaskSolution.LikeToggle | src/pages/TaskSolution.tsx:112-116 | the count exceeds the task's likes exactly while liked; each press moves it by one |
| TaskSolution.DifficultyColor | src/pages/TaskSolution.tsx:61-72 | 'Лёгкая' is green, 'Средняя' yellow, 'Сложная' red, everything else gray, each in both directions |
| TaskSolution.TaskSolutionPage.constructor | src/pages/TaskSolution.tsx:58-59 | the page starts at step 0, not liked, with the sample task's four steps and 342 likes |
| TaskSolution.TaskSolutionPage.PrevClick | src/pages/TaskSolution.tsx:171 | the step becomes max(0, step-1); the like state is kept |
| TaskSolution.TaskSolutionPage.NextClick | src/pages/TaskSolution.tsx:182 | the step becomes min(len-1, step+1); the like state is kept |
| TaskSolution.TaskSolutionPage.LikeClick | src/pages/TaskSolution.tsx:112-116 | the like state flips and the shown count moves by one, so two presses restore it |
| IndexPage.SearchResultsSpec | src/pages/Index.tsx:16-18 | the results keep the catalogue order and are exactly the subjects whose lower-cased name contains the lower-cased query, each as often as in the catalogue |
| IndexPage.EmptyQueryMatchesAll | src/pages/Index.tsx:16-18 | an empty query matches every subject |
| IndexPage.SearchIgnoresQueryCase | src/pages/Index.tsx:16-18 | the query's case does not change the results |
| IndexPage.FullNameFindsSubject | src/pages/Index.tsx:16-18 | typing a subject's name, in any case, finds that subject |
| IndexPage.NothingFoundMeansNoMatch | src/pages/Index.tsx:42-63 | "Ничего не найдено" is shown iff the query is non-empty and no subject name contains it |
| IndexPage.GridSpec | src/pages/Index.tsx:86-87 | the grid keeps the catalogue order and shows every subject when none is selected, otherwise exactly those named as the selection, each as often as in the catalogue |
| IndexPage.NoSelectionShowsAll | src/pages/Index.tsx:86-87 | with no selection the grid shows the whole catalogue |
| IndexPage.SelectingShowsOneCard | src/pages/Index.tsx:86-93 | with distinct names, selecting a subject leaves exactly its card |
| IndexPage.SelectingMathematics | src/pages/Index.tsx:86-87 | selecting "Математика" shows only the first catalogue card (src/data/subjects.ts holds the catalogue) |
| IndexPage.HomePage.constructor | src/pages/Index.tsx:13-14 | the page starts with an empty query and no selection |
| IndexPage.HomePage.TypeQuery | src/pages/Index.tsx:38 | the query becomes the typed text; the selection is kept |
| IndexPage.HomePage.ChooseResult | src/pages/Index.tsx:52-55 | choosing a result selects its name and clears the query, which hides the dropdown |
| IndexPage.HomePage.ClickCard | src/pages/Index.tsx:93 | clicking a card selects its name; the query is kept |
| IndexPage.HomePage.ResetFilter | src/pages/Index.tsx:77 | the reset button clears the selection, so the grid shows every subject |
| Library.Join | src/pages/Library.tsx:86 | the joined text starts with the first piece, followed by the separator when more pieces follow; one piece joins to itself |
| Library.Split | src/pages/Library.tsx:86 | splitting yields at least one piece, and no piece contains the separator |
| Library.JoinSplit | src/pages/Library.tsx:86 | joining the pieces of a split gives the text back |
| Library.SplitFree | src/pages/Library.tsx:86 | a text without the separator splits into itself |
| Library.SplitAtSeparator | src/pages/Library.tsx:86 | splitting at the first separator peels off the piece before it |
| Library.SplitJoin | src/pages/Library.tsx:86 | splitting the join of separator-free pieces gives the pieces back |
| Library.SplitPair | src/pages/Library.tsx:86 | a "name=value" pair splits back into name and value |
| Library.ParseSerialize | src/pages/Library.tsx:81-86 | parsing the serialised query string of plain parameters gives them back, in order |
| Library.NumeralIsPlain | src/pages/Library.tsx:82-84 | a decimal numeral contains neither '&' nor '=' |
| Library.FilterParamsOrder | src/pages/Library.tsx:81-84 | the parameter names appear in the fixed order grade_id, subject_id, year |
| Library.FilterParamsSpec | src/pages/Library.tsx:73-84 | each selected filter contributes its name and decimal value, nothing else is added, and there are no parameters iff no filter would trigger a fetch |
| Library.FilterParamsPlain | src/pages/Library.tsx:81-84 | the filter parameters need no escaping |
| Library.ParamsIdentifyFilters | src/pages/Library.tsx:81-84 | two filter states give the same parameters iff they agree on every filter in force |
| Library.FilteredUrl | src/pages/Library.tsx:86 | the request is the textbooks endpoint followed by the serialised parameters |
| Library.RequestIdentifiesFilters | src/pages/Library.tsx:78-86 | two filter states request the same URL iff they agree on every filter in force |
| Library.SearchParams.constructor | src/pages/Library.tsx:81 | `new URLSearchParams()` holds no entries |
| Library.SearchParams.Append | src/pages/Library.tsx:82-84 | `append` adds one entry at the end and keeps the others |
| Library.BuildFilteredUrl | src/pages/Library.tsx:78-86 | the URL built by the successive `append` calls is the filtered request URL |
| Library.ResetKeepsTextbooks | src/pages/Library.tsx:72-199 | resetting all three filters issues no fetch, so the previous textbook list stays |
| Library.SelectionFetches | src/pages/Library.tsx:72-94 | a changed selection with a filter set fetches the filtered URL and shows its list, or [] when the field is missing; the URL's query parses back to the filter parameters |
| Library.LibraryPage.constructor | src/pages/Library.tsx:36-42 | the page starts with empty lists and no filters |
| Library.LibraryPage.Loaded | src/pages/Library.tsx:58-61 | each list, `availableYears` included, is the response field or [] when it is missing |
| Library.LibraryPage.Select | src/pages/Library.tsx:72-94 | the filters become the selection and the textbooks become TextbooksAfter of the old state; the other lists are kept |
| Library.LibraryPage.Reset | src/pages/Library.tsx:199 | the filters are cleared and every list is kept |
| ExamPrep.MaterialsUrl | src/pages/ExamPrep.tsx:34 | the request is the exam endpoint followed by "?type=" and the tab |
| ExamPrep.TabRequestsDiffer | src/pages/ExamPrep.tsx:27-34 | two tabs send the same request iff they are the same tab |
| ExamPrep.LoadedMaterials | src/pages/ExamPrep.tsx:36 | the materials are the response field, or [] when it is missing |
| ExamPrep.DifficultyColor | src/pages/ExamPrep.tsx:44-51 | 'easy' is green, 'medium' yellow, 'hard' red, every other string gray, each in both directions |
| ExamPrep.DifficultyLabel | src/pages/ExamPrep.tsx:53-60 | the three known difficulties get their Russian labels; any other string is shown unchanged |
| ExamPrep.BadgeAgrees | src/pages/ExamPrep.tsx:44-60 | a difficulty is relabelled iff it gets a colour other than gray, and distinct known difficulties get distinct labels |
| ExamPrep.LabelsCanCoincide | src/pages/ExamPrep.tsx:53-60 | the unknown string "Лёгкий" shows the same label as 'easy' but in gray |
| Common.NatToString | src/pages/Videos.tsx:77 | `String(n)` of a natural number is a non-empty run of digits without a leading zero |
| Common.DigitsValueOfNatToString | src/pages/TextbookView.tsx:95 | reading the decimal text of n gives n back |
| Common.NatToStringInjective | src/pages/TextbookView.tsx:95 | distinct natural numbers have distinct decimal texts |
| Common.IntToStringInjective | src/pages/Videos.tsx:77-78 | distinct integers, negative ones included, have distinct decimal texts |
| Common.Lower | src/pages/Puzzles.tsx:48-51 | `toLowerCase()` keeps the length and folds each character on its own |
| Common.LowerIdempotent | src/pages/Index.tsx:17 | lower-casing twice is lower-casing once |
| Common.TrimLowerCommute | src/pages/Puzzles.tsx:48-51 | trimming and lower-casing may be applied in either order |
| Common.TrimIgnoresPadding | backend/tasks/index.py:121 | `strip()`/`trim()` removes exactly the surrounding whitespace: added padding does not change the result |
| Common.Contains | src/pages/Index.tsx:17 | `includes` holds iff the pattern occurs at some position |
| Common.ContainsEmpty | src/pages/Index.tsx:17 | every text includes the empty text |
| Common.FilterCounts | src/pages/Videos.tsx:69-73 | `filter` keeps every passing value as often as it occurs in the list, and no other value |
| Common.FilterIsSubsequence | src/pages/Videos.tsx:69-73 | `filter` returns a subsequence: the kept elements stay in their order |
| Common.FilterMembership | src/pages/Videos.tsx:69-73 | an element is in the filtered list iff it is in the list and passes the test |
| Common.FilterAllKept | src/pages/Videos.tsx:69-73 | when every element passes, `filter` returns the list unchanged |
| Common.FilterNoneKept | src/pages/Index.tsx:46-62 | when no element passes, `filter` returns the empty list |
| Common.FilterUnique | src/pages/Index.tsx:86-87 | when exactly one element passes, `filter` returns just that element |
| Common.FilterCongruent | src/pages/Index.tsx:16-18 | two tests that agree on every element filter the same way |
| Py.StrOfValues | backend/tasks/index.py:121 | `str()` of a string is the string; None, True and False print as "None", "True", "False"; an integer prints as its numeral |
| Py.IsoFormat | backend/grades/index.py:98 | `isoformat()` exists only on a datetime, and joins date and time with 'T' |
| Py.Get | backend/tasks/index.py:72-83 | `dict.get` returns the value of a present key and the default otherwise |
| Py.Param | backend/grades/index.py:69-71 | a missing query parameter reads as None |
| Py.ParseInt | backend/tasks/index.py:48 | `int()` fails only with ValueError |
| Py.ParseIntAccepts | backend/tasks/index.py:48 | `int()` accepts exactly an optional sign and decimal digits within whitespace, and its value is the signed digits' value |
| Py.ParseIntOfNumeral | backend/tasks/index.py:48 | `int()` reads a numeral back as its value |
| Py.ParseIntIgnoresPadding | backend/tasks/index.py:48 | `int()` ignores surrounding whitespace |
| Py.ParseIntRejectsBlank | backend/tasks/index.py:48 | `int()` of a blank text raises ValueError |
| Http.Encode | backend/tasks/index.py:132-136 | `json.dumps` raises TypeError exactly on a datetime |
| Http.EncodeRow | backend/tasks/index.py:100 | a row encodes iff none of its values is a datetime, key for key |
| Http.EncodeRows | backend/tasks/index.py:64-66 | a list of rows encodes iff every row does, one entry per row, in order |
| Http.EncodeValues | backend/grades/index.py:145-153 | a list of values encodes iff none is a datetime, one entry per value |
| Http.Preflight | backend/tasks/index.py:13-24 | the pre-flight answer is 200 with an empty body, origin "*", the allowed methods and max-age 86400 |
| Http.ErrorResponse | backend/tasks/index.py:113-119 | an error answer is the status with a JSON body `{"error": message}` |
| Http.FetchOne | backend/tasks/index.py:111 | `fetchone` is the first row, or None when there is none |
| Http.Method | backend/tasks/index.py:11 | a missing `httpMethod` reads as "GET" |
| Http.Params | backend/tasks/index.py:32 | missing or null `queryStringParameters` read as {} |
| Http.BodyData | backend/tasks/index.py:71 | a missing body parses as {} |
| Http.ListResponse | backend/tasks/index.py:58-68 | a listing is 200 with one JSON entry per row under its key, or the encoder's TypeError |
| SqlQuery.ClauseText | backend/tasks/index.py:47-54 | a text filter is quoted verbatim; a numeric filter is written as the value `int()` reads, and raises ValueError when `int()` rejects it |
| SqlQuery.ClausesFail | backend/tasks/index.py:47-54 | building fails iff some supplied numeric filter is rejected, and then with ValueError |
| SqlQuery.QueryFails | backend/tasks/index.py:38-56 | the query fails iff some supplied numeric filter is rejected, and then with ValueError |
| SqlQuery.NoClauses | backend/tasks/index.py:47-54 | with no filter supplied no clause is added |
| SqlQuery.NothingSupplied | backend/tasks/index.py:38-56 | with no filter supplied the query is the fixed text and the order |
| SqlQuery.QueryFrame | backend/tasks/index.py:38-56 | a built query starts with the fixed text and ends with the `ORDER BY` |
| SqlQuery.ClauseOccurs | backend/tasks/index.py:47-54 | every supplied filter's clause occurs among the clauses |
| SqlQuery.ClausesInOrder | backend/tasks/index.py:47-54 | clauses occur in the order of their filters |
| SqlQuery.QueryHasClauses | backend/tasks/index.py:38-56 | in the query, each supplied filter's clause appears, in filter order |
| SqlQuery.QueryHasClause | backend/tasks/index.py:38-56 | each supplied filter's clause appears in the query |
| SqlQuery.OneClause | backend/tasks/index.py:47-54 | with one filter supplied the clauses are its clause alone |
| SqlQuery.OneSupplied | backend/tasks/index.py:38-56 | with one filter supplied the query is fixed text + its clause + order, or ValueError |
| SqlQuery.ClausesSnoc | backend/tasks/index.py:47-54 | one more filter extends the clauses by one step |
| SqlQuery.FailurePersists | backend/tasks/index.py:47-54 | once a filter is rejected, the rest do not matter: the exception escapes |
| SqlQuery.QueryEnds | backend/tasks/index.py:38-56 | the step-by-step query starts as the fixed text and ends as the specified query |
| SqlQuery.SoFarFails | backend/tasks/index.py:47-54 | an exception part-way is the query's exception |
| SqlQuery.AddClause | backend/tasks/index.py:47-48 | one `if v: query += ...` step extends the query by its filter's clause |
| SqlQuery.AddCondition | backend/tasks/index.py:47-54 | one step keeps the query equal to the specification so far, raises only what the whole query raises, and never raises for a text filter |
| SqlQuery.NumeralClause | backend/tasks/index.py:48 | a numeric filter given as a numeral is written as that numeral |
| TasksApi.TasksQuery | backend/tasks/index.py:38-56 | the handler's successive `query +=` build exactly the specified task query |
| TasksApi.TasksQueryFails | backend/tasks/index.py:47-54 | the task query fails iff a supplied grade, subject or page is not an integer, with ValueError |
| TasksApi.TasksQueryFrame | backend/tasks/index.py:38-56 | the task query starts with the fixed SELECT and ends with `ORDER BY t.page_number, t.task_number`, and is exactly those with no filter |
| TasksApi.TasksFiltersInOrder | backend/tasks/index.py:47-54 | supplied filters appear in the order grade_id, subject_id, difficulty, page_number |
| TasksApi.DifficultyVerbatim | backend/tasks/index.py:52 | the difficulty value appears verbatim between single quotes |
| TasksApi.GradeFilterAlone | backend/tasks/index.py:38-56 | a grade numeral alone gives the fixed SELECT, " AND t.grade_id = n" and the order |
| TasksApi.HandleRequest | backend/tasks/index.py:11-145 | the handler as it runs gives the specified outcome |
| TasksApi.OptionsIsPreflight | backend/tasks/index.py:13-24 | OPTIONS runs no statement and answers the pre-flight for "GET, POST, OPTIONS" |
| TasksApi.OtherRequestsNotAllowed | backend/tasks/index.py:140-145 | any other method, or a POST whose action is neither create nor solve, runs nothing and gets 405 |
| TasksApi.ListRunsQuery | backend/tasks/index.py:31-68 | GET runs only the built query and lists its rows, or raises the builder's ValueError before running anything |
| TasksApi.CreateDefaults | backend/tasks/index.py:74-103 | create runs one insert; difficulty defaults to 'medium', explanation to '', created_by is user_id; success is 200 with `success: true` |
| TasksApi.SolveMissingTask | backend/tasks/index.py:105-119 | a task that does not exist gets 404 "Задача не найдена" after the lookup alone: no attempt is inserted |
| TasksApi.SolveRecordsVerdict | backend/tasks/index.py:105-138 | a found task: lookup then insert of the attempt with its verdict; 200 with the verdict and the stored answer |
| TasksApi.AttemptRecorded | backend/tasks/index.py:121-138 | after the lookup, the attempt is inserted with its verdict, and the answer is 200 with `is_correct` equal to the verdict and the stored answer as `correct_answer` |
| TasksApi.SameAnswerIgnoresCaseAndPadding | backend/tasks/index.py:121 | the verdict ignores case and surrounding whitespace of the submitted answer |
| TasksApi.NumberMatchesNumeral | backend/tasks/index.py:121 | through `str()`, a number matches its numeral |
| TasksApi.MissingAnswerIsNone | backend/tasks/index.py:108-121 | a missing answer is `str(None)`: it matches a stored "none" and not an empty answer |
| GradesApi.SubjectsExcludeRange | backend/grades/index.py:56 | the subjects query excludes exactly the ids 21 through 37 |
| GradesApi.SolutionsQuery | backend/grades/index.py:73-89 | the successive `query +=` build exactly the specified solutions query |
| GradesApi.TextbooksQuery | backend/grades/index.py:115-130 | the successive `query +=` build exactly the specified textbooks query |
| GradesApi.SolutionsQueryFails | backend/grades/index.py:82-87 | the solutions query fails iff a supplied grade, subject or textbook is not an integer, with ValueError |
| GradesApi.TextbooksQueryFails | backend/grades/index.py:123-128 | the textbooks query fails iff a supplied grade, subject or year is not an integer, with ValueError |
| GradesApi.SolutionsFiltersInOrder | backend/grades/index.py:82-87 | supplied filters appear in the order grade, subject, textbook |
| GradesApi.TextbooksFiltersInOrder | backend/grades/index.py:123-128 | supplied filters appear in the order grade, subject, year |
| GradesApi.SolutionsQueryFrame | backend/grades/index.py:73-89 | the solutions query starts with the fixed SELECT and ends with `ORDER BY ts.page_number, ts.task_number` |
| GradesApi.TextbooksQueryFrame | backend/grades/index.py:115-130 | the textbooks query starts with the fixed SELECT and ends with `ORDER BY t.year DESC, t.title` |
| GradesApi.AvailableYears | backend/grades/index.py:142-145 | the years list has one entry per row, that row's year, or raises KeyError |
| GradesApi.HandleRequest | backend/grades/index.py:11-163 | the handler as it runs gives the specified outcome |
| GradesApi.NonGetAnsweredAtOnce | backend/grades/index.py:13-32 | OPTIONS gets the pre-flight for "GET, OPTIONS", any other non-GET method 405, both before any statement |
| GradesApi.GradesByDefault | backend/grades/index.py:39-53 | without a resource parameter, or with null parameters, the grades are listed |
| GradesApi.UnknownResourceRejected | backend/grades/index.py:157-163 | an unknown resource gets 400 "Unknown resource" and runs nothing |
| GradesApi.SolutionsListed | backend/grades/index.py:91-108 | the solutions are the converted rows, same count and order, or the conversion's exception |
| GradesApi.TextbooksListed | backend/grades/index.py:132-155 | the textbooks are the converted rows, with the available years from the second query |
| CreatedAt.ConvertCreatedAt | backend/grades/index.py:96-98 | a present, truthy `created_at` becomes its ISO string, or AttributeError when not a datetime; every other key and every other row is unchanged |
| CreatedAt.ConvertRows | backend/grades/index.py:94-99 | the loop appends exactly the converted rows, or stops with the first row's exception |
| CreatedAt.FailureStays | backend/grades/index.py:94-99 | an exception on a prefix of the rows is the exception of the whole loop |
| CreatedAt.ConvertedRowsSpec | backend/grades/index.py:94-99 | the conversion succeeds iff every row converts; then it has one converted row per row, in order; it fails with AttributeError |
| CreatedAt.ConvertedRowsEncode | backend/grades/index.py:94-108 | rows whose only datetime is `created_at` convert and then encode |
| VideosApi.VideosQuery | backend/videos/index.py:36-49 | the successive `query +=` build exactly the specified video query |
| VideosApi.VideosQueryFails | backend/videos/index.py:44-47 | the video query fails iff a supplied grade or subject is not an integer, with ValueError |
| VideosApi.VideosQueryFrame | backend/videos/index.py:36-49 | the video query starts with the fixed SELECT and ends with `ORDER BY v.created_at DESC` |
| VideosApi.VideosFiltersInOrder | backend/videos/index.py:44-47 | with both filters supplied the grade clause comes before the subject clause |
| VideosApi.TimestampBreaksList | backend/videos/index.py:51-61 | as written: a row carrying a datetime `created_at` makes the listing raise TypeError |
| VideosApi.ConvertedListSucceeds | backend/videos/index.py:51-61 | with the conversion the other handlers apply, such rows are listed one entry per row; without timestamps both listings agree |
| VideosApi.HandleRequest | backend/videos/index.py:11-121 | the handler as it runs gives the specified outcome; a GET hands the rows to the encoder unconverted |
| VideosApi.HandleCorrected | backend/videos/index.py:11-121 | the handler with the corrected list answers every request other than GET exactly as the handler as written |
| VideosApi.CorrectionFixesList | backend/videos/index.py:51-61 | a GET whose rows carry a datetime `created_at` raises TypeError in the handler as written and lists one entry per row in the corrected handler |
| VideosApi.OptionsIsPreflight | backend/videos/index.py:13-24 | OPTIONS runs nothing and answers the pre-flight for "GET, POST, OPTIONS" |
| VideosApi.OtherRequestsNotAllowed | backend/videos/index.py:116-121 | any other method, or a POST whose action is neither create nor view, runs nothing and gets 405 |
| VideosApi.CreateDefaults | backend/videos/index.py:67-94 | create runs one insert; description and thumbnail_url default to '', duration to 0 |
| VideosApi.AfterView | backend/videos/index.py:99-102 | the update adds exactly 1 to the viewed video's count and changes no other count |
| VideosApi.ViewCountsOne | backend/videos/index.py:96-114 | view runs one update and answers 200 with the new count, or 0 when no video matched |
| ExamApi.ExamQuery | backend/exam/index.py:43-55 | the successive `query +=` build exactly the specified exam query |
| ExamApi.ExamQueryFails | backend/exam/index.py:50-53 | the exam query fails iff a supplied subject is not an integer, with ValueError |
| ExamApi.ExamQueryFrame | backend/exam/index.py:43-55 | the exam query starts with the fixed SELECT and ends with `ORDER BY ep.created_at DESC` |
| ExamApi.ExamFiltersInOrder | backend/exam/index.py:50-53 | with both filters supplied the type clause comes before the subject clause |
| ExamApi.TypeVerbatim | backend/exam/index.py:51 | the exam type appears verbatim between single quotes |
| ExamApi.HandleRequest | backend/exam/index.py:11-74 | the handler as it runs gives the specified outcome |
| ExamApi.NonGetAnsweredAtOnce | backend/exam/index.py:13-32 | OPTIONS gets the pre-flight, any other non-GET method 405, both before any statement |
| ExamApi.MaterialsListed | backend/exam/index.py:57-74 | the materials are the converted rows, same count and order, or the conversion's exception |

## Left out

- `eval` (src/pages/Calculator.tsx:30) is a parameter: which texts it accepts and the number it yields (JavaScript floating point, `Infinity` for a division by zero) are not modelled, nor is `Number.prototype.toString`.
- The calculator has no step-by-step explanation and no division-by-zero message. The explanation card (src/pages/Calculator.tsx:136-140) is static text, so neither is modelled.
- Network requests (`fetch`, `Promise.all`, `response.json()`): a response is a parameter, and a missing field is `None`. Loading spinners, `catch` logging and the `loading` flag are not modelled.
- The database connection, `cursor.execute`, `fetchall`, `fetchone` and `commit` are a function from statement to rows. Parameter binding (`%s`) is kept as the argument list; what the database does with the SQL is not modelled.
- Case folding covers ASCII and the basic Cyrillic capitals (U+0400 to U+042F). Whitespace for `trim()`/`strip()` is space, `\t`, `\n`, `\r`, `\v` and `\f`. The further characters Python's `strip()` removes (`\x1c` to `\x1f`, `\x85`, Unicode spaces), the Unicode spaces JavaScript's `trim()` removes, and other Unicode letters are left out.
- Python `int()` is restricted to ASCII digits with an optional sign; underscores and non-ASCII digits are left out. JavaScript `Number()` on a route id is restricted to trimmed ASCII decimal digits, so "" is 0 and anything else is NaN. Signed forms (`Number("+5")` is 5, `Number("-5")` is -5), hexadecimal, exponents and fractions are left out.
- The JavaScript truthiness of a selected filter: a numeric filter is in force iff it is set and not 0. NaN never arises from the buttons and is left out.
- Python values are None, booleans, integers, strings and datetimes. Floats, `Decimal`, lists and dicts are left out, so `str(user_answer)` of a JSON number such as 3.5 (backend/tasks/index.py:121) and rows holding such values are outside the model.
- `json.dumps` details (`ensure_ascii`, key order, escaping) are left out; the body is a JSON value.
- GradesApi.SubjectsExcludeRange: the subjects query text is built from the list of excluded ids rather than proved equal, character by character, to the literal at backend/grades/index.py:56.
- JSX rendering, CSS classes, `alert`, `window.open`, navigation and the "Все" / "Сбросить фильтры" buttons beyond the state they set.
- Library.LibraryPage.Select: the `loading` flag set around the request and the years list it does not touch are not modelled beyond being kept.
- TaskSolution: the step contents, the tabs and the related-task list are static data and are not modelled; only the step count (4) and the like count (342) are used.
- src/pages/Donate.tsx, src/pages/Profile.tsx, src/pages/Reviews.tsx, src/pages/TeacherPanel.tsx and src/App.tsx are not part of this model: they hold a payment redirect, browser storage, static lists with form resets, and the routing table. src/data/subjects.ts is used only as the catalogue of `IndexPage`.

## Findings

| source | as written | input that shows it | evidently intended | confidence | as-written member | corrected member |
|---|---|---|---|---|---|---|
| backend/videos/index.py:51-61 | the video rows go to `json.dumps` without the `created_at` → ISO conversion that backend/grades/index.py:94-99 and backend/exam/index.py:60-65 apply | a GET whose query returns a row with a datetime `created_at` (the query orders by `v.created_at`, so the column exists) raises TypeError instead of listing the videos | convert `created_at` of each row before encoding, as the other list handlers do | not executed | VideosApi.TimestampBreaksList | VideosApi.CorrectionFixesList |
