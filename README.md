# CommitZero, modelled in Dafny

CommitZero is a command-line tool for Conventional Commits 1.0.0 messages. It asks for a commit
interactively, formats the answers, parses and lints messages, and installs and removes a managed
block in git hooks. Its messages come in English, Portuguese and Spanish. Around it are a version
check, a release rehearsal script, a README checker and the documentation site's script. This
project models the deterministic core of each of these as Dafny, with one module per source file:

| module | source | form |
|---|---|---|
| `Prompt` | `src/cli/commands/commit.ts` (prompts) | the control-character sanitizer; the line editor as a `LineEditor` class whose key handler updates text and cursor; the test-answer context as an `AnswerContext` class; the yes/no and scope validators |
| `CommitFlow` | `src/cli/commands/commit.ts` (`interactiveCommit`) | the whole run from the pre-check to the exit code, with the scope loop as a `while` loop |
| `Select` | `src/cli/commands/select.ts` | window arithmetic and rows as functions; the prompt as a `SelectPrompt` class with `selected` and `cleaned` fields |
| `Parser`, `Formatter`, `Rules` | `src/core/parser.ts`, `formatter.ts`, `rules.ts` | header matching and the line loop; formatting; `lintCommit` pushing errors and warnings in a method |
| `I18n` | `src/i18n/index.ts` | the three message tables, the lookup with language and key fallback, placeholder replacement |
| `HookScripts`, `HookInstall`, `HookCleanup` | `src/hooks/scripts.ts`, `install.ts`, `cleanup.ts` | the hook templates, the managed-block filter as a loop with a skip flag, the hook-directory choices, uninstall and cleanup over a map of files |
| `Postinstall` | `src/hooks/postinstall.ts` | package-manager detection, filling the `package.json` scripts, the climb to the consumer root |
| `Cli` | `src/cli/index.ts` | argument handling, the second sanitizer, the pre-commit command list and its run |
| `VersionCheck`, `Duration`, `Size` | `src/version/check.ts`, `src/utils/time.ts`, `size.ts` | version parsing and precedence, the update-check decision, duration and size parsing |
| `Release`, `ReadmeCheck` | `scripts/simulate-release.js`, `scripts/verify-readmes.js` | version bumping, argument parsing, the command sequence; the README checks |
| `DocsSite` | `docs/assets/js/main.js` | language detection and switching, search, and the theme and navigation toggles as classes |
| `Text`, `Wrappers` | — | the JavaScript string operations the code relies on (`trim`, `split`, `join`, `indexOf`, `includes`, `padEnd`, number printing) and `Option` |

Git, the file system, the terminal, the clock, the network and the environment are parameters:
git results are booleans, a directory of hook files is a `map` from name to text, a key press is
a string from a queue, and `CI`, `NODE_TEST` and the `COMMITSKIP_*` switches are flags.

## Model

| member | source | states |
|---|---|---|
| Prompt.SanitizeSafeIsOneFilter | src/cli/commands/commit.ts:43-52 | the three global replacements together remove exactly the C0 and C1 controls, DEL and the two Unicode line separators, keeping every other character in order |
| Prompt.SanitizeSafeSpec | src/cli/commands/commit.ts:43-52 | the result holds no removed character and every other character of the input, is never longer, leaves clean text unchanged and is idempotent; tab, newline and carriage return are removed, the space kept |
| Prompt.KeyOf | src/cli/commands/commit.ts:188-289 | a key chunk is Ctrl-C, Enter (`\r` or `\n`) or an editing key exactly when it equals that key's code, and anything else is passed on whole |
| Prompt.Step | src/cli/commands/commit.ts:188-289 | a key keeps the cursor within the text and clean text clean; a refusal leaves the state as it was; a submission happens only on Enter, within the limit and not blank when required; only Ctrl-C cancels |
| Prompt.Typed | src/cli/commands/commit.ts:275-288 | an ignored key leaves the text as it is, and a clean key grows it by its own length, the cursor kept within the text |
| Prompt.CursorKeys | src/cli/commands/commit.ts:233-263 | Left and Right move the cursor by one within bounds, both Home codes move it to the start and both End codes to the end, the text unchanged |
| Prompt.DeletingKeys | src/cli/commands/commit.ts:222-273 | both Backspace codes remove the one character before the cursor and move back onto its place; Delete removes the one character at the cursor; at the text's edge neither changes anything |
| Prompt.OtherKeys | src/cli/commands/commit.ts:275-288 | a chunk starting with ESC or a control code is dropped, and any other is inserted at the cursor in sanitized form, the cursor moving past it |
| Prompt.EnterAndCtrlC | src/cli/commands/commit.ts:189-220 | Enter submits the sanitized text unless it is over a non-zero limit (refused with the over-limit message) or the field is required and blank (refused), keeping the text; Ctrl-C cancels |
| Prompt.BackspaceUndoesTyping | src/cli/commands/commit.ts:222-288 | typing a safe character and then Backspace restores the state before |
| Prompt.LeftDeleteIsBackspace | src/cli/commands/commit.ts:222-273 | Left followed by Delete has the effect of Backspace |
| Prompt.RefusalMessage | src/cli/commands/commit.ts:208-211 | with a language, the required-field message is the lookup of `commit.validation.required`, which no table holds and which therefore comes back as the key itself |
| Prompt.LineEditor.constructor | src/cli/commands/commit.ts:101-102 | the editor starts listening with empty text and the cursor at 0 |
| Prompt.LineEditor.OnKey | src/cli/commands/commit.ts:188-298 | the editor's new state is the one the key step gives; a submission or a cancel detaches the handler and leaves the text as it was |
| Prompt.LineEditor.OnEnter | src/cli/commands/commit.ts:196-220 | Enter submits the current text or refuses it and keeps listening |
| Prompt.LineEditor.OnEditKey | src/cli/commands/commit.ts:222-273 | Backspace, Delete and the cursor keys update the text and cursor as the key step says |
| Prompt.LineEditor.OnOtherKey | src/cli/commands/commit.ts:275-288 | any other key updates the text and cursor as typing it does |
| Prompt.Feed | src/cli/commands/commit.ts:188-306 | feeding keys to the editor ends after at least one key when the prompt ends, and otherwise reads every key |
| Prompt.FeedResolvesAcceptable | src/cli/commands/commit.ts:196-220 | an interactive prompt resolves only on Enter, with text within the limit and not blank when required |
| Prompt.FeedRejectsOnCtrlC | src/cli/commands/commit.ts:189-194 | an interactive prompt rejects only on Ctrl-C |
| Prompt.FeedResolvesClean | src/cli/commands/commit.ts:198-287 | what an interactive prompt resolves with holds no removed character |
| Prompt.AnswerContext.constructor | src/cli/commands/commit.ts:13-25 | the test answers are the parsed array when the variable is set and parses to an array, none otherwise; the raw text is kept whenever the variable is set and parses; the index starts at 0 |
| Prompt.Terminal.constructor | src/cli/commands/commit.ts:121-125 | the terminal starts out of raw mode with nothing read |
| Prompt.CharCountAsk | src/cli/commands/commit.ts:54-118 | answering a character-count prompt never reads a readline line |
| Prompt.EditAsk | src/cli/commands/commit.ts:120-306 | the line editor reads at least one key when it replies and every key when it does not |
| Prompt.TestAnswers | src/cli/commands/commit.ts:72-99 | while test answers remain each prompt consumes exactly one: the sentinel rejects with SIGINT and anything else resolves sanitized; past them the raw variable text is used without consuming, rejecting exactly when it contains the sentinel |
| Prompt.AskWithCharacterCount | src/cli/commands/commit.ts:54-308 | the reply and what is consumed are those of the test answers, then the raw variable text, then the empty text when not interactive, then the line editor; raw mode is restored once the prompt replies |
| Prompt.EditLine | src/cli/commands/commit.ts:120-306 | raw mode is on while keys are fed to a fresh editor, and back as it was once the prompt replies |
| Prompt.EditKeys | src/cli/commands/commit.ts:188-306 | a fresh editor fed the keys gives the line editor's reply |
| Prompt.FeedEditor | src/cli/commands/commit.ts:188-306 | handing the keys one at a time to the editor gives the reply and stopping point of feeding them all |
| Prompt.FeedOne | src/cli/commands/commit.ts:188-289 | one key ends the prompt with the final reply, or leaves the editor listening with the same outcome ahead |
| Prompt.Judge | src/cli/commands/commit.ts:330-358 | a blank answer to a required field and an answer the validator refuses are asked again, unless `NODE_TEST` is set; an accepted answer is kept as it is |
| Prompt.ScriptedValidation | src/cli/commands/commit.ts:320-361 | a reply over test answers consumes at least one and always replies: it resolves, is cancelled, or, after a refusal at the deepest re-ask the call stack holds, rejects with `RangeError` |
| Prompt.LineValidation | src/cli/commands/commit.ts:376-411 | the readline loop reads only the typed lines and either replies or waits for more |
| Prompt.ValidationAsk | src/cli/commands/commit.ts:319-416 | answering a validated prompt never reads raw-mode keys |
| Prompt.ScriptedValidationSteps | src/cli/commands/commit.ts:320-361 | a test answer that trims to the sentinel cancels; an accepted one is consumed alone and resolves trimmed and sanitized; past the end the empty text is consumed when acceptable; what resolves is accepted by the validator and not blank when required, unless `NODE_TEST` is set |
| Prompt.AskWithValidation | src/cli/commands/commit.ts:310-416 | the reply and what is consumed are those of the test-answer loop (with the call stack's room for re-asks), the empty text when not interactive, or the readline loop |
| Prompt.ScriptedLoop | src/cli/commands/commit.ts:320-361 | asking again over the context's test answers gives the test-answer loop's reply and moves the index past what was read |
| Prompt.AskScripted | src/cli/commands/commit.ts:320-361 | the loop of re-asks over the test answers gives the test-answer loop's reply and the index after the last read |
| Prompt.ExhaustedRefusalOverflows | src/cli/commands/commit.ts:320-361 | once the test answers have run out and the validator refuses the empty text, the prompt re-asks until the call stack overflows and rejects with `RangeError`, having read up to the deepest re-ask |
| Prompt.ScriptedResolvesAccepted | src/cli/commands/commit.ts:330-358 | whatever the test-answer loop resolves with was accepted by the validator and is not blank when required, unless `NODE_TEST` is set |
| Prompt.ReadlineLoop | src/cli/commands/commit.ts:376-411 | asking again at the readline prompt gives the readline loop's reply and position |
| Select.MaxLabelLen | src/cli/commands/select.ts:60 | the width is the length of the longest label, each label being the item's label or else its value |
| Select.Window | src/cli/commands/select.ts:61-68 | the window lies within the list; with a positive limit below the number of items it spans exactly the limit and contains the selected row, and otherwise it is the whole list |
| Select.MaxVisible | src/cli/commands/select.ts:110-112 | a known terminal height gives `Math.max(1, rows - overhead)`: at least one row, at least the height less the overhead, and equal to one of the two; an unknown height gives no limit |
| Select.PointerAsWrittenShiftsLabel | src/cli/commands/select.ts:71-76 | with the pointer as written, the selected row's label starts one column to the right of the other rows' labels |
| Select.RowColumns | src/cli/commands/select.ts:69-77 | with a one-character pointer every row has the pointer or a blank in its first column, a space, the label padded to the width plus one, then the description |
| Select.Rows | src/cli/commands/select.ts:69-78 | one row per item of the window, in order, with the pointer on the selected index; the pointer drawn is the one-character `❯` (U+276F), the corrected pointer of the second finding below |
| Select.RenderItems | src/cli/commands/select.ts:58-80 | the rows drawn are those of the window, with the corrected one-character pointer U+276F, and their count is the window's size |
| Select.OnePointer | src/cli/commands/select.ts:64-78 | the selected row is in the window and exactly one drawn row, the selected one, carries the pointer |
| Select.Wrapping | src/cli/commands/select.ts:153-182 | moving up or down keeps the selection in the list, wraps from first to last and last to first, and an up and a down undo each other |
| Select.SelectPrompt.constructor | src/cli/commands/select.ts:97-122 | the prompt starts with the first item selected, raw mode on, the cursor hidden, the overhead and the visible-row limit computed from the header and the terminal's height |
| Select.SelectPrompt.Cleanup | src/cli/commands/select.ts:124-148 | the first call releases the terminal and later calls change nothing |
| Select.SelectPrompt.Redraw | src/cli/commands/select.ts:154-156 | the lines drawn are the overhead plus the visible rows |
| Select.SelectPrompt.OnData | src/cli/commands/select.ts:150-188 | Up and `k` move up with wrap-around, Down and `j` down; Enter resolves the selected value and Ctrl-C cancels, both after clean-up; any other chunk changes nothing |
| Select.Values | src/cli/commands/select.ts:168 | the values of the items, in order |
| Select.SelectFeed | src/cli/commands/select.ts:150-188 | the prompt ends after at least one key when it resolves or cancels, and reads every key otherwise |
| Select.SelectFeedPicksAnItem | src/cli/commands/select.ts:153-168 | whatever the keys, the prompt only resolves with one of the items' values |
| Select.RunSelect | src/cli/commands/select.ts:97-188 | a started prompt fed the keys has the outcome of handing them to the key handler from the first item |
| Select.WrapThenEnter | src/cli/commands/select.ts:166-187 | over three items, `k` from the first wraps to the last and Enter resolves its value |
| Select.SelectValue | src/cli/commands/select.ts:82-190 | without a terminal or with the select prompt off, the first value (or `undefined` for an empty list) and no key read; otherwise the interactive prompt's outcome, which only resolves with one of the values |
| CommitFlow.YesNoValidator | src/cli/commands/commit.ts:1021-1033 | an answer is accepted exactly when, trimmed and lower-cased, it is empty, n, no, y or yes; otherwise the message is the lookup of `commit.validation.yesNo`, which no table holds and which therefore comes back as the key |
| CommitFlow.YesIsAccepted | src/cli/commands/commit.ts:1021-1043 | every trimmed answer taken as a yes is one the yes/no validator accepts |
| CommitFlow.CheckScope | src/cli/commands/commit.ts:981-996 | a scope passes exactly when, trimmed, it is empty or made of letters, numbers, marks, punctuation, symbols, hyphens, spaces and points and already lower-case; a pattern failure names a character outside the class |
| CommitFlow.AskProgress | src/cli/commands/commit.ts:54-118 | a prompt that replies and moves the reading position leaves less input to read |
| CommitFlow.ScopeLoop | src/cli/commands/commit.ts:967-997 | the scope loop reads only within the input |
| CommitFlow.ScopeLoopAccepts | src/cli/commands/commit.ts:967-997 | a scope the loop lets through passes the scope checks |
| CommitFlow.AskScope | src/cli/commands/commit.ts:964-997 | asking until the scope passes gives the scope loop's reply and reading position |
| CommitFlow.Assemble | src/cli/commands/commit.ts:1070-1084 | the commit carries the picked type and the subject, and the scope and the body only when not empty |
| CommitFlow.AssembledShape | src/cli/commands/commit.ts:1043-1084 | the commit is breaking exactly when the answer is a yes, and then has the one footer `BREAKING CHANGE: details`, otherwise none; the recorded header is the formatted one; the blank-line flags follow the body and the footers |
| CommitFlow.AssembledLayoutPasses | src/cli/commands/commit.ts:1070-1084 | the blank-line and breaking-footer checks never fail on an assembled commit |
| CommitFlow.AssembledLint | src/cli/commands/commit.ts:1086-1096 | the lint passes on an assembled commit exactly when the type is allowed and lower-case, the scope is present when required and, when present, listed (if there is a list), of the allowed characters and lower-case, the subject is not blank and does not end in a point, and a breaking change is allowed |
| CommitFlow.SubjectLimit | src/cli/commands/commit.ts:1005 | the subject limit is the configured one unless it is absent or zero, and then 72 |
| CommitFlow.LintOptionsFor | src/cli/commands/commit.ts:1086-1090 | the lint runs in the command's language |
| CommitFlow.MenuTypes | src/cli/commands/commit.ts:905 | the menu offers the configured types when there are any, and otherwise the default list, never nothing |
| CommitFlow.TypeItems | src/cli/commands/commit.ts:906-910 | one menu item per type, in order, whose value is the type, whose label is the type followed by `:` and whose description is the translation of `type.desc.<type>` |
| CommitFlow.TypePick | src/cli/commands/commit.ts:930-938 | the type menu reads only within the key chunks |
| CommitFlow.PickedTypeIsAllowed | src/cli/commands/commit.ts:905-1090 | when the types are configured and not empty, or not configured, the picked type is one of the menu's and one the lint allows |
| CommitFlow.PickType | src/cli/commands/commit.ts:930-938 | the type menu gives the first type without a terminal or with the select prompt off, and otherwise the interactive select's outcome |
| CommitFlow.Stop | src/cli/commands/commit.ts:935-1057 | a cancelled prompt ends the command with exit code 130 and nothing written |
| CommitFlow.Collect | src/cli/commands/commit.ts:947-1066 | the prompts read only within the input, and a cancel exits 130 without writing |
| CommitFlow.AskAnswers | src/cli/commands/commit.ts:947-1066 | the scope, subject, body, breaking and details prompts give the answers and reading position that collecting them does |
| CommitFlow.Conclude | src/cli/commands/commit.ts:1086-1186 | a commit is written exactly when the lint finds no error and the write of `.git/COMMIT_EDITMSG` works, in its formatted form; a failed write of a valid commit throws to the handler of `main` and exits 2; the exit code is 0 exactly when the message was written, `git commit` worked and, with auto-push, the push worked, and 1 otherwise |
| CommitFlow.Finish | src/cli/commands/commit.ts:1086-1186 | the lint, write, commit and push end as concluding says, a failed write with exit 2 |
| CommitFlow.CommitRun | src/cli/commands/commit.ts:418-1193 | the command exits 0, 1, 2 or 130; 0 only after a push-only pre-check or a write, commit (and, with auto-push, a push) that worked; 2 only when the write of a valid commit failed, with nothing written; 130 with nothing written; a pre-check that stops the command reads nothing |
| CommitFlow.InteractiveCommit | src/cli/commands/commit.ts:418-1193 | the command's outcome and reading position are those of the run over the pre-check, the type menu, the prompts and the conclusion |
| CommitFlow.EmptyTypeListRejectsEveryCommit | src/cli/commands/commit.ts:905-1096 | with an empty configured type list the menu offers the defaults but the lint allows none, so every commit exits 1 without being written |
| CommitFlow.CleanAnswer | src/cli/commands/commit.ts:72-91 | a clean test answer other than the sentinel is the reply, and the answer index moves on by one |
| CommitFlow.ScriptedAnswers | src/cli/commands/commit.ts:947-1066 | four plain test answers, the fourth not a yes, are the scope, subject, body and breaking answers, and exactly four are consumed |
| CommitFlow.BreakingAnswer | src/cli/commands/commit.ts:1020-1042 | a plain test answer to the breaking-change question that the yes/no validator takes (or any, under `NODE_TEST`) is the reply, and exactly one answer is consumed |
| CommitFlow.CollectAnswered | src/cli/commands/commit.ts:947-1066 | when the four prompts reply and the breaking answer is not a yes, their replies are the answers |
| CommitFlow.PlainFormat | src/cli/commands/commit.ts:1104 | a commit with no body and no breaking change is written as its header alone |
| CommitFlow.PlainConclusion | src/cli/commands/commit.ts:1086-1180 | with no body and no breaking change, a passing lint and a working git, the header alone is written and the command exits 0 |
| CommitFlow.ReadyRun | src/cli/commands/commit.ts:905-1186 | with the select prompt off, the first menu type is taken without reading a key, and the prompts that follow run from where the run stood |
| CommitFlow.ScriptedRun | src/cli/commands/commit.ts:905-1186 | four plain test answers with an empty body and no breaking change write `type(scope): subject` and exit 0 when the lint passes and git works |
| CommitFlow.HappyPathExample | test/unit/commit.test.ts:69-92 | the answers `core`, `add login`, empty, `n` with auto-push write `feat(core): add login` and exit 0 |
| CommitFlow.HappyPathReady | test/unit/commit.test.ts:79-81 | the example's answers meet the conditions of a scripted run |
| CommitFlow.HappyPathWords | test/unit/commit.test.ts:79 | the example's answers are plain and taken as they are |
| CommitFlow.HappyPathLint | test/unit/commit.test.ts:79-84 | with no configuration `feat` is the first type offered and the example's commit passes the lint |
| CommitFlow.CancelExample | test/unit/commit.test.ts:94-113 | the test answer `__SIGINT__` at the scope prompt ends the command with exit code 130 |
| Parser.MatchHeader | src/core/parser.ts:6 | a header match has a non-empty lower-case type, a scope that is non-empty and free of `)`, and a non-empty single-line subject |
| Parser.MatchHeaderSound | src/core/parser.ts:6-10 | a match is the header text rebuilt from its type, scope and subject groups around the white space that was there |
| Parser.MatchHeaderText | src/core/parser.ts:6-10 | every well-formed header text is matched back with exactly its groups (the converse of MatchHeaderSound) |
| Parser.MatchHeaderRejectsBang | src/core/parser.ts:6 | the header pattern as written has no `!` group, so it rejects a `type(scope)!: subject` header |
| Parser.MatchFooter | src/core/parser.ts:18 | a footer match has a non-empty key of letters, `-` and spaces and a non-empty single-line value |
| Parser.MatchFooterSound | src/core/parser.ts:18 | a footer match is the line rebuilt as key, `:`, one white-space character, value |
| Parser.MatchFooterLine | src/core/parser.ts:18 | a well-formed `key: value` line is matched back to that footer |
| Parser.FirstFooterIndex | src/core/parser.ts:39 | `findIndex` returns -1 or an index of the array |
| Parser.FirstFooterIndexFinds | src/core/parser.ts:39 | the index found holds a footer line and no footer line precedes it; -1 means no line is a footer |
| Parser.SortLines | src/core/parser.ts:22-30 | the loop yields the footers among the lines after the header, and the other lines as body lines, both in their order |
| Parser.ParseMessage | src/core/parser.ts:3-45 | `parseMessage` returns type, scope, subject (empty when the header does not match), trimmed body or none, footers, `isBreaking` and the blank-line flags, equal to the specification function `Parse` |
| Parser.Parse | src/core/parser.ts:3-45 | defines `parseMessage` on the message split into lines; what it returns is stated by `Parser.ParseMessage`, `Parser.LinesPartitioned`, `Parser.FootersAreMatchedLines` and `Parser.BodyIsTrimmed` |
| Parser.LinesPartitioned | src/core/parser.ts:22-30 | each line after the header becomes exactly one footer or one body line |
| Parser.FootersAreMatchedLines | src/core/parser.ts:22-30 | the footers are exactly the matches of matching lines, and the body lines exactly the lines that do not match |
| Parser.BodyIsTrimmed | src/core/parser.ts:32 | a body is present only when non-empty, and it is already trimmed |
| Formatter.FormatHeaderGroups | src/core/formatter.ts:4-6 | the formatted header is the parser's header text for the commit's type, scope, bang and subject |
| Formatter.FormatHeader | src/core/formatter.ts:4-6 | defines the header `type(scope)!: subject`; `Formatter.FormatHeaderGroups` states that it is the parser's header text for those groups |
| Formatter.FormatLines | src/core/formatter.ts:7-12 | defines the lines of the formatted message; `Formatter.SplitFormat` and `Formatter.ParseFormatLines` state that they are the message's lines and parse back to the commit |
| Formatter.Format | src/core/formatter.ts:3-13 | the message starts with the header `type(scope)!: subject` |
| Formatter.RoundTrip | src/core/formatter.ts:3-13 | parsing a formatted commit gives back its type, scope, subject, body and footers, the blank-line flags, and the breaking flag; the parser as written needs the commit not to carry the formatter's `!` |
| Formatter.SplitFormat | src/core/formatter.ts:12 | splitting the joined parts at line breaks gives the formatted lines back |
| Formatter.BangHeaderRejected | src/core/formatter.ts:5-6 | a breaking commit whose subject has no `!` is formatted with `!`, parsed back with an empty type, and reported by the linter as an invalid type |
| Formatter.ParseFormatLines | src/core/formatter.ts:7-12 | the header, body part and footer part written by the formatter parse back to the commit |
| Formatter.RestStartsBlank | src/core/formatter.ts:8-11 | the line after the header is blank exactly when a body or footers follow |
| Formatter.FooterLinesSorted | src/core/formatter.ts:10 | every formatted footer line is read back by the parser as that footer |
| Formatter.BodyTextBack | src/core/formatter.ts:8 | the body lines written for a body join and trim back to that body |
| Rules.Resolve | src/core/rules.ts:31-68 | `{ ...defaultOptions, ...opts }`: every option given replaces its default and every absent one takes the default of lines 31-51: the default types, no scope list, scope not required, 72 characters, breaking changes allowed, the footer keywords `BREAKING CHANGE`, `Closes` and `Refs`, and English |
| Rules.ResolveGiven | src/core/rules.ts:68 | the spread takes options given in full as they are, whatever the defaults, so resolving resolved options again changes nothing |
| Rules.Check | src/core/rules.ts:73-130 | one check pushes its translated message exactly when its condition fails |
| Rules.WarnUnknownFooters | src/core/rules.ts:132-136 | the footer loop appends one warning per footer whose key is not a keyword, in footer order |
| Rules.HeaderChecks | src/core/rules.ts:73-101 | the type, scope and empty-subject checks push the messages of the checks among the first seven that fail |
| Rules.LayoutChecks | src/core/rules.ts:107-130 | the period, blank-line and breaking-change checks push the messages of the last five checks that fail |
| Rules.LintCommit | src/core/rules.ts:67-139 | `errors` are the translated messages of the failing checks, `warnings` the too-long warning then the unknown-footer ones, and `valid` holds exactly when no check fails |
| Rules.MessagesAreErrorTexts | src/core/rules.ts:73-130 | the messages pushed are the texts of the reported checks, in order |
| Rules.ErrorsInCheckOrder | src/core/rules.ts:73-130 | every failing check is reported, each once, in the order of the checks |
| Rules.ValidIffNoCheckFails | src/core/rules.ts:138 | `valid` holds exactly when none of the twelve checks fails |
| Rules.TypeAndScopeConditions | src/core/rules.ts:73-97 | each type and scope error is reported exactly when its condition holds |
| Rules.CheckReported | src/core/rules.ts:73-130 | check number `j` is reported exactly when it fails |
| Rules.SubjectConditions | src/core/rules.ts:99-101 | a blank subject is an error, and so is a subject whose trimmed text ends with `.` (lines 107-109) |
| Rules.LayoutConditions | src/core/rules.ts:111-121 | a body without the blank line after the header, and footers without the blank line before them, are errors exactly then |
| Rules.BreakingConditions | src/core/rules.ts:123-130 | a breaking change is an error exactly when breaking changes are not allowed, and exactly when it lacks a `BREAKING CHANGE` footer |
| Rules.LengthLimitOnlyWarns | src/core/rules.ts:103-105 | the length limit never changes the errors; the too-long warning appears exactly when the subject exceeds it |
| Rules.UnknownFootersKind | src/core/rules.ts:132-136 | every footer warning names a key that is not a keyword |
| Rules.OneWarningPerUnknownFooter | src/core/rules.ts:132-136 | there is exactly one warning per footer with an unknown key |
| Rules.PlainCommitIsValid | src/core/rules.ts:67-139 | a commit with a known lower-case type, no scope, and a plain subject without a final period, and nothing else, is valid |
| Rules.ValidExample | test/unit/rules.test.ts:5-8 | `{type: "feat", subject: "add x"}` is valid under the default options |
| Rules.UnknownTypeExample | test/unit/rules.test.ts:10-13 | `{type: "foo", subject: "x"}` is reported as an invalid type |
| Rules.MissingBlankAndFooterExamples | test/unit/rules.test.ts:15-23 | a body without the blank line after the header, and a breaking subject without its footer, are errors |
| I18n.Lookup | src/i18n/index.ts:199-201 | the looked-up text is never empty for a non-empty key (`|| key`) |
| I18n.T | src/i18n/index.ts:199-208 | `t` is the table entry, or the key, with each parameter's placeholders replaced in turn; without parameters it is the entry itself |
| I18n.Translate | src/i18n/index.ts:199-208 | defines what `t` returns; `I18n.T` and `I18n.LookupFallsBackToEnglish` state it |
| I18n.Substitute | src/i18n/index.ts:202-206 | defines the replacement of each parameter's placeholder in turn; `I18n.ReplaceAllIsSplitJoin` and `I18n.ReplaceAllAbsent` state one replacement |
| I18n.ReplaceAllIsSplitJoin | src/i18n/index.ts:204 | with a value free of `$`, the global replace turns every occurrence of the placeholder, and nothing else, into the value |
| I18n.ReplaceAllAbsent | src/i18n/index.ts:202-206 | a placeholder without a parameter stays in the text unchanged |
| I18n.LookupFallsBackToEnglish | src/i18n/index.ts:200 | an unknown language uses the English table |
| I18n.MissingKeysComeBackAsKeys | src/i18n/index.ts:201 | the two prompt validation keys with no table entry come back as their own key |
| I18n.SameKeysPt | src/i18n/index.ts:71-133 | the Portuguese table has exactly the English table's keys |
| I18n.SameKeysEs | src/i18n/index.ts:134-196 | the Spanish table has exactly the English table's keys |
| I18n.KeyPlaceholder | src/i18n/index.ts:199-204 | a key whose entry in each of the three tables holds a placeholder keeps it whatever language is asked for |
| I18n.TypeInvalidPlaceholder | src/i18n/index.ts:8-196 | `rules.typeInvalid` carries `{type}` in the English, Portuguese and Spanish tables |
| I18n.ScopeInvalidPlaceholder | src/i18n/index.ts:8-196 | `rules.scopeInvalid` carries `{scope}` in all three tables |
| I18n.SubjectTooLongPlaceholder | src/i18n/index.ts:8-196 | `rules.subjectTooLong` carries `{max}` in all three tables |
| I18n.FooterUnknownPlaceholder | src/i18n/index.ts:8-196 | `rules.footerUnknown` carries `{key}` in all three tables |
| HookScripts.BodiesUnmarked | src/hooks/scripts.ts:3-9 | no line inside either managed block contains a marker or a line break |
| HookInstall.RemoveManagedBlock | src/hooks/install.ts:21-39 | the loop's output equals the specification function `Cleaned` of the text |
| HookInstall.KeptIsFiltered | src/hooks/install.ts:27-37 | the kept lines are a subsequence of the input lines and none of them holds a marker |
| HookInstall.KeptAppend | src/hooks/install.ts:27-37 | filtering a concatenation filters the second part from the state the first part leaves |
| HookInstall.KeptUnmarked | src/hooks/install.ts:27-37 | lines without markers are all kept outside a block and all dropped inside one |
| HookInstall.KeptInsideBlock | src/hooks/install.ts:27-37 | inside a block, lines without an END marker are dropped and the block stays open |
| HookInstall.BlockRemoved | src/hooks/install.ts:21-39 | a managed block is removed together with its marker lines, and the lines around it are kept in order |
| HookInstall.UnterminatedBlock | src/hooks/install.ts:27-37 | a START marker never followed by an END marker drops every line after it |
| HookInstall.UnmarkedTextUnchanged | src/hooks/install.ts:24-38 | text without markers comes back with `\r\n` turned into `\n`, and unchanged when it has no `\r` |
| HookInstall.FilteredIdempotent | src/hooks/install.ts:21-39 | on text without `\r`, removing the managed block a second time changes nothing |
| HookInstall.MarkerLines | src/hooks/scripts.ts:1 | each marker line holds its own marker and not the other |
| HookInstall.ScriptShape | src/hooks/scripts.ts:3-9 | a script splits back into its lines, has its START marker on line 3 and its END marker on the last but one, and cleans to `#!/bin/sh\nset -eu\n` |
| HookInstall.ScriptPreamble | src/hooks/scripts.ts:3-9 | every script starts with the shebang and `set -eu` lines and holds `HOOK_HEADER` |
| HookInstall.CommitMsgScriptShape | src/hooks/scripts.ts:3-5 | `commitMsgScript()` has that shape, and what is left after removing its block is not blank |
| HookInstall.PrepareScriptShape | src/hooks/scripts.ts:7-9 | `prepareCommitMsgScript()` has that shape, and what is left after removing its block is not blank |
| HookInstall.CommitZeroPathIff | src/hooks/install.ts:74-76 | a path is a CommitZero hooks path exactly when it is `.commitzero/hooks` or that directory joined under another |
| HookInstall.GitHooksDirIsForeign | src/hooks/install.ts:74-76 | `.git/hooks` is not a CommitZero hooks path |
| HookInstall.InstallWhereGitLooks | src/hooks/install.ts:125-151 | without an explicit directory, the hooks go where Git will look for them afterwards, and `core.hooksPath` changes only to `.commitzero/hooks` |
| HookInstall.InstallHookDirCases | src/hooks/install.ts:127-150 | an unset path becomes `.commitzero/hooks` (or `.git/hooks` when it cannot be set); a foreign path is replaced only when forced; any other path is kept |
| HookInstall.InstallHookDir | src/hooks/install.ts:127-150 | defines the directory `installHooks` writes to; `HookInstall.InstallHookDirCases` and `HookInstall.InstallWhereGitLooks` state it |
| HookInstall.InstallWritesHooks | src/hooks/install.ts:112-161 | installing fails outside a project root or a Git repository; otherwise the three hook files hold their scripts and every other file is unchanged |
| HookInstall.InstallHooks | src/hooks/install.ts:112-161 | defines `installHooks`; `HookInstall.InstallWritesHooks` states its result |
| HookInstall.UninstallHookDirCases | src/hooks/install.ts:164-175 | uninstall uses `.git/hooks` when no path is configured, an absolute path as it is, and a relative one under the working directory |
| HookInstall.UninstallFileKeepsOrDeletes | src/hooks/install.ts:181-209 | a hook file is deleted exactly when its cleaned text is blank, otherwise rewritten with the cleaned text; no other file changes |
| HookInstall.UninstallFiles | src/hooks/install.ts:181-209 | defines the three hook files handled in turn; `HookInstall.UninstallFileKeepsOrDeletes` states each step |
| HookInstall.DirectoryRemovedIffEmpty | src/hooks/install.ts:211-220 | the directory is removed, and `core.hooksPath` unset, exactly when the configured path is a CommitZero path and no file is left |
| HookInstall.UninstallHooks | src/hooks/install.ts:163-221 | defines `uninstallHooks`; `HookInstall.DirectoryRemovedIffEmpty` and `HookInstall.UninstallAfterInstallKeepsStubs` state its result |
| HookInstall.UninstallAfterInstallKeepsStubs | src/hooks/install.ts:163-221 | after CommitZero's own install, uninstalling leaves `commit-msg` and `prepare-commit-msg` as bare `#!/bin/sh\nset -eu\n` stubs, so the directory is never removed |
| HookCleanup.DirEnd | src/hooks/cleanup.ts:32 | the backwards scan of `dirname` stops at -1 or at a position inside the path |
| HookCleanup.Dirname | src/hooks/cleanup.ts:32 | `dirname` returns the path itself or a strictly shorter path (or `.`), so the upward walk ends |
| HookCleanup.DirnameFixedPoints | src/hooks/cleanup.ts:33 | `/` and `.` are their own parents, which ends the walk |
| HookCleanup.Ancestors | src/hooks/cleanup.ts:26-37 | the walk visits the start directory, then each parent, up to the first directory that is its own parent |
| HookCleanup.FirstWithHooksIsFirst | src/hooks/cleanup.ts:29-35 | the root found is the first visited directory holding `.git/hooks`, or none exists |
| HookCleanup.FindProjectRoot | src/hooks/cleanup.ts:26-37 | the loop returns the specification function `ProjectRoot`: the first ancestor with `.git/hooks`, else the start |
| HookCleanup.CleanupDirCases | src/hooks/cleanup.ts:40-47 | the start directory is `cwd`, else `INIT_CWD`, else the process directory; the hooks directory is `.git/hooks` under the root, or the configured path, absolute or under the root |
| HookCleanup.CleanupHookDir | src/hooks/cleanup.ts:40-47 | defines the hooks directory cleanup works on; `HookCleanup.CleanupDirCases` states it |
| HookCleanup.CleanupHooks | src/hooks/cleanup.ts:39-78 | cleanup works on that directory and leaves its files as `CleanupFiles` says |
| HookCleanup.CleanupNeverDeletes | src/hooks/cleanup.ts:52-74 | cleanup deletes no file: each hook file holds its cleaned text and every other file is unchanged |
| HookCleanup.CleanupFiles | src/hooks/cleanup.ts:52-74 | defines what cleanup writes; `HookCleanup.CleanupNeverDeletes` and `HookCleanup.CleanupFileOfClean` state it |
| HookCleanup.CustomLinesSurvive | src/hooks/cleanup.ts:6-24 | the custom lines around a managed block are kept exactly |
| HookCleanup.CleanupFileOfClean | src/hooks/cleanup.ts:52-58 | cleaning a file whose text is already clean changes nothing |
| HookCleanup.UninstallLeavesCleaned | src/hooks/install.ts:181-209 | each hook file uninstall keeps holds the cleaned text of the original |
| HookCleanup.CleanupAfterUninstallHarmless | src/hooks/cleanup.ts:39-78 | running cleanup after uninstall changes nothing when the hook files had no `\r` |
| Postinstall.LockFilePrecedence | src/hooks/postinstall.ts:4-9 | the package manager is pnpm exactly when `pnpm-lock.yaml` exists, yarn when only `yarn.lock` of the earlier ones does, then bun, and npm otherwise |
| Postinstall.DetectPackageManager | src/hooks/postinstall.ts:4-9 | defines `detectPackageManager`; `Postinstall.LockFilePrecedence` states the precedence of the lock files |
| Postinstall.PmExecDistinct | src/hooks/postinstall.ts:11-22 | each package manager has its own exec command |
| Postinstall.PmExec | src/hooks/postinstall.ts:11-22 | defines `pmExec`; `Postinstall.PmExecDistinct` states that the four commands differ |
| Postinstall.FillScriptsSpec | src/hooks/postinstall.ts:46-59 | the three CommitZero scripts are added when missing or empty, a truthy existing value is kept, and every other script is untouched |
| Postinstall.FillScriptsIdempotent | src/hooks/postinstall.ts:50-59 | filling the scripts a second time changes nothing |
| Postinstall.FillScripts | src/hooks/postinstall.ts:46-59 | defines the scripts `updateScripts` writes; `Postinstall.FillScriptsSpec` and `Postinstall.FillScriptsIdempotent` state them |
| Postinstall.UpdateScripts | src/hooks/postinstall.ts:32-62 | nothing is written exactly when the file is missing, unparsable, a JSON value that is neither an object nor an array, or CommitZero's own package; an array is written back as it was (the scripts set on it are not serialized); a package object whose `scripts` is an array is written back as it was, for the same reason; any other package object is written with the same name and the filled-in scripts, starting from none when `scripts` is absent or not an object |
| Postinstall.FindConsumerRoot | src/hooks/postinstall.ts:64-83 | the loop returns the specification function `ConsumerRoot` |
| Postinstall.ClimbStops | src/hooks/postinstall.ts:68-82 | the search stops at its first consumer directory, having passed only non-consumers, or finds none within six levels |
| Postinstall.ClimbFindsFirst | src/hooks/postinstall.ts:68-82 | the root found is the first of the six directories climbed whose `package.json` parses to a truthy value that is not CommitZero's own package, and none is found only when none of them does |
| Postinstall.UpFixedPoint | src/hooks/postinstall.ts:78-79 | a directory that is its own parent ends the climb where it is |
| Postinstall.InitCwdWins | src/hooks/postinstall.ts:65-66 | a non-blank `INIT_CWD` is the consumer root whatever the directories hold |
| Cli.SanitizeInputSpec | src/cli/index.ts:37-39 | the sanitizer removes exactly U+0000–U+0008, U+000B, U+000C, U+000E–U+001F and U+007F: what is left has none of them, every other character survives in order, clean text is unchanged, a second pass changes nothing, and tab, LF and CR are kept |
| Cli.SanitizeInput | src/cli/index.ts:37-39 | defines `sanitizeInput` as a filter of the characters; `Cli.SanitizeInputSpec` states which characters it removes |
| Cli.ChooseLintInput | src/cli/index.ts:70-80 | defines where `lint` takes its message from; `Cli.LintInputPrecedence` states the precedence of `--file` over `-m` |
| Cli.FlagGuard | src/cli/index.ts:45-63 | a commit flag as the first argument is refused with exit 2, unless `--help` appears anywhere, which always shows the help |
| Cli.ArgIndex | src/cli/index.ts:70-71 | `indexOf` is -1 exactly when the argument is absent, and otherwise the position of its first occurrence |
| Cli.LintInputPrecedence | src/cli/index.ts:70-80 | `--file` followed by a non-empty argument wins; otherwise `-m` followed by one; otherwise there is no input |
| Cli.RunLint | src/cli/index.ts:69-115 | `lint` exits 2 without input and when the file cannot be read; otherwise it lints the sanitized message read by the parser as written (no `!` in the header) and exits 1 exactly when it is invalid, else 0 |
| Cli.RunCheck | src/cli/index.ts:117-145 | `check` exits 2 when `.git/COMMIT_EDITMSG` cannot be read, 1 when the message read by the parser as written is invalid, else 0 |
| Cli.CheckRejectsBreakingCommit | src/cli/index.ts:117-145 | a ready breaking commit formatted by `commit` (header with `!`) is an invalid message for `check`, so the `commit-msg` hook rejects it, unless the empty type is configured |
| Cli.ExampleParses | src/cli/index.ts:89-96 | the example uses the first type, has a scope exactly when a scope is required or listed (the first listed, else `core`), and is a header the parser accepts |
| Cli.PushProgressPrecedence | src/cli/index.ts:250-260 | progress is off with `--progress-off`, else the top-level boolean, else the nested `commitZero.pushProgress`, else on; `-a`/`--add` and `-p`/`--push` are read anywhere |
| Cli.RemoveFirstSpec | src/cli/index.ts:297-303 | `splice(indexOf(x), 1)` removes exactly the first occurrence: the elements before and after it stay in order and the multiset loses one `x` |
| Cli.AddThenRemove | src/cli/index.ts:286-308 | adding an absent command and then removing it restores the list |
| Cli.AddKeepsDistinct | src/cli/index.ts:286-295 | `add` keeps a list without repeated commands free of repeats |
| Cli.EditPreCommit | src/cli/index.ts:265-309 | a blank command, or a JS-only configuration, exits 2 without writing; `add` appends an absent command and writes nothing for a present one; `remove` deletes the first occurrence, or exits 1 without writing when absent |
| Cli.RunPreCommit | src/cli/index.ts:311-335 | the commands run in order until the first failure; exit 0 exactly when all succeed (and an empty list runs nothing), else exit 1 after the failing command |
| VersionCheck.ParseParts | src/version/check.ts:69-73 | three runs of digits separated by points, followed by text that does not start with a digit, are read as their three numbers |
| VersionCheck.ParseRender | src/version/check.ts:69-73 | reading a rendered `M.m.p`, whatever non-digit text follows it, gives the version back |
| VersionCheck.ParseSemver | src/version/check.ts:69-73 | defines `parseSemver`; `VersionCheck.ParseParts` and `VersionCheck.ParseRender` state what it reads |
| VersionCheck.IsNewerIsAbove | src/version/check.ts:75-83 | on two readable versions `isNewer` is precedence: lexicographic greater-than on major, minor, patch |
| VersionCheck.IsNewerFallback | src/version/check.ts:78 | when either version cannot be read, `isNewer(a, b)` is `a !== b` |
| VersionCheck.IsNewer | src/version/check.ts:75-83 | defines `isNewer`; `VersionCheck.IsNewerIsAbove`, `VersionCheck.IsNewerFallback` and `VersionCheck.NotNewerThanItself` state it |
| VersionCheck.AboveIsStrictOrder | src/version/check.ts:79-82 | precedence is irreflexive, asymmetric and transitive |
| VersionCheck.NotNewerThanItself | src/version/check.ts:75-83 | no version text is newer than itself, readable or not |
| VersionCheck.MsForPeriod | src/version/check.ts:51-61 | the period is 7 days exactly for `weekly`, 30 days exactly for `monthly`, and one day (86,400,000 ms) otherwise |
| VersionCheck.ShouldCheck | src/version/check.ts:63-67 | with no recorded check (missing or 0) a check is due; after a recorded check it is due exactly once a whole period has passed |
| VersionCheck.NotDueAgainWithinPeriod | src/version/check.ts:63-67 | a check recorded less than one period ago is not due |
| VersionCheck.PromptsIffNewer | src/version/check.ts:113-126 | the check prompts exactly when it is enabled, due, and the registry gave a version newer than the current one, and then names that version; the equality test adds nothing to `isNewer` |
| VersionCheck.RecordsEveryDueCheck | src/version/check.ts:114-121 | the state is written exactly when the check is enabled and due, with the clock reading taken after the fetch (not the one the due test used) and the version given, or the previous one when none was given |
| VersionCheck.CheckForUpdate | src/version/check.ts:113-126 | defines `checkForUpdate` on the stored state, the fetched version and the two clock readings, before and after the fetch; `VersionCheck.PromptsIffNewer` and `VersionCheck.RecordsEveryDueCheck` state its outcome |
| Duration.ParseTimeToMs | src/utils/time.ts:1-15 | `undefined`, `null` and non-finite numbers give the default; a finite number gives itself, or 0 when negative; text that is all digits once trimmed and lower-cased gives the value of its digits; `<x>s` and `<x>m` give the floor of x × 1000 and of x × 60000; any other text gives the default; any result is non-negative unless it is the default |
| Duration.RoundDiv | src/utils/time.ts:20-21 | `Math.round(n / d)` is the integer within half of `d` of `n / d`, halves rounding up |
| Duration.ParseTimeDigits | src/utils/time.ts:4-6 | the decimal numeral of `n`, with any zeros in front and any white space around it, is read as `n` milliseconds |
| Duration.ParseTimeSeconds | src/utils/time.ts:8-9 | `"<n>s"` is read as `n × 1000` milliseconds |
| Duration.ParseTimeMinutes | src/utils/time.ts:11-12 | `"<n>m"` is read as `n × 60000` milliseconds |
| Duration.ThreeMinutesIsDefault | src/utils/time.ts:1-12 | `"3m"` is the default timeout of 180000 milliseconds |
| Duration.DecimalSeconds | src/utils/time.ts:8-9 | `"1.5s"` is 1500 milliseconds |
| Duration.FormatThenParse | src/utils/time.ts:17-23 | a printed duration of at least one second reads back within half a unit (500 ms for seconds, 30000 ms for minutes); the `"<n>ms"` form is not a form the parser knows and gives the default |
| Duration.FormatDurationMs | src/utils/time.ts:17-23 | defines `formatDurationMs`; `Duration.FormatThenParse` states that its text reads back within half a unit |
| Size.LeadingNumeral | src/utils/size.ts:13 | the `[\d.]+` group is the longest run of digits and points at the front |
| Size.DigitsPrefix | src/utils/size.ts:21 | `parseFloat` of a run of digits is its value |
| Size.ParseSizeWithUnit | src/utils/size.ts:12-44 | a whole number followed by letters is that number times 1024 for K/KB, 1024² for M/MB, 1024³ for G/GB, in any case, and the number itself for B, no unit or an unknown unit |
| Size.MatchedSize | src/utils/size.ts:13-44 | a numeral followed by capitals is the numeral's value in that unit |
| Size.TwoMegabytesIsDefault | src/utils/size.ts:3-34 | `"2MB"` is the default 2 × 1024 × 1024 bytes |
| Size.StartingWithLetterIsDefault | src/utils/size.ts:12-18 | a text that starts with a letter once trimmed has no numeric value and gives the default |
| Size.ParseSizeToBytes | src/utils/size.ts:1-44 | defines `parseSizeToBytes`; `Size.ParseSizeWithUnit`, `Size.ExponentSize`, `Size.TwoMegabytesIsDefault` and `Size.StartingWithLetterIsDefault` state its results |
| Size.ParseSizeText | src/utils/size.ts:12-44 | defines the parse of the trimmed, upper-cased text; `Size.MatchedSize` states the numeral-then-unit case |
| Size.ParseFloat | src/utils/size.ts:17-21 | defines `parseFloat`: an optional sign, a decimal prefix and an optional exponent; `Size.DigitsPrefix` and `Size.DigitsExponentFloat` state its value |
| Size.ExponentSize | src/utils/size.ts:13-18 | a whole number with an exponent, such as `1E3`, does not match the numeral-then-unit pattern and is read by `parseFloat` as the number times ten to the exponent |
| Size.DigitsExponentFloat | src/utils/size.ts:17 | `parseFloat` of digits, `E` and digits is the first number times ten to the second |
| Release.SplitRender | scripts/simulate-release.js:34 | splitting the text of `major.minor.patch` at the points and applying `Number` gives back the three numbers |
| Release.BumpRendered | scripts/simulate-release.js:33-37 | bumping the text of a version is the text of the bumped version |
| Release.BumpNumbers | scripts/simulate-release.js:35-37 | a patch bump adds one to the patch, a minor bump adds one to the minor and zeroes the patch, a major bump adds one to the major and zeroes the rest |
| Release.BumpIsNewer | scripts/simulate-release.js:33-39 | a patch, minor or major bump gives a version that `isNewer` ranks above the old one; any other kind leaves the text unchanged |
| Release.BumpVersion | scripts/simulate-release.js:33-39 | defines `bumpVersion`; `Release.BumpNumbers`, `Release.BumpRendered` and `Release.BumpIsNewer` state it |
| Release.ParseArgs | scripts/simulate-release.js:13-26 | the options are the last bump kind given, the readme check skipped iff `--ignore-readmes` is present and a dry publish unless `--no-dry-publish` is; no bump kind is the usage error |
| Release.PublishCommandText | scripts/simulate-release.js:76 | the publish command with the dry-run flag, or without it and with the trailing space trimmed |
| Release.PublishDryRunIffDry | scripts/simulate-release.js:76 | the publish command carries `--dry-run` exactly when a dry publish was asked for |
| Release.RunStopsAtFirstFailure | scripts/simulate-release.js:41-85 | the commands run form a prefix of the list, all but the last run succeeded, and the run is cut short only by a failure |
| Release.ReleaseExitCode | scripts/simulate-release.js:21-90 | the exit code is 0 exactly when a bump kind was given and every command succeeded, and then every command ran |
| Release.SimulateRelease | scripts/simulate-release.js:21-90 | defines `main()` as the commands run and the exit code; `Release.ReleaseExitCode` and `Release.RunStopsAtFirstFailure` state them |
| Release.ReadmeCheckUnlessIgnored | scripts/simulate-release.js:46-56 | the readme check is run exactly when it is not skipped |
| ReadmeCheck.LiteralIsContains | scripts/verify-readmes.js:24-49 | a pattern without special characters matches exactly the contents that contain its text |
| ReadmeCheck.UnknownLanguageLinksPass | scripts/verify-readmes.js:21-37 | a language other than en, pt and es gets no link patterns, so its link check passes whatever the content |
| ReadmeCheck.CheckSectionsOrder | scripts/verify-readmes.js:39-46 | the check passes exactly when every title occurs and the first occurrence of each comes strictly after that of the title before it |
| ReadmeCheck.CheckReadme | scripts/verify-readmes.js:114-116 | the three checks of one README pass together exactly when the README passes |
| ReadmeCheck.FirstUnreadable | scripts/verify-readmes.js:13-19 | the files before the index found can be read, and the file at it cannot |
| ReadmeCheck.CheckContents | scripts/verify-readmes.js:109-125 | the loop lists exactly the languages whose README fails, and all pass exactly when none is listed |
| ReadmeCheck.FailedInMembers | scripts/verify-readmes.js:111-125 | a language is listed as failed exactly when its README fails |
| ReadmeCheck.NoneFailedIn | scripts/verify-readmes.js:109-130 | no language is listed exactly when every README passes |
| ReadmeCheck.VerifyReadmes | scripts/verify-readmes.js:109-132 | the failed files are exactly the languages, before the first file that cannot be read, whose README misses a link, a section in order or an example; an unreadable file stops the script with exit code 1; the exit code is 0 exactly when all three files are read and pass |
| DocsSite.DetectLanguage | docs/assets/js/main.js:281-286 | the language is `pt-br` exactly for paths under `/pt-br/`, `es` exactly for paths under `/es/` and not `/pt-br/`, and `en` otherwise |
| DocsSite.ReplaceFirst | docs/assets/js/main.js:331-333 | `replace` with a text pattern leaves a text without the pattern unchanged and otherwise replaces one occurrence |
| DocsSite.ReplaceLeadingPrefix | docs/assets/js/main.js:331-333 | a path that starts with the pattern loses exactly that prefix |
| DocsSite.Prefix | docs/assets/js/main.js:337-341 | only `pt-br` and `es` add a prefix to the path |
| DocsSite.SwitchedPath | docs/assets/js/main.js:343-346 | the path navigated to always starts with a slash |
| DocsSite.StrippedPath | docs/assets/js/main.js:329-334 | removing the current language's prefix from a rooted path leaves a rooted path that the prefix rebuilds into the original |
| DocsSite.PrefixedPath | docs/assets/js/main.js:281-341 | a rooted path under the `pt-br` or `es` prefix is detected as that language and loses just that prefix |
| DocsSite.SwitchToCurrentLanguage | docs/assets/js/main.js:325-348 | switching a page to the language it is in leaves its path unchanged |
| DocsSite.SwitchLandsOnTarget | docs/assets/js/main.js:325-348 | switching to `pt-br` or `es` lands on a page detected as that language |
| DocsSite.SwitchRoundTrip | docs/assets/js/main.js:325-348 | switching to `pt-br` or `es` and back to the page's own language returns the original path |
| DocsSite.EnglishRoundTrip | docs/assets/js/main.js:325-348 | an English page switched to `pt-br` and back to English is the same page |
| DocsSite.LanguageSwitcher.constructor | docs/assets/js/main.js:276-277 | the switcher's language is the one detected from the page path |
| DocsSite.LanguageSwitcher.SwitchLanguage | docs/assets/js/main.js:325-348 | the path the browser is sent to is the page path with the current prefix replaced by the target's |
| DocsSite.Found | docs/assets/js/main.js:245-249 | the filter keeps only entries whose lower-cased title or content contains the query |
| DocsSite.FoundIff | docs/assets/js/main.js:245-249 | an entry is found exactly when it is in the index and matches the query |
| DocsSite.FoundAppend | docs/assets/js/main.js:245-249 | filtering keeps index order: the matches of two parts follow each other |
| DocsSite.Take | docs/assets/js/main.js:250 | `slice(0, 5)` keeps the first five entries, or all when fewer |
| DocsSite.SearchIn | docs/assets/js/main.js:244-251 | a search returns at most five entries, each from the index and matching the query |
| DocsSite.SearchShowsAllFew | docs/assets/js/main.js:244-251 | when at most five entries match, every matching entry is shown |
| DocsSite.SearchIgnoresLaterEntries | docs/assets/js/main.js:244-251 | once five entries match, later entries never change the results |
| DocsSite.HeadingEntries | docs/assets/js/main.js:183-191 | every heading has an entry, in order, under `heading`, with the heading's text |
| DocsSite.ParagraphEntries | docs/assets/js/main.js:193-203 | only paragraphs longer than 20 characters have entries, under `content` |
| DocsSite.CodeEntries | docs/assets/js/main.js:205-215 | only code blocks longer than 10 characters have entries, under `code` |
| DocsSite.IndexEntries | docs/assets/js/main.js:177-216 | the index is the headings' entries, then the long paragraphs', then the long code blocks' |
| DocsSite.LongParagraphIndexed | docs/assets/js/main.js:193-249 | every long paragraph has its entry in the index, and a query in its text matches that entry |
| DocsSite.HeadingIndexed | docs/assets/js/main.js:183-249 | the `k`-th heading's entry is the `k`-th of the index, and a query in its text matches it |
| DocsSite.HeadingEntriesAt | docs/assets/js/main.js:183-191 | the `k`-th heading entry is built from the `k`-th heading |
| DocsSite.HeadingEntry | docs/assets/js/main.js:185-191 | defines a heading's entry; `DocsSite.HeadingEntries` and `DocsSite.HeadingEntriesAt` state it |
| DocsSite.ParagraphEntry | docs/assets/js/main.js:195-201 | defines a paragraph's entry; `DocsSite.ParagraphEntries` states it |
| DocsSite.CodeEntry | docs/assets/js/main.js:207-213 | defines a code block's entry; `DocsSite.CodeEntries` states it |
| DocsSite.SearchManager.constructor | docs/assets/js/main.js:167-168 | the index starts empty |
| DocsSite.SearchManager.BuildSearchIndex | docs/assets/js/main.js:177-216 | the index grows by the headings', long paragraphs' and long code blocks' entries, in that order |
| DocsSite.SearchManager.AddHeadings | docs/assets/js/main.js:183-191 | the index grows by one entry per heading |
| DocsSite.SearchManager.AddParagraphs | docs/assets/js/main.js:193-203 | the index grows by one entry per paragraph over 20 characters |
| DocsSite.SearchManager.AddCodeBlocks | docs/assets/js/main.js:205-215 | the index grows by one entry per code block over 10 characters |
| DocsSite.SearchManager.Search | docs/assets/js/main.js:244-251 | the search runs over the manager's current index |
| DocsSite.SearchManager.OnInput | docs/assets/js/main.js:223-232 | results are hidden exactly for a trimmed, lower-cased query under two characters; otherwise at most five matching entries of the index are shown |
| DocsSite.InitialTheme | docs/assets/js/main.js:27 | the stored theme when one is stored and not empty, light otherwise |
| DocsSite.NextTheme | docs/assets/js/main.js:46 | a toggle gives dark exactly from light, and light from anything else |
| DocsSite.NextThemeTwice | docs/assets/js/main.js:45-49 | two toggles restore a light or dark theme |
| DocsSite.ThemeManager.constructor | docs/assets/js/main.js:26-33 | the page starts in the initial theme, with the `dark` class and the stored value in step with it |
| DocsSite.ThemeManager.ApplyTheme | docs/assets/js/main.js:36-43 | the `dark` class is present exactly for the dark theme, and the theme is stored |
| DocsSite.ThemeManager.Toggle | docs/assets/js/main.js:45-49 | the theme flips and the class and stored value follow it |
| DocsSite.MobileNav.constructor | docs/assets/js/main.js:78-97 | the menu starts closed, and the document listens for clicks only when both the button and the menu exist |
| DocsSite.MobileNav.Open | docs/assets/js/main.js:103-110 | the menu is open and, when present, shown and animated |
| DocsSite.MobileNav.Close | docs/assets/js/main.js:112-119 | the menu is closed and, when present, hidden and not animated |
| DocsSite.MobileNav.Toggle | docs/assets/js/main.js:99-101 | the menu opens when closed and closes when open, the element following |
| DocsSite.MobileNav.OnDocumentClick | docs/assets/js/main.js:91-95 | a click outside the button and the menu closes the menu, hiding it and stopping its animation when it exists; any other click changes neither the open flag, the hidden flag nor the animation |

## Left out

- Git shell-outs (`hasStaged`, `hasUnstagedChanges`, the push and upstream retry, `git commit`) are not run; their results are inputs to the pre-check and to the final step.
- The spinner timer, all terminal drawing (escape sequences, line clearing, raw mode, listeners, the alternate screen), and the colours, which are the identity here.
- The Unicode property classes of the scope prompt (`\p{L}\p{N}\p{M}\p{P}\p{S}`) are a predicate given as a parameter.
- `toLowerCase` and `toUpperCase` are modelled on ASCII letters only.
- Characters are Unicode scalar values, whereas JavaScript's `length` counts UTF-16 code units; lengths differ for characters outside the Basic Multilingual Plane.
- The readline prompts: the interactive branch of `askWithValidation`, the install-hooks confirmations in `src/cli/index.ts`, and `src/cli/commands/init.ts`, which is not part of this model.
- Configuration loading (`src/config/load.ts`, not part of this model) and the `package.json` version lookups; configurations are values.
- The HTTPS fetch and the state file of the version check; the clock readings before the fetch (check.ts:65) and after it (check.ts:120), the stored state and the latest version are parameters.
- Floating point: `formatBytes` (`Math.log`, `toFixed`) is not modelled; decimal numerals are read as exact reals rather than the nearest double that `parseFloat` gives; a number given to `parseTimeToMs` is an integer here, so `Math.floor` of a fraction is not modelled.
- `preCommitScript`, used by `src/hooks/install.ts` but not defined in `src/hooks/scripts.ts`, is an opaque string parameter.
- The second copy of `removeManagedBlock` (`src/hooks/cleanup.ts:6-24`) is the same text as `src/hooks/install.ts:21-39`, so `HookCleanup` uses `HookInstall.RemoveManagedBlock` rather than a second definition.
- `scripts/strip-comments.js`, the shims, build and lint configuration, the debug scripts and the tests.
- In `docs/assets/js/main.js`: the DOM, `localStorage`, the clipboard, scroll events and `APIManager`.
- The fourth argument that `commit.ts` passes to `select` is ignored, as the code ignores it; there is no resize handling.
- The validation keys that commit.ts looks up but the tables lack are modelled as they are: the lookup returns the key, and the `|| fallback` never applies.
- The parser examples of the tests are not restated as lemmas; the general parser lemmas cover them.
- Select.SelectPrompt.constructor: requires a non-empty list; with an empty list in a terminal the code has nothing to select and would fail on Enter, a case the model does not describe.
- I18n.KeyPlaceholder: the placeholders are shown to agree across the three tables for the four keys the linter fills (`TypeInvalidPlaceholder`, `ScopeInvalidPlaceholder`, `SubjectTooLongPlaceholder`, `FooterUnknownPlaceholder`), not for every key.
- Release.RunStopsAtFirstFailure: the commands' effects are not modelled; each command is a string and its success a parameter.
- HookInstall.PathJoin: joins with a `/` and does not normalise the result as `path.join` does (collapsing `//`, `.` and `..` segments); the paths it joins here are the configured hooks path and `.commitzero/hooks`.
- Release.ToNumber: reads blank text as 0 and an optionally signed run of digits as its value, anything else as NaN; the hexadecimal, binary, octal, exponent, decimal-fraction and `Infinity` forms that `Number` also accepts are not modelled, so a version part such as `1e3` reads as NaN here.
- Prompt.AnswerContext.constructor: the parsed test answers are taken to be an array of strings; an array holding other JSON values, which `JSON.parse` allows and the code uses as it is, is not described.
- I18n.Lookup: the tables are maps, so a key is looked up among the table's own keys only; a key such as `toString` that a JavaScript object inherits from its prototype is not found here, whereas the code's `dicts[l][key]` would find the inherited function. The same holds for the language: `lang in dicts` is also true for inherited names such as `toString` or `constructor`, for which the code reads a key of that inherited value (normally undefined) and returns the key itself, whereas the model uses the English table.
- Prompt.ScriptedValidation: the depth at which the call stack overflows depends on the JavaScript engine and its stack size; it is fixed here at `StackRoom` (10000) nested re-asks.
- Size.ParseFloat: the exponent is read as an exact power of ten; the overflow of large exponents to `Infinity` and the underflow of small ones to 0 are not modelled.

## Findings

| source | as written | input that shows it | evidently intended | confidence | as-written member | corrected member |
|---|---|---|---|---|---|---|
| src/core/parser.ts:6, src/core/formatter.ts:5-6 | the header pattern has no `!` group, while the formatter writes `!` before the colon of a breaking commit | the breaking commit `feat`, scope `api`, subject `add endpoint` is formatted as `feat(api)!: add endpoint`, which parses with an empty type and lints as an invalid type | the parser accepts the optional `!` of Conventional Commits 1.0.0 item 13, so formatted commits parse back | not executed | Formatter.BangHeaderRejected | Formatter.RoundTrip |
| src/cli/commands/select.ts:71 | the pointer is the two characters U+00E2 U+00AF, the text of the glyph `❯` decoded wrongly | any list: the selected row's label is one column to the right of the other rows' labels | a one-character pointer `❯` (U+276F), so the labels line up | not executed | Select.PointerAsWrittenShiftsLabel | Select.OnePointer |

In the first row the parser takes a flag `acceptBang`: `false` is the code as written, `true` the corrected pattern, and `Formatter.RoundTrip` proves the round trip with it for breaking commits. The command line (`Cli.RunLint`, `Cli.RunCheck`) uses the parser as written, and `Cli.CheckRejectsBreakingCommit` shows the consequence: the `commit-msg` hook rejects the breaking commits that `commit` writes. In the second row the drawn rows use the corrected pointer, and `Select.RowColumns` states the aligned columns.
