# ai-quiz in Dafny

A model of the quiz-variant pipeline of `ai-quiz` and of the scripts around it.

The pipeline reads multiple-choice questions from JSON files. It validates each record, draws a fixed number of records per file, and shuffles each record's answers while keeping track of the correct one. It then renders the quiz as the JavaScript literal embedded in a Google Apps Script, under a per-variant title.

Around that core sit several smaller pieces, each modelled over abstract outcomes:
- two variant drivers, which differ in which exceptions skip a variant;
- the batch deployer, which filters by language tag and writes the URL file;
- the Apps Script deployer, with its request bodies, its retry policy, its three-stage execution fallback and its link extraction;
- the e-mail notifier, with its settings, credential guard, templates' optional parts, recipient names, results map and delivery log.

Everything is pure functions over immutable datatypes.

- **Randomness** is one process-wide generator. It is modelled as an arbitrary stream of draws `rs: nat -> nat` plus the number of draws used so far. `random.shuffle` is CPython's Fisher-Yates from the end. `random.sample` follows the pool branch of CPython's algorithm. Every property is proved for every stream, so it holds for every seed and every random outcome.
- **Exceptions** are modelled in one of two ways. Where the code propagates them, they are `Result` failures carrying an `Error` (module `QuizErrors`). `QuizErrors.ClassOf` gives each error its Python class, and the variant loops decide by class. Where the code catches them and returns `None`/`False`, the model returns that value instead.
- **Parameters stand for everything outside the model:**
  - file contents: a map from path to parsed JSON;
  - `json.dumps` and `str()`;
  - whether a path is writable;
  - the glob result;
  - the deployer call;
  - every Apps Script API call, counted over the whole run;
  - Python's `int()`;
  - content generation and sending;
  - timestamps.

Modules follow the source:
- `QuizSettings`, `QuestionBank`, `AnswerShuffle`, `ScriptBuilder` and `QuizPipeline` model `quiz_generator.py`.
- `VariantBatch` models `generate_quiz.py` and `quiz_generator_batch.py`.
- `DeployBatch` models `deploy_batch.py`.
- `GasDeployer` models `gas_deployer.py`.
- `EmailNotifier` models `email_notifier.py`.
- `Common`, `Text` and `Randomness` hold the list, string and `random` library behaviour they rely on.

## Model

| member | source | states |
|---|---|---|
| QuizSettings.NewQuizConfig | quiz_generator.py:26-45 | every setting is kept as given except the language, which is stored as its upper-cased form: no lower-case letter left, every non-letter unchanged |
| Text.UpperChar | quiz_generator.py:45 | a lower-case ASCII letter moves down by 32 code points to its capital; every other character is unchanged |
| QuizSettings.DefaultConfig | quiz_generator.py:26-35 | the defaults are language ENG, 10 questions and 1 point per question |
| QuizSettings.NormaliseIdempotent | quiz_generator.py:45 | building a configuration again from a normalised one changes nothing |
| Text.UpperIdempotent | quiz_generator.py:45 | upper-casing an already upper-cased language is the identity |
| Text.LowerOfUpper | quiz_generator.py:572-579 | lower-casing the stored (upper-cased) language gives the same path suffix as lower-casing the argument |
| QuestionBank.FirstMissing | quiz_generator.py:169-174 | fields are checked in order; on a dict the result is "none missing" iff every field is present, otherwise the first missing field; only a non-container record raises |
| QuestionBank.ValidateQuestion | quiz_generator.py:158-184 | a record is accepted iff it is a dict with all three fields, exactly four answers in a list, and the correct answer among them; a missing `question` is reported before a missing `answers`; accepted records are well-formed |
| QuestionBank.ScanRecords | quiz_generator.py:143-147 | the loaded list has only well-formed records and is no longer than the input; the only failure is the one raised by a non-container record |
| QuestionBank.ScanSingleton | quiz_generator.py:143-147 | one record is kept iff validation accepts it, dropped iff it rejects it, and a raising record aborts the load |
| QuestionBank.ScanConcat | quiz_generator.py:143-147 | filtering is order-preserving: scanning a concatenation gives the concatenation of the scans, and the first raising record wins |
| QuestionBank.ScanSucceeds | quiz_generator.py:143-147 | the load fails iff some record makes validation raise; rejected records never fail it |
| QuestionBank.ScanKeepsAccepted | quiz_generator.py:143-147 | every accepted record appears in the loaded list |
| QuestionBank.LoadQuestions | quiz_generator.py:117-156 | a missing file, text that is not JSON, and a top level that is not a list each give their own error; otherwise the result is the scan of the records |
| QuestionBank.ModuleSpecs | quiz_generator.py:75-79 | three entries, entry k naming `M{k}/m{k}.json` under the base path |
| QuestionBank.FileConfigsForLanguage | quiz_generator.py:56-79 | succeeds iff the upper-cased language is ENG or SRB; then three files under `QAPool/{eng or srb}/L0` with counts 3, 4 and 3; otherwise raises with the upper-cased language |
| QuestionBank.LoadFromMultipleFiles | quiz_generator.py:81-115 | succeeds iff every file loads and holds at least its count; the result has exactly the sum of the counts, all well-formed; a count failure names a listed file whose valid records really are fewer than required |
| QuestionBank.Draws | quiz_generator.py:98-113 | each file's draw has exactly its count and is a sub-multiset of that file's valid records |
| QuestionBank.MultiFileIsDraws | quiz_generator.py:98-113 | a successful multi-file load is the concatenation of the per-file draws in file order |
| QuestionBank.MultiFileBlocks | quiz_generator.py:98-113 | when every file can supply its share, loading succeeds and file i's records sit at offset sum of the earlier counts: exactly `count` of them, drawn from distinct positions of that file's valid records |
| QuestionBank.SelectRandomQuestions | quiz_generator.py:222-244 | the count defaults to the configured one; asking for more than available raises with both numbers; success gives exactly that many, drawn without replacement |
| Randomness.Swap | quiz_generator.py:205 | one exchange keeps the length and the multiset of elements |
| Randomness.ShuffleFrom | quiz_generator.py:205 | the Fisher-Yates iterations keep the multiset and use one draw each |
| Randomness.Shuffle | quiz_generator.py:205 | `random.shuffle` yields a permutation and uses `n - 1` draws |
| Randomness.SampleLoop | quiz_generator.py:109 | the pool loop takes exactly `k` items with one draw each |
| Randomness.SampleLoopMultiset | quiz_generator.py:109 | what the pool loop takes comes from the live pool, and is all of it when it runs to the end |
| Randomness.Sample | quiz_generator.py:109 | `random.sample` takes exactly `k` items from distinct positions, a sub-multiset of the pool, and a permutation when `k` is the pool size |
| AnswerShuffle.IndexOf | quiz_generator.py:206-209 | `list.index`: absent iff the item is not in the list, otherwise the first position holding it |
| AnswerShuffle.IndexOfUnique | quiz_generator.py:206-209 | a position holding the item with no earlier copy is the index found |
| AnswerShuffle.ConvertOne | quiz_generator.py:199-215 | a record converts iff its correct answer is among its answers; then the prompt is copied, the choices are a permutation of the answers (the same order without shuffling), and `choices[correct]` is the correct answer's first occurrence |
| AnswerShuffle.ConvertFormat | quiz_generator.py:186-220 | the output is as long as the input; the only failure is `list.index` raising |
| AnswerShuffle.ConvertFormatSucceeds | quiz_generator.py:199-209 | conversion succeeds iff every record's correct answer is among its answers |
| AnswerShuffle.ConvertFormatCorrect | quiz_generator.py:197-217 | output record i is input record i converted |
| AnswerShuffle.ConvertWellFormed | quiz_generator.py:180-209 | records that passed validation never make conversion raise |
| AnswerShuffle.ConvertWithoutShuffle | quiz_generator.py:207-209 | without shuffling no draw is used, the choices are the answers, and `correct` is the answer's own index |
| AnswerShuffle.ConvertDrawsNothing | quiz_generator.py:203-209 | conversion without shuffling leaves the generator untouched |
| ScriptBuilder.EscapeJs | quiz_generator.py:406-408 | the escaped text holds no raw line feed or carriage return, so it fits on one line of the script |
| ScriptBuilder.EscapeJsPlain | quiz_generator.py:406-408 | a text with none of the five special characters comes out unchanged |
| ScriptBuilder.EscapeChar | quiz_generator.py:408 | the five special characters become a backslash pair and every other character stays itself |
| ScriptBuilder.EscapeJsIsMap | quiz_generator.py:408 | the chained replacements, backslash first, equal the per-character escape map |
| ScriptBuilder.Unescape | quiz_generator.py:408 | each recognised escape letter stands for the special character whose escape it is |
| ScriptBuilder.DecodeEscape | quiz_generator.py:408 | decoding the JavaScript escapes of the escaped text gives the text back |
| ScriptBuilder.EscapeDecode | quiz_generator.py:408 | every well-formed literal body is the escape of what it decodes to |
| ScriptBuilder.EscapeInjective | quiz_generator.py:408 | different texts have different escapes |
| ScriptBuilder.EscapeChoices | quiz_generator.py:424 | succeeds iff every choice is a string, one escaped string per choice, each decoding back to its choice; a non-string raises |
| ScriptBuilder.RenderBlock | quiz_generator.py:422-430 | one object renders iff its prompt and choices are strings |
| ScriptBuilder.RenderBlocks | quiz_generator.py:422-434 | renders iff every question is renderable; one object per question, in order |
| ScriptBuilder.FormatQuestionsForJs | quiz_generator.py:410-437 | renders iff every question's prompt and choices are strings; otherwise fails with the error `.replace` on a non-string raises |
| ScriptBuilder.ArrayBodyIsJoin | quiz_generator.py:426-434 | the loop's comma-unless-last writes the objects joined by `,` and a newline, with a final newline |
| ScriptBuilder.FormatQuestionsShape | quiz_generator.py:420-437 | the literal is the objects joined between its brackets; object i quotes the escaped prompt, which reads back as the prompt, and carries `correct` as a number |
| ScriptBuilder.GenerateScript | quiz_generator.py:246-283 | the script states the number of questions; its questions literal is exactly the rendered question list and its points are the configured points per question; its title, description and confirmation literals read back as the configured ones; the one-response flag is `true` iff responses are limited |
| QuizPipeline.NewGenerator | quiz_generator.py:51-54 | a new generator re-seeds the shared stream, so it starts at draw 0 |
| QuizPipeline.ComposeTitle | quiz_generator.py:475-481 | without a variant the title is the original then ` [LANG]`; with variant n it is the original, ` [LANG]`, ` Variant ` and n in decimal |
| QuizPipeline.ComposeTitleInjective | quiz_generator.py:478-481 | the variant can be read back from the composed title |
| QuizPipeline.PrepareQuestions | quiz_generator.py:483-490 | succeeds iff every file can supply its share; then it holds the sum of the counts; a failure is the loader's failure |
| QuizPipeline.PrepareIsPermutation | quiz_generator.py:484-490 | the final question list is a permutation of the converted list, and each entry is some loaded record converted |
| QuizPipeline.GenerateFromMultipleFilesAsWritten | quiz_generator.py:473-508 | the original title comes back on success only; on every failure the generator keeps the suffixed title |
| QuizPipeline.GenerateFromMultipleFiles | quiz_generator.py:473-508 | the same outcome and the same draws as the code as written, and the generator keeps its configuration, title included, on every path |
| QuizPipeline.GenerateSucceeds | quiz_generator.py:473-504 | a run whose questions render and whose path is writable succeeds; its form title reads back as the composed title and it holds the sum of the per-file counts |
| QuizPipeline.GenerateOutcome | quiz_generator.py:473-504 | a run succeeds iff its prepared questions all render and its output path is writable; it uses the draws of preparing the questions either way |
| QuizPipeline.AsWrittenTitleAccumulates | quiz_generator.py:475-508 | as written, when variant 1 cannot save and variant 2 can, variant 2 gets a title with both suffixes, not its own |
| QuizPipeline.TitleIndependentOfEarlierFailures | quiz_generator.py:475-502 | with the title restored on every path, variant 2 (when its questions render and its path is writable) succeeds with its own title, whatever variant 1 did |
| QuizPipeline.DefaultOutputPath | quiz_generator.py:577-583 | without a variant the name is `generated_quiz_`, the lower-cased language and `.gs`; with variant n, `_variant_` and n in decimal come before `.gs` |
| QuizPipeline.DefaultOutputPathInjective | quiz_generator.py:580-581 | different variants get different default paths |
| QuizPipeline.GenerateForLanguage | quiz_generator.py:559-585 | the stored language is upper-cased even when the language is then rejected; any language other than ENG or SRB raises |
| QuizPipeline.GenerateForLanguageRuns | quiz_generator.py:571-585 | for ENG or SRB the run is the multi-file workflow on that language's files and on the given or default path |
| QuizErrors.ClassOf | quiz_generator.py:132-156 | no error of the generator is a `RuntimeError` or `KeyboardInterrupt` |
| Text.IntToStringInjective | generate_quiz.py:63 | different variant numbers print differently |
| Text.PathJoin | generate_quiz.py:64 | `os.path.join` ends with a relative file name, and is the name itself when the name is absolute |
| VariantBatch.VariantFileName | generate_quiz.py:63 | the file name is exactly the fields `AI Fundamentals`, the date, `[language]` and `Variant n` joined in that order by a space-pipe-space separator, followed by `.gs` |
| VariantBatch.VariantFileNameTagged | generate_quiz.py:63 | the file name carries the literal tag `[language]` |
| VariantBatch.VariantFileNameInjective | generate_quiz.py:60-63 | two variants of one run never share a file name |
| VariantBatch.VariantPath | generate_quiz.py:64 | the output path ends with the file name |
| VariantBatch.RunVariants | generate_quiz.py:60-80 | a finished loop lists one path per producing variant, each within range, in strictly increasing order; an escaping exception is one the loop does not catch |
| VariantBatch.RunVariantsIndependent | quiz_generator_batch.py:57-77 | for independent attempts: the loop finishes iff every attempt produced or raised a caught class; it then lists the producing variants in order; otherwise the first uncaught exception ends it |
| VariantBatch.RunVariantsFinishes | quiz_generator_batch.py:57-77 | the loop runs to the end iff every attempt is survived |
| VariantBatch.RunVariantsProduces | quiz_generator_batch.py:57-81 | a finished loop lists exactly the variants that produced, in increasing order |
| VariantBatch.RunVariantsEscapes | quiz_generator_batch.py:75-77 | an escaping exception is that of the first attempt not survived |
| VariantBatch.BatchConfig | generate_quiz.py:47-53 | the batch configuration has title `AI Fundamentals`, 33 questions, 5 points, and the upper-cased language |
| VariantBatch.QuizAttempt | generate_quiz.py:61-79 | a variant produces iff generation succeeds on its own path and number; a failing variant never raises `KeyboardInterrupt` or `RuntimeError` |
| VariantBatch.GenerateQuizVariants | generate_quiz.py:25-83 | a directory that cannot be created raises `OSError`; otherwise at most `num_variants` paths come back |
| VariantBatch.QuizLoopNeverEscapes | generate_quiz.py:60-80 | catching every `Exception`, the loop always runs to the end |
| VariantBatch.GenerateQuizVariantsReturns | generate_quiz.py:25-83 | once the directory exists, the run always returns its list |
| VariantBatch.BatchVariants | quiz_generator_batch.py:25-81 | a missing directory raises `OSError`; no `RuntimeError` escapes; at most `num_variants` paths |
| VariantBatch.BatchVariantsExact | quiz_generator_batch.py:57-81 | the batch returns iff every variant produced or raised `RuntimeError`, and then the paths of the producing variants in order; otherwise the first other exception leaves it |
| VariantBatch.Paths | quiz_generator_batch.py:59-60 | path i is variant `ns[i]`'s output path |
| VariantBatch.BatchSkipsRuntimeError | quiz_generator_batch.py:57-77 | five variants with a `RuntimeError` at the third return variants 1, 2, 4 and 5 |
| VariantBatch.BatchStopsOnValueError | quiz_generator_batch.py:57-77 | the same batch with a `ValueError` at the third ends with that `ValueError` |
| VariantBatch.ListPattern | generate_quiz.py:95-97 | without a language the pattern is the fields `AI Fundamentals`, `*` and `*.gs` joined by the space-pipe-space separator; with one it is exactly `AI Fundamentals`, `*`, `[` upper-cased language `]` and `*.gs` joined the same way |
| VariantBatch.ListPatternUntagged | generate_quiz.py:95 | the pattern without a language holds no tag bracket |
| VariantBatch.ListingLanguage | generate_quiz.py:155-156 | listing passes no language exactly for BOTH |
| VariantBatch.GenerateQuizMain | generate_quiz.py:112-202 | `--list-files` exits 0 and a non-positive variant count exits 1, both without generating; otherwise the exit code is 0 iff some file was generated; nothing escapes |
| VariantBatch.GenerateQuizMainBoth | generate_quiz.py:167-182 | for BOTH the files are the English run's followed by the Serbian run's |
| VariantBatch.BatchMain | quiz_generator_batch.py:110-212 | the same early exits and exit code; only exceptions other than `RuntimeError` and `KeyboardInterrupt` leave `main`, and a directory that cannot be created is one |
| DeployBatch.SelectLanguage | deploy_batch.py:40 | the filter keeps at most the files found |
| DeployBatch.SelectLanguageMembers | deploy_batch.py:40 | a file is selected iff it was found and contains the literal `[LANG]` |
| DeployBatch.SelectLanguageOrder | deploy_batch.py:40 | the filter preserves order: filtering a concatenation concatenates the filtered parts |
| DeployBatch.GeneratedFileSelected | deploy_batch.py:38-40 | every file the generator named for a language passes that language's filter |
| DeployBatch.UrlsPath | deploy_batch.py:69-73 | the URL file is `/tmp/quiz_urls_{lang lower}.txt`, or `/tmp/quiz_urls_all.txt` without a language |
| DeployBatch.UrlsHeader | deploy_batch.py:71-74 | the header names the language when one is given |
| DeployBatch.UrlsText | deploy_batch.py:76-99 | the file starts with the header, a newline, `=` repeated as long as the header, and a newline |
| DeployBatch.ListedMembers | deploy_batch.py:80-99 | only deployed quizzes are listed; every quiz named with `[ENG]` or `[SRB]` is; every quiz is when no name has either tag |
| DeployBatch.UrlsTextMentions | deploy_batch.py:76-99 | every listed quiz has its `Variant …: <edit url>` line in the file |
| DeployBatch.DeployAll | deploy_batch.py:22-103 | the deployer is called only after authentication succeeds, and with the original pattern; the URL file is written iff something was deployed, under the language's path and text |
| DeployBatch.DeployAllEarlyExit | deploy_batch.py:37-50 | with no file found, or none carrying the language's tag, nothing is authenticated, deployed or written |
| DeployBatch.DeployAllCallsWithPattern | deploy_batch.py:48-63 | once a matching file exists and authentication succeeds, the deployer receives the original pattern, not the filtered list |
| DeployBatch.UrlsPathOfLanguage | deploy_batch.py:38-74 | a language given in any case gets the lower-case file name and the upper-case header; no language gets the all-languages file and header |
| DeployBatch.DeployMain | deploy_batch.py:141-188 | `--list-files` exits 0 without deploying; otherwise the exit code is 0 iff something was deployed |
| GasDeployer.CreateBody | gas_deployer.py:149-154 | the body has the title, and `parentId` exactly when a non-empty folder is given, and nothing else |
| GasDeployer.UploadBody | gas_deployer.py:186-207 | the body is a list of exactly two files |
| GasDeployer.UploadBodyReadsBack | gas_deployer.py:194-207 | the service finds the manifest as the `appsscript` JSON file and the script, unchanged, as the server file, and nothing of any other type |
| GasDeployer.RetryLoop | gas_deployer.py:254-296 | between one and `max_retries` calls; every call before the last was retriable; the result is the last call's reply iff it had no `error`; a stop before the limit was not retriable |
| GasDeployer.ExecuteFunction | gas_deployer.py:224-296 | no service means no call and no result; at most `max_retries` calls; a result is a reply without `error`, returned unchanged |
| GasDeployer.RetrySucceedsIff | gas_deployer.py:254-296 | a result comes back iff, within the attempts allowed, a clean reply follows nothing but retriable failures |
| GasDeployer.RetryAfterNotFound | gas_deployer.py:263-277 | a "requested entity was not found" error then a clean reply: two attempts return the reply, one attempt returns nothing |
| GasDeployer.ExtractFormUrls | gas_deployer.py:337-357 | links come back iff `response.result` is an object with both links truthy, and then both are truthy |
| GasDeployer.ExtractFormUrlsReadsBack | gas_deployer.py:338-348 | a reply carrying both links yields exactly those links |
| GasDeployer.RunStages | gas_deployer.py:450-485 | a returned reply is non-empty and has no `error`; the first stage always runs and no more stages than listed; the second stage runs only when the first gave no truthy reply |
| GasDeployer.Fallback | gas_deployer.py:450-485 | whatever runs one stage, the fallback runs at least one and at most all stages, and a reply it returns is truthy |
| GasDeployer.FallbackTrace | gas_deployer.py:460-485 | every stage before the last one run gave no truthy reply; a returned reply is exactly the last stage's reply; no reply means every stage ran and none answered |
| GasDeployer.FallbackCalls | gas_deployer.py:450-480 | when no stage calls more often than its retries allow, the calls stay within the stages' total budget; when every stage makes a call, calls are at least the stages run |
| GasDeployer.RunStagesTrace | gas_deployer.py:450-485 | for the deployment's `execute_function` stages: a later stage runs only after every earlier one gave nothing truthy, the reply returned is the last stage's, and no reply means all stages ran and failed |
| GasDeployer.RunStagesBudget | gas_deployer.py:450-480 | the execution calls stay within the stages' summed `max_retries` |
| GasDeployer.RunStagesCalls | gas_deployer.py:450-480 | with a service and retries in every stage, there are at least as many calls as stages run |
| GasDeployer.DeployAndExecute | gas_deployer.py:413-513 | at most 5 execution calls in at most 3 stages; no project id, no service, a failed upload or an unreachable Drive means no execution and no links; returned links are truthy |
| GasDeployer.DeployUsesFallback | gas_deployer.py:450-498 | once created with an id, uploaded and with Drive reachable, the deployment reports the fallback's stages and calls; its links are those extracted from the reply of the first stage that answered, every earlier stage having failed; no reply means all three stages ran and no links |
| GasDeployer.AllStagesFail | gas_deployer.py:450-485 | when every call raises, the three stages each make one call and no links come back |
| GasDeployer.DevModeFallback | gas_deployer.py:460-498 | a failed simple call followed by a development-mode reply carrying links delivers those links from stage two |
| EmailNotifier.FlagIff | email_notifier.py:72-73 | a flag is on iff the value is `true` in any mix of cases |
| EmailNotifier.FromEnv | email_notifier.py:64-74 | fails with `ValueError` iff the port is not an integer, else the port is the parsed value; server, sender, password and name are the environment values or `smtp.gmail.com`, empty, empty and `AI Quiz System`; flags are `true` in any case and default to on |
| EmailNotifier.NewNotifier | email_notifier.py:80-90 | a given configuration is used as it is; without one the configuration is the environment's and construction fails exactly when reading it does; a new notifier has no client and an empty log |
| EmailNotifier.SetupEmailClient | email_notifier.py:92-123 | True iff both credentials are given and building a wanted, available yagmail client does not fail; missing credentials change nothing; a client is built only when yagmail is wanted and available; yagmail is switched off when unavailable; the log is untouched |
| EmailNotifier.DefaultSubjectInjective | email_notifier.py:563-564 | different question counts give different default subjects |
| EmailNotifier.SubjectOrDefault | email_notifier.py:563-564 | a non-empty subject is used as given; a missing or empty one becomes the default |
| EmailNotifier.RecipientName | email_notifier.py:571 | the name is as long as the part before the first `@` |
| Text.BeforeFirst | email_notifier.py:571 | `split('@')[0]` is the longest prefix without `@`, ending just before the first `@` when there is one |
| Text.ReplaceCharPointwise | email_notifier.py:571 | replacing `.` by a space changes each dot and nothing else |
| Text.TitleShape | email_notifier.py:571 | `str.title()` upper-cases each letter that starts a word, lower-cases the rest, and keeps other characters |
| EmailNotifier.RecipientNameShape | email_notifier.py:571 | character by character, dots become spaces, other non-letters stay, and letters keep their identity, upper-case at a word start and lower-case elsewhere |
| EmailNotifier.RecipientNameClean | email_notifier.py:571 | the name holds no `@` and no dot |
| EmailNotifier.NameGreeting | email_notifier.py:427 | the greeting adds a space and the name iff the name is non-empty |
| EmailNotifier.DeadlineParts | email_notifier.py:393 | the text and HTML deadline lines appear iff a deadline is given, and then carry it |
| EmailNotifier.EditLinkParts | email_notifier.py:394 | the text and HTML edit-link lines appear iff an edit link is given, and then carry it |
| EmailNotifier.TextTemplateMentions | email_notifier.py:425-449 | the text invitation has the greeting and the quiz link, plus the deadline and edit link when given |
| EmailNotifier.SendLoop | email_notifier.py:566-609 | the loop leaves the settings and the client as they were |
| EmailNotifier.SendLoopKeys | email_notifier.py:566-594 | exactly the recipients gain entries; entries for anyone else are kept |
| EmailNotifier.SendLoopResults | email_notifier.py:568-594 | a recipient's entry is what its last occurrence in the list recorded: False without content, otherwise the outcome of the send at that attempt's log position, over yagmail iff configured with a client |
| EmailNotifier.Entries | email_notifier.py:597-603 | one entry per attempted recipient |
| EmailNotifier.EntriesAt | email_notifier.py:597-603 | entry i records recipient i, the subject, the outcome, the link and the stamp of its log position |
| EmailNotifier.SendLoopLog | email_notifier.py:583-603 | the log grows by exactly one entry per recipient a send was attempted for, in order; recipients without content add none |
| EmailNotifier.SendQuizNotification | email_notifier.py:531-609 | no recipients or no link gives `{}` and changes nothing; otherwise exactly the recipients get entries, each the outcome of its last occurrence; the old log is kept as a prefix |
| EmailNotifier.NotificationLogEntries | email_notifier.py:583-603 | one new log entry per attempted recipient, each for a recipient in the results, under the subject used and the quiz link |
| EmailNotifier.NotificationLogMatchesResults | email_notifier.py:594-603 | the last new log entry for a recipient records the outcome the results give it |
| EmailNotifier.SendLoopLastEntry | email_notifier.py:583-603 | the last log entry the loop writes for a recipient holds the outcome its results entry keeps |

## Left out

- File I/O is left out: `Path.exists`, `open`, `json.load`, `mkdir` and the writes. The files are a map from path to parsed JSON or unparsable text. Saving the script is a `writable` predicate. Creating the output directory is a boolean.
- Non-integer JSON numbers are not modelled. Python's cross-type equality (`True == 1`) is not modelled either: JSON values compare structurally.
- `json.dumps` is kept abstract. It is applied to the already-escaped choices, so no read-back is claimed for choices beyond `_escape_js_string`. `str()` on error details is kept abstract too.
- The constant JavaScript of the generated script is not modelled (`shuffleArray`, `onFormSubmit`, the 70% pass mark). Neither is the constant HTML of the e-mail templates. Only the values spliced in are modelled.
- `random.seed(42)` is modelled as a new generator starting at draw 0 of an arbitrary stream. It is not CPython's Mersenne Twister. `randbelow(m)` is the stream value modulo `m`.
- `select_random_questions` is modelled, but nothing in the multi-file path calls it. `generate_quiz_from_json` is not modelled: it is not part of the multi-file pipeline.
- `upper`, `lower` and `title` act on ASCII letters only. Other characters are left unchanged.
- Glob matching is left out. `list_generated_files` is modelled only up to its pattern string; in glob syntax `[ENG]` is a character class, not the literal tag. The glob result in `deploy_batch.py` is a parameter.
- `deploy_batch_quiz_scripts` is called at deploy_batch.py:63 but defined in no file of this model. It is a parameter from pattern to deployed quizzes.
- The `QuestionGenerator(language=..., results_sheet=...)` call at quiz_generator_batch.py:53 does not match the constructor at quiz_generator.py:51. The batch's per-variant generation is therefore an outcome oracle.
- Authentication, OAuth, the Drive check, `time.sleep`, `get_execution_logs` and `create_script_deployment` are left out. Only the request bodies, the retry and fallback decisions, and link extraction are modelled.
- SMTP, yagmail, jinja2 rendering, `datetime.now`, `save_delivery_log` and `get_delivery_status` are left out. The first three are parameters; the last only returns a copy of the log.
- Logging and console output are left out, including the summary printed by `deploy_batch.py`'s `main`.
- `KeyboardInterrupt` is a class in the model, but no modelled operation raises it.
- `main.py`, `gas_deployer_batch.py` and `test.py` are not part of this model.
- EmailNotifier.SendLoopResults: a recipient whose processing raises inside the loop is not modelled, because with strings for addresses and oracles for content and sending nothing in the loop body can raise.
- VariantBatch.GenerateQuizVariants: only says that the run returns and bounds the count. The producing variants are not characterised, because each attempt depends on the generator state left by the earlier ones. `RunVariants` gives the order, range and path of each produced file.
- Randomness.Shuffle: states a permutation and the number of draws, not the distribution of outcomes.
- Randomness.Sample: only CPython's pool branch is modelled. CPython takes it when the population has at most 21 items (for k up to 5; more for larger k). For larger populations it draws indices into a set and draws again on a collision, so the number of draws and the items taken differ from the model's.
- QuizPipeline.GenerateForLanguage: runs the corrected multi-file workflow, which restores the title after a failed run; the code as written leaves the generator's title suffixed (see Findings).
- QuizPipeline.GenerateForLanguageRuns: relates the run to the corrected multi-file workflow, not to the title-keeping code as written.
- VariantBatch.QuizAttempt: each attempt runs the corrected workflow, so a failed variant does not leave its suffix in the next variant's title as the code as written does.

## Findings

| source | as written | input that shows it | evidently intended | confidence | as-written member | corrected member |
|---|---|---|---|---|---|---|
| quiz_generator.py:475-508 | `config.title` is restored only on the success path; when loading, rendering or saving raises, the generator keeps the suffixed title, and `generate_quiz.py`'s loop reuses that generator | variant 1's output path is not writable and variant 2 succeeds: variant 2's form is titled `AI Fundamentals [ENG] Variant 1 [ENG] Variant 2` | the title is restored after every variant, so suffixes never accumulate | not executed | QuizPipeline.AsWrittenTitleAccumulates | QuizPipeline.TitleIndependentOfEarlierFailures |

The rest of the model uses the corrected workflow, `QuizPipeline.GenerateFromMultipleFiles`, which restores the title on every path. `QuizPipeline.GenerateFromMultipleFilesAsWritten` models the code as it stands.
