# Verified model of the code-execution pipeline of an educational Python platform

This project models, in Dafny, the core of a small teaching platform.

- Students read published teaching materials, register and log in.
- They send Python code to a Flask application.
- That application validates the code and forwards it over HTTP to a separate code runner service.
- The runner executes the code in a temporary file under a time budget.
- Each submission is recorded with a status derived from how the run went.

The model covers these parts:

- the runner's response mapping, its temporary-file cleanup and its restricted environment (`Runner`);
- the Flask-side client that classifies how the HTTP call ended (`RunnerClient`);
- the input validators (`Validators`);
- the submission endpoints and the submission record (`Submissions`, `SubmissionModel`);
- the user record, registration, login and profile editing (`UserModel`, `AuthService`);
- the 401/403 authorization decorators (`Decorators`);
- the material record and service (`MaterialModel`, `MaterialService`);
- two client-side script files: relative dates and navigation (`ClientUtils`), difficulty labels and Markdown rendering (`ClientMaterials`).

Three helper modules support them: `Base` (Option, decimal rendering, prefixes), `JsonValues` (decoded JSON with Python truthiness) and `Sorting` (an insertion sort proved sorted and a permutation, standing for SQL `ORDER BY`).

Anything the programs do not decide themselves is a parameter of the operation that meets it:

- what the subprocess did;
- how an HTTP call ended;
- whether a database commit succeeded;
- the clock, the random password salt and the configured timeout.

Tables are `seq`s of row datatypes held by classes (`SubmissionStore`, `UserStore`, `MaterialStore`). Their methods append or replace rows and state the whole new table. The runner host is a `Host` object. It holds `os.environ`, the existing paths and the temporary files still on disk.

Two decisions follow the code rather than the documented intent.

- A submission's status is only ever 'success' or 'error'. The column comment documents 'timeout' as well, but the status expression in the submit view never produces it.
- A submission whose call to the runner failed is still stored, as an 'error' row carrying the call's error message.

Python's `re.match` with a `$` anchor also matches before one final newline. The validators keep that behaviour (`Validators.UsernameAcceptsFinalNewline`).

## Model

| member | source | states |
|---|---|---|
| Runner.NewRequest | code-runner/runner.py:18-20 | the code is kept; an omitted timeout is 30 seconds, a given one is kept |
| Runner.Respond | code-runner/runner.py:63-101 | success iff the process exited 0. An exit status gives output = stdout and the measured time. Exit 0 gives error = stderr only when stderr is non-empty; a non-zero exit gives error = stderr even when empty. A timeout gives empty output, an error naming the budget, and execution time = the budget. Any other exception gives empty output, time 0 and the failure message. A response is always returned |
| Runner.TimeoutMessageNamesBudget | code-runner/runner.py:80-86 | the timeout error is the fixed prefix, the decimal budget, then the fixed suffix |
| Runner.TimeoutDistinctFromFailure | code-runner/runner.py:80-101 | a timed-out run and an infrastructure failure never carry the same error text |
| Runner.RestrictedEnvironmentContents | code-runner/runner.py:114-119 | the restricted entries set exactly PATH, PYTHONPATH="", HOME and TMPDIR; HOME and TMPDIR are /tmp/execution |
| Runner.Host.SetupRestrictedEnvironment | code-runner/runner.py:104-122 | /tmp/execution exists afterwards. The four variables are assigned over the old environment, and every other variable is left unchanged |
| Runner.Host.ExecuteCodeAsWritten | code-runner/runner.py:45-101 | the response is `Respond`'s. A file is created unless creation raised. It stays on disk iff writing the source raised, or the run happened and the unlink failed |
| Runner.Host.ExecuteCode | code-runner/runner.py:45-101 | the same response. The file stays on disk only when the unlink fails, so a successful unlink leaves the set of temporary files as it was |
| Runner.WriteFailureLeaksTempFile | code-runner/runner.py:49-51 | a write failure leaves the file behind as written, even when unlinking works; the corrected version removes it |
| Runner.CorrectionOnlyAffectsWriteFailure | code-runner/runner.py:49-93 | whenever the source was written, both versions leave behind the same files |
| RunnerClient.PlanCall | flask-app/app/services/code_runner_service.py:24-33 | a missing timeout becomes the configured one. The HTTP timeout is the execution timeout + 5, so it is strictly larger |
| RunnerClient.Classify | flask-app/app/services/code_runner_service.py:36-49 | success iff status 200, and then the data is the runner's answer and there is no error. Every failure has `{}` data and a non-empty error. A non-200 status names the status. A timeout (connect timeouts included) and a connection error each have their own message. Any other exception gives the unexpected-error message |
| RunnerClient.ExecuteCode | flask-app/app/services/code_runner_service.py:13-49 | the call sent is `PlanCall`'s and the result is `Classify`'s |
| RunnerClient.ProgramFailureIsNotTransportFailure | flask-app/app/services/code_runner_service.py:36-38 | a 200 answer whose program failed is a successful call that passes the runner's report through untouched |
| RunnerClient.TransportFailuresDistinct | flask-app/app/services/code_runner_service.py:39-49 | the four failure messages are pairwise distinct |
| RunnerClient.ConnectTimeoutIsTimeout | flask-app/app/services/code_runner_service.py:42-46 | a connect timeout is reported as a timeout, not as a connection error |
| RunnerClient.CheckServiceHealth | flask-app/app/services/code_runner_service.py:52-60 | healthy iff /health answers 200; an exception is unhealthy |
| Validators.ValidateCode | flask-app/app/utils/validators.py:61-74 | valid iff present, not all whitespace, and at most 10,000 characters. Missing or blank code gets the "enter code" message, checked before the length. Any other code over 10,000 characters gets the too-long message. Messages are non-empty |
| Validators.CodeLengthBoundary | flask-app/app/utils/validators.py:71-74 | exactly 10,000 characters is valid and 10,001 is too long |
| Validators.ValidateUsername | flask-app/app/utils/validators.py:25-42 | valid iff 3 to 20 characters matched by `^[a-zA-Z0-9_]+$`. Errors are reported in the order empty, length, charset, each with its own message |
| Validators.ValidUsernameCharacters | flask-app/app/utils/validators.py:38-39 | an accepted username is made of letters, digits and '_', except possibly one final newline |
| Validators.UsernameAcceptsFinalNewline | flask-app/app/utils/validators.py:38-39 | "abc\n" is accepted, because `$` matches before a final newline |
| Validators.ValidatePassword | flask-app/app/utils/validators.py:45-58 | valid iff at least 6 characters; empty and too short get distinct messages |
| Validators.FirstIndex | flask-app/app/utils/validators.py:18 | finds the first occurrence of a character, or reports there is none |
| Validators.LastIndex | flask-app/app/utils/validators.py:18 | finds the last occurrence of a character, or reports there is none |
| Validators.EmailBody | flask-app/app/utils/validators.py:18 | the regex-free decision agrees exactly with "local part @ domain . two or more letters" |
| Validators.ValidateEmail | flask-app/app/utils/validators.py:8-22 | valid iff non-empty and the pattern matches to the end, one final newline allowed. Empty input gets the required message, and any other non-matching input gets the malformed message |
| Validators.EmailTopLevelDomainLength | flask-app/app/utils/validators.py:18 | "a@b.c" is refused and "a@b.co" accepted |
| SubmissionModel.ParseStatus | flask-app/app/models/submission.py:24 | exactly the three documented texts parse, and a parsed status renders back to the same text |
| SubmissionModel.NewSubmission | flask-app/app/models/submission.py:13-32 | language defaults to 'python'; score and is_correct start empty; every given field is kept |
| SubmissionModel.ToDict | flask-app/app/models/submission.py:34-49 | the keys are exactly the twelve columns; code, status, output and error are copied |
| SubmissionModel.ToDictLossless | flask-app/app/models/submission.py:34-49 | the dictionary can be read back into the identical record, so every column is copied unchanged |
| Submissions.CodeGuard | flask-app/app/routes/submissions.py:26-34 | text is validated as text. A falsy value is refused as missing, and a truthy non-text value crashes the view |
| Submissions.ExecuteGuard | flask-app/app/routes/submissions.py:18-34 | a missing or empty body is refused first. Otherwise a text code that `validate_code` accepts proceeds with that code. Invalid code is refused with `validate_code`'s own message, and truthy non-text code crashes (500). Only valid text code proceeds |
| Submissions.SubmitGuard | flask-app/app/routes/submissions.py:55-78 | the checks run in order: body, then a truthy problem_id, then the code. With a body and a truthy problem_id, valid text code proceeds with that code and problem id. Invalid code is refused with `validate_code`'s message, and truthy non-text code crashes (500). Proceeding always carries the body's own problem id and valid code |
| Submissions.SubmitStricterThanExecute | flask-app/app/routes/submissions.py:18-78 | a body that submit accepts is accepted by execute with the same code |
| Submissions.ZeroProblemIdRejected | flask-app/app/routes/submissions.py:66-70 | a problem_id of 0 is refused like a missing one |
| Submissions.Execute | flask-app/app/routes/submissions.py:14-48 | a guard rejection answers 400, and a crash in the guards answers 500. Past the guards, the answer is 500 iff the call failed, with the call's error; otherwise it is 200 with the runner's data |
| Submissions.FailingProgramIsOk | flask-app/app/routes/submissions.py:37-48 | a program that failed in the runner still answers 200 |
| Submissions.Record | flask-app/app/routes/submissions.py:84-92 | status is 'success' iff the call succeeded and the runner reported success, and is never 'timeout'. Code and user are stored verbatim, and problem_id as the request carried it. A failed call stores no output and no time, and stores the call's error |
| Submissions.SubmissionStore.Submit | flask-app/app/routes/submissions.py:53-110 | rejections and crashes call nothing and store nothing. An accepted body calls the runner once. A committed row is appended exactly once with the next id, and the reply is 201 carrying the row and the result only if the call succeeded. A failed commit leaves the table unchanged and answers 500 with the save-error message |
| Submissions.TransportFailureRecordsError | flask-app/app/routes/submissions.py:84-92 | after any failed call the stored row is an 'error' with the call's message, no output and no time |
| Submissions.SubmittedNoEarlierIsPreorder | flask-app/app/routes/submissions.py:126 | "submitted no earlier" is a total preorder, so the history can be sorted by it |
| Submissions.Matching | flask-app/app/routes/submissions.py:121-124 | exactly the caller's rows, restricted to the problem id when one is given (0 counts as none). Each such row occurs as often as in the table, and no other row occurs |
| Submissions.MySubmissions | flask-app/app/routes/submissions.py:121-126 | only the caller's rows, all matching rows, each once (a permutation of the matching rows), newest first |
| Submissions.History | flask-app/app/routes/submissions.py:117-139 | the page defaults to 1 and per_page to 20; the total counts all matching rows |
| Submissions.FindOwned | flask-app/app/routes/submissions.py:146-149 | a row is found iff one has that id and belongs to the caller |
| Submissions.GetSubmission | flask-app/app/routes/submissions.py:142-160 | a reply with data iff the caller owns a row with that id, and then the data is the dictionary of such a row; otherwise 404 "not found" |
| Submissions.OthersSubmissionLooksMissing | flask-app/app/routes/submissions.py:146-155 | another user's submission gets exactly the reply a nonexistent id gets |
| UserModel.NewUser | flask-app/app/models/user.py:24-25 | a new user is active and not an admin, with no bio |
| UserModel.SetPassword | flask-app/app/models/user.py:36-38 | only the password hash changes, to the hash of the password under the salt |
| UserModel.CheckPassword | flask-app/app/models/user.py:40-42 | the stored hash is checked with the hasher. For a sound hasher, a hash of the same password under any salt passes |
| UserModel.CheckAfterSet | flask-app/app/models/user.py:36-42 | for a sound hasher, the password checks against the hash `set_password` stored |
| UserModel.ToDict | flask-app/app/models/user.py:44-56 | 'email' is present iff requested; 'password_hash' never is |
| UserModel.FindById | flask-app/app/services/auth_service.py:79-81 | the user with that id, or none iff no row has it |
| UserModel.FindByUsername | flask-app/app/services/auth_service.py:65 | a user with that username, or none iff no row has it |
| AuthService.RegistrationError | flask-app/app/services/auth_service.py:22-40 | no error iff username, email and password are valid and neither the username nor the email is taken. Otherwise the first failing check, in order, gives the message |
| AuthService.TakenUsernameReportedBeforeEmail | flask-app/app/services/auth_service.py:35-40 | a taken username is reported even when the email is taken too |
| AuthService.AuthenticateUser | flask-app/app/services/auth_service.py:54-76 | an empty username or password is refused before any lookup. Success iff the user exists, is active and the password checks, and then it returns that user |
| AuthService.UnknownUserLooksLikeWrongPassword | flask-app/app/services/auth_service.py:67-74 | an unknown username and a wrong password get the identical answer |
| AuthService.DisabledBeforePassword | flask-app/app/services/auth_service.py:70-71 | an inactive account is reported as disabled whatever the password |
| AuthService.Profiled | flask-app/app/services/auth_service.py:92-95 | full_name and bio take the given values when their keys are present; every other field is unchanged |
| AuthService.UserStore.RegisterUser | flask-app/app/services/auth_service.py:13-52 | a refusal returns the first failing check's message and adds nothing. A success adds exactly one active non-admin user with the next id and the `set_password` hash; uniqueness is kept. A failed commit adds nothing and returns the error message |
| AuthService.UserStore.UpdateUserProfile | flask-app/app/services/auth_service.py:83-101 | a commit replaces only that user's row with `Profiled`'s; a failed commit leaves the table unchanged and returns the error message |
| Decorators.JwtRequiredWithUser | flask-app/app/utils/decorators.py:10-30 | 401 iff the user is missing or inactive, and then the view is not called; otherwise the view is called with that user |
| Decorators.AdminRequired | flask-app/app/utils/decorators.py:33-57 | 401 for a missing or inactive user comes first, then 403 for a non-admin. The view runs iff the user is an active admin, and it gets that user |
| Decorators.AdminPassesLogin | flask-app/app/utils/decorators.py:42-55 | whoever passes the admin check passes the login check with the same result |
| Decorators.LoginRefusalIsShared | flask-app/app/utils/decorators.py:21-26 | where the login check refuses, the admin check gives the very same 401 |
| MaterialModel.NewMaterial | flask-app/app/models/material.py:22-32 | order defaults to 0 and is_published to true; both timestamps are the insertion time |
| MaterialModel.Split | flask-app/app/models/material.py:42 | the split yields at least one piece, and no piece contains ',' |
| MaterialModel.JoinSplit | flask-app/app/models/material.py:42 | joining the split pieces with ',' gives the text back |
| MaterialModel.SplitJoin | flask-app/app/models/material.py:42 | splitting the join of comma-free pieces gives the pieces back |
| MaterialModel.TagList | flask-app/app/models/material.py:42 | a missing or empty tags column gives []. Otherwise the list joins back to the stored text |
| MaterialModel.ToDict | flask-app/app/models/material.py:34-49 | 'content' is present iff requested; tags are rendered as the tag list; the other nine keys are always present |
| MaterialService.Filter | flask-app/app/services/material_service.py:18-24 | exactly the published rows in the requested category and difficulty (each filter only when given). Each such row occurs as often as in the table, and no other row occurs |
| MaterialService.ListedBeforeIsPreorder | flask-app/app/services/material_service.py:26 | order ascending, then created_at descending, is a total preorder |
| MaterialService.GetAllMaterials | flask-app/app/services/material_service.py:12-26 | exactly the listed rows, each once, sorted by order ascending and then created_at descending |
| MaterialService.GetMaterialById | flask-app/app/services/material_service.py:28-31 | only a published row with that id is returned |
| MaterialService.UnpublishedIsHidden | flask-app/app/services/material_service.py:31 | with unique ids, an unpublished material is never returned by its id |
| MaterialService.FindById | flask-app/app/services/material_service.py:72 | the index of the row with that id, published or not, or none iff no row has it |
| MaterialService.GetCategories | flask-app/app/services/material_service.py:88-92 | every category of any row, published or not, exactly once |
| MaterialService.SetAttrFields | flask-app/app/services/material_service.py:80 | `setattr` changes only the column its key names |
| MaterialService.ApplyKeysFields | flask-app/app/services/material_service.py:77-80 | after copying some whitelisted keys, title, content and category each hold the data's value iff their key was copied and present. id and timestamps never change |
| MaterialService.ApplyKeysSettings | flask-app/app/services/material_service.py:77-80 | likewise for difficulty, description, tags, order and is_published |
| MaterialService.WhitelistLoopIsUpdate | flask-app/app/services/material_service.py:77-80 | the loop over the eight keys equals the field-by-field update |
| MaterialService.UpdateIgnoresOtherKeys | flask-app/app/services/material_service.py:77-80 | keys outside the whitelist (id, created_at, ...) change nothing |
| MaterialService.MaterialStore.CreateMaterial | flask-app/app/services/material_service.py:33-62 | a missing or empty title, content or category is refused and adds nothing. Otherwise exactly one published row with order 0 is added, unless the commit fails, which adds nothing and returns the error message |
| MaterialService.MaterialStore.UpdateMaterial | flask-app/app/services/material_service.py:64-86 | an unknown id is refused and changes nothing. Otherwise a commit replaces only that row, published or not, by the whitelisted update; a failed commit changes nothing and returns the error message |
| ClientUtils.Bucket | static/js/utils.js:86-110 | under one minute, negative differences included, is "just now". Minutes run 1-59, hours 1-23 and days 1-6, each the floor quotient bracketing the difference. A week or more, or an unparsable date, falls back to the locale date |
| ClientUtils.BucketMonotonic | static/js/utils.js:92-105 | an older date never reads as more recent, and within a unit the count never decreases |
| ClientUtils.FormatDate | static/js/utils.js:86-110 | the text of each bucket: '방금 전', then the count followed by '분 전', '시간 전' or '일 전', otherwise the locale date |
| ClientUtils.NavActive | static/js/utils.js:142-143 | the "/" link is active only on "/". Any other link is active iff its href prefixes the path. A missing href is compared as the text "null" |
| ClientUtils.FutureIsJustNow | static/js/utils.js:92-93 | a date in the future reads '방금 전' |
| ClientUtils.NinetySecondsAgo | static/js/utils.js:96-97 | 90 seconds ago reads "1분 전" |
| ClientUtils.RootLinkExact | static/js/utils.js:142-143 | the "/" link is active only on "/" |
| ClientUtils.SectionLinkCoversSubpaths | static/js/utils.js:142-143 | any other link is active on every path it prefixes |
| ClientUtils.PrefixIgnoresSegments | static/js/utils.js:142-143 | "/material" is active on "/materials" |
| ClientUtils.MissingHrefMatchesNull | static/js/utils.js:142-143 | a link without href is active only on paths starting with "null" |
| ClientMaterials.DifficultyText | static/js/materials.js:59-66 | beginner, intermediate and advanced map to 초급, 중급 and 고급; anything else is shown unchanged |
| ClientMaterials.MatchAt | static/js/materials.js:115-119 | a match found at a position starts with the rule's lead character and ends past that position, within the text |
| ClientMaterials.UnmatchedCopied | static/js/materials.js:115-119 | a global replacement whose pattern matches at no position copies the text unchanged |
| ClientMaterials.ReplaceAll | static/js/materials.js:115-119 | the global replacement of one rule: text where the pattern matches nowhere comes back unchanged |
| ClientMaterials.NoMatchUnchanged | static/js/materials.js:112-120 | a replacement whose pattern cannot start anywhere leaves the text unchanged |
| ClientMaterials.LineBreaksRemoved | static/js/materials.js:119 | after the newline replacement no '\n' remains |
| ClientMaterials.LineBreakFrom | static/js/materials.js:119 | the newline replacement decides each character on its own, so replacing from a position is replacing the rest of the text |
| ClientMaterials.LineBreakConcat | static/js/materials.js:119 | the newline replacement of a concatenation is the concatenation of the replacements |
| ClientMaterials.NewlineBecomesBreak | static/js/materials.js:119 | every '\n' becomes "<br>", and the text on either side is replaced independently |
| ClientMaterials.RenderMarkdown | static/js/materials.js:112-120 | the rendered HTML contains no '\n'. What it renders is stated by `NewlineBecomesBreak` (each '\n' becomes `<br>`), `InlineCodeThroughChain` and `PlainTextUnchanged` |
| ClientMaterials.InlineCodeRendered | static/js/materials.js:116 | `` `x` `` becomes `<code>x</code>` |
| ClientMaterials.FencedBlockDropsLanguage | static/js/materials.js:115 | a fenced block becomes `<pre><code>` around its body, and its language tag is dropped |
| ClientMaterials.PlainTextUnchanged | static/js/materials.js:112-120 | text without backticks, asterisks or newlines renders unchanged |
| ClientMaterials.InlineCodeThroughChain | static/js/materials.js:112-120 | through all five replacements, non-empty plain text in single backticks renders as `<code>` around that text |

## Left out

- The subprocess, the wall clock, signals and the FastAPI/uvicorn server are not modelled. What a run did is the `Execution` parameter, and the measured duration is an opaque `elapsed`.
- The HTTP calls of `CodeRunnerService` are not modelled. How each ended is a parameter, and so are `CODE_EXECUTION_TIMEOUT` and `CODE_RUNNER_URL`.
- A non-200 answer's body is not modelled, since the client ignores it.
- A 200 answer's body is taken to be a decoded `CodeResponse`. A body that is not JSON is the `OtherRaised` outcome.
- SQLAlchemy sessions are not modelled. Tables are sequences and a commit's success is a parameter.
- Pagination (`paginate`) is not modelled: `Submissions.History` returns every matching row in order, with the requested page and per_page. The slicing and the page count are left out.
- Timestamps are integers, and ISO formatting is not modelled.
- `updated_at`'s `onupdate` refresh is not modelled.
- MaterialService.MaterialStore.UpdateMaterial: requires each whitelisted value in the request to have its column's type. A title set to null, a string order and similar values are outside the model. SQLAlchemy would store them or fail at commit.
- Submissions.SubmitGuard: a JSON body that is not an object (a list, say) is not modelled. There `data.get` raises.
- Submissions.ExecuteGuard: a JSON body that is not an object is not modelled. An empty list is answered 400 like a missing body, and a non-empty list makes `data.get` raise.
- Submissions.ExecuteGuard: a missing or non-JSON request body is not modelled. `request.get_json()` answers it (400 or 415) before the view runs, and the model's `None` body stands for the JSON literal `null`.
- Submissions.Record: the database's conversion of `problem_id` is not modelled. The model keeps the decoded JSON value. An `Integer` column on SQLite stores a text "1", `true` or `1.0` as the integer 1. So in the source, the row read back after commit and the `problem_id=1` history filter see 1, where `Submissions.InHistory` does not match the model's stored value.
- AuthService.UserStore.UpdateUserProfile: takes `full_name` and `bio` as text or null only. A number, boolean, list or object sent for them is outside the model; the source assigns it to the column as is.
- The default arguments of the `to_dict` methods (`include_email=False` for users, `include_content=True` for materials) are not modelled. Callers of `UserModel.ToDict` and `MaterialModel.ToDict` always pass the flag.
- Runner.Respond: `CodeResponse` is taken to be validated with pydantic v1 semantics, where `error: str = None` makes the field implicitly optional. No pydantic or FastAPI version is pinned. Under pydantic v2 the explicit `None` for an empty stderr on exit 0 fails validation. The outer handler would then answer such a run as a failure with the failure message, and the model does not describe that behaviour.
- werkzeug password hashing is an uninterpreted `Hasher`. The only assumption is `Sound`: a hash checks against its own password.
- JWT verification is not modelled. The decorators receive the identity from the token.
- The salt and the clock are parameters.
- `formatExecutionTime` is not modelled (floating-point `toFixed`).
- `escapeHtml` is DOM work. `toLocaleDateString` is a parameter of `ClientUtils.FormatDate`.
- The localStorage helpers and the DOM updates of `setActiveNav` are not modelled; only the test applied to each link is.
- ClientMaterials.DifficultyText: keys inherited from `Object.prototype` (such as "constructor") would return a function in the source. They are treated like any other unknown level.
- The route files for auth and materials, the page routes, the fetch client, the practice page and the React frontend are thin glue or UI, and are not part of this model.
- The demo backend, the database seeding script and the configuration files are not part of this model.
- Unicode surrogates are not modelled: strings are sequences of Dafny characters. A source that cannot be encoded appears only as the `WriteRaised` outcome.

## Findings

| source | as written | input that shows it | evidently intended | confidence | as-written member | corrected member |
|---|---|---|---|---|---|---|
| code-runner/runner.py:49-51 | `temp_file` is bound only after `f.write(request.code)` succeeds, and the `finally` that unlinks the file guards only the run. A write that raises leaves the already-created file (`delete=False`) on disk, and the outer handler never removes it | code containing a lone surrogate such as `"\ud800"`: the file is created, UTF-8 encoding fails in `f.write`, and the file stays in the temp directory | the file is removed on every path once it exists | not executed | Runner.Host.ExecuteCodeAsWritten | Runner.Host.ExecuteCode |
