# InboXpert backend core, modelled in Dafny

InboXpert reads job leads from a Google Sheet and a resume from Google
Drive. It asks a language model for one application email per lead and
sends the emails the user approves through Gmail. All of the work with
Google and the model goes through an agent library. This project models the
logic the backend runs around those calls, in both copies of the backend
(`backend/main.py` and `backend/agent_runner.py`):

- **Sheet resolution and row normalisation** (module `Rows`). The sheet tool's output is resolved to one list of rows. Each row becomes a fixed record of company, HR e-mail and job role: the first truthy column among four name variants wins, and its value is stripped.
- **Prompt and subject** (module `Prompts`). The prompt template of each copy, filled in with `str.format`, and the subject line.
- **Draft assembly** (module `Drafts`). `generate_drafts` skips list elements that are not dicts. For each dict row it formats the prompt, turns the model's answer (or its failure) into a body, builds the subject line and appends a draft. The resume link is shared by every draft and by the reply.
- **Resume text** (module `Resume`). `parse_resume` joins the text of the PDF's pages.
- **Gmail auth status** (modules `AuthUrl`, `Auth`). `ensure_gmail_auth` looks for the `AUTH_OK` marker, then tries a chain of places for a login URL. The login-URL regular expression is written out as a scanner with a reference semantics (leftmost start, longest match). The `WebExecutionHooks` object is a class with its one field.
- **Endpoint checks** (module `Endpoints`). The required-field checks and the status codes of `/generate-drafts` and `/send-email`.

Python's semantics are written out where the code depends on them (module `PyStrings`):

- truthiness of strings and of None;
- `or` chains;
- `str.strip()`, with Python's full whitespace set;
- the `in` test on strings;
- slicing `[:n]`;
- `str(n)`.

Within the modelled functions the two copies differ in three places. (They also differ in `send_email`, which converts its arguments and its `raw` result differently, and in the wording of the auth-check query; both are left out.) The functions involved take a `Backend` parameter (`MainApp` for `backend/main.py`, `AgentRunner` for `backend/agent_runner.py`), and the differences are proved as lemmas:

- the body taken from a falsy model output (`Drafts.ReturnedBody`, `Drafts.BodyCopiesDiffer`);
- the hook fallback on the error paths of the auth check (`Auth.CopiesDiffer`);
- the wording of the block of rules in the prompt template (`Prompts.TemplatesDiffer`).

External outcomes are inputs to the model:

| External call | How the model receives it |
|---|---|
| Sheet fetch | `SheetFetch` |
| Resume download and parse | `ResumeFetch` |
| Language model | a function from the row's position in the row list and the prompt to `Returned(value)` or `Raised(message)` |
| Auth-check run | `RunOutcome`, plus the URL the hook holds afterwards |
| What `send_email` returned | `SendResult` |

Two places where the code is narrower than its names suggest:

- Only the exact keys "Sheet1" and "sheet1" are looked up, not any capitalisation of "sheet1" (`Rows.OtherSpellingsIgnored`).
- A failed sheet fetch reaches the client in an HTTP 200 reply that carries an `error` field, not as an HTTP error (`Endpoints.FetchFailureIsStill200`).

## Model

| member | source | states |
|---|---|---|
| PyStrings.Strip | backend/main.py:128-130 | `strip()` leaves no whitespace at either end and never lengthens the text |
| PyStrings.StripParts | backend/main.py:128-130 | names the whitespace `strip()` removes from each end: the input is that whitespace around the stripped text |
| PyStrings.StripSplits | backend/main.py:128-130 | the input is the stripped text with whitespace on either side |
| PyStrings.StripRecovers | backend/main.py:128-130 | surrounding a trimmed text with whitespace and stripping gives that text back |
| PyStrings.StripAllSpace | backend/main.py:128-130 | a whitespace-only string strips to "" |
| PyStrings.StripIdempotent | backend/main.py:33 | stripping twice is stripping once |
| PyStrings.StripKeeps | backend/main.py:128 | a trimmed value is unchanged by `strip()` |
| PyStrings.Take | backend/main.py:205 | `s[:n]` is the prefix of `s` of length `n`, or `s` itself when `s` is no longer than `n` |
| Rows.Lookup | backend/main.py:172-175 | the value returned is stored under the key in the dict |
| Rows.ResolveRows | backend/main.py:167-182 | `rows_raw ... or {}` and the dict/list/other branch that picks `rows_list`; stated by `Rows.ListUsedAsIs`, `Rows.NoRowsFromOtherValues`, `Rows.Sheet1Wins`, `Rows.LowerSheet1Wins`, `Rows.FirstValueOtherwise`, `Rows.OtherSpellingsIgnored` |
| Rows.ListUsedAsIs | backend/main.py:179-180 | a list output is the row list, unchanged |
| Rows.NoRowsFromOtherValues | backend/main.py:167-182 | a falsy output becomes `{}` and gives zero rows; any other output that is neither a list nor a dict gives zero rows |
| Rows.Sheet1Wins | backend/main.py:172-173 | a "Sheet1" entry supplies the rows wherever it stands in the dict |
| Rows.LowerSheet1Wins | backend/main.py:174-175 | without "Sheet1", a "sheet1" entry supplies the rows, ahead of the first value |
| Rows.FirstValueOtherwise | backend/main.py:176-178 | without either key, the first value supplies the rows if it is a list, otherwise there are none |
| Rows.OtherSpellingsIgnored | backend/agent_runner.py:203-208 | another capitalisation such as "SHEET1" is not recognised, so the first value is used |
| Rows.FirstTruthy | backend/main.py:125-127 | the `row.get(k1) or ... or ""` chain; stated by `Rows.FirstTruthySpec`, `Rows.FirstTruthyOnlyOne`, `Rows.FirstTruthyIgnores` |
| Rows.FirstTruthySpec | backend/main.py:125-127 | the `or` chain gives "" exactly when no column is truthy, and otherwise the first truthy column's value |
| Rows.NormalizeRowKeys | backend/main.py:123-135 | `_normalize_row_keys`; stated by `Rows.NormalizeRowKeysShape`, `Rows.NormalizedFields`, `Rows.RecordVariantsAgree` |
| Rows.NormalizeRowKeysShape | backend/main.py:123-135 | the record always has company, hr_email and job_role, each the stripped first truthy value; it has subject and body only when the row does, copied unstripped; no other key survives |
| Rows.NormalizedShape | backend/agent_runner.py:143-156 | building the record: the three fields set, subject and body copied when present, nothing else kept |
| Rows.NormalizedFields | backend/main.py:125-135 | the record's company, hr_email and job_role are the resolved fields of the row |
| Rows.FieldResolution | backend/main.py:125-130 | a field is the stripped value of the first truthy column in key order |
| Rows.MissingColumnsGiveEmpty | backend/main.py:125-130 | a row with none of the recognised columns normalises to three empty strings |
| Rows.NoColumnGivesEmpty | backend/main.py:125 | with none of a field's columns present, the field is "" |
| Rows.BlankEarlierColumnWins | backend/main.py:125-128 | a whitespace-only "Company" cell is truthy, wins over later columns, and yields "" |
| Rows.KeyVariantsAgree | backend/agent_runner.py:145-147 | a value gives the same field under any of its four column names |
| Rows.RecordVariantsAgree | backend/agent_runner.py:143-156 | a value gives the same whole normalised record under any of its field's four column names |
| Rows.OtherFieldsUntouched | backend/agent_runner.py:145-147 | a column of one field changes neither of the other fields |
| Rows.FirstTruthyIgnores | backend/main.py:125-127 | the `or` chain reads no column outside its list |
| Rows.NormalizedIgnores | backend/agent_runner.py:150-156 | apart from the three fields, the record reads only the row's subject and body |
| Rows.FirstTruthyOnlyOne | backend/main.py:125-127 | with one column of the list set, the chain yields its value if truthy and "" otherwise |
| Resume.Joined | backend/main.py:29-32 | the text the page loop accumulates; stated by `Resume.JoinedAppend`, `Resume.JoinedAround`, `Resume.BlankPageIgnored`, `Resume.PageAppears`, `Resume.NoTextJoinsEmpty` |
| Resume.ResumeText | backend/main.py:24-33 | `parse_resume`'s result: "" for a missing file, else the stripped join; stated by `Resume.ParseResume`, `Resume.NoTextGivesEmpty` |
| Resume.ParseResume | backend/main.py:24-33 | the loop's result equals `ResumeText`, the stripped join of the pages, and is trimmed |
| Resume.JoinedAppend | backend/main.py:29-32 | joining distributes over splitting the page list |
| Resume.JoinedAround | backend/main.py:29-32 | the joined text of a page list is the text before a page, that page's text and newline if it has text, then the text after |
| Resume.BlankPageIgnored | backend/agent_runner.py:24-26 | a page without text contributes nothing, wherever it stands |
| Resume.PageAppears | backend/agent_runner.py:24-26 | every page with text appears in the joined text, followed by a newline |
| Resume.NoTextGivesEmpty | backend/agent_runner.py:20-27 | a missing file, or pages without any text, give "" |
| Resume.NoTextJoinsEmpty | backend/agent_runner.py:23-26 | pages without any text join to "" |
| AuthUrl.InPatternSpan | backend/main.py:55 | a span matches the pattern iff one of the two literal prefixes matches case-insensitively and at least one URL character follows, all of them URL characters |
| AuthUrl.PrefixesExclusive | backend/main.py:55 | the optional "s" cannot go both ways at one position |
| AuthUrl.RunEnd | backend/main.py:55 | the greedy class consumes URL characters up to the first whitespace, quote, `'` or `>`, or the end |
| AuthUrl.MatchAt | backend/main.py:55 | the pattern tried at one position; stated by `AuthUrl.MatchAtCorrect` |
| AuthUrl.MatchAtCorrect | backend/main.py:55 | the scanner at one position finds the longest match there, and finds one whenever one exists |
| AuthUrl.Find | backend/agent_runner.py:58 | the scan reports the leftmost match and the longest at that start, and reports none only when no span matches |
| AuthUrl.Search | backend/agent_runner.py:58 | `search(...).group(0)` is the leftmost-longest match (`FirstMatch`); it is absent iff no span of the text matches |
| AuthUrl.FirstMatchUnique | backend/agent_runner.py:58 | the reported match is determined by the text |
| AuthUrl.ExtendMatch | backend/agent_runner.py:58 | a match followed by a URL character extends to a longer match |
| AuthUrl.MatchEndsAtDelimiter | backend/agent_runner.py:58 | a reported match ends at the end of the text or just before whitespace, a quote, `'` or `>` |
| AuthUrl.SearchFindsLoginLink | backend/agent_runner.py:107-109 | an OAuth link inside a sentence is found exactly, without the text that follows it |
| Auth.WebExecutionHooks.constructor | backend/agent_runner.py:36-38 | `last_auth_url` starts as None |
| Auth.WebExecutionHooks.OnAuthUrl | backend/agent_runner.py:40-53 | after `on_auth_url(u)` the field holds `u`; the most recent call wins |
| Auth.HookFallback | backend/agent_runner.py:123-132 | the hook's URL as an error path reports it: the URL itself when truthy; otherwise main.py passes the field as it is (lines 118 and 120 of backend/main.py) and agent_runner.py gives None, so agent_runner.py never reports an empty URL |
| Auth.EnsureGmailAuth | backend/agent_runner.py:87-132 | authenticated iff the run completed and its output contains "AUTH_OK", and then there is no URL; raw is the output or the error text; any URL that is not the hook's matches the pattern |
| Auth.CompletedFallbackChain | backend/agent_runner.py:105-122 | without the marker the URL is the first present of: the match in the output, the match in the run dump, the hook's URL if truthy; authenticated is False |
| Auth.ErrorPaths | backend/agent_runner.py:123-132 | on PlanError the error text's match, else the hook; on any other exception the hook |
| Auth.CopiesDiffer | backend/main.py:113-120 | the copies differ exactly when an error path falls back to a hook holding "", which main.py reports as "" and agent_runner.py as None |
| Auth.AuthOkAlone | backend/main.py:95-96 | the output "AUTH_OK" gives authenticated with no URL |
| Auth.AuthOkBeatsUrl | backend/agent_runner.py:101-103 | the marker anywhere in the output wins, even when a URL is also present |
| Auth.LoginLinkReported | backend/main.py:98-112 | an output holding a login link gives that link and authenticated False |
| Auth.NoMarkerInLoginText | backend/main.py:95 | the example output does not contain the marker |
| Prompts.TemplatesDiffer | backend/agent_runner.py:159-179 | the two copies' templates agree piece by piece except the block of rules, which is longer in agent_runner.py |
| Prompts.TemplatesHaveEveryHole | backend/main.py:138-157 | both copies' templates use each of the five placeholders |
| Prompts.Fill | backend/main.py:202-208 | `template.format(...)`; stated by `Prompts.FillAppend`, `Prompts.FillContainsHole` |
| Prompts.Prompt | backend/main.py:202-208 | the prompt for one row; stated by `Prompts.PromptContents`, `Prompts.PromptResumeText`, `Prompts.BlankCompanyFallbacks` |
| Prompts.FillContainsHole | backend/main.py:202-208 | formatting places every placeholder's argument in the prompt |
| Prompts.FillAppend | backend/main.py:202-208 | formatting distributes over splitting the template |
| Prompts.PromptContents | backend/main.py:202-208 | the prompt contains the company or "the company", the role or "the role", "200", the resume link and the first 12000 characters of the resume |
| Prompts.PromptResumeText | backend/main.py:205 | the resume text in the prompt is its first 12000 characters, or the whole text when it is no longer |
| Prompts.Subject | backend/main.py:217 | the subject line; stated by `Prompts.BlankCompanyFallbacks`, `Drafts.SingleRowDraft` |
| Prompts.BlankCompanyFallbacks | backend/main.py:203-217 | a blank company reads "Company" in the subject and "the company" in the prompt |
| Drafts.Body | backend/main.py:210-215 | the body taken from the model's outcome; stated by `Drafts.ReturnedBody`, `Drafts.FailureBody`, `Drafts.BodyCopiesDiffer`, `Drafts.ZeroOutputDiffers` |
| Drafts.ReturnedBody | backend/agent_runner.py:246-256 | a returned body is trimmed; None gives "" in both copies; a truthy output gives `str(out).strip()`; main.py gives "" for every falsy output; agent_runner.py gives `str(out).strip()` for every output but None |
| Drafts.FailureBody | backend/main.py:214-215 | a failed generation's body names the error and is the same in both copies |
| Drafts.BodyCopiesDiffer | backend/main.py:213 | the copies' bodies differ exactly for falsy outputs other than None whose text does not strip to "" |
| Drafts.ZeroOutputDiffers | backend/agent_runner.py:249-253 | the output 0 gives "" in main.py and "0" in agent_runner.py |
| Drafts.DraftFor | backend/main.py:197-225 | the draft for one dict row; stated by `Drafts.DraftFields` |
| Drafts.DraftFields | backend/main.py:196-225 | a draft carries the row's resolved fields, the subject built from them, the model's answer to the row's prompt, and the resume link |
| Drafts.DictRows | backend/main.py:194-196 | the dict rows of the list are taken with their positions, in list order |
| Drafts.DictRowsComplete | backend/main.py:194-196 | no dict row is skipped |
| Drafts.ForEachDictRow | backend/main.py:194-196 | the loop appends at most one element per list element |
| Drafts.ForEachFollowsRows | backend/main.py:193-225 | the loop appends exactly one element per dict row, in row order |
| Drafts.DraftsForStep | backend/main.py:194-225 | one more list element adds its draft if it is a dict row, and nothing otherwise |
| Drafts.DraftsShareLink | backend/main.py:218-225 | every draft carries the resume link |
| Drafts.DraftsFor | backend/main.py:193-225 | the drafts of a row list; stated by `Drafts.DraftsFollowRows`, `Drafts.DraftsShareLink`, `Drafts.LlmOnlyShapesBodies`, `Drafts.FailureStaysInItsRow` |
| Drafts.BuildDrafts | backend/main.py:193-225 | the loop's result equals `DraftsFor` on the row list |
| Drafts.DraftsFollowRows | backend/main.py:193-225 | exactly one draft per dict row, in row order, each built from its own row |
| Drafts.LlmOnlyShapesBodies | backend/main.py:217 | every field but the body, the subject included, is independent of the model's answers |
| Drafts.FailureStaysInItsRow | backend/agent_runner.py:246-256 | a failure for one row gives that row the diagnostic body; every other draft is as it would have been |
| Drafts.SingleRowDraft | backend/main.py:196-225 | a one-row sheet with trimmed first-choice columns gives one draft with those values and the subject "Job Application - role at company" |
| Drafts.FirstChoiceResolves | backend/main.py:125-128 | a trimmed, non-empty value in the first column of a field's list is the field's value |
| Drafts.OneRowOneDraft | backend/main.py:193-225 | a list of one dict row gives exactly that row's draft |
| Drafts.GenerateDrafts | backend/main.py:159-227 | the operation's reply equals `GenerateDraftsSpec` |
| Drafts.FetchFailureReply | backend/main.py:168-169 | an error is reported iff the sheet fetch failed, and then there are no drafts, no link, and the message names the exception |
| Drafts.ResumeLinkShared | backend/agent_runner.py:215-268 | every draft's link is the reply's; the link is the Drive view URL iff there is a resume id and download and parse raised nothing, otherwise "" |
| Drafts.FetchedDrafts | backend/main.py:171-227 | with the sheet fetched, the drafts are one per dict row of the resolved list, in order |
| Endpoints.ApiGenerateDrafts | backend/main.py:271-283 | the response is `GenerateResponse`: 400 with "sheet_id is required" iff sheet_id is falsy; otherwise 200 with the reply of `generate_drafts` for `resume_id or ""` |
| Endpoints.GenerateResponse | backend/main.py:271-283 | the response of `/generate-drafts`; its properties are the ensures of `Endpoints.ApiGenerateDrafts` and `Endpoints.FetchFailureIsStill200` |
| Endpoints.FetchFailureIsStill200 | backend/main.py:271-283 | with a sheet_id, a failed sheet fetch gives status 200 and a reply with no drafts and the error text |
| Endpoints.MissingSendField | backend/main.py:291 | `not (to and subject and body)`; stated by `Endpoints.ApiSendEmail`, `Endpoints.WhitespaceBodyAccepted` |
| Endpoints.ApiSendEmail | backend/main.py:285-301 | 400 iff one of to, subject, body is falsy; otherwise 200 with the raw output or 500 with the error, as `send_email` reported |
| Endpoints.RejectedBeforeSending | backend/main.py:291-292 | a refused request does not depend on what sending would do |
| Endpoints.WhitespaceBodyAccepted | backend/main.py:291 | the check is truthiness only: a body of one space passes it |

## Left out

- `init_portia_if_needed` and the `_PORTIA`/`_HOOKS` singletons: client construction and environment loading in another library.
- The content of every `portia.run` call: the outcomes are inputs (`SheetFetch`, `LlmOutcome`, `RunOutcome`, `SendResult`).
- `download_resume` and the PDF library's page-text extraction: the download's success and each page's text are inputs.
- `send_email`: a wrapper around a Gmail tool call; its returned dict is the input `SendResult`. The copies differ inside it: backend/main.py turns a None argument into "None" and a falsy output into "", while backend/agent_runner.py turns a None argument into "" and only a None output into "". Neither difference is modelled.
- The text of the auth-check query, which is worded differently in the two copies: it is sent to the agent, whose answer is the input `RunOutcome`.
- The `/start-auth` handler and the FastAPI, CORS and uvicorn plumbing.
- The `except Exception` branches of the two handlers that answer 500 when `generate_drafts` or `send_email` raises: raising is not modelled in those functions.
- `frontend/app.py`: the Streamlit user interface.
- The `print` calls and the `super().on_auth_url(url)` call in the hook: their exceptions are swallowed and they change no state the model reads.
- Concurrency around the singleton.
- Non-string cell values: `.strip()` on them raises; cells are strings or None.
- ResolveRows: a value under "Sheet1" or "sheet1" that is not a list gives zero rows. That holds for a string or a dict, whose elements are not dicts. None or a number there makes the loop raise `TypeError`, which is not modelled. (A first value that is not a list gives zero rows in the code too.)
- JSON request fields are modelled as a string or None; other JSON types in `to`, `subject`, `body`, `sheet_id` or `resume_id` are not.
- The final output of the auth-check run is taken after `str(... or "")`; the object it came from is not modelled, and `model_dump_json()` is an opaque string (or None when it raised).
- The docstring of `_normalize_row_keys` in backend/agent_runner.py says other keys are preserved; the code drops them, and the model follows the code.
- The prompt template's text is modelled literally. Apart from the placeholders, only its containment properties are proved.
