# Scaffold prompting harness: request and record shaping

This project models the core of `call-api.py` from the Scaffold prompting
repository. That script sends visual question-answering prompts to a chat
completion endpoint and saves one JSON log file per experiment and question.
The model covers the deterministic parts:

- **Strategy table** (`run_doc`). A question record and a mode string become
  one of three things: a query plan (experiment name, image paths, question
  text, system turns, ground-truth field), a skip when the grid-overlaid
  image is absent, or a fatal exit for an unknown mode. It also covers the
  guideline builders `get_output_inst`, `get_textual_guidelines` and
  `get_textual_guidelines_single`, and the `_dots.jpg` path rewrite.
- **Request assembly** (`query_single_turn`). One text block, then one
  high-detail data-URL image block per path. The history turns go in front
  and everything is wrapped in `{model, messages, temperature, max_tokens}`.
  A missing image file ends the process, as `encode_image` does.
- **Retry**. At most five attempts on the same payload. The first answer
  wins; running out of attempts gives a null response.
- **Record and path** (`query_single_turn_and_save`). The record dict, with
  `additional_save` merged over it under `dict.update` semantics, and the
  file path `log/<date>/<exp>.json` built with `os.path.join`.
- **Sequential batch** (the `parallel == 1` loop). Records are handled in
  order; a skip moves on, a save overwrites its file, and an exit stops the run.

The outside world is passed in as `Environment.Env`:
- `onDisk` stands for `os.path.exists`.
- `encode` stands for the base64 text of a file.
- `endpoint(payload, k)` stands for attempt `k` of the POST plus response
  parsing. It is `None` when that attempt raises.
- `today` stands for the date string.

Modules: `Wrappers`, `Strings`, `Envelope`, `Environment`, `Client`,
`Persist`, `Strategy`, `Runner`, one file each.

Three behaviours of the code are modelled as written:
- The grid image path comes from `str.replace(".jpg", "_dots.jpg")`. That
  rewrites every `.jpg` in the path, not only the extension.
  `Strategy.DotsPathRewritesEveryOccurrence` shows this on a family of paths, and
  `Strategy.DotsPathOfPlainJpg` shows that the two readings agree when `.jpg`
  occurs only as the extension. A path with no `.jpg` is its own "grid image".
- A missing question image is fatal only in the modes that send it. In
  `scaffold` the grid image is checked first, so a record missing both is
  skipped. `scaffold_single` never sends the question image, so such a
  record is saved when its grid image exists
  (`Runner.MissingImageFatalOnlyWhenSent`).
- Mode names are matched case-sensitively, so the command line's default
  `"Scaffold"` is fatal (see Findings).

## Model

| member | source | states |
|---|---|---|
| `Strings.IntToString` | call-api.py:109 | the `{h}`/`{w}` placeholders render an int as an optional leading minus sign followed only by digits, never empty |
| `Strings.IntToStringRoundTrip` | call-api.py:109 | the integer can be read back from its rendering |
| `Strings.IntToStringInjective` | call-api.py:122 | different grid sizes render differently |
| `Strings.ReplaceAll` | call-api.py:137 | `str.replace` with a replacement at least as long as the pattern never shortens the string |
| `Strings.ReplaceAllFirst` | call-api.py:137 | `str.replace` by its leftmost occurrence: when the pattern first occurs after a prefix, the prefix is kept, that occurrence becomes the replacement, and the rest is replaced in turn; with the no-occurrence case this determines the result for every input |
| `Strings.ReplaceAllWithoutOccurrence` | call-api.py:137 | `str.replace` leaves a string without the pattern unchanged |
| `Strings.ReplaceAllOnlySuffix` | call-api.py:143 | when the only occurrence is the trailing one, `str.replace` rewrites exactly that suffix |
| `Strings.Join` | call-api.py:82-83 | `os.path.join`: an absolute second part replaces the first; otherwise the result is the first part, a single `/` only where the first part does not already end in one, then the second part |
| `Envelope.ImageBlocksAt` | call-api.py:26-28 | one image block per path, block i built from path i |
| `Envelope.Content` | call-api.py:25-28 | the content is the question text first, then one high-detail data-URL block per path, in order |
| `Envelope.FirstMissing` | call-api.py:16-19 | finds the first path whose file is absent, with every earlier one present, or reports that all exist |
| `Envelope.Conversation` | call-api.py:30-37 | the messages are the history turns, unchanged and in order, followed by the user turn; just the user turn without history |
| `Envelope.PayloadFor` | call-api.py:24-45 | the process exits exactly when some image is absent, naming the first; otherwise the payload passes model, temperature and max_tokens through, keeps the history in front, and its last turn is the user's: the question text first, then `data:image/jpeg;base64,` + encoding with detail `high` for each path in order |
| `Envelope.BuildContent` | call-api.py:25-28 | the content loop yields the specified content (length 1 + paths, text first, images in order) or stops at the first absent image |
| `Envelope.BuildPayload` | call-api.py:24-45 | the imperative assembly of content, messages and payload equals `PayloadFor` |
| `Client.RetryFrom` | call-api.py:23 | between 1 and 5 calls; a response is the answer of the first attempt that answered, all earlier ones having failed; no response means all 5 attempts failed |
| `Client.RetryOutcome` | call-api.py:65-66 | the first answering attempt decides the response and the number of calls |
| `Client.QueryWithRetry` | call-api.py:23-56 | the retry loop posts the same payload until an answer comes or 5 attempts fail, matching `RetryFrom` |
| `Persist.RecordOf` | call-api.py:70-81 | the record holds exp, image_paths, history, question, model, temperature and response as passed; history and response are null exactly when absent; auxiliary keys win; no other keys |
| `Persist.RecordWithOneExtra` | call-api.py:70-81 | with one auxiliary key outside the base keys, the record has exactly the base keys plus that key, and every base field keeps what was passed |
| `Persist.SavePath` | call-api.py:82-83 | for a relative experiment name the file lies under `os.path.join("log", date)` and its name ends with `<exp>.json` |
| `Persist.SavePathLayout` | call-api.py:82-83 | for a date without slashes at its ends and a relative experiment name, the file is `log/<date>/<exp>.json` |
| `Persist.SavePathInjective` | call-api.py:82-83 | on one date, two relative experiment names share a file exactly when they are the same name |
| `Persist.SaveSpec` | call-api.py:58-83 | the process exits exactly when some image is absent, naming an absent one; otherwise the record goes to `SavePath(date, exp)` after 1 to 5 calls |
| `Persist.ResponseNullIffExhausted` | call-api.py:65-77 | a query whose payload is built is always saved, after 1 to 5 calls; its response is null exactly when all 5 attempts failed |
| `Persist.QueryAndSave` | call-api.py:58-83 | the query, record and path computation equals `SaveSpec` |
| `Strategy.OutputInstruction` | call-api.py:91-98 | one system turn whose only block is the `[[ANSWER]]` instruction |
| `Strategy.GridGuidelines` | call-api.py:100-111 | one system turn with one text block that opens with the two-image introduction, names the shape `h * w` right after it, and ends with the `[[ANSWER]]` instruction |
| `Strategy.GridGuidelinesSingle` | call-api.py:113-124 | the same layout with the one-image introduction |
| `Strategy.DotsPath` | call-api.py:143 | the grid path is never shorter than the image path, and equals it exactly when the image path holds no `.jpg` |
| `Strategy.RunDoc` | call-api.py:126-150 | the mode is fatal exactly when it is not one of `direct`, `cot`, `scaffold`, `scaffold_single`, case variants included; a record is skipped exactly in a grid mode whose `_dots` image is absent, and the skip names that image |
| `Strategy.RunDocMatchesTable` | call-api.py:126-150 | the if/elif chain equals a lookup in a four-row strategy table (images, question suffix, system turns) for every record and every mode string |
| `Strategy.QueryPlanShape` | call-api.py:127-147 | every plan is keyed `examples/<mode>/<id>` and has exactly the ground truth as auxiliary field; it keeps the question, adding the step-by-step suffix only in cot; direct and cot send exactly the image, scaffold the image then its grid image, scaffold_single the grid image alone; the system turns are the output instruction in direct and cot, and the 6 * 6 two-image or single-image guidelines in scaffold and scaffold_single |
| `Strategy.NonJpgScaffoldSendsImageTwice` | call-api.py:136-141 | for an existing image whose path has no `.jpg`, scaffold sends that same file twice |
| `Strategy.DotsPathOfPlainJpg` | call-api.py:137 | for `<stem>.jpg` with no other `.jpg`, the grid image is `<stem>_dots.jpg` |
| `Strategy.DotsPathRewritesEveryOccurrence` | call-api.py:143 | a `.jpg` inside a directory name is rewritten too: `a.jpg/b.jpg` becomes `a_dots.jpg/b_dots.jpg` for any one-character names |
| `Strategy.ShapeClauseInjective` | call-api.py:100-111 | the `h * w` clause determines both dimensions |
| `Strategy.GuidelinesDetermineShape` | call-api.py:113-124 | both guideline builders give different text for different grid shapes |
| `Strategy.EveryQueryAsksForAnswerFormat` | call-api.py:91-147 | in every mode the one system turn of a query is a single text block ending with the `[[ANSWER]]` instruction |
| `Strategy.CliDefaultModeExits` | call-api.py:175 | the command-line default mode `"Scaffold"` is an invalid mode |
| `Strategy.DefaultModeRunsScaffold` | call-api.py:89 | the default `"scaffold"` never exits; it skips exactly when the grid image is absent and otherwise sends both images with the 6 * 6 two-image guidelines |
| `Runner.PlanOutcome` | call-api.py:132-150 | a skip stays a skip and an unknown mode exits; a query exits exactly when one of its images is absent, naming one of them, and is otherwise saved at `SavePath(date, exp)` after 1 to 5 calls |
| `Runner.DocSpec` | call-api.py:126-150 | a record is skipped exactly when its plan skips it and exits over the mode exactly when the plan is invalid; an exit over an image names one of the query plan's images, and that image is absent |
| `Runner.ProcessDoc` | call-api.py:126-150 | handling one record equals `DocSpec`: run_doc, then query and save with the default model, temperature 0 and 4096 tokens |
| `Runner.SavedOutcomePath` | call-api.py:129 | a saved record comes from a query plan, lies at `SavePath(date, examples/<mode>/<id>)`, and took 1 to 5 calls |
| `Runner.SavedOutcomeFacts` | call-api.py:70-81 | a saved record holds the plan's images, question and system turns, the default model settings and the ground truth, with keys exactly the base keys plus `ground_truth`; a null response comes only after all 5 attempts |
| `Runner.ExitsExactlyOnAbsentImage` | call-api.py:16-19 | a record ends the process over an image exactly when its plan is a query one of whose images is absent |
| `Runner.QueryWithImagesIsSaved` | call-api.py:58-87 | a query whose images all exist is always saved: nothing else in saving a query ends the process |
| `Runner.MissingImageFatalOnlyWhenSent` | call-api.py:132-147 | a missing question image ends the process in `direct` and `cot`; in `scaffold` the record is skipped when the grid image is missing too and the process exits otherwise; `scaffold_single` never sends it, so the record is saved when the grid image exists and skipped when not |
| `Runner.MissingImageExits` | call-api.py:16-19 | in `direct`, `cot`, and `scaffold` with its grid image present, a missing question image ends the process |
| `Runner.DirectModeSaved` | call-api.py:132-133 | in `direct` mode a record whose image exists is saved under `examples/direct/<id>` with its question, its one image and its ground truth |
| `Runner.SavedResponseNullIffExhausted` | call-api.py:65-69 | a saved record's response is null exactly when every one of the 5 attempts to post the plan's payload failed |
| `Runner.DirectModeExample` | call-api.py:132-133 | a `direct` question about an existing image is saved at `log/<date>/examples/direct/q1.json` with its question, image and ground truth |
| `Runner.Run` | call-api.py:158-160 | the run yields at most one outcome per record, and one for every record unless the process exits |
| `Runner.RunStopsAfterExit` | call-api.py:150 | after the process exits, later records change nothing |
| `Runner.RunVisitsInOrder` | call-api.py:158-160 | outcome k is what handling record k yields: records are handled once each, in dataset order |
| `Runner.RunStopsAtFirstExit` | call-api.py:158-160 | the run exits exactly when some record's handling exits, and stops right after the first such record |
| `Runner.RunFiles` | call-api.py:84-87 | after a run a file exists exactly where one existed or a record was saved; each holds the last record saved to it; other files are untouched |
| `Runner.DistinctIdsDistinctPaths` | call-api.py:129 | within one mode and one date, different question ids give different save paths |
| `Runner.SavedPathsDiffer` | call-api.py:129 | two records with different ids that are both saved go to different paths |
| `Runner.DistinctSavesKept` | call-api.py:84-87 | when no two records save to the same path, every record saved in the run is still in its file afterwards |
| `Runner.EverySavedRecordKept` | call-api.py:158-160 | with distinct ids, every record saved during a run is still in its file afterwards |
| `Runner.RunSequential` | call-api.py:158-160 | the sequential loop equals `Run` over the dataset |
## Left out

- The HTTP POST, the bearer header, `API_KEY` and the parsing of `choices[0].message.content` (lines 14, 39, 46-56) are the network client. The `endpoint` oracle stands for one attempt of all of them.
- The randomized exponential wait between attempts, `wait_random_exponential(min=2, max=10)` on line 23, is library code that sleeps for a random time. Only the attempt count is modelled.
- Reading and base64-encoding the image file (lines 20-21) is file I/O. The `encode` oracle stands for it.
- `datetime.now().strftime` (lines 60-63) is replaced by the `today` string. The source reads the clock once per saved record, in `query_single_turn_and_save` after the query and its retries (line 82). The model takes one `today` for the whole of `Runner.Run` and `Runner.RunSequential`. So a run that crosses midnight writes under two `log/<date>` directories in the source but under one in the model.
- Directory creation, JSON serialisation and the file write (lines 84-87) are file I/O. The log is modelled as a map from path to record, so the key order of the JSON text is not modelled.
- The progress bars and diagnostic prints are console output.
- The `ThreadPoolExecutor` branch for `parallel > 1` (lines 161-167) is concurrency, and is not modelled. Under it an `exit(1)` raised in a worker does not stop the other workers.
- Loading the dataset with `jsonlines` (lines 152-156) and the argparse surface (lines 169-181) are I/O and CLI. Only the `--mode` default is modelled.
- `Strings.ReplaceAll` requires a non-empty pattern. Python's behaviour for an empty pattern is not modelled, and the source only ever passes `.jpg`.
- `Strategy.Doc` holds `question_id` as the text `str()` gives for it and `answer` as a string. The source accepts any JSON value for both.
- Temperature is a `real`; the source's default is the int `0`.
- The log is a map keyed by path text. The file system would treat `examples/direct/a` and `examples/direct/./a` as one file, and so would a case-insensitive volume for `Q1` and `q1`. So the "different files" of `Persist.SavePathInjective`, `Runner.DistinctIdsDistinctPaths` and `Runner.EverySavedRecordKept` mean different path strings.
- `encode` is total and `onDisk` is one snapshot taken for the whole run. In the source, `encode_image` runs inside the retried function (lines 16-21 and 27). So a path that exists but cannot be opened, such as a directory or an unreadable file, raises an error that is retried five times without any POST and ends in a null response. The model posts to the endpoint instead. A file that disappears between attempts would make the process exit on a later attempt, which the model does not capture either.
- The `endpoint` oracle always returns, but `requests.post` on line 51 has no timeout. The bound of 1 to 5 calls in `Client.RetryFrom` assumes that every attempt returns.
- `Runner.Step`, one iteration of the loop, carries no contract of its own. Its effect is stated through `Runner.Run`, `Runner.RunVisitsInOrder`, `Runner.RunStopsAfterExit`, `Runner.RunStopsAtFirstExit` and `Runner.RunFiles`.

## Findings

| source | as written | input that shows it | evidently intended | confidence | as-written member | corrected member |
|---|---|---|---|---|---|---|
| call-api.py:175 | the `--mode` default is `"Scaffold"`, and `run_doc` compares modes case-sensitively, so a run without `--mode` exits with "invalid mode" on the first record | no `--mode` argument, any non-empty dataset | `"scaffold"`, the default of `examples_inference` (line 89) and the spelling the usage note lists | medium, not executed | `Strategy.CliDefaultModeExits` | `Strategy.DefaultModeRunsScaffold` |
