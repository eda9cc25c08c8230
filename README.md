# KS-intercept in Dafny

KS-intercept captures the questions of an online test platform as a browser loads them through a local proxy. It keeps them in a working store, `intercepted_data.json`. Its `save` command then archives them as a text report and a JSON file under `output/`. This project models the logic between the proxy hook and the archive, and proves what that logic promises.

The model has one module per concern:

- `Wrappers` (`wrappers.dfy`): `Option` and `Result`.
- `Questions` (`questions.dfy`): the question and answer records as the platform sends them. The question's type field is generic: a numeric code before capture, a category name after it. This file also holds the uids of a question's answers and their behaviour under reordering.
- `Text` (`text.dfy`): Python's `str.join`, splitting on newlines, and `str(i)` of a natural number.
- `Files` (`files.dfy`): the working directory as a `FileStore` class, a map from path to contents plus a log of writes and removals.
- `Capture` (`capture.dfy`): the proxy's `response` hook, covering:
  - the URL filter;
  - the inversion of the type map;
  - renaming each question's type, dropping a 14-character prefix;
  - the module-level list of one proxy process, as the `Interceptor` class, and its write-through to the store.
- `Render` (`render.dfy`): `render_questions_to_text`. It has a line-by-line specification (`RenderLines`) and the imperative method proved against it.
- `Deduplication` (`dedup.dfy`): `deduplicate_questions`. It has a recursive specification (`Dedup`) and the loop with its `seen` keys proved against it.
- `Archive` (`archive.dfy`): the `save` command. It has a pure description of its effect (`SaveSpec`) and the method that performs it on a `FileStore`.

Four behaviours of the code that are easy to misread:

- **How the report ends depends on its last question.** A complete question's lines end with an empty line, and the lines are joined with `"\n"`. So when the last question is complete, the report ends with a newline (`Render.ReportEndsWithNewline`). When the last question is a MATCHING one that lacks an answer list, its `continue` skips the empty line, and the report ends with no newline at all (`Render.ScenarioIncompleteMatchingLast`). When the last line before the empty one is itself empty, for instance an answer with empty text, the report ends in a blank line (`Render.ScenarioEmptyAnswerLast`).
- **The separator is exactly the longest answer.** A MATCHING question's separator has as many dashes as its longest answer, over both columns. There is no extra margin.
- **A new proxy process overwrites the store.** Each proxy process starts with an empty list and rewrites the store from that list after every capture. Questions an earlier process stored and nobody archived are therefore replaced, not extended, by the first capture of the next process (`Capture.StartAndCapture`).
- **A question without answers breaks deduplication.** The deduplicator reads `answers` of every question, including MATCHING ones. So one question without answers makes `save` fail before anything is written. The renderer alone would have tolerated an incomplete MATCHING question.

## Model

| member | source | states |
|---|---|---|
| Files.FileStore.Write | src/intercept/app.py:86-90 | `open(path, 'w')` and a complete write: the path now holds exactly the new contents, every other file is unchanged, and the log records the write |
| Files.FileStore.Remove | src/intercept/app.py:92 | `os.remove` of an existing file: the path is gone, every other file is unchanged, and the log records the removal |
| Capture.InvertTypes | src/intercept/intercept.py:16 | the inverted map's keys are exactly the codes of the type map, and each code maps back to a name that carried that code |
| Capture.InvertLastWins | src/intercept/intercept.py:16 | when several names share a code, the name that comes last in the map's order is the one kept |
| Capture.StripTypePrefix | src/intercept/intercept.py:20 | `name[14:]`: empty when the name has at most 14 characters, otherwise the name with its first 14 characters removed |
| Capture.Normalise | src/intercept/intercept.py:20 | a question with its type code replaced by the stripped name, every other field kept; `NormaliseAllSpec` states it |
| Capture.NormaliseAll | src/intercept/intercept.py:19-20 | the renamed batch or the first unknown code, stated by `NormaliseAllSpec` and `NormaliseFailurePersists` |
| Capture.NormaliseAllSpec | src/intercept/intercept.py:19-20 | renaming succeeds iff every code is in the inverted map; on success every question keeps its position, text, images and answers and gets the stripped name of its code; on failure the error is the first unknown code |
| Capture.NormaliseFailurePersists | src/intercept/intercept.py:19-20 | once a question's code is missing, the whole batch fails with that code, whatever follows it |
| Capture.NormaliseBatch | src/intercept/intercept.py:19-20 | the renaming loop returns exactly the specified normalised batch, or the first unknown code |
| Capture.Interceptor.constructor | src/intercept/intercept.py:6 | a freshly loaded addon starts with an empty question list |
| Capture.Interceptor.Response | src/intercept/intercept.py:8-28 | any URL other than the question page changes nothing; an unknown type code changes neither the list nor the store; otherwise the list becomes the old list followed by the normalised batch and the store is rewritten with the whole list |
| Capture.StartAndCapture | src/intercept/intercept.py:6-26 | the first capture of a new proxy process leaves in the store exactly that capture's normalised batch |
| Questions.HasAnswers | src/intercept/app.py:55 | the deduplicator's demand: every question has `answers`, whose absence raises `KeyError` and aborts `save` |
| Questions.Uids | src/intercept/app.py:55 | one uid per answer, in answer order |
| Questions.UidsPermutation | src/intercept/app.py:55 | answers that are a reordering of each other have the same uids the same number of times |
| Text.JoinWith | src/intercept/intercept.py:54-74 | Python's `sep.join`: the parts with the separator between consecutive ones; `JoinWithEmpty`, `JoinWithFront`, `JoinWithLastEmpty` and `SplitJoinLines` state it |
| Text.JoinWithEmpty | src/intercept/intercept.py:54-74 | a join with a non-empty separator is empty iff there is no piece or only one empty piece |
| Text.SplitJoinLines | src/intercept/intercept.py:74 | splitting a newline-join of lines that contain no newline gives back exactly those lines |
| Text.DecimalString | src/intercept/intercept.py:39-40 | `str(i)`: a non-empty string of digits whose decimal value is i, beginning with 0 only when i is 0, so with no leading zero |
| Render.SourceBases | src/intercept/intercept.py:32-33 | the question and answer image base URLs, character for character |
| Render.Renderable | src/intercept/intercept.py:68 | the renderer's demand: every question that is not MATCHING has `answers`, whose absence raises `KeyError` |
| Render.Header | src/intercept/intercept.py:36-42 | a question's first line: its type, a space and its text; `PlainQuestionLines` and `MatchingQuestionLines` state it is line 0 |
| Render.Separator | src/intercept/intercept.py:57-61 | the dash line between the two MATCHING columns; `SeparatorLength` states its length and content |
| Render.ImageLine | src/intercept/intercept.py:39-40 | the line of the n-th image: the label "КАРТИНКА ВОПРОСА ", the decimal numeral of n, ": ", the question base URL and the image id |
| Render.AnswerLine | src/intercept/intercept.py:53-55 | an answer's line: its text, followed by the answer base URL and its image ids in parentheses when the ids join to something; `Render.AnswerLineForm` states it |
| Render.AnswerBlock | src/intercept/intercept.py:44-73 | the lines after the image lines: answers and an empty line, or for MATCHING answers, separator, draggable answers and an empty line, or nothing when a MATCHING list is missing |
| Render.QuestionLines | src/intercept/intercept.py:36-73 | one question's lines: header, image lines, answer block; stated by `PlainQuestionLines`, `MatchingQuestionLines` and `IncompleteMatchingLines` |
| Render.RenderLines | src/intercept/intercept.py:31-73 | the lines of all questions in order, which `RenderWith` is proved to join and `RenderLinesConcat` splits |
| Render.CompleteQuestionEndsBlank | src/intercept/intercept.py:44-73 | a question that is not a MATCHING one missing a list gives at least two lines, the last of them empty |
| Render.ReportEndsWithNewline | src/intercept/intercept.py:73-74 | when the last question is complete, the report ends with a newline |
| Render.ScenarioIncompleteMatchingLast | src/intercept/intercept.py:48-50 | a MATCHING question without answer lists renders as its header alone, with no newline |
| Render.ScenarioEmptyAnswerLast | src/intercept/intercept.py:68-74 | a question whose only answer has empty text renders as its header, then two newlines |
| Render.ImageLines | src/intercept/intercept.py:39-40 | one image line per question image |
| Render.ImageLinesAt | src/intercept/intercept.py:39-40 | the k-th image line is the label, the number k + 1, a colon and the question base URL followed by the k-th image |
| Render.AnswerLines | src/intercept/intercept.py:68-71 | one line per answer |
| Render.AnswerLinesAt | src/intercept/intercept.py:68-71 | the k-th answer line is the line of the k-th answer |
| Render.AnswerLineForm | src/intercept/intercept.py:53-55 | an answer line is the bare answer text iff the answer's images join to nothing (no image or one empty id); otherwise it is the text followed by the answer base URL and the ids joined by ", " in parentheses |
| Render.MaxAnswerLength | src/intercept/intercept.py:57-59 | the longest answer's length: no answer is longer, it is 0 for no answers, and some answer has exactly that length |
| Render.Dashes | src/intercept/intercept.py:61 | a string of exactly n dashes |
| Render.SeparatorLength | src/intercept/intercept.py:57-61 | the separator is all dashes, no answer of either column is longer, and it is as long as some answer of either column, or empty when both columns are empty |
| Render.AppendImageLines | src/intercept/intercept.py:39-40 | the image loop appends exactly the numbered image lines, in order, to the lines so far |
| Render.AppendQuestion | src/intercept/intercept.py:35-73 | one pass of the renderer's loop, including the `continue` of an incomplete MATCHING question, appends exactly that question's specified lines |
| Render.AppendAnswerLines | src/intercept/intercept.py:52-55 | the answer loop appends exactly the answer lines, in order, to the lines so far |
| Render.RenderWith | src/intercept/intercept.py:30-74 | the nested loops, including the skip of an incomplete MATCHING question, produce exactly the newline-join of the specified report lines |
| Render.RenderQuestionsToText | src/intercept/intercept.py:30-74 | the report with the platform's two image base URLs is the newline-join of the specified lines |
| Render.RenderLinesConcat | src/intercept/intercept.py:35-73 | the lines of two lists of questions are the lines of the first followed by those of the second |
| Render.PlainQuestionLines | src/intercept/intercept.py:36-42 | a non-MATCHING question gives 2 + images + answers lines: the header "type text", its image lines, its answer lines, then one empty line |
| Render.MatchingQuestionLines | src/intercept/intercept.py:35-73 | a complete MATCHING question gives 3 + images + answers + draggable answers lines: first the header "type text", the separator right after the image and answer lines, and an empty line last |
| Render.MatchingImageLine | src/intercept/intercept.py:37-40 | line 1 + k of a complete MATCHING question is its k-th image line |
| Render.MatchingAnswerLine | src/intercept/intercept.py:52-55 | the answers follow the image lines, one line each and in order |
| Render.MatchingDraggableLine | src/intercept/intercept.py:61-66 | the draggable answers follow the separator, one line each and in order |
| Render.IncompleteMatchingLines | src/intercept/intercept.py:44-50 | a MATCHING question without answers or draggable answers gives only its header and image lines, with no empty line after them |
| Render.RenderedTextSplitsIntoLines | src/intercept/intercept.py:73-74 | when no line carries its own newline, the report splits back into exactly the rendered lines |
| Render.EmptyReportIffNoQuestions | src/intercept/intercept.py:35-74 | the report is empty iff there are no questions |
| Render.ScenarioSingleChoice | src/intercept/intercept.py:30-74 | a single-choice question "Q1" with plain answers "A" and "B" renders as "SINGLE Q1\nA\nB\n" |
| Render.MatchingScenarioLines | src/intercept/intercept.py:44-66 | a MATCHING question with "Left" against "Right" gives its header, "Left", five dashes, "Right" and an empty line |
| Render.ScenarioMatching | src/intercept/intercept.py:44-66 | that MATCHING question renders as "MATCHING T\nLeft\n-----\nRight\n" |
| Deduplication.KeyOf | src/intercept/app.py:55 | a question's key: its text and the multiset of its answers' uids, which identifies the same questions as the sorted uid tuple; `KeyIgnoresAnswerOrder` states it |
| Deduplication.KeysOf | src/intercept/app.py:54-57 | the keys in `seen` after a list has been scanned, stated by `KeysOfContains` and `KeysOfAbsent` |
| Deduplication.Dedup | src/intercept/app.py:50-60 | the output is no longer than the input and every output question has answers |
| Deduplication.KeysOfContains | src/intercept/app.py:55-57 | the key of every question of a list is among the keys the loop has seen after it |
| Deduplication.KeysOfAbsent | src/intercept/app.py:55-57 | a key no question of a list has is not among the keys seen after it |
| Deduplication.DedupFromInput | src/intercept/app.py:54-58 | every output question is a question of the input |
| Deduplication.DeduplicateQuestions | src/intercept/app.py:50-60 | the loop with its `seen` keys returns exactly the specified deduplicated list |
| Deduplication.DedupKeys | src/intercept/app.py:56-58 | the output has exactly the keys of the input: no key is lost |
| Deduplication.DedupDistinct | src/intercept/app.py:55-58 | no two output questions share a key (text, sorted uids) |
| Deduplication.DedupOfDistinct | src/KS-intercept/app.py:46-50 | a list without repeated keys passes through unchanged |
| Deduplication.DedupIdempotent | src/KS-intercept/app.py:42-52 | deduplicating twice gives the same list as deduplicating once |
| Deduplication.DedupPicksPositions | src/intercept/app.py:54-58 | the output is the input's questions at strictly increasing positions, so relative order is preserved |
| Deduplication.DedupKeepsFirstOccurrences | src/KS-intercept/app.py:48-50 | a position is kept iff no earlier question has the same key: each key is represented by its first occurrence |
| Deduplication.RecapturedQuestionsAddNothing | src/KS-intercept/app.py:46-50 | appending questions whose keys already occur does not change the output |
| Deduplication.DoubleCaptureCollapses | src/KS-intercept/app.py:46-50 | the same questions stored twice deduplicate to a single copy |
| Deduplication.KeyIgnoresAnswerOrder | src/KS-intercept/app.py:47 | reordering a question's answers does not change its key |
| Deduplication.SameTextAndUidsCollapse | src/intercept/app.py:55 | of two questions with the same text and the same uids, whatever their type, images or answer texts, only the first is kept |
| Archive.OutputPath | src/intercept/app.py:80-81 | `os.path.join('output', timestamp + extension)` with the POSIX separator; `OutputPathIsNotStore` and `OutputPathsDiffer` state it |
| Archive.OutputPathIsNotStore | src/KS-intercept/app.py:72-73 | no output path is the store's path |
| Archive.DedupRenderable | src/KS-intercept/app.py:69-77 | every list the deduplicator accepts is, once deduplicated, one the renderer accepts |
| Archive.Report | src/intercept/app.py:77-85 | the text report of the deduplicated questions with the platform's base URLs, stated by `SaveArchivesDistinctQuestions` |
| Archive.SaveSpec | src/intercept/app.py:62-94 | a save that does not succeed changes no file and makes no write or removal |
| Archive.Save | src/intercept/app.py:62-94 | the command's outcome, the files afterwards and the writes and removals, in order, are exactly those specified |
| Archive.WriteArchive | src/intercept/app.py:77-92 | after the store is read: the outputs are named after the timestamp, the text file gets the report of the deduplicated questions, the JSON file gets those questions, the store is removed, and the log records exactly those two writes and that removal, in order |
| Archive.SavedStore | src/intercept/app.py:64-77 | a save succeeds only on a store that exists, holds a non-empty JSON array, and whose questions all have answers |
| Archive.SavedEffect | src/intercept/app.py:77-92 | on such a store the save writes the report to the text file, then the deduplicated questions to the JSON file, then removes the store |
| Archive.OutputPathsDiffer | src/intercept/app.py:80-81 | the text and JSON outputs of one save are different files |
| Archive.SaveWritesArchive | src/intercept/app.py:77-92 | after a successful save the outcome names the two timestamped outputs, the store is gone, the JSON file holds the deduplicated store and the text file holds their report |
| Archive.SaveKeepsOtherFiles | src/intercept/app.py:86-92 | a successful save leaves every file other than the store and its two outputs as it was |
| Archive.SaveArchivesDistinctQuestions | src/intercept/app.py:77-92 | after a successful save the JSON file holds one question per key of the store, each taken from the store, and the text file holds the report of exactly those questions |
| Archive.SaveOfStore | src/KS-intercept/app.py:69-84 | a non-empty store whose questions all have answers is saved by writing the text file, then the JSON file under the same timestamp, then removing the store |
| Archive.SaveTwiceFindsNoData | src/KS-intercept/app.py:56-65 | a second save after a successful one finds no data |
| Archive.FailedSaveKeepsStore | src/KS-intercept/app.py:56-69 | a save that finds no data or fails keeps the store as it was |
| Archive.DoubleStoreArchivesOnce | src/intercept/app.py:75-92 | a store holding the same questions twice archives exactly as a store holding them once |

## Left out

- HTML parsing and JSON decoding of the captured page are not modelled. The hook receives the two attributes of the `questions` tag already decoded: the questions, and the type map as the decoded dict's (name, code) items, in the dict's order. Those names are distinct; the model accepts any list of items, and its lemmas hold for all of them.
- The proxy process is not modelled: mitmproxy's hook machinery and how it reports an exception raised in the hook. A capture with an unknown type code is modelled as the outcome `UnknownTypeCode` with nothing changed, which is what the hook's state shows after the `KeyError`.
- The `start` and `stop` commands are not modelled. They manage processes and a PID file.
- The GUI in `src/gui/mainwindow.py` is not part of this model. It only starts the command line tool.
- Console messages (`print`) are not modelled. They are reflected in the outcome values instead.
- Encodings are not modelled: `utf-8-sig`, `ensure_ascii=False` and the JSON indentation. A file holds questions or text, not bytes. A store that is not a JSON array of questions is a single `TextFile` case, which `save` reports as `Unreadable`.
- Archive.SaveSpec: a store holding valid JSON that is falsy but not a list (`null`, `{}`, `0`, `""`, `false`) makes the source print "No data to save." at src/intercept/app.py:71-73, where the model's outcome is `Unreadable`. Only the outcome label differs: in both, no file changes.
- Files.FileStore.Write and Files.FileStore.Remove never fail. In the source a failed write raises and aborts `save` with the store still in place (src/intercept/app.py:86-92). The model shows that ordering only through the order of events in the log: both writes come before the removal.
- The clock is not modelled. The timestamp `datetime.now().strftime(...)` is a parameter of `Save`, as an opaque string.
- `os.makedirs` is not modelled. The model has no directories. `os.path.join` is modelled with the POSIX separator `/`.
- Capture.NormaliseBatch: builds a new list rather than overwriting the `type` field of each decoded question in place. The decoded batch is local to the hook and discarded on failure, so nothing outside it can observe the difference.
- Questions with a missing `images` field or `null` lists are not modelled. Every field the code indexes is present in the records. The absence of `answers` and `answers_draggable` is modelled, because the code branches on it.
- Text is modelled as sequences of Dafny characters, which are Unicode scalar values, so `len` agrees with Python's for every string made of them. Lone surrogate code points, which a Python `str` can hold, cannot be represented.
- Deduplication.KeyOf: the key's sorted tuple of uids is represented by the multiset of uids. Two sorted tuples are equal exactly when the multisets are, so the key identifies the same questions.
- `src/KS-intercept/intercept.py`, which `save` imports in that copy, is not part of this model. `save` there is modelled with the renderer of `src/intercept/intercept.py`.
