# MCQ generator pipeline: a Dafny model

This project models the deterministic core of the Mcqsgen service. The service
cuts a text into chunks and asks a hosted generation service for multiple-choice
questions (MCQs) about each chunk. It then gathers the returned question records
into one spreadsheet with a numbered first column. The model covers the part of
`api/index.py` that involves no I/O:

- **Option lettering** (`Prompt`). `get_mcq_prompt` picks the letters A-D, adds E
  in five-option mode, and turns each letter into the record key `option_<letter>`.
- **Chunker** (`Chunker`). The text is cut into 3000-character slices
  `text[i:i+3000]` at offsets 0, 3000, 6000, ….
- **Bounded retry** (`Retry`). This is the control skeleton of `call_gemini_api`.
  The call makes at most 3 attempts. Each attempt either raises or yields a parsed
  JSON value. A parsed array is returned as it is, any other parsed value as `[]`,
  and three raising attempts give `[]`.
- **Aggregation and layout** (`Layout`, `Pipeline`). Non-empty per-chunk results
  are appended in order. With no records the result is the "No data was generated
  from the provided text." error. Otherwise the code builds the column order,
  keeps the listed columns that occur in the records, and prepends a 1-based
  `S.No` column.

The service is an oracle. For each chunk, the model is given the outcome of each
of its three attempts (`Attempt = Raised | Parsed(Json)`). The prompt text, the
network call, the fenced-block regular expression and `json.loads` all fold into
that outcome. Elements of a parsed JSON array are taken to be records, meaning
maps from field names to text. A `Table` stands for the data frame handed to the
spreadsheet writer: a header and rows of cells. `Blank` is the gap pandas leaves
when a record lacks a column.

The pipeline (`Pipeline.Run`, `Pipeline.ProcessText`) models the code as written.
In five-option mode that puts `option_e` before `option_d`. In every other mode
it ends in the Excel error whenever there is data, because `list.remove` raises.
The corrected column order is modelled separately (see Findings). Python's
`list.insert` and `list.remove` are modelled in general (`Layout.ListInsert`,
`Layout.ListRemove`). Both defects therefore follow from the list operations
rather than being written into the model.

The intended layout has `option_e` right after `option_d`, and simply no
`option_e` in four-option mode. The code disagrees on both points. The model
follows the code.

## Model

| member | source | states |
|---|---|---|
| Prompt.OptionLetters | api/index.py:15-18 | five letters exactly when the option count is 5, four otherwise; letter i is the i-th letter from A |
| Prompt.OptionKeys | api/index.py:15-20 | five keys in five-option mode and four otherwise; key i is `option_` followed by the i-th lower-case letter from a |
| Prompt.OptionKeysSpelledOut | api/index.py:15-20 | the keys are option_a..option_e in five-option mode and option_a..option_d for every other count |
| Chunker.ChunkLengths | api/index.py:90-91 | every chunk is non-empty and at most the chunk size, and all but the last have exactly the chunk size |
| Chunker.ChunkCount | api/index.py:83-90 | there are ceil(len/size) chunks, and none exactly when the text is empty |
| Chunker.ChunksConcat | api/index.py:90-91 | the chunks concatenate back to exactly the original text |
| Chunker.ChunkAt | api/index.py:90-91 | chunk k is the clamped slice text[k*size : k*size+size] |
| Chunker.SplitText | api/index.py:83-91 | the offset loop over range(0, len, size) produces exactly the reference chunk sequence |
| Chunker.SevenThousandCharacters | api/index.py:83-91 | a 7000-character text gives three chunks of 3000, 3000 and 1000 characters, in order |
| Retry.RetryFrom | api/index.py:56-79 | between 1 and 3 attempts; every attempt before the last one made raised; the call ends at the first parse with that value coerced to a list, or after the third raise with the empty list |
| Retry.CallWithRetry | api/index.py:56-79 | the for-loop with its early returns agrees with the reference retry and uses 1 to 3 attempts |
| Retry.FirstParseWins | api/index.py:72-73 | if attempt k is the first that parses, the call stops after k+1 attempts and returns that value coerced to a list |
| Retry.AllRaisedGivesNothing | api/index.py:75-79 | three raising attempts yield the empty list after exactly 3 attempts and no error |
| Retry.RecordsOnlyFromArray | api/index.py:69-73 | non-empty records come back only from an attempt that parsed to exactly that array |
| Layout.ListInsert | api/index.py:107 | list.insert: one longer, the new item at the clamped index, the items before and after it kept in order |
| Layout.ListRemove | api/index.py:109 | list.remove fails with ValueError exactly when the item is absent; otherwise it drops its first occurrence and keeps the rest in order |
| Layout.ColumnOrderAsWritten | api/index.py:102-109 | five-option mode gives question, option_a, option_b, option_c, option_e, option_d, then the five trailing columns; any other count gives the not-in-list error |
| Layout.ExistingColumns | api/index.py:111 | the kept columns are an order-preserving subsequence of the column order, and a column is kept exactly when it is listed and some record has it |
| Layout.Tabulate | api/index.py:111-113 | the header is S.No followed by the kept columns; there is one row per record, row i is numbered i+1, and its remaining cells are the record's values under those columns |
| Layout.ProjectionKeepsListedFields | api/index.py:111-112 | a record field whose name is in the column order appears in its row under its own column; a field not in the order is dropped from the header, except that a field named `S.No` shares its name with the serial column, which always heads the table |
| Layout.FiveOptionColumnsMisordered | api/index.py:106-107 | as written, the five-option option columns read a, b, c, e, d, which is not the order of the prompt's option keys |
| Layout.IntendedOptionColumnsMatchPrompt | api/index.py:102-109 | the corrected column order lists exactly the prompt's option keys, in letter order, for every option count |
| Pipeline.Assemble | api/index.py:96-123 | empty data gives the no-data error and only empty data does; with data, a count other than 5 gives the Excel error carrying the not-in-list message, and 5 gives the table under the five-option columns |
| Pipeline.ProcessText | api/index.py:81-97 | the chunk loop, which calls the service once per chunk and appends only non-empty results, computes the same outcome as the reference pipeline |
| Pipeline.NoDataExactly | api/index.py:90-97 | the no-data error comes exactly when no chunk's call yields a record, and always for the empty text |
| Pipeline.NoTableOutsideFiveOptions | api/index.py:106-109 | outside five-option mode a run never produces a table, and with any record it ends in the Excel error |
| Pipeline.NumberingAcrossChunks | api/index.py:90-113 | in five-option mode, record j of chunk k becomes the row numbered (records of earlier chunks) + j + 1, carrying that record's fields |
| Pipeline.FailedChunkContributesNothing | api/index.py:92-94 | a chunk whose three attempts all raise adds nothing; the gathered records are the other chunks' records, in order |
| Pipeline.AssembleIntended | api/index.py:96-113 | with the corrected column order: no-data error exactly for empty data, and otherwise always a table under that order |
| Pipeline.IntendedRunSucceeds | api/index.py:102-113 | with the corrected order, any run with data yields a table; its header is S.No followed by the listed columns some record has, its option columns appear in the prompt's key order, and every prompt option key some record carries is among them |

## Left out

- HTTP handling is not modelled: Flask routing, request parsing, the `send_file` response and the catch-all route.
- Text extraction is not modelled: the PyMuPDF call and saving and removing the upload under `/tmp`.
- The generation client is not modelled: `genai.configure`, model construction, the 60-second timeout and the prompt's wording. Each attempt is an abstract outcome instead.
- The fenced-block regular expression and `json.loads` are library calls. Their combined effect is the `Parsed`/`Raised` outcome of an attempt.
- A JSON array whose elements are not string-to-string records is not modelled. Neither are numbers, nulls or nested values inside a record.
- pandas DataFrame construction and the openpyxl `.xlsx` writing are not modelled, nor any exception they could raise. The model stops at the table they would be handed.
- Logging through `traceback.print_exc` is not modelled. Neither is the unused `num_chunks` variable.
- Retry.CallWithRetry: the trailing `return []` after the loop is unreachable with 3 attempts, so the model proves it unreachable and gives it no value.
- The corrected column order reaches only `Pipeline.AssembleIntended`. `Pipeline.Run` keeps the code as written.
- The service's answers are given per chunk index, not computed from the chunk text and the prompt, because the service is outside the model.

## Findings

| source | as written | input that shows it | evidently intended | confidence | as-written member | corrected member |
|---|---|---|---|---|---|---|
| api/index.py:106-107 | `column_order.insert(4, "option_e")` puts `option_e` at index 4, ahead of `option_d` | `numOptions = 5` and any chunk yielding a record | `option_e` right after `option_d` (index 5), in the A-E order the prompt uses | high; not executed | Layout.FiveOptionColumnsMisordered | Layout.IntendedOptionColumnsMatchPrompt |
| api/index.py:108-109 | `column_order.remove("option_e")` runs on a list that never holds `option_e`, so it raises `ValueError` | `numOptions = 4` and any chunk yielding a record | leave the ten base columns unchanged, so that four-option runs produce a file | high; not executed | Pipeline.NoTableOutsideFiveOptions | Pipeline.IntendedRunSucceeds |
