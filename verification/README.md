# Document ingestion: field extraction, batch tally and batch upload

This project models two sequential parts of the document ingestion system and proves properties about them:

- **The worker's document processor** (`workers/processor.py`):
  - `_extract_numeric_fields` scans a document's content for the case-insensitive labels `total`, `sum`, `amount` and `count`. Each is followed by one or more `:`/whitespace characters and then a number `\d+\.?\d*`. The value of each label's leftmost match is recorded.
  - `_validate_numeric_fields` reports one error per negative value.
  - `process_document` logs a failed validation and carries on, returning whatever `ingest_document` returns.
  - `process_batch` processes every document and tallies the results as `total`, `successful`, `failed` and `results`.
- **The batch upload endpoint** (`backend/app/api/ingest.py`, `ingest_batch`). For each uploaded file, in order, it:
  - decodes the bytes according to the file name's suffix;
  - mints a task id `ingest_` followed by 12 hex digits;
  - builds the payload, with the content truncated to 10 000 characters;
  - enqueues an `"ingest"` task;
  - records a `queued` receipt.

  Any exception turns the whole call into an HTTP 500 error whose detail is the exception's message.

Modules, one file each:

- **Wrappers** (`wrappers.dfy`): `Option` and `Result`.
- **Counting** (`counting.dfy`): counting the elements of a sequence that satisfy a predicate.
- **FieldExtraction** (`extraction.dfy`): an explicit matcher for the regular expression `label[:\s]+(\d+\.?\d*)` under `re.IGNORECASE`. It works as a leftmost search with greedy digit runs. The module also proves the matcher equal to a declarative reading of the pattern, and defines the extraction itself.
- **ExtractionExample** (`extraction_example.dfy`): the processor's own sample document worked through the matcher character by character, and the empty-dictionary case.
- **FieldValidation** (`validation.dfy`): the negative-value check.
- **Processor** (`processor.dfy`): `process_document` and `process_batch`. The storage step `ingest_document` is a function parameter.
- **BatchIngest** (`ingest.dfy`): `ingest_batch`. The UTF-8 decoders, the JSON round trip, the uuid source and the task queue's failures are parameters.

How the Python values are represented:

- The extracted dictionary is an ordered sequence of `Field(name, value)`. Its order is the dictionary's insertion order.
- `float(...)` of a captured group is an exact `real`.
- The character class `\s` is Python's `str.isspace` set.
- Case-insensitive matching of the labels folds ASCII upper case, and also the long s (U+017F), which Python's `re` module treats as equal to `s`.

Three behaviours of the code worth stating plainly:

- A failed validation is only logged. The result of `process_document` is `ingest_document`'s return value, unchanged. `Processor.ProcessDocument` returns the logged warning separately from the outcome.
- The upload endpoint picks the decoding by file-name suffix:
  - `.txt` files are decoded strictly, and an undecodable `.txt` file fails the whole batch;
  - `.json` files are decoded strictly, parsed and re-serialised;
  - all other files are decoded as UTF-8, dropping undecodable bytes.
- `process_batch` counts a result as successful when it is a dictionary whose `"status"` entry is `"success"`.

## Model

| member | source | states |
|---|---|---|
| FieldExtraction.Extract | workers/processor.py:59-77 | The extracted fields number at most four. Every name is one of total, sum, amount and count, and every value is non-negative. Names appear in the fixed label order (total, sum, amount, count), each at most once. |
| FieldExtraction.ExtractLookup | workers/processor.py:72-75 | The value recorded under each label is exactly the value of that label's first match in the content, or absent when there is none. |
| FieldExtraction.ExtractKeyIffMatch | workers/processor.py:72-75 | A label is a key of the result if and only if its pattern matches somewhere in the content. Absence is not an error. |
| FieldExtraction.ExtractTakesLeftmost | workers/processor.py:73-75 | When the pattern matches at position i and at no earlier position, the recorded value is the number captured at i. Later matches are ignored. |
| FieldExtraction.ExtractIgnoresCase | workers/processor.py:73 | Upper-casing the ASCII letters of the content leaves the extracted fields unchanged (re.IGNORECASE). |
| FieldExtraction.FirstMatchUpper | workers/processor.py:73 | Searching the content with its ASCII letters upper-cased, for a lower-case label, finds the same first match as searching the original. |
| FieldExtraction.MatchAtUpper | workers/processor.py:73 | At every position, upper-casing the ASCII letters of the content does not change whether a lower-case label's pattern matches there or what it captures. |
| FieldExtraction.MatchAtIffPattern | workers/processor.py:66-69 | The explicit matcher succeeds at a position exactly when the pattern matches there: the label, one or more separators, then a digit. |
| FieldExtraction.MatchAtShape | workers/processor.py:66-69 | A match consists of the label ignoring case, a non-empty run of `:`/whitespace, and the group a greedy matcher captures there. |
| FieldExtraction.GroupAtGreedy | workers/processor.py:66-69 | A group is captured exactly where a digit stands. It is the maximal digit run, then the dot if one follows, then the maximal digit run after the dot. |
| FieldExtraction.DigitsAtMax | workers/processor.py:66-69 | `\d+` and `\d*` take the longest run of digits at a position. |
| FieldExtraction.SeparatorRunSpans | workers/processor.py:66-69 | `[:\s]+` consumes only separator characters, and stops at a non-separator or at the end of the text. |
| FieldExtraction.GroupIsText | workers/processor.py:73-75 | The captured group is a substring of the content at the position where it was captured. |
| FieldExtraction.FirstMatchIsLeftmost | workers/processor.py:73-75 | The search finds a match if and only if the pattern matches somewhere. What it finds is a match with no match at any earlier position. |
| FieldExtraction.NoMatchWithoutFirstLetter | workers/processor.py:66-69 | No match starts at a character that is not the label's first letter ignoring case. |
| FieldExtraction.Value | workers/processor.py:75 | `float` of a captured group is never negative, because the pattern has no sign. |
| FieldExtraction.ValueIntegerPart | workers/processor.py:75 | The value lies between the integer part of the group and that integer part plus one. |
| FieldExtraction.LookupFinds | workers/processor.py:72-75 | A dictionary lookup is absent exactly when no field has that name. When present, it comes from a field of the dictionary. |
| ExtractionExample.ExtractSample | workers/processor.py:117-120 | The sample content "Total: 1000, Sum: 500, Amount: 1500, Count: 3" gives total 1000, sum 500, amount 1500 and count 3, in that order. |
| ExtractionExample.SampleText | workers/processor.py:119 | The sample text used in the model is the sample document's content. |
| ExtractionExample.ExtractAllFound | workers/processor.py:72-77 | When all four labels match, the result lists the four first-match values in label order. |
| ExtractionExample.ExtractNothing | workers/processor.py:72-77 | Content in which no label's pattern matches gives the empty dictionary. |
| FieldValidation.NegativeErrors | workers/processor.py:83-86 | There is one error per negative field: the number of errors equals the number of negative fields. |
| FieldValidation.NegativeErrorsSound | workers/processor.py:84-86 | Every error names a field of the dictionary, with that field's value, and the value is negative. |
| FieldValidation.NegativeErrorsComplete | workers/processor.py:84-86 | Every negative field of the dictionary has its error in the list. |
| FieldValidation.NegativeErrorsAppend | workers/processor.py:84-86 | The errors follow the dictionary's order: the errors of a concatenation are the errors of the first part followed by those of the second. |
| FieldValidation.Validate | workers/processor.py:88-91 | The result is valid exactly when the error list is empty, and exactly when no value is negative. The error count is the number of negative fields. |
| FieldValidation.ExtractedFieldsValidate | workers/processor.py:66-86 | Validating the extractor's own output is always valid with no errors. |
| FieldValidation.NegativeTotalRejected | workers/processor.py:84-91 | A negative total gives an invalid result whose single error names the total and its value. |
| Processor.ProcessDocument | workers/processor.py:35-57 | The outcome is whatever `ingest_document` gives, whether or not validation failed. Content that is not a string raises before ingestion, with no warning. A warning, when logged, lists at least one error. |
| Processor.ProcessDocumentNeverWarns | workers/processor.py:43-47 | The warning branch is never taken, because extracted values always validate. |
| Processor.Tally | workers/processor.py:104-111 | `total` is the number of results, `successful` counts the dictionaries with status "success", `failed` counts the rest, and the two sum to `total`. |
| Processor.ProcessBatch | workers/processor.py:94-112 | There is one result per document, in input order. Each is the outcome of processing that document, with exceptions kept as results. The counts are as in Tally. |
| Processor.SuccessfulAreIngested | workers/processor.py:104 | A result is counted successful exactly when its document's content is usable and ingestion returned a dictionary with status "success". `successful` is the size of that set. |
| Counting.CountComplement | workers/processor.py:105 | The elements satisfying a predicate and those satisfying its negation together number the length of the sequence. |
| BatchIngest.ChooseDecoding | backend/app/api/ingest.py:28-33 | `.txt` names get strict UTF-8 and `.json` names get the JSON round trip. Every other name gets lossy UTF-8. The `.txt` suffix is checked before `.json`. |
| BatchIngest.SuffixesExclusive | backend/app/api/ingest.py:28-30 | No name ends in both `.txt` and `.json`. |
| BatchIngest.OtherNamesDecode | backend/app/api/ingest.py:32-33 | A file named with neither suffix always decodes, to the UTF-8 text of its bytes with undecodable bytes dropped. |
| BatchIngest.StrictNamesNeedUtf8 | backend/app/api/ingest.py:28-31 | A `.txt` or `.json` file whose bytes are not valid UTF-8 fails, with the decoder's error message. |
| BatchIngest.JsonNamesRoundTrip | backend/app/api/ingest.py:30-31 | A `.json` file that is valid UTF-8 gives the JSON parse-and-reserialise result: its failure when the text does not parse, otherwise the re-serialised text. |
| BatchIngest.TextNamesStrict | backend/app/api/ingest.py:28-29 | A `.txt` file gives exactly what strict UTF-8 decoding gives, with no fallback. |
| BatchIngest.TaskId | backend/app/api/ingest.py:36 | A task id is "ingest_" followed by exactly 12 lower-case hexadecimal digits, the first 12 of the uuid. |
| BatchIngest.TaskIdsAgree | backend/app/api/ingest.py:36 | Two task ids are equal exactly when their uuids share their first 12 hex digits. |
| BatchIngest.Truncate | backend/app/api/ingest.py:40 | The content is a prefix of the text, at most 10 000 characters long, and all of the text when the text is shorter. |
| BatchIngest.TruncateIdempotent | backend/app/api/ingest.py:40 | Truncating twice is the same as truncating once. |
| BatchIngest.PrepareTask | backend/app/api/ingest.py:25-46 | A missing file name raises. Otherwise the task is built exactly when decoding succeeds. A decoding failure carries the decoder's own message. It has kind "ingest" and the minted id. Its title is the file name. Its content is the first min(length, 10 000) characters of the decoded text. Its metadata names "batch_upload", the file and its raw byte length. |
| BatchIngest.Attempt | backend/app/api/ingest.py:28-55 | A file is queued exactly when its task can be built and enqueuing it does not raise; the queued task is the prepared one. A failure carries the message of the exception raised: the task builder's when building fails, otherwise the queue's. |
| BatchIngest.IngestBatch | backend/app/api/ingest.py:21-67 | The tasks enqueued are those of the files in order, stopping at the first failure. A failure gives HTTP 500 with that failure's message. Otherwise `total_files` and `queued` both equal the number of files, and receipt i names file i and task i's id with status "queued". |
| BatchIngest.QueuedTaskShape | backend/app/api/ingest.py:38-55 | Every queued task has kind "ingest", an `ingest_` id of 19 characters, title and metadata filename equal to its file's name, source "batch_upload", the raw byte size, and content of at most 10 000 characters. |

## Left out

- **Digits.** `\d` is restricted to the ASCII digits. Python also accepts other Unicode decimal digits, and `float` converts them.
- **Floating point.** `float(...)` is an exact real. Binary rounding and overflow to `inf` on huge digit strings are not modelled.
- FieldValidation.NegativeErrors: the message `f"{name} is negative: {value}"` is kept as the datatype `NegativeValue(name, value)`, not formatted text. Python's float formatting is not modelled.
- **Retry.** The `tenacity` retry decorator on `process_document` is not modelled: it allows three attempts with exponential waits. The model makes one attempt. After three failures the real decorator raises `RetryError` rather than the original exception, and `ingest_document` may run up to three times.
- **Concurrency.** `asyncio.gather` is an order-preserving map. Its interleaving is not modelled.
- **Logging.** Logging is not modelled. The validation warning is returned as `Processed.warning`.
- **Bytes content.** A content that is not a string is a single `NotText` case with one exception message. A `bytes` content raises a different `TypeError` message in Python.
- **Non-dictionary payloads.** A payload that is not a dictionary is out of scope. Its `.get` would raise.
- **Dictionary results.** The dictionaries `ingest_document` returns are maps from strings to strings. Non-string entries stand as strings other than "success".
- **Embeddings.** The embedding computation (`backend/app/services/embeddings.py`) is not part of this model. `process_document` does not call it.
- **Storage.** `app.services.ingest.ingest_document` is not part of this model. It is the parameter `ingest`.
- **Task queue.** `app.services.task_queue` is not part of this model. Enqueuing is the parameter `enqueueError`, which gives the exception a task raises, if any. The model assumes a raising enqueue queues nothing.
- **Decoding and ids.** UTF-8 decoding, JSON parsing and re-serialisation, and `uuid4` are parameters: the `Codec` functions and the `uuids` source. File `i` uses the `i`-th uuid.
- **Not in this model.** `get_ingest_status`, `verify_api_key`, the FastAPI wiring (`backend/app/main.py`) and the frontend pages.
