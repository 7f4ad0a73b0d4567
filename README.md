# Batch API runner — a Dafny model of its request engine

The batch API runner sends one HTTP GET per row of an uploaded table. It
builds each URL by putting the row's `id` between a fixed prefix and a fixed
suffix. Each response becomes a result record. The runner looks for a main
and a sub "disposition" inside the decoded JSON body, merges each record onto
its input row as the request completes, and finally puts a fixed set of
priority columns first in the results table.

This project models that deterministic core of `app.py` and proves its
properties:

- `json.dfy` (module `Json`): decoded JSON values. Objects are finite maps.
  Also the three Python operations the extraction applies to them (`in`,
  subscript by a string, `.get`), with Python's meaning on every shape:
  - `in` is key membership on a dict, element equality on a list and a
    substring test on a str; on anything else it raises `TypeError`.
  - Subscripting a str or a list by a string raises `TypeError`.
  - `.get` on anything that is not a dict raises `AttributeError`.
- `fetch.dfy` (module `Fetch`): `fetch_data`. This covers the URL, the
  result record, the `-1` sentinel for a `RequestException`, the verbatim
  text kept when the body is not JSON, and the disposition lookup. The GET
  is abstracted to its final outcome, a `Network` value: a transport error
  with its text, or a response with a status and a body. The body is either
  decoded JSON or undecodable text.
- `batch.dfy` (module `Batch`): the merge `{**original_row, **data}` and the
  loop over completed futures. The thread pool is abstracted to the order in
  which fetches complete. That order is any permutation of the row indices.
- `columns.dfy` (module `Columns`): the priority-first column reorder.

Behaviour of the code that the model keeps:

- The disposition lookup can raise. A body that decodes to `null`, a bool or
  a number raises `TypeError` at the first `in` test. So does a list holding
  the string `"extraction"`, or a string containing it, at the subscript. A
  dict body whose `extraction` entry is `null`, a bool or a number (say
  `{"extraction": null}`) raises `TypeError` at the second `in` test; one
  whose `extraction` entry is a list holding `"extracted_data"`, or a string
  containing it, raises `TypeError` at the second subscript. An
  `extracted_data` entry that is not a dict raises `AttributeError` at
  `.get`. Only `ValueError` is caught around the lookup, so the exception
  escapes `fetch_data` and is re-raised by `future.result()`, which ends the
  whole batch. In the model, `Extract` and `FetchData` return `Raised`, and
  `RunBatch` returns `Aborted`.
- Only `main_disposition` and `sub_disposition` are read from the
  extracted data, and the model reads only those two.
- After a `RequestException` the record stores `str(e)`, which can be the
  empty string. So the model proves one direction only: a non-empty error
  implies status `-1`. It also proves that status `-1` holds exactly for a
  transport error.

## Model

| member | source | states |
|---|---|---|
| `Json.IsSubstring` | app.py:59 | `in` between two strings holds exactly when the needle starts at some position of the other string |
| `Json.Contains` | app.py:59 | `in` raises `TypeError` exactly on `None`, a bool or a number; on a dict it is key membership, on a list element equality, and on a str a substring test |
| `Json.Subscript` | app.py:59-60 | after `in` has held, subscripting by a string yields the dict's entry for the key, and raises `TypeError` exactly when the container is a list or a str |
| `Json.Get` | app.py:61-62 | `.get` raises `AttributeError` exactly on a value that is not a dict; on a dict it yields the entry, or `None` when the key is missing |
| `Fetch.FullUrl` | app.py:36 | the URL is the prefix, then the identifier, then the suffix, each at its own position |
| `Fetch.PathField` | app.py:59-62 | the plain reading of the path `extraction.extracted_data.<key>`: `None` when the body is not a dict or has no `extraction` key, and a value other than `None` only under an `extraction` block that is a dict |
| `Fetch.Extract` | app.py:59-62 | on a body that is a dict whose `extraction` and `extracted_data` blocks are dicts wherever present, the lookup never raises; whenever it does not raise, it yields the value at `extraction.extracted_data.<key>`, or `None` if any step is missing; a bare null, bool or number raises `TypeError`; the other shapes that raise are stated by `Fetch.StrBody`, `Fetch.ListBody`, `Fetch.ExtractionBlockScalar`, `Fetch.ExtractionBlockList`, `Fetch.ExtractionBlockStr` and `Fetch.ExtractedDataNotDict` |
| `Fetch.Initial` | app.py:38-46 | before the request the record holds the row's id and URL, status 0, no dispositions and empty body and error texts; such a record is not settled, so `fetch_data` never returns it unchanged |
| `Fetch.FetchData` | app.py:32-73 | a returned record carries the row's `id` and the concatenated URL; it is never left at status 0; a non-empty error comes only with status -1; status -1 holds exactly for a transport error, which records the exception text, an empty body and no dispositions; a response records its status and an empty error; an undecodable body is stored verbatim with no dispositions; a decoded body is stored re-serialised, with the dispositions found on the path; and `fetch_data` raises exactly when the lookup raises |
| `Fetch.AsDict` | app.py:38-46 | the record becomes a dict with exactly the seven result columns, each holding the record's value for it: id, URL, status, both dispositions, body text and error |
| `Fetch.ExtractNested` | app.py:59-62 | any body whose `extraction.extracted_data` dict holds both dispositions yields them, whatever other keys the body, the extraction block and the extracted data hold |
| `Fetch.ScalarBodyRaises` | app.py:52-62 | a body that decodes to `null`, a bool or a number makes `fetch_data` raise `TypeError` |
| `Fetch.StrBody` | app.py:59 | a str body raises `TypeError` if it contains `"extraction"`, and otherwise yields no dispositions |
| `Fetch.ListBody` | app.py:59-60 | a list body raises `TypeError` if it contains the string `"extraction"`, and otherwise returns a record |
| `Fetch.ExtractionBlockScalar` | app.py:59 | an `extraction` entry that is `null`, a bool or a number raises `TypeError`, whatever else the body holds |
| `Fetch.ExtractionBlockList` | app.py:59-60 | an `extraction` entry that is a list raises `TypeError` if it holds the string `"extracted_data"`, and otherwise yields no dispositions |
| `Fetch.ExtractionBlockStr` | app.py:59-60 | an `extraction` entry that is a str raises `TypeError` if it contains `"extracted_data"`, and otherwise yields no dispositions |
| `Fetch.ExtractedDataNotDict` | app.py:59-62 | an `extracted_data` entry that is not a dict makes `.get` raise `AttributeError`, whatever other keys the body and the extraction block hold |
| `Batch.RowId` | app.py:144 | the identifier a row's fetch is submitted with is the string in its `id` column |
| `Batch.Merge` | app.py:153 | the merged record has every key of the row and of the result; on a shared key the result's value wins; elsewhere the row's value is kept |
| `Batch.Process` | app.py:151-153 | completing a row's fetch raises exactly when `fetch_data` raises for that row, with the same exception; otherwise it yields the merged record, described by `Batch.MergedRecord` |
| `Batch.MergedRecord` | app.py:151-154 | a merged record holds the row's columns plus the seven result columns; its `id` is the row's own and its `full_url` is the concatenated URL; its status, error, body text and both dispositions are those of the fetched record; a non-empty error comes with status -1; every row column that the result does not also produce passes through unchanged |
| `Batch.MergedHasPriorityColumns` | app.py:168-171 | every merged record has all six priority columns |
| `Batch.CompletionOrderFacts` | app.py:143-150 | in a completion order every row index occurs exactly once, and no other index occurs |
| `Batch.CompletionOrderPermutes` | app.py:150-154 | reading a sequence of records in a completion order gives the same records, each as often |
| `Batch.EveryRowCompleted` | app.py:150-151 | if every completed fetch returned a record, then every row's fetch did |
| `Batch.CollectedRecords` | app.py:150-154 | records collected in completion order are the input-order records permuted by that order, so the two are equal as multisets |
| `Batch.RunBatch` | app.py:143-159 | its loop keeps the completion count equal to the number of collected records and at most the number of rows; the run finishes exactly when no row's fetch raises, whatever the completion order; a finished run holds one merged record per row, in completion order, and is a permutation of the input-order records; otherwise the run stops at the first completed fetch that raised, after exactly the records completed before it |
| `Columns.Present` | app.py:171 | the comprehension keeps at most the columns it is given; which ones it keeps is stated by `Columns.FilterMembers` and `Columns.SplitMultiset` |
| `Columns.Absent` | app.py:172 | the comprehension keeps at most the columns it is given; which ones it keeps is stated by `Columns.FilterMembers` and `Columns.SplitMultiset` |
| `Columns.FilterMembers` | app.py:171-172 | the two comprehensions keep a column exactly when it is, or is not, in the other list |
| `Columns.SplitMultiset` | app.py:171-172 | between them, the two comprehensions over the same list keep every element exactly once |
| `Columns.Reorder` | app.py:171-174 | the reordered columns are exactly the table's columns, with none invented and none lost; their order and multiplicity are stated by `Columns.ReorderPartition` and `Columns.ReorderPermutes` |
| `Columns.ReorderPartition` | app.py:168-174 | priority columns come first; they are exactly the priority columns that exist, in priority order; the other columns follow in their original relative order |
| `Columns.ReorderPermutes` | app.py:168-174 | for duplicate-free lists, the reordered columns are a permutation of the original columns |
| `Columns.ReorderColumns` | app.py:168-174 | with the six priority columns, the reorder shows exactly the table's columns, and is a permutation of them when no column name repeats |
| `Columns.ReorderAllPresent` | app.py:168-174 | when all six priority columns exist, the reordered table starts with exactly those six, in priority order |
| `Columns.PriorityColsDistinct` | app.py:168 | the priority list has no duplicates, so the permutation property applies to it |

## Left out

- Streamlit UI: page layout, inputs, slider, progress bar, status text, result display and `color_status` styling. These are presentation. The progress ratio is a float and is not modelled; the completion count it displays is.
- File upload: parsing CSV/Excel, the check for the `id` column and `astype(str)` are library I/O. The model takes rows that already have a string `id` (`Batch.HasId`).
- `get_session_with_retries`: the retry adapter, its backoff and the 150 s timeout live inside the HTTP library. Their combined effect is the single final `Network` outcome of each request.
- `ThreadPoolExecutor`: scheduling and the worker bound are concurrency. Only the completion order is kept, as a permutation. The executor waits for in-flight fetches after an abort; nothing of that is observable in the results.
- `json.dumps` and `response.json()`: the exact text of the serialiser is a parameter (`Config.dumps`), and decoding is an input (`Body`). JSON floats are kept as opaque literal text.
- The column order of the table pandas builds from the list of records is library behaviour. The reorder takes that column list as its input.
- Excel export (`convert_df_to_excel`, the download button) is I/O.
- Batch.RunBatch: returns `Aborted` with the number of completed records when a fetch raises. In the source, the exception leaves the script and the collected records are discarded; the model does not represent the exception leaving the script.
