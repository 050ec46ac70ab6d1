# dataloader, modelled in Dafny

`dataloader.py` ingests fixed-width data files. One pass of `DataLoader()()` goes through these steps:

1. It lists the data directory `data` in sorted order and keeps the `.txt` files.
2. It groups those files by format key, the text before the last `_` of the name.
3. For each key, in the order the dict of groups was filled, it handles one batch:
   - It looks for the spec file `specs/<key>.csv`.
   - It checks that the spec file's first line is exactly `"column name",width,datatype`.
   - It reads the remaining rows into three parallel lists: column names, widths and datatypes.
   - It cuts every line of every data file of the batch into fields by the widths.
   - It converts each field: TEXT is right-stripped, BOOLEAN is `bool(int(...))`, INTEGER is `int(...)`, and any other datatype keeps the raw text and logs `Unsupported datatype`.
   - It hands the resulting tuples to the database.
4. It moves files according to the outcome:
   - No spec file: the data files go to `data/hold`.
   - A malformed spec header: the spec file goes to `specs/hold` and the data files to `data/hold`.
   - A successful load: the data files go to `data/processed`.
5. Every step appends to the object's `log_message` list.

The model has these modules:

- **Base**: the `Option` and `Result` types, and the Python exceptions the loader does not catch.
- **PyText**: the string built-ins the loader relies on, each with its contract:
  - `rstrip`, `strip` and `int()`;
  - `str(n)`, slicing, `rsplit('_', 1)` and `endswith`;
  - `split(',')`, the csv module's `skipinitialspace`, and string ordering.
  - It proves, for example, that `int(str(n)) == n`, that `int()` reads padded numbers, and that `split` undoes `join`.
- **Files**: the directories, as a map from directory path to a map from file name to file lines.
  - `os.replace` is modelled as a partial function.
  - The move loop is modelled with its log lines.
- **Schema**: the header check and the rows `csv.DictReader` yields, turned into the three lists of `spec_schema`.
- **Records**: the decoding of data files, in three nested loops (fields of a line, lines of a file, files of a batch).
  - Each loop is a method proved against a specification function.
  - The lemmas give those functions their meaning: the shape of a tuple, where each field is sliced from, the coercion rules, and the order of the rows.
- **Batches**: the sorted listing, the extension filter and the grouping loop, as methods with their specifications.
  - The lemmas on the grouping prove that it is a partition and that it keeps the order of the scan.
  - They also prove that groups come in first-occurrence order.
- **Loader**: the `DataLoader` class. Its fields are the directories, `log_message` and the requests made to the database.
  - Each of its methods (`_move_files`, `_process_spec_file`, `_process_data_files`, `_process_files`, the batch loop and one pass of `__call__`) is proved to leave exactly the state its specification function gives.
  - Lemmas about those functions state what happens to every batch: missing spec, bad header, decoding error, and load success or failure.
- **Scenario**: the repository's end-to-end test, stated as lemmas. They cover the spec file `testformat1.csv` and its schema, and its three data lines and their tuples.

The database is a parameter `storage`. It gives the reply `[ok, message]` to a load request, given the requests made before. Timestamps are parameters too.

## Model

| member | source | states |
|---|---|---|
| PyText.Strip | dataloader.py:173-176 | definition of `strip()`: `lstrip()` of `rstrip()`, used by `int()` on a slice |
| PyText.ParseInt | dataloader.py:173-176 | definition of `int(s)` on text: the stripped text must be an integer literal (sign, digits, single underscores between digits), otherwise None; its meaning is stated by `PyText.ParseIntOfIntToString`, `PyText.ParseIntOfPadded` and `PyText.ParseIntAlphabet` |
| PyText.IntToString | dataloader.py:154 | definition of `str(n)`: a minus sign before the digits of a negative number; stated by `PyText.ParseIntOfIntToString` and `PyText.IntToStringEdges` |
| PyText.Split | dataloader.py:130 | definition of splitting a row on `,`; stated by `PyText.SplitPieces`, `PyText.SplitJoin` and `PyText.SplitOfJoin` |
| PyText.RStrip | dataloader.py:170 | `s.rstrip()` is a prefix of `s`; everything cut off is whitespace, and the result does not end in whitespace |
| PyText.LStrip | dataloader.py:173 | `lstrip()` is a suffix of `s` with only whitespace removed in front, and it does not start with whitespace |
| PyText.NatToString | dataloader.py:154 | `str(n)` of a natural number is a non-empty string of decimal digits |
| PyText.DigitsValueOfNatToString | dataloader.py:154 | the digits `str(n)` prints spell back `n` |
| PyText.StripOfNoSpace | dataloader.py:173 | `strip()` leaves text with no whitespace at either end unchanged |
| PyText.IntToStringEdges | dataloader.py:154 | `str(n)` is non-empty and neither starts nor ends with whitespace |
| PyText.ParseIntOfIntToString | dataloader.py:176 | `int(str(n)) == n` for every integer, negative ones included |
| PyText.LStripPadding | dataloader.py:173 | `lstrip()` removes exactly the leading spaces in front of text that does not start with whitespace |
| PyText.RStripPadding | dataloader.py:170 | `rstrip()` removes exactly the trailing spaces behind text that does not end in whitespace |
| PyText.ParseIntOfPadded | dataloader.py:173-176 | `int()` reads a number with any number of spaces on either side, as fixed-width fields hold it |
| PyText.ParseIntAlphabet | dataloader.py:173-176 | text `int()` accepts consists of whitespace, signs, digits and underscores only, and holds a digit |
| PyText.SliceChars | dataloader.py:173-176 | whitespace around a run of accepted characters that holds a digit keeps the text within that alphabet |
| PyText.StripSlice | dataloader.py:173-176 | `strip()` keeps one contiguous slice of the text and removes only whitespace around it |
| PyText.LiteralAlphabet | dataloader.py:173-176 | an integer literal is made of signs, digits and underscores and holds a digit |
| PyText.ClampIndex | dataloader.py:164 | a slice bound is clamped into `0..len`, and a non-negative bound past the end becomes the length |
| PyText.PySlice | dataloader.py:164 | `line[i:j]` is never longer than the line, and for `0 <= i <= j` it is the stretch between the clamped bounds |
| PyText.LastIndex | dataloader.py:59 | the index of the last occurrence of a character, or -1 when there is none |
| PyText.RSplitOnce | dataloader.py:59 | `rsplit(c, 1)` gives two parts exactly when `c` occurs; then `left + c + right` rebuilds the name and `right` holds no `c` |
| PyText.RSplitOnceUnique | dataloader.py:59 | the split is the unique one whose right part holds no `c` |
| PyText.SplitPieces | dataloader.py:130 | `split(sep)` yields at least one piece, and no piece holds the separator |
| PyText.SplitJoin | dataloader.py:130 | joining the pieces of `split(sep)` with the separator gives the text back |
| PyText.SplitOfJoin | dataloader.py:130 | `split` undoes `join` on pieces free of the separator |
| PyText.SkipInitialSpaces | dataloader.py:130 | `skipinitialspace` drops exactly the leading spaces of a field |
| PyText.LexLeqTotal | dataloader.py:42 | Python's string order is total |
| PyText.LexLeqAntisymmetric | dataloader.py:42 | Python's string order is antisymmetric |
| PyText.LexLeqTransitive | dataloader.py:42 | Python's string order is transitive |
| Files.Replace | dataloader.py:234-236 | definition of `os.replace(src/name, dst/name)`: FileNotFound for a missing file or target directory, otherwise the file moves; stated by `Files.ReplaceEffect` |
| Files.MoveUpTo | dataloader.py:230-238 | definition of the first `k` rounds of the move loop, stopping at the first `replace` that raises; stated by `Files.MoveAbort`, `Files.MoveUpToLog` and `Files.MoveUpToEffect` |
| Files.MoveAll | dataloader.py:230-238 | definition of the whole move loop; stated by `Files.MoveAllEffect` |
| Files.ReplaceEffect | dataloader.py:234-236 | `os.replace` succeeds exactly when the file and the target directory exist; the file is then in the target with its content and gone from the source; no other entry changes |
| Files.MoveAbort | dataloader.py:230-238 | once one file cannot be moved, the later files are not touched |
| Files.MoveUpToLog | dataloader.py:230-238 | the log names, in order, the files moved before the first failure, and all of them when nothing failed |
| Files.MoveUpToEffect | dataloader.py:230-238 | with distinct present files, every moved file is in the target with its old content and gone from the source; every other entry is as it was |
| Files.MoveAllEffect | dataloader.py:230-238 | moving a whole list of distinct present files succeeds, relocates exactly those files and logs one line each |
| Files.RelocatedThen | dataloader.py:123-124 | two relocations between four different directories, one after the other, put each file where its own move sends it and leave every other entry as it was |
| Schema.HeaderLine | dataloader.py:117 | definition of the first line of a spec file without its newline, empty for an empty file |
| Schema.ParseRow | dataloader.py:130-134 | definition of one row of `csv.DictReader` with `skipinitialspace`: the first three fields, None where missing; stated by `Schema.ParseRowOfFields` |
| Schema.RowsOf | dataloader.py:130-132 | definition of the rows the reader yields, skipping blank lines; stated by `Schema.RowsOfNonBlank` and `Schema.RowsOfBlank` |
| Schema.SpecRows | dataloader.py:129-132 | definition of the rows after the header line of a spec file |
| Schema.SchemaOf | dataloader.py:131-134 | definition of the three lists built row by row; stated by `Schema.SchemaShape` and `Schema.SchemaOfColumns`, and computed by `Schema.BuildSchema` |
| Schema.SchemaShape | dataloader.py:131-134 | the three lists get one entry per spec row, in file order, so they have equal length |
| Schema.SchemaOfColumns | dataloader.py:131-134 | rows holding given columns entry by entry give exactly the schema of those columns |
| Schema.BuildSchema | dataloader.py:131-134 | the row-appending loop yields equal-length lists whose entry `i` is row `i`'s name, width and datatype |
| Schema.ParseRowOfFields | dataloader.py:130-134 | a row written as three comma-free fields, none starting with a space, reads back as those three fields |
| Schema.FieldAtUnpadded | dataloader.py:130 | a field that does not start with a space is read unchanged |
| Schema.RowsOfNonBlank | dataloader.py:130-132 | without blank lines, the reader yields one row per line after the header, in file order |
| Schema.RowsOfBlank | dataloader.py:130-132 | a blank line yields no row and does not change the rows of the other lines |
| Records.Coerce | dataloader.py:166-181 | definition of the conversion of one slice by its datatype; stated by `Records.CoerceFails`, `Records.CoerceText` and `Records.CoerceNumber` |
| Records.ReadWidth | dataloader.py:164 | definition of `int(width)` on a spec width, TypeError for a missing one; stated by `Records.ReadWidthSpec` |
| Records.FieldsUpTo | dataloader.py:159-187 | definition of the first `k` rounds of the field loop, stopping at the first conversion that raises; stated by `Records.FieldsUpToSpec`, `Records.FieldsAbort`, `Records.FieldsUpToFirstError` and `Records.FieldsLog` |
| Records.DecodeFields | dataloader.py:157-190 | definition of one whole line's fields; stated by `Records.DecodeFieldsCoerce` and `Records.DecodeFieldsCoerceError` |
| Records.DecodeLine | dataloader.py:150-190 | definition of one line: the length message when it is not the expected length, then its fields; stated by `Records.LengthOnlyLogged` |
| Records.LinesUpTo | dataloader.py:149-190 | definition of the first `k` lines of a file, stopping at the first that raises; stated by `Records.LinesAbort`, `Records.LinesUpToSpec` and `Records.LinesClean` |
| Records.FilesUpTo | dataloader.py:147-190 | definition of the first `k` files of a batch, FileNotFound for a missing one; stated by `Records.FilesAbort`, `Records.FilesUpToSpec` and `Records.OneFileClean` |
| Records.DecodeData | dataloader.py:140-194 | definition of `_process_data_files` as the comment at line 141 intends, the widths read once; stated by `Records.DecodeDataRows` |
| Records.DecodeDataAsWritten | dataloader.py:142 | definition of `_process_data_files` as written: `sum[data_files]` raises TypeError before anything else; stated by `Records.SumSubscriptCounterexample` |
| Records.CoerceFails | dataloader.py:166-181 | only BOOLEAN and INTEGER fields can raise: they raise exactly when `int()` rejects the slice, with ValueError; an unknown datatype keeps the raw slice |
| Records.CoerceText | dataloader.py:167-170 | TEXT keeps the slice up to its trailing whitespace and removes only that whitespace |
| Records.CoerceNumber | dataloader.py:172-176 | INTEGER reads a space-padded number; BOOLEAN is true exactly when that number is not 0 |
| Records.ReadWidthSpec | dataloader.py:164 | `int(width)` succeeds exactly on an integer literal; a missing width is a TypeError and bad text a ValueError; a padded number reads as itself |
| Records.ReadWidthOfString | dataloader.py:164 | a width written as `str(n)` reads as `n` |
| Records.ParseWidths | dataloader.py:162-164 | when the widths can all be read, there is one number per width |
| Records.ParseWidthsValues | dataloader.py:162-164 | when the widths are read, entry `i` of the list is what width `i` reads to |
| Records.ParseWidthsOf | dataloader.py:162-164 | widths that each read to a value give exactly the list of those values |
| Records.ParseWidthsReads | dataloader.py:162-164 | when every width can be read, reading the widths succeeds |
| Records.ParseWidthsFirstError | dataloader.py:162-164 | the exception raised is that of the first width that cannot be read |
| Records.FieldsUpToSpec | dataloader.py:157-190 | a line yields a tuple exactly when every field converts; the tuple has one value per width, and value `i` is slice `i` converted by datatype `i` |
| Records.FieldsAbort | dataloader.py:162-187 | once a field raises, the rest of the line is not looked at |
| Records.FieldsUpToFirstError | dataloader.py:162-187 | the exception that ends a line is the one its first failing field raises |
| Records.DecodeFieldsCoerce | dataloader.py:157-190 | with the loader's conversion, a line yields a tuple exactly when every BOOLEAN and INTEGER slice is an integer literal |
| Records.DecodeFieldsCoerceError | dataloader.py:172-176 | otherwise the line raises the ValueError of the first slice `int()` rejects |
| Records.FieldsLog | dataloader.py:166-184 | a line logs only `Unsupported datatype` messages, never more than it has fields of an unknown datatype; a line that converts logs exactly one message per such field, and none when every datatype is supported |
| Records.UnsupportedFieldKept | dataloader.py:180-184 | a single field of an unknown datatype yields its raw slice and logs the message once |
| Records.SumPrefixBounds | dataloader.py:159-187 | with non-negative widths the pointer only moves forward and never passes the total width |
| Records.SumPrefixNonNegative | dataloader.py:159-187 | with non-negative widths the pointer is never negative |
| Records.RawFieldWithin | dataloader.py:162-164 | on a line of exactly the total width, field `i` is the stretch from the sum of the earlier widths up to that plus width `i`, with no clamping |
| Records.FieldsTileLine | dataloader.py:162-187 | on such a line, the fields laid end to end give the line back |
| Records.LengthOnlyLogged | dataloader.py:152-155 | a wrong line length adds exactly one log line and leaves the tuple unchanged |
| Records.LinesAbort | dataloader.py:149-190 | once a line raises, the later lines of the file are not read |
| Records.LinesUpToSpec | dataloader.py:149-190 | a file yields one tuple per line, in line order, exactly when every line decodes; otherwise the first failure is the result |
| Records.LinesClean | dataloader.py:149-190 | lines of the expected length that decode without logging yield their tuples in order and no log line |
| Records.OneFileClean | dataloader.py:147-190 | a one-file batch whose lines all decode cleanly yields that file's tuples and logs nothing |
| Records.FilesAbort | dataloader.py:147-148 | once a file raises, the later files of the batch are not opened |
| Records.AllDecodeConcat | dataloader.py:147-190 | the lines of two files all decode exactly when those of each file do |
| Records.RowsMatchConcat | dataloader.py:147-190 | the tuples of two files, one after the other, match their lines one after the other |
| Records.FilesUpToSpec | dataloader.py:145-194 | a batch decodes exactly when every file exists and every line decodes; tuple `j` then comes from line `j` of the files' lines taken in order |
| Records.DecodeLineFields | dataloader.py:157-190 | the field loop (slice, convert, append, advance the pointer) returns the tuple or exception, and the log lines, of the line's specification |
| Records.DecodeFileLines | dataloader.py:149-190 | the line loop returns the rows or exception, and the log, of the file's specification |
| Records.DecodeFiles | dataloader.py:145-194 | the file loop returns the rows or exception, and the log, of the batch's specification |
| Records.DecodeDataRows | dataloader.py:140-194 | a width that does not read raises before any file is opened; otherwise the batch decodes exactly when every file exists and every line decodes, with one tuple per line in file order |
| Records.SumSubscriptCounterexample | dataloader.py:142 | for an empty schema and no files, the intended decoding returns no rows while the code as written raises TypeError |
| Batches.WithExtension | dataloader.py:42-43 | definition of the filter on the listing; stated by `Batches.WithExtensionMembers`, `Batches.WithExtensionNone` and `Batches.WithExtensionOrder` |
| Batches.KeyOf | dataloader.py:59 | definition of the format key, the left part of `rsplit('_', 1)`; stated by `Batches.KeyAndSuffixRebuild` |
| Batches.Members | dataloader.py:56-60 | definition of the list a key holds: the scanned names of that key in scan order; stated by `Batches.MembersExactly` and `Batches.MembersKeepOrder` |
| Batches.KeyOrder | dataloader.py:56-63 | definition of the dict's key order: keys in order of first occurrence; stated by `Batches.KeyOrderExactly` |
| Batches.SetDefaultAppend | dataloader.py:60 | definition of `setdefault(key, []).append(item)`; stated by `Batches.GroupingStep` |
| Batches.Least | dataloader.py:42 | every non-empty finite set of names has a least one in Python's order |
| Batches.MinimumExists | dataloader.py:42 | a least name exists in every non-empty directory listing |
| Batches.SortedNames | dataloader.py:42 | `sorted(listdir(...))`: a sorted list without repeats of exactly the names in the directory |
| Batches.SortedSeq | dataloader.py:42 | the sorted listing holds each name of the set once, in order |
| Batches.HeadIsLeast | dataloader.py:42 | the first name of a sorted listing is the least |
| Batches.TailListing | dataloader.py:42 | the rest of a sorted listing is the sorted listing of the other names |
| Batches.SortedUnique | dataloader.py:42 | a set has exactly one sorted listing without repeats |
| Batches.SortedSeqStep | dataloader.py:42 | a non-empty sorted listing is its first name followed by the sorted listing of the other names |
| Batches.SameHead | dataloader.py:42 | two sorted listings of the same names start with the same name |
| Batches.TailNames | dataloader.py:42 | the rest of a sorted listing without repeats is a sorted listing of the other names |
| Batches.HeadAndTail | dataloader.py:42 | a sorted listing without repeats and the sorted listing of its names agree on the first name, and the rest is a sorted listing of the other names |
| Batches.WithExtensionMembers | dataloader.py:42-43 | the filter keeps exactly the names that end in `.txt` |
| Batches.WithExtensionNone | dataloader.py:42-46 | with no `.txt` name, the list of data files is empty |
| Batches.WithExtensionOrder | dataloader.py:42-43 | the filter keeps the listing sorted and free of repeats |
| Batches.FirstUnsplit | dataloader.py:57-59 | the position of the first name without `_`, where the unpacking raises ValueError; all earlier names split |
| Batches.FirstUnsplitAt | dataloader.py:57-59 | that position is the first name without `_` |
| Batches.KeyAndSuffixRebuild | dataloader.py:59-60 | `key + '_' + value` rebuilds the name, and the suffix holds no `_` |
| Batches.KeyOfName | dataloader.py:59 | a name made of a key, `_` and a suffix without `_` has that key |
| Batches.MembersStep | dataloader.py:57-60 | one more name joins the list of its own key only |
| Batches.KeyOrderStep | dataloader.py:57-60 | one more name adds its key at the end exactly when the key is new |
| Batches.GroupingStep | dataloader.py:60 | `setdefault(key, []).append(item)` turns the dict of the names scanned so far into the dict of one more name |
| Batches.GroupByFormat | dataloader.py:56-60 | the grouping loop raises ValueError exactly when some name has no `_`, naming the first; otherwise the keys are in first-occurrence order and each key holds its files |
| Batches.NewKeyHasNoMembers | dataloader.py:56-60 | a key no scanned name has holds no files |
| Batches.MembersExactly | dataloader.py:56-60 | grouping is a partition: a file is in the group of exactly one key, its own |
| Batches.MembersKeepOrder | dataloader.py:42-60 | a group keeps the scan's order: sorted and free of repeats when the scan is |
| Batches.KeyOrderExactly | dataloader.py:56-63 | each key is listed once, and exactly the keys of the scanned files are listed |
| Batches.InterleaveSorted | dataloader.py:42 | the names `a_0.txt`, `a_b_1.txt`, `a_z.txt` are in sorted order |
| Batches.InterleaveKeys | dataloader.py:59 | their keys are `a`, `a_b` and `a` |
| Batches.FirstOccurrenceOfThree | dataloader.py:56-63 | three names whose first and last share a key make two batches, the shared key first, holding its two names in order |
| Batches.GroupsInterleave | dataloader.py:42-63 | a key's files need not be adjacent in the sorted scan: `a_b_1.txt` sorts between the two files of `a` |
| Batches.UnsortedKeysSorted | dataloader.py:42 | the names `a_b_1.txt`, `a_c.txt` are in sorted order |
| Batches.UnsortedKeysSplit | dataloader.py:59 | their keys are `a_b` and `a` |
| Batches.KeyAfterItsExtension | dataloader.py:42 | `a_b` does not sort before `a` |
| Batches.OrderOfTwo | dataloader.py:56-63 | two names of different keys make two batches in the order of the names |
| Batches.GroupsUnsortedKeys | dataloader.py:42-63 | the batches need not come out in sorted order of keys: the sorted scan `a_b_1.txt`, `a_c.txt` handles `a_b` before `a` |
| Loader.ActionFor | dataloader.py:210-226 | definition of the three actions of `_move_files` with their heading, source and target, and None for any other |
| Loader.MoveFilesSpec | dataloader.py:209-240 | definition of `_move_files`; stated by `Loader.MoveFilesEffect`, computed by `Loader.DataLoader.MoveFiles` |
| Loader.DecodeDataSpec | dataloader.py:140-194 | definition of `_process_data_files` on the loader's state; computed by `Loader.DataLoader.ProcessDataFiles` |
| Loader.ProcessFilesSpec | dataloader.py:74-92 | definition of `_process_files`; stated by `Loader.MissingSpecHoldsData`, `Loader.HeaderMismatchHolds`, `Loader.LoadDisposition`, `Loader.DecodeFailureNoLoad` and `Loader.ProcessLoadsGrow`, computed by `Loader.DataLoader.ProcessFiles` |
| Loader.ProcessBatch | dataloader.py:64 | definition of `_process_files` against the database as the step of the pass |
| Loader.GroupsUpTo | dataloader.py:63-64 | definition of the first `k` batches of the pass in the dict's key order, stopping at the first that raises; stated by `Loader.GroupsAbort`, `Loader.GroupsStep` and `Loader.GroupsLoadsGrow` |
| Loader.DataFiles | dataloader.py:42-43 | definition of the sorted `.txt` listing of `data` |
| Loader.RunSpec | dataloader.py:42-66 | definition of one pass of `__call__`; stated by `Loader.RunNoFiles` and `Loader.RunLoadsGrow`, computed by `Loader.DataLoader.Run` |
| Loader.SchemaFor | dataloader.py:129-136 | a spec file with the expected header gives three lists of equal length |
| Loader.ResolveSpec | dataloader.py:96-136 | a schema returned by the spec resolver always has three lists of equal length |
| Loader.GroupsAbort | dataloader.py:63-64 | once a batch raises, the later batches change nothing |
| Loader.GroupsStep | dataloader.py:63-64 | handling batch `i` after the first `i` extends the pass by that batch, and a batch that raises ends the pass |
| Loader.MoveFilesEffect | dataloader.py:209-240 | an unknown action changes nothing; a known one logs its heading and one line per file, and relocates exactly the listed files from its source directory to its target; no load request is made |
| Loader.MissingSpecHoldsData | dataloader.py:76-109 | with no spec file, the batch's data files all move from `data` to `data/hold` and nothing else moves; the log gains the spec path, the missing-spec line, the hold heading and one line per file; the resolver returns False, and nothing is decoded or loaded |
| Loader.HeaderMismatchHolds | dataloader.py:101-126 | with a wrong header, the spec file moves to `specs/hold` and every data file to `data/hold`, and every other entry of every directory is as it was; the log gains the spec path, the header error, the spec-hold heading and line, the data-hold heading and one line per data file; the resolver returns False, and nothing is loaded |
| Loader.HeaderMismatchMoves | dataloader.py:123-124 | the two moves of a rejected spec succeed one after the other, each relocating exactly its files, and log their headings and lines in order |
| Loader.ResolveValid | dataloader.py:128-136 | with the right header, the spec file is read into its schema, and only the log changes |
| Loader.LoadDisposition | dataloader.py:79-90 | with a valid spec and decodable files, exactly one load request is made with the spec's column names and the decoded rows; the files move to `data/processed` when the reply says True and stay when it says False |
| Loader.DecodeFailureNoLoad | dataloader.py:79-84 | when decoding raises, the batch ends with that exception, and no load request is made and no file moves |
| Loader.ProcessLoadsGrow | dataloader.py:74-92 | a batch appends at most one load request to those made before |
| Loader.LoadsExtendTrans | dataloader.py:63-64 | appending at most `m` requests and then at most `n` appends at most `m + n` |
| Loader.ProcessBatchAppends | dataloader.py:74-92 | every call of `_process_files` appends at most one request |
| Loader.GroupsLoadsGrow | dataloader.py:63-64 | the first `k` batches append at most `k` requests and never remove one |
| Loader.RunNoFiles | dataloader.py:42-49 | a data directory without `.txt` files logs one line and changes nothing else |
| Loader.RunLoadsGrow | dataloader.py:42-66 | over a pass, requests are only appended, at most one per format key |
| Loader.DataLoader.constructor | dataloader.py:10-36 | a new loader has an empty log, has made no requests, and holds the time it was made |
| Loader.DataLoader.MoveFiles | dataloader.py:209-240 | `_move_files` leaves exactly the directories, log and requests its specification gives, and returns its exception |
| Loader.DataLoader.MoveEach | dataloader.py:230-238 | the move loop relocates the files one by one until one fails, logging one line per file moved |
| Loader.DataLoader.ProcessSpecFile | dataloader.py:96-136 | `_process_spec_file` leaves the state, and returns the schema or False, as the resolver specification gives |
| Loader.DataLoader.ProcessDataFiles | dataloader.py:140-194 | `_process_data_files` returns the rows of the batch's specification and appends its log lines |
| Loader.DataLoader.ProcessFiles | dataloader.py:74-92 | `_process_files` leaves exactly the state its specification gives: resolve, decode, load, move on success |
| Loader.DataLoader.ProcessBatchStep | dataloader.py:64 | one batch of the pass, as the step function of the pass specification |
| Loader.DataLoader.ProcessGroups | dataloader.py:63-64 | the batch loop leaves the state of every batch handled in the dict's key order, stopping at the first exception |
| Loader.DataLoader.Run | dataloader.py:42-66 | one pass of `__call__` leaves the state its specification gives: list, filter, group, handle each batch, log the exit |
| Scenario.ThreeFields | test_data_loader.py:19-22 | a line laid out as three fields of the given widths is cut into exactly those fields |
| Scenario.DecodeThree | test_data_loader.py:19-39 | three fields that each convert under a supported datatype yield their three values and no log line |
| Scenario.ConvertsThree | test_data_loader.py:30-33 | three fields, each converting under a supported datatype, convert together |
| Scenario.CoerceTestName | test_data_loader.py:36-38 | a TEXT field padded on the right converts to the name |
| Scenario.CoerceTestFlag | test_data_loader.py:36-38 | a BOOLEAN field converts to whether its number is non-zero |
| Scenario.CoerceTestCount | test_data_loader.py:36-38 | an INTEGER field padded on the left converts to its number |
| Scenario.ConvertTextBoolInt | test_data_loader.py:30-39 | the three fields of a test-shaped line convert to the name, the flag and the number |
| Scenario.DecodeTextBoolInt | test_data_loader.py:30-39 | a test-shaped line decodes to `(name, flag != 0, number)` with nothing logged |
| Scenario.TestLineFoonyor | test_data_loader.py:20 | `Foonyor   1  1` decodes to `('Foonyor', True, 1)` |
| Scenario.TestLineBarzane | test_data_loader.py:21 | `Barzane   0-12` decodes to `('Barzane', False, -12)` |
| Scenario.TestLineQuuxitude | test_data_loader.py:22 | `Quuxitude 1103` decodes to `('Quuxitude', True, 103)` |
| Scenario.TestSpecRow | test_data_loader.py:14-17 | each data row of `testformat1.csv` reads as its column name, width and datatype |
| Scenario.TestSpecLine | test_data_loader.py:14-17 | a spec line of three plain comma-separated fields reads as exactly those fields |
| Scenario.TestSpecRows | test_data_loader.py:14-17 | the spec file yields one row per data line |
| Scenario.TestSpecSchema | test_data_loader.py:13-33 | the spec file has the expected header and gives the schema the test expects |
| Scenario.TestWidthRead | test_data_loader.py:32 | each of the widths `'10'`, `'1'`, `'3'` reads as its number |
| Scenario.TestWidthsRead | test_data_loader.py:32 | the widths read as 10, 1 and 3 |
| Scenario.TestLineDecodes | test_data_loader.py:19-39 | each test line is 14 characters long and decodes to its tuple |
| Scenario.TestLineLength | test_data_loader.py:32 | the widths add up to the line length 14 |
| Scenario.TestBatchRows | test_data_loader.py:19-39 | the test's data file decodes, under the test's schema, to the three expected tuples with nothing logged |
| Scenario.BatchLoads | dataloader.py:74-92 | a batch whose valid spec gives a known schema and whose files decode to known rows makes exactly the one request for those rows, and moves its files to `data/processed` only on success |
| Scenario.OneMovable | dataloader.py:230-238 | a single present data file can be moved once `data/processed` exists |
| Scenario.TestBatchLoads | test_data_loader.py:52-65 | with the test's spec file and data file, the batch makes exactly one load request, holding the test's columns and three tuples; when the database reports success the data file leaves `data` for `data/processed`, and otherwise no file moves |

## Left out

- database.py is not part of this model. The database is the parameter `storage`, which replies `(ok, message)` to each load request given the requests made before it. The `try/except` of `_load_data_into_db` is inside that reply.
- The csv module is modelled only as far as the spec files need. A row is split on `,`, leading spaces are dropped (`skipinitialspace`), a missing field is `None`, and further fields are ignored. Quoting, escapes and other line terminators are not modelled.
- Files are the lines that iterating over them in text mode yields, without their `\n`. Encodings and `readline` details are not modelled.
- `listdir` and `path.isfile` are a map from directory path to its files. A subdirectory such as `data/hold` is a key of its own, not an entry of `data`.
- The timestamp taken in `__init__` and the one of the exit line are parameters. `_write_log_entry` (writing the log file) and the `while True: … break` wrapper are left out. The model covers the single pass that wrapper runs.
- Unicode digits: `int()` is modelled for ASCII digits only. Python also accepts other Unicode decimal digits.
- Loader.DataLoader.MoveEach: the lines of the files moved are appended to the log at the end of the loop, or when a move fails, rather than after each `replace`. The final log and directories are the same.
- Loader.DataLoader.ProcessDataFiles: the decoding loops collect their log lines, and the method appends them to `log_message` once decoding ends or raises. The source appends each line as it goes. The order and the final log are the same.
- Records.DecodeData: every width is read with `int()` once, before any file is opened, as the sum that the comment at line 141 describes requires. The field loop then uses those numbers rather than calling `int(width)` again on every line. The tuples and exceptions are the same.
- Uncaught exceptions end the pass with the state reached so far, log included. In the source they end the program before the log file is written.

Where the code and its documentation disagree, the model follows the code:

- Batches are handled in the order their keys first occur in the sorted listing, which is the insertion order of the dict. This is not always the sorted order of the keys (`Batches.GroupsUnsortedKeys`).
- A data file name without `_` makes the unpacking at line 59 raise ValueError, and the pass ends there (`Batches.GroupByFormat`). The name is not skipped.

## Findings

| source | as written | input that shows it | evidently intended | confidence | as-written member | corrected member |
|---|---|---|---|---|---|---|
| dataloader.py:142 | `line_length = sum[data_files]` subscripts the built-in `sum`, raising TypeError on every batch that reaches decoding | any batch with a valid spec, e.g. a spec with no rows and no data files | the expected line length is the sum of the widths, as the comment at line 141 says | not executed | Records.DecodeDataAsWritten (counterexample: Records.SumSubscriptCounterexample) | Records.DecodeData (property: Records.DecodeDataRows) |
