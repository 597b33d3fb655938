# DMAE_API ingestion core in Dafny

DMAE_API accepts two spreadsheets in one multipart upload: a Zeus pump-station
export and an Elipse supervisory export. It normalises their column headers and
checks that each sheet has the columns its kind needs. It then turns the data rows
into records and bulk-inserts each record set into the `zeus` or `elipse` table. The
insert is a single `INSERT … ON CONFLICT (data_hora) DO NOTHING`. Errors are thrown as
`"<status>|<message>"` text and mapped back to an HTTP answer. The temporary files are
always deleted afterwards.

The model has five modules:

- `Wrappers`: `Option`, `Failure` (status code and message), `Result` and `Outcome`.
- `Text`: the JavaScript string operations the core relies on:
  - `trim`;
  - ASCII `toLowerCase`;
  - the `[^a-z0-9_]` strip;
  - `join` and `split`;
  - the digits of a number;
  - the global `parseInt` with no radix.
- `Extraction`: the extraction service:
  - the column map and `normalizeHeader`;
  - the empty-sheet check;
  - classification as Zeus or Elipse;
  - the missing-column check;
  - record building from the row grid;
  - the filter that drops empty records.
  A sheet is what the XLSX library hands over: the cell texts of the first sheet, or the
  text of a read error.
- `Repository`: the repository.
  - A `Database` class holds the table contents and a log of the statements sent.
  - `BuildBatch` is the nested loop that fills the parameter list and numbers the
    placeholders.
  - `Execute` gives the server's meaning for a statement: parameters are bound, a row
    whose conflict key is already present is skipped, and a row with no key (or a
    connection fault) rejects the whole statement. The rejection of a keyless row rests
    on the assumption, stated under "Left out", that `data_hora` is NOT NULL.
  - `Sql` renders the statement text; `PlaceholdersNumbered` shows that its `VALUES`
    clause names `$1` to `$(n·w)` in order.
- `Upload`: the upload controller:
  - `path.extname` and the extension allow-list;
  - the missing-file guard;
  - the `try` block as the function `Process`, with `Store` for its insert step: extract
    both files, route, insert. `Process` and `Store` are specifications. The methods
    `Attempt` and `Persist` are proved against them, and the handler lemmas below state
    what they promise;
  - the `catch` mapping from the thrown text to status and body;
  - the `finally` loop that unlinks each temporary file.
  `HandleUpload` is the method that runs all of this against a `Database`. Its result is
  the response plus the trace of `Event`s (extracted, insert called, unlinked).

Points worth knowing about the behaviour modelled:

- Classification looks at the headers, but routing looks at the records. A sheet that
  passes Zeus validation but has no `pressao_succao` cell at all yields records
  without that key. Those records are inserted into `elipse` (`BlankSuctionRoutesToElipse`).
- Nothing stops both files from going to the same table (`BothFilesMayShareTable`).
- A failure of the second insert does not undo the first one (`SecondInsertFailureKeepsFirst`).
- A header that falls through to the last step is not looked up again. `DATA/HORA`
  normalises to `datahora`, not to `data_hora`, although `datahora` is itself a label
  in the column map (`FallbackNotLookedUpAgain`).
- Driver errors carry no `<status>|` prefix. For their text, `parseInt` yields `NaN` and
  the answer is 500 (`LetterLedErrorIs500`, `NotNullErrorIs500`).

## Model

| member | source | states |
|---|---|---|
| Text.Trim | src/services/extractionService.js:34 | the trimmed text starts and ends with a non-space |
| Text.TrimStart | src/services/extractionService.js:34 | the result is a suffix of the input that is empty or starts with a non-space |
| Text.TrimEnd | src/services/extractionService.js:34 | the result is a prefix of the input that is empty or ends with a non-space |
| Text.TrimStartDropsSpace | src/services/extractionService.js:34 | everything dropped from the start is white space |
| Text.TrimEndDropsSpace | src/services/extractionService.js:34 | everything dropped from the end is white space |
| Text.TrimPadding | src/services/extractionService.js:34 | the input is the trimmed text with white space before and after it |
| Text.TrimIgnoresPadding | src/services/extractionService.js:34 | white space around a name does not change its trimmed form |
| Text.TrimEmptyIffBlank | src/services/extractionService.js:34 | trimming gives the empty text exactly when the name is all white space |
| Text.TrimIdempotent | src/services/extractionService.js:34 | trimming twice is trimming once |
| Text.TrimStartSkips | src/services/extractionService.js:34 | leading white space is skipped |
| Text.TrimEndSkips | src/services/extractionService.js:34 | trailing white space is dropped |
| Text.TrimStartAppend | src/services/extractionService.js:34 | once a non-space is reached, the rest of the text is kept |
| Text.TrimStartEmptyIff | src/services/extractionService.js:34 | trimming the start gives nothing exactly when everything is white space |
| Text.TrimEndKeepsHead | src/services/extractionService.js:34 | a text starting with a non-space keeps a non-empty trimmed end |
| Text.TrimKeepsTrimmed | src/services/extractionService.js:34 | a text with no white space at either end is its own trim |
| Text.VisibleNotSpace | src/services/extractionService.js:34 | printable ASCII is not white space |
| Text.AsciiLower | src/services/extractionService.js:42 | lower-casing keeps the length |
| Text.AsciiLowerIdentifier | src/services/extractionService.js:42 | lower-casing leaves `[a-z0-9_]` text alone |
| Text.Sanitise | src/services/extractionService.js:49 | the result has only `[a-z0-9_]`, is no longer than the input, and is the input when that is already such text |
| Text.SanitiseKeeps | src/services/extractionService.js:49 | a character survives exactly when it occurs and is in `[a-z0-9_]` |
| Text.SanitiseConcat | src/services/extractionService.js:49 | the strip works character by character: it distributes over concatenation |
| Text.SanitiseDrop | src/services/extractionService.js:49 | a single foreign character between identifier runs is removed |
| Text.IdentifierTrimmed | src/services/extractionService.js:49 | an identifier is its own trim |
| Text.IndexOf | src/controllers/uploadController.js:142 | the first occurrence of a character, or none exactly when it does not occur |
| Text.Split | src/controllers/uploadController.js:142 | the pieces contain no separator and joining them back gives the input |
| Text.SplitJoin | src/controllers/uploadController.js:142 | splitting the join of separator-free pieces gives the pieces back |
| Text.SplitHead | src/controllers/uploadController.js:142 | the first piece is the text before the first separator |
| Text.SplitCons | src/controllers/uploadController.js:142 | the text before the first separator is the first piece, and the rest is split on its own |
| Text.Join | src/services/extractionService.js:116 | joining nothing gives the empty text; joining one part gives that part |
| Text.JoinCons | src/services/extractionService.js:116 | a part joined in front of others is followed by one separator |
| Text.JoinConcat | src/services/extractionService.js:116 | joining two non-empty lists, with the separator between the results, is joining their concatenation |
| Text.NatToString | src/controllers/uploadController.js:142 | a number prints as digits with no leading zero |
| Text.DigitChar | src/controllers/uploadController.js:142 | a digit value prints as a digit character |
| Text.DigitRun | src/controllers/uploadController.js:143 | the leading digit run is maximal |
| Text.DigitsValueOfNatToString | src/controllers/uploadController.js:143 | reading back the printed digits gives the number |
| Text.DigitRunAll | src/controllers/uploadController.js:143 | an all-digit text is one digit run |
| Text.ReadDigitsAll | src/controllers/uploadController.js:143 | a non-empty all-digit text reads as its value |
| Text.ParseInt | src/controllers/uploadController.js:143 | a text that is empty after its leading white space is `NaN` |
| Text.ParseIntNegativeNeedsMinus | src/controllers/uploadController.js:143 | a negative result needs a `-` right after the leading white space |
| Text.ParseIntUnsigned | src/controllers/uploadController.js:143 | a text starting with a printable character other than a sign is read as an unsigned numeral |
| Text.ParseIntDecimal | src/controllers/uploadController.js:143 | a decimal numeral parses to its value |
| Text.ParseIntNatToString | src/controllers/uploadController.js:143 | `parseInt` of a printed status code gives the code back |
| Text.DigitRunAppend | src/controllers/uploadController.js:143 | the digit run of digits followed by a non-digit ends at that non-digit |
| Text.ParseIntNumeralThen | src/controllers/uploadController.js:143 | a printed number followed by nothing, or by a character that is neither a digit nor `x`, parses to that number |
| Extraction.ColumnMapIntoCanonical | src/services/extractionService.js:6-26 | every label maps to one of the eleven canonical names |
| Extraction.CanonicalAreImages | src/services/extractionService.js:6-26 | every canonical name is the image of some label |
| Extraction.CanonicalAreIdentifiers | src/services/extractionService.js:6-26 | canonical names are non-empty `[a-z0-9_]` identifiers |
| Extraction.ValuesAreIdentifiers | src/services/extractionService.js:6-26 | every value of the map is an identifier |
| Extraction.ColumnMapEntries | src/services/extractionService.js:6-26 | the fifteen entries of the map, label by label |
| Extraction.EmptyIsNoLabel | src/services/extractionService.js:6-26 | the empty text is not a label |
| Extraction.LabelsHaveVisibleEnds | src/services/extractionService.js:6-26 | every label starts and ends with a printable character |
| Extraction.LabelsAreTrimmed | src/services/extractionService.js:6-26 | every label is its own trim |
| Extraction.CanonicalLabelsFixed | src/services/extractionService.js:6-26 | a canonical name that is also a label maps to itself |
| Extraction.LowerCaseLabelAgrees | src/services/extractionService.js:6-26 | a label and its lower-case form, when both are labels, map to the same name |
| Extraction.UpperLabelAgrees | src/services/extractionService.js:8-10 | the upper-case Zeus labels agree with their lower-case entries |
| Extraction.CapitalisedLabelAgrees | src/services/extractionService.js:11-25 | the capitalised labels agree with their lower-case entries |
| Extraction.LowerOfUpperLabels | src/services/extractionService.js:8-10 | the lower-case forms of the upper-case Zeus labels |
| Extraction.LowerOfCapitalisedLabels | src/services/extractionService.js:11-25 | the lower-case forms of the capitalised labels |
| Extraction.LowerOfLowerLabels | src/services/extractionService.js:15-23 | the lower-case labels are unchanged by lower-casing |
| Extraction.LowerLabelsOutsideTable | src/services/extractionService.js:6-26 | which lower-case forms are not labels themselves |
| Extraction.NormalizeHeader | src/services/extractionService.js:33-50 | every normalised header is made of `[a-z0-9_]` only, whichever branch produced it |
| Extraction.NormalizeBlank | src/services/extractionService.js:33-50 | a blank header normalises to the empty name |
| Extraction.NormalizeIgnoresPadding | src/services/extractionService.js:34 | white space around a header does not change its name |
| Extraction.NormalizeKnownLabels | src/services/extractionService.js:37-39 | an exact label normalises to its mapped name |
| Extraction.NormalizeCanonicalFixed | src/services/extractionService.js:33-50 | normalising a canonical name gives it back |
| Extraction.NormalizeCaseInsensitive | src/services/extractionService.js:42-46 | a header whose trimmed lower-case form is a label normalises to that label's name |
| Extraction.FallbackNotLookedUpAgain | src/services/extractionService.js:48-49 | `DATA/HORA` normalises to `datahora`, which would itself normalise to `data_hora` |
| Extraction.DataHoraFallback | src/services/extractionService.js:48-49 | `DATA/HORA` falls through both lookups and is stripped to `datahora` |
| Extraction.DatahoraIsLabel | src/services/extractionService.js:20 | `datahora` normalises to `data_hora` |
| Extraction.DatahoraEntry | src/services/extractionService.js:20 | `datahora` is a label mapped to `data_hora` |
| Extraction.LowerDataHora | src/services/extractionService.js:42-46 | neither `DATA/HORA` nor its lower-case form is a label |
| Extraction.DataHoraPieces | src/services/extractionService.js:49 | `data/hora` is two identifier runs around a slash |
| Extraction.SanitiseDataHora | src/services/extractionService.js:49 | stripping `data/hora` gives `datahora` |
| Extraction.NormalizedHeaders | src/services/extractionService.js:89 | one normalised name per header cell |
| Extraction.NonEmpty | src/services/extractionService.js:92 | exactly the non-empty names are kept, each as often as in the input, in their order |
| Extraction.FoundHeaders | src/services/extractionService.js:89-92 | every found header is an identifier |
| Extraction.FoundHeadersMembers | src/services/extractionService.js:89-92 | the found headers are exactly the non-empty normalised forms of the raw headers |
| Extraction.Classify | src/services/extractionService.js:98-117 | Zeus exactly when `pressao_succao` or `vazao_media` is present; otherwise Elipse exactly when `nome_estacao` and `valor` are; otherwise none |
| Extraction.BothRulesPickZeus | src/services/extractionService.js:98-107 | a header set meeting both rules is classified Zeus |
| Extraction.RequiredColumns | src/services/extractionService.js:98-113 | each kind requires `data_hora` first and at least three canonical columns |
| Extraction.CheckHeaders | src/services/extractionService.js:98-124 | every failure is 422; success returns the classified kind; unrecognised headers fail with the message that lists the found headers; a recognised kind with absent columns fails with the message that lists exactly those columns, in required order |
| Extraction.MissingColumns | src/services/extractionService.js:120 | exactly the required columns absent from the headers, in their required order |
| Extraction.CheckHeadersIff | src/services/extractionService.js:98-124 | validation passes exactly when the headers are recognised and every required column of that kind is present, and it returns that kind |
| Extraction.HeaderKeys | src/services/extractionService.js:129 | one key per header cell |
| Extraction.BuildRecord | src/services/extractionService.js:127-131 | every field of a record comes from a header key and holds a non-empty cell |
| Extraction.RecordPrefix | src/services/extractionService.js:127-131 | every field of a record comes from a header key and holds a non-empty cell |
| Extraction.RecordPrefixHas | src/services/extractionService.js:127-131 | a field is present exactly when some column under that key has a non-empty cell |
| Extraction.RecordPrefixLast | src/services/extractionService.js:127-131 | when two columns share a key, the cell of the rightmost filled one wins |
| Extraction.BuildRecordEmptyIff | src/services/extractionService.js:134 | a row yields an empty record exactly when it has no data under a key |
| Extraction.Materialise | src/services/extractionService.js:127-134 | at most one record per data row, none empty, every field a header key |
| Extraction.MaterialiseAppend | src/services/extractionService.js:127-134 | records are built row by row, in order |
| Extraction.MaterialiseDropsBlankRows | src/services/extractionService.js:134 | blank rows anywhere in the sheet do not change the result |
| Extraction.BlankRowsVanish | src/services/extractionService.js:134 | blank rows alone give no records |
| Extraction.MaterialiseKeepsDataRows | src/services/extractionService.js:127-134 | when every row has data, there is one record per row, each built from its row |
| Extraction.Extract | src/services/extractionService.js:59-137 | a read error or a sheet of at most one row fails with 422 and its message; a failed header check reaches the caller unchanged; every failure is 422; success only after the header check, with at most one non-empty record per data row |
| Extraction.ExtractRecords | src/services/extractionService.js:127-136 | a sheet that passes the checks yields exactly the materialised data rows |
| Extraction.ExtractedKeysAreFoundHeaders | src/services/extractionService.js:89-131 | every non-empty field name of an extracted record is a validated header; a header of only white space writes under the empty name |
| Repository.Columns | src/repositories/dataRepository.js:13 | each table has a six-column projection whose first column is the conflict key `data_hora` |
| Repository.Cell | src/repositories/dataRepository.js:19 | a parameter is the field's text when present and non-empty, and `null` otherwise |
| Repository.Projection | src/repositories/dataRepository.js:18-21 | one parameter per column |
| Repository.TupleRefs | src/repositories/dataRepository.js:20 | one placeholder number per column |
| Repository.RefTuples | src/repositories/dataRepository.js:17-23 | one placeholder tuple per record |
| Repository.Parameters | src/repositories/dataRepository.js:16-23 | the parameter list has records × columns entries |
| Repository.ParametersAt | src/repositories/dataRepository.js:16-23 | entry `i·w + j` is record `i`'s value for column `j` |
| Repository.BindTuple | src/repositories/dataRepository.js:17-23 | placeholder `j` of tuple `i` is in range and refers to record `i`'s value for column `j` |
| Repository.RefTuplesAscending | src/repositories/dataRepository.js:20 | the placeholders, read in order, are `$1` to `$(n·w)`, each once, ascending |
| Repository.FlattenSnoc | src/repositories/dataRepository.js:17-23 | flattening a list with one more tuple appends that tuple |
| Repository.BatchStatement | src/repositories/dataRepository.js:13-31 | the statement targets the table with its six columns, one tuple per record and records × columns parameters |
| Repository.ParamRef | src/repositories/dataRepository.js:20 | a reference is `$` followed by text that reads back as its number |
| Repository.TupleText | src/repositories/dataRepository.js:22 | a tuple's text is parenthesised |
| Repository.Sql | src/repositories/dataRepository.js:25-29 | the `VALUES` clause of the text is the placeholder text |
| Repository.TuplePieces | src/repositories/dataRepository.js:20-22 | the pieces of a tuple between `$` signs are its numbers, each followed by `, ` and the last by the closing text |
| Repository.RefListPieces | src/repositories/dataRepository.js:20-21 | a tuple's reference list, cut at its `$` signs, gives those pieces |
| Repository.TupleTextPieces | src/repositories/dataRepository.js:20-22 | a tuple's text, cut at its `$` signs, is `(` followed by those pieces |
| Repository.PlaceholderLast | src/repositories/dataRepository.js:23 | the placeholder text of several tuples ends with `, ` and the last tuple's text |
| Repository.PlaceholderPieces | src/repositories/dataRepository.js:17-23 | the placeholder text, cut at its `$` signs, is `(` followed by one piece per parameter |
| Repository.NumberedPieceParses | src/repositories/dataRepository.js:20 | a piece that starts with a printed number followed by `,` or `)` parses to that number |
| Repository.ClausePieceNumbered | src/repositories/dataRepository.js:17-23 | piece `k` starts with the `k`-th number of the flattened tuples |
| Repository.PlaceholdersNumbered | src/repositories/dataRepository.js:17-23 | the `VALUES` clause of `n` rows of width `w`, cut at its `$` signs, is `(` followed by pieces reading `1` to `n·w` in order |
| Repository.WithRows | src/repositories/dataRepository.js:31 | replacing one table's rows leaves the other table alone |
| Repository.Bind | src/repositories/dataRepository.js:31 | binding succeeds exactly when every placeholder has a parameter, and each cell is the parameter it names |
| Repository.Execute | src/repositories/dataRepository.js:25-31 | a rejected statement changes no table; it passes exactly when there is no fault, every placeholder binds and every row has a key |
| Repository.InsertIgnore | src/repositories/dataRepository.js:28 | no key is lost, and at most one key is added per row |
| Repository.InsertIgnoreKeeps | src/repositories/dataRepository.js:28 | a row already stored is never overwritten |
| Repository.InsertIgnoreKeys | src/repositories/dataRepository.js:28 | the keys afterwards are the keys before plus the keys of the batch |
| Repository.InsertIgnoreFirstWins | src/repositories/dataRepository.js:28 | among new rows sharing a key, the first one is stored |
| Repository.InsertIgnorePresent | src/repositories/dataRepository.js:28 | a batch whose keys are all present changes nothing |
| Repository.InsertIgnoreIdempotent | src/repositories/dataRepository.js:28 | inserting the same batch twice is inserting it once |
| Repository.ExecuteIdempotent | src/repositories/dataRepository.js:25-31 | re-sending a statement with no fault leaves the tables as after the first one |
| Repository.BindBatch | src/repositories/dataRepository.js:16-31 | the batch binds to exactly one projected row per record, in order |
| Repository.BindBuilt | src/repositories/dataRepository.js:16-23 | for any column list, the numbered tuples bind to the projected records |
| Repository.BatchPasses | src/repositories/dataRepository.js:9-31 | with no fault, a batch passes exactly when every record has a non-empty `data_hora` |
| Repository.Database.Query | src/config/db.js:28 | sending a statement applies its meaning to the tables and appends it to the log |
| Repository.BuildBatch | src/repositories/dataRepository.js:16-23 | the loops produce exactly the specified parameter list and placeholder numbering |
| Repository.InsertBatch | src/repositories/dataRepository.js:9-31 | an empty batch sends nothing and changes nothing; otherwise exactly one statement is sent and its meaning applied |
| Repository.InsertZeusData | src/repositories/dataRepository.js:9-32 | the same, for the `zeus` table |
| Repository.InsertElipseData | src/repositories/dataRepository.js:38-60 | the same, for the `elipse` table |
| Upload.StripTrailingSlashes | src/controllers/uploadController.js:31 | a prefix of the path with no trailing slash |
| Upload.LastIndexOf | src/controllers/uploadController.js:31 | the last occurrence of a character, or none exactly when it does not occur |
| Upload.LastIndexOfAt | src/controllers/uploadController.js:31 | an occurrence with no later one is the last |
| Upload.BaseName | src/controllers/uploadController.js:31 | the last path component contains no slash |
| Upload.ExtName | src/controllers/uploadController.js:31 | the extension is empty, or a dot followed by no dot and no slash |
| Upload.ExtNameOfName | src/controllers/uploadController.js:31 | `stem.ext` has extension `.ext` |
| Upload.FileFilter | src/controllers/uploadController.js:28-38 | a file is accepted exactly when its lower-cased extension is `.xlsx`, `.xls` or `.csv`; a rejection carries the 400 format error |
| Upload.LastExtensionDecides | src/controllers/uploadController.js:28-38 | only the last extension decides acceptance |
| Upload.UpperCaseWorkbookAccepted | src/controllers/uploadController.js:31-34 | `name.XLSX` is accepted |
| Upload.UpperCaseWorkbookExtension | src/controllers/uploadController.js:31 | `name.XLSX` has extension `.XLSX` |
| Upload.UpperCaseWorkbookAllowed | src/controllers/uploadController.js:30-33 | `.XLSX` lower-cased is allowed |
| Upload.PlainStemExtended | src/controllers/uploadController.js:31 | appending `.xlsx` to a plain stem keeps it plain |
| Upload.ExecutableRejected | src/controllers/uploadController.js:33-37 | `name.exe` is rejected with the format error |
| Upload.ExecutableExtension | src/controllers/uploadController.js:31 | `name.exe` has extension `.exe` |
| Upload.ExecutableNotAllowed | src/controllers/uploadController.js:30-33 | `.exe` is not allowed |
| Upload.DoubleExtensionRejected | src/controllers/uploadController.js:31-37 | `name.xlsx.exe` is rejected |
| Upload.HiddenFileRejected | src/controllers/uploadController.js:31-37 | a dot-file such as `.xlsx` has no extension and is rejected |
| Upload.BareNameRejected | src/controllers/uploadController.js:31-37 | a name without a dot is rejected |
| Upload.ErrorResponse | src/controllers/uploadController.js:140-147 | the status is `parseInt` of the text before the first `\|`, or 500 when that is `NaN` or 0, so it is never 0; the error text is never empty |
| Upload.ErrorTextIsSecondPiece | src/controllers/uploadController.js:142-144 | the error text is the piece between the first and the second `\|`; what follows is dropped |
| Upload.EmptyMessageIsDefault | src/controllers/uploadController.js:144 | an empty message after the code is replaced by the default text |
| Upload.Thrown | src/services/extractionService.js:73-123 | the `'<code>\|<message>'` text of a thrown `Error`; `ThrownLeadsWithCode` is the lemma about it |
| Upload.ThrownLeadsWithCode | src/controllers/uploadController.js:142-143 | whatever the message holds, the piece before the first `\|` reads back as the thrown code |
| Upload.ErrorResponseRoundTrip | src/controllers/uploadController.js:142-146 | a thrown `code\|message` with a non-zero code and a non-empty message free of `\|` answers with that code and message |
| Upload.ErrorResponseRoundTripParts | src/controllers/uploadController.js:142 | a thrown `code\|message` splits into the printed code and the message |
| Upload.PlainErrorIs500 | src/controllers/uploadController.js:142-146 | a text with no separator and no number answers 500 with the default text |
| Upload.ZeroCodeIs500 | src/controllers/uploadController.js:143 | code 0 is replaced by 500 |
| Upload.SplitFirstChar | src/controllers/uploadController.js:142 | the first piece starts with the text's first character unless that is the separator |
| Upload.LetterLedErrorIs500 | src/controllers/uploadController.js:143 | a thrown text starting with a letter answers 500 |
| Upload.LetterLedNaN | src/controllers/uploadController.js:143 | `parseInt` of a text starting with a letter is `NaN` |
| Upload.NotNullErrorIs500 | src/controllers/uploadController.js:143 | the server's not-null violation answers 500 |
| Upload.Route | src/controllers/uploadController.js:115-123 | a record set goes to `zeus` exactly when some record has `pressao_succao` |
| Upload.Label | src/controllers/uploadController.js:135-136 | the label is `Zeus` exactly for the `zeus` table and `Elipse` exactly for `elipse` |
| Upload.EmptyRoutesToElipse | src/controllers/uploadController.js:115-122 | an empty record set is sent to the Elipse insert |
| Upload.MaterialisedFromRow | src/services/extractionService.js:127-134 | every record comes from some data row |
| Upload.MaterialiseStep | src/services/extractionService.js:127-134 | a record comes from the first row or from the rest |
| Upload.BlankColumnRoutesToElipse | src/controllers/uploadController.js:115-122 | records built from rows whose `pressao_succao` cells are all empty go to `elipse` |
| Upload.BlankSuctionRoutesToElipse | src/controllers/uploadController.js:108-122 | a sheet that passes Zeus validation but has no `pressao_succao` data is extracted and inserted into `elipse` |
| Upload.FailureResponse | src/controllers/uploadController.js:140-147 | the failure body carries the mapped text and the whole thrown text; its code equals the status; the status is never 0 and the text never empty |
| Upload.MissingFilesResponse | src/controllers/uploadController.js:97-98 | the missing-file answer is 400 with the message naming both fields, and its code equals the status |
| Upload.ApplyInsert | src/controllers/uploadController.js:119-129 | a failed insert leaves the tables alone; an empty set sends nothing; otherwise one batch statement is sent |
| Upload.Respond | src/controllers/uploadController.js:132-147 | the success body is sent exactly for a stored run, with status 200, the success message and both labels; a thrown run answers with the `catch` mapping and the thrown text as details |
| Upload.Cleanup | src/controllers/uploadController.js:148-157 | one unlink attempt per temporary path, in order, whether or not it fails |
| Upload.RemoveTemporaries | src/controllers/uploadController.js:148-157 | the loop makes exactly the specified unlink attempts |
| Upload.HandleUpload | src/controllers/uploadController.js:96-158 | a missing file answers 400 and touches nothing; otherwise the answer, the tables, the statements sent and the trace follow the model of the `try` block, followed by the cleanup of both paths |
| Upload.Process | src/controllers/uploadController.js:105-129 | the specification of the `try` block: no contract of its own; `Attempt` is proved against it, and the handler lemmas below state what it promises |
| Upload.Store | src/controllers/uploadController.js:115-129 | the specification of the two routed inserts: no contract of its own; `Persist` is proved against it, and `StoreKeepsEvents` and `SecondInsertFailureKeepsFirst` state what it promises |
| Upload.Attempt | src/controllers/uploadController.js:105-129 | the `try` block's effect on the database and its trace follow `Process` |
| Upload.Persist | src/controllers/uploadController.js:115-129 | the two routed inserts follow `Store` |
| Upload.InsertRouted | src/controllers/uploadController.js:115-129 | an insert goes to the routed table and has that insert's effect |
| Upload.ExtractionFailureInsertsNothing | src/controllers/uploadController.js:108-109 | an extraction failure of either file sends no statement, changes no table, and throws that failure's text |
| Upload.ExtractBothThenInsert | src/controllers/uploadController.js:108-129 | an insert happens only after both files were extracted, the first first |
| Upload.StoreKeepsEvents | src/controllers/uploadController.js:119-129 | the insert step only appends insert calls to the trace |
| Upload.SecondInsertFailureKeepsFirst | src/controllers/uploadController.js:119-129 | when the second insert fails, the first insert's rows stay, both statements were sent, and the second one's error is thrown |
| Upload.SuccessReportsRouting | src/controllers/uploadController.js:119-138 | the handler succeeds exactly when both extractions and both inserts succeed, and then reports the routing taken |
| Upload.BothFilesMayShareTable | src/controllers/uploadController.js:115-129 | two record sets of the same kind are both stored in that one table |
| Upload.ThrownNeverProcessed | src/controllers/uploadController.js:140-147 | a thrown run never answers with the success body |
| Upload.ExtractionFailureIs422 | src/controllers/uploadController.js:140-147 | every extraction failure, a read failure included, answers 422 |

## Left out

- Reading the workbook (`XLSX.readFile`, `sheet_to_json`) is not modelled. A sheet is its
  grid of cell texts, or the read error's text.
  - Formatted numbers and dates arrive as the texts the library produces.
  - HeaderKeys, Materialise: a cell whose text is empty is taken to be a missing cell.
    - `sheet_to_json` writes a key for every cell that exists and skips only missing
      cells. So a cell that exists but holds `""` (say, a formula that gives `""`)
      becomes a key whose value is `""`.
    - Under `pressao_succao`, such a cell makes `'pressao_succao' in row` true
      (`src/controllers/uploadController.js:115`), so the source sends the set to
      `zeus`, where `row[col] || null` binds NULL.
    - In the header row, such a cell yields the key `""`
      (`src/services/extractionService.js:89,129`), which the source does not skip.
    - The model skips both, so `BlankSuctionRoutesToElipse` holds only when every such
      cell is missing.
  - The sheet's used range is taken to start at row 1 (cell A1). The header row is then
    row 0 of the grid, and the second `sheet_to_json` call, with `range: 1`
    (`src/services/extractionService.js:127-131`), reads from the row after it.
    - `range: 1` is an absolute row index. If the used range starts lower, say at A3,
      the header row is still `rawData[0]`, but the second call starts reading at row 2.
    - It then turns the header row into a data record and sends it to the insert.
    - The model reads only `grid[1..]`, so it never does this.
  - A header cell that is not text is not modelled.
- Multer is not modelled: disk storage, the random file names and the 10 MB size limit.
  `FileFilter` models only its filter.
  - The duplicate middleware in `src/middlewares/uploadMiddleware.js` is not part of this model.
  - What happens to a rejected file depends on the mounting, and neither mounting is
    modelled. In `src/app.js:20-30` the multer callback drops the error and calls
    `next()`, so the handler runs without that file and answers 400. In
    `src/routes/index.js:6`, a router that `src/app.js` does not mount, multer passes the
    error to `next(err)` and the handler is not reached.
- `fs.unlink`, `console.error` and the console output are not modelled. Deleting a file is
  an `Unlinked` event whose success comes from the `failing` parameter.
- The PostgreSQL server appears only as `Execute` on two key-indexed tables:
  - no column types or coercion;
  - no SQL parsing (`Sql` renders the text, while `Execute` reads the structured statement);
  - no triggers;
  - no concurrent sessions.
  A connection or server failure is the `fault` parameter.
- InsertBatch: the bind-parameter limit of the PostgreSQL protocol is not modelled.
  - A statement may carry at most 65,535 parameters.
  - Each batch sends six parameters per record (`src/repositories/dataRepository.js:16-31`).
    So a file with more than 10,922 data rows is refused.
  - The refusal's text does not start with a number, so the answer is 500.
  - The model leaves this case to `fault`. `BatchPasses` ("with no fault, the batch goes
    in exactly when every record has a `data_hora`") holds only because `Execute` leaves
    the limit out.
- The table schema is not part of the source. `ON CONFLICT (data_hora)` needs a unique
  index on `data_hora`, and the model takes `data_hora` to be that key. It also assumes
  that `data_hora` is NOT NULL.
  - The comment at `src/repositories/dataRepository.js:29` mentions only UNIQUE.
  - `Execute`, `BatchPasses`, `ExecuteIdempotent` and the `InsertIgnore` lemmas rely on
    the NOT NULL assumption.
  - If the column were nullable, a keyless record would be inserted, not rejected. It
    would be inserted again on every re-send, since NULLs do not conflict.
- Asynchrony is not modelled: `await`, promise scheduling and concurrent requests. The
  handler is one sequential run.
- `toLowerCase` is modelled on ASCII letters only. Non-ASCII letters keep their case.
  `trim` and `parseInt` skip the full ECMAScript white space set: the WhiteSpace and
  LineTerminator characters, including NBSP, the BOM and the Unicode space separators.
- `parseInt` is modelled as used here: optional sign, `0x` prefix, digit run. There is no
  floating-point rounding of very long numerals.
  - The HTTP layer's own checks on the status code are not modelled: codes below 100 or
    above 999 are kept as computed.
- Object keys are modelled as a map from text to text. The key order of the JSON objects
  and prototype-inherited keys are not modelled.
- `!req.files` is modelled as both file fields being absent. The field arrays are taken to
  hold their one file.
- ExtractionFailureIs422: states the status of the answer, not its body. The absence of
  `|` from the long 422 message texts is not proved, so the body text is not predicted.
- `NotNullErrorIs500`: states only the status of the driver's error, not the body text.
- The Swagger comment block, `src/controllers/dataController.js` and the server start-up
  in `src/app.js` are not part of this model.
