# Case-file import and investigator tools, modelled in Dafny

The system manages investigation cases ("enquêtes") for a debt-collection
agency. Case files arrive as fixed-width text files (`.ost`). The back end
cuts each line into fields at fixed character positions and stores one case
record (`Donnee`) per line that carries a case number. A stand-alone viewer
shows such files with a second, 60-column layout. In the web front end, case
records are listed and searched, and the dialogs there fill in and send an
investigator's findings. The back end also assigns a case to an investigator,
produces each investigator's OpenVPN client configuration, and checks the
name of an uploaded file before accepting it.

The model has one module per source file, plus two shared modules:

- Common (common.dfy): optional values and JavaScript/JSON scalars with their falsiness.
- Text (text.dfy): Python `strip`, JavaScript `trim`, slicing, lower-casing, substring search, `str.replace`, `splitlines` and decimal printing.
- ImportParser (import_parser.dfy), from backend/utils.py:
  - the 46-column import layout and `parse_line` as a loop filling a dictionary;
  - `process_file_content` as a loop that collects records and error line numbers, and its outcome: the records, or an exception once any record was refused;
  - `clean_and_validate_record`.
- ViewerParser (viewer_parser.dfy), from backend/dataviewer.py:
  - the 60-column viewer layout, `parse_line` and the `parse_file` loop;
  - the display width of a column.
- RecordList (record_list.dfy), from DataViewer.jsx: the list component's state as a class, with the search filter, the investigator-name lookup, deletion, and the dialog's open and close.
- FindingsForm (findings_form.dfy), from LegacyUpdateForm.jsx:
  - the findings form as a class;
  - hydration from stored findings and the payload sent;
  - the address-suggestion handlers.
- UpdateModal (update_modal.dfy), from UpdateModal.jsx:
  - the labels of the search-element codes;
  - the form state edited one input at a time;
  - the close controls.
- Assignment (assignment.dfy), from backend/routes/donnees.py:
  - `assign_enquete` as an in-place update of an array of rows;
  - `get_donnees` as a projection.
- VpnConfig (vpn_config.dfy), from backend/models/enqueteur.py: the directive substitution chain, the output file name, and the `vpn_config_generated` flag.
- Upload (upload.dfy), from backend/routes/files.py: `allowed_file` and the order of the upload checks.

What lies outside the model is passed in as a parameter:

- Database writes are a predicate saying whether the database accepts a record.
- HTTP replies and the user's answers to dialogs are datatypes.
- File reads are an optional value, and file writes a flag.

## Model

| member | source | states |
|---|---|---|
| ImportParser.LayoutLaid | backend/utils.py:11-57 | the 46 columns hold the 46 keys in order and tile positions 0 to 1854 with no gap and no overlap |
| ImportParser.ColumnSpecsTile | backend/utils.py:11-57 | the first column is `numeroDossier` at [0, …); each column starts where the previous one ends; every column is non-empty and ends by 1854 |
| ImportParser.ColumnFieldsDistinct | backend/utils.py:11-57 | no dictionary key is filled by two columns |
| ImportParser.FieldValueShape | backend/utils.py:67-77 | a field is the stripped slice `line[start:end]` cut back to the line's end; it is no longer than its column, has no surrounding white space, and is "" when the line stops before the column |
| ImportParser.FieldValueIgnoresTail | backend/utils.py:67-77 | a field never depends on characters at or beyond its column's end |
| ImportParser.RecordOfContents | backend/utils.py:66-77 | the dictionary built from the first n columns holds exactly the first n keys, each with its own column's value |
| ImportParser.ColumnFields | backend/utils.py:66-77 | the column loop builds the dictionary holding, for each column in order, its key and its field |
| ImportParser.ParseLine | backend/utils.py:60-88 | `parse_line` returns what `ParsedRecord` specifies (characterised by `ParsedRecordMeaning`) |
| ImportParser.ParsedRecordMeaning | backend/utils.py:60-84 | no record iff the line is blank or its case-number field is empty; otherwise the record has all 46 keys, each holding its column's field |
| ImportParser.ParsedRecordIgnoresTail | backend/utils.py:57-84 | characters at or beyond position 1854 never change what a line parses to |
| ImportParser.CleanAndValidate | backend/utils.py:194-198 | a record is kept iff present and non-empty, and is then returned unchanged |
| ImportParser.CleanAndValidateKeepsParsed | backend/utils.py:106-109 | cleaning never changes what `parse_line` returned |
| ImportParser.KeptIsParsed | backend/utils.py:106-109 | what the import loop keeps of a line is exactly `parse_line`'s result |
| ImportParser.PrepareLines | backend/utils.py:98 | the prepared lines are no more numerous than the input lines, and each is non-empty with no surrounding white space |
| ImportParser.PrepareLinesOne | backend/utils.py:98 | a single line is dropped iff it is blank, and is otherwise kept stripped |
| ImportParser.PrepareLinesAppend | backend/utils.py:98 | preparing two blocks of lines is preparing each block, in order; with `PrepareLinesOne` this makes the prepared lines exactly the stripped non-blank lines, in input order |
| ImportParser.PreparedLineParses | backend/utils.py:60-84 | a non-empty line starting with a non-space character always gives a record: it is not blank and its case-number field is not empty |
| ImportParser.PreparedLinesParse | backend/utils.py:98-106 | every prepared line gives a record, so on the import path the blank test and the case-number test of `parse_line` never reject a line, and the line numbers in the errors count non-blank lines, not lines of the file |
| ImportParser.ProcessFileContent | backend/utils.py:90-192 | the outcome (the records returned, or None for the exception raised) is `ImportOutcome` of the prepared lines of the content; the loop's records and error numbers follow `ImportLines` line by line |
| ImportParser.ImportLinesProcessed | backend/utils.py:104-110 | every stored record carries the file id and is the record kept from one of the lines; records plus errors are at most one per line |
| ImportParser.ImportLinesErrors | backend/utils.py:104-176 | each error is the 1-based number of a line whose record the database refused, and the numbers increase |
| ImportParser.ImportLinesAppend | backend/utils.py:104-176 | importing two blocks of lines is importing each block; the second block's line numbers are shifted. Within the loop's control flow a refused line does not stop later lines from being tried, and input order is kept; the import as a whole still raises then (`ImportOutcomeMeaning`) |
| ImportParser.ImportLinesAllAccepted | backend/utils.py:104-169 | when the database refuses no line's record there are no errors, and the records are those kept from the lines, in line order, each tagged with the file id |
| ImportParser.ImportLinesErrorsComplete | backend/utils.py:104-173 | every line whose record the database refused has its 1-based number among the errors |
| ImportParser.ImportOutcomeMeaning | backend/utils.py:104-192 | the import returns its records iff no line's record was refused, and they are then the records kept from the lines, in line order; otherwise the final commit fails and the exception is raised again |
| ViewerParser.SlicesMatchColumns | backend/dataviewer.py:13-74 | the 60 slices run contiguously from 0 to 1088, and the i-th slice is as wide as the i-th column of the table |
| ViewerParser.DisplayWidth | backend/dataviewer.py:150 | the pixel width is the larger of eight per character of the width and eight per character of the heading |
| ViewerParser.ParseLineMeaning | backend/dataviewer.py:155-223 | `parse_line` gives [] iff the line is blank; otherwise it gives 60 values, none wider than its column and none with surrounding white space |
| ViewerParser.FieldsIgnoreTail | backend/dataviewer.py:161-222 | characters at or beyond position 1088 never reach a value |
| ViewerParser.KeepsLineWithoutCaseNumber | backend/dataviewer.py:155-223 | a non-blank line whose first column is blank is still kept, with an empty first value |
| ViewerParser.ParseFile | backend/dataviewer.py:228-236 | the loop's rows equal `ParsedRows`, the non-empty `parse_line` results in file order |
| ViewerParser.ParsedRowsAppend | backend/dataviewer.py:232-236 | parsing two runs of lines gives the first run's rows followed by the second's |
| ViewerParser.RowsOfNonBlank | backend/dataviewer.py:232-236 | for a line parser that gives nothing for a blank line and a non-empty row for any other, the kept rows are one per non-blank line, in line order |
| ViewerParser.ParsedRowsShape | backend/dataviewer.py:232-239 | the rows are the values of the non-blank lines, in order, each with one value per column of the table |
| ViewerParser.NonBlank | backend/dataviewer.py:235 | the kept lines are no more numerous than the input lines and none is blank |
| ViewerParser.NonBlankMembers | backend/dataviewer.py:235 | a line is kept iff it is one of the input lines and is not blank |
| ViewerParser.NonBlankAppend | backend/dataviewer.py:235 | filtering two blocks of lines is filtering each block, in the same order |
| RecordList.FilterMembership | frontend/src/components/DataViewer.jsx:70-75 | the filter keeps exactly the records that match in one of the four fields |
| RecordList.FilterAppend | frontend/src/components/DataViewer.jsx:70 | filtering a concatenation is concatenating the filtered parts, so order is kept |
| RecordList.FilterLength | frontend/src/components/DataViewer.jsx:70 | the filtered list is no longer than the list |
| RecordList.SearchBlankShowsAll | frontend/src/components/DataViewer.jsx:64-66 | an empty or white-space-only term shows the whole list |
| RecordList.SearchMembership | frontend/src/components/DataViewer.jsx:69-75 | any other term shows exactly the records whose lower-cased case number, name, first name or town contains the lower-cased term; a missing field never matches |
| RecordList.SearchIgnoresCase | frontend/src/components/DataViewer.jsx:69 | the search gives the same result for a term and its lower-cased form |
| RecordList.SearchKeepsSpaces | frontend/src/components/DataViewer.jsx:64-69 | the term is trimmed only for the blank test: a term starting with a space matches only records with a space in a searched field |
| RecordList.FindMeaning | frontend/src/components/DataViewer.jsx:58 | `find` returns the first investigator with the id, and nothing iff no investigator has it |
| RecordList.EnqueteurNameMeaning | frontend/src/components/DataViewer.jsx:56-60 | "Non assigné" for a falsy id, "Non trouvé" for an unknown id, otherwise "nom prenom" of the first investigator with that id |
| RecordList.WithoutIdMeaning | frontend/src/components/DataViewer.jsx:84 | deletion removes every record with the id and nothing else |
| RecordList.WithoutAbsentId | frontend/src/components/DataViewer.jsx:84 | a list without the id is left unchanged |
| RecordList.DataViewerState.constructor | frontend/src/components/DataViewer.jsx:15-22 | empty lists, loading, no error, empty term, no selection, dialog closed |
| RecordList.DataViewerState.HandleSearch | frontend/src/components/DataViewer.jsx:62-77 | the term is stored and the shown list becomes `SearchResult` of the full list; nothing else changes |
| RecordList.DataViewerState.FetchData | frontend/src/components/DataViewer.jsx:24-50 | the new state is `Fetched`: a good first reply sets both lists to the fetched array; a bad one keeps the lists and the investigators and sets the error message; after a good first reply, a thrown second reply sets the error, and otherwise the error is cleared and the investigators change only on a good second reply; loading ends false |
| RecordList.DataViewerState.HandleDelete | frontend/src/components/DataViewer.jsx:79-96 | only a confirmed, successful delete changes the lists, both to the list without that id, whatever the search term; each outcome has its own alert |
| RecordList.DataViewerState.HandleUpdate | frontend/src/components/DataViewer.jsx:98-101 | selects the record and opens the dialog; nothing else changes |
| RecordList.DataViewerState.HandleModalClose | frontend/src/components/DataViewer.jsx:103-109 | always closes the dialog and clears the selection; without a refresh nothing else changes, and with one the lists, investigators, error and loading flag are exactly those `FetchData` gives (`Fetched`) |
| FindingsForm.OrDefault | frontend/src/components/LegacyUpdateForm.jsx:191-203 | `v || d`: a non-empty value is kept, an empty or missing one gives the default |
| FindingsForm.NullIfEmpty | frontend/src/components/LegacyUpdateForm.jsx:232-234 | `s || null`: null iff the string is empty, otherwise the string itself |
| FindingsForm.HydrateForgetsPrevious | frontend/src/components/LegacyUpdateForm.jsx:187-206 | hydrating from stored findings does not depend on what the form held |
| FindingsForm.HydrateNothingStored | frontend/src/components/LegacyUpdateForm.jsx:6-20 | empty stored findings give the initial form, except both result codes read "T" |
| FindingsForm.PayloadRoundTrip | frontend/src/components/LegacyUpdateForm.jsx:187-235 | sending a form and hydrating from what was sent gives the form back iff both result codes and the country are non-empty; an empty one comes back as its default |
| FindingsForm.PayloadMeaning | frontend/src/components/LegacyUpdateForm.jsx:220-235 | the payload carries the case id and the renamed fields; each amount is null iff empty and is otherwise passed through |
| FindingsForm.FindingsFormState.constructor | frontend/src/components/LegacyUpdateForm.jsx:6-30 | every field empty except the country "FRANCE"; no suggestions; not loading |
| FindingsForm.FindingsFormState.HydrateFrom | frontend/src/components/LegacyUpdateForm.jsx:187-206 | the form becomes `Hydrate` of its old value; with no stored findings it is untouched |
| FindingsForm.FindingsFormState.HandleAddressSelect | frontend/src/components/LegacyUpdateForm.jsx:207-216 | street, postal code and town come from the suggestion, the country becomes "FRANCE", and every suggestion list is emptied |
| FindingsForm.FindingsFormState.SearchAddress | frontend/src/components/LegacyUpdateForm.jsx:74-102 | only a five-character code is searched; the towns found replace the suggestions; exactly one town is filled in with the country "FRANCE" |
| FindingsForm.FindingsFormState.HandlePostalCodeChange | frontend/src/components/LegacyUpdateForm.jsx:151-159 | the handler as defined: the value is always stored; town suggestions are cleared unless it has five characters, in which case the search runs and the loading flag ends false; otherwise the flag is untouched. The rendered postal-code input calls its own inline handler instead |
| FindingsForm.FindingsFormState.HandleSubmit | frontend/src/components/LegacyUpdateForm.jsx:217-254 | the payload is `ToPayload` of the form; `onClose(true)` is called iff the reply reports success |
| FindingsForm.FindingsFormState.HandleCancel | frontend/src/components/LegacyUpdateForm.jsx:281 | the cancel controls close without asking for a refresh |
| UpdateModal.TypeRecherche | frontend/src/components/UpdateModal.jsx:9-16 | a code has a label iff it is one of A, T, D, B, E, R |
| UpdateModal.CodeOf | frontend/src/components/UpdateModal.jsx:9-16 | a decoded label is the label of the code returned |
| UpdateModal.LabelsIdentifyCodes | frontend/src/components/UpdateModal.jsx:9-16 | each code's label decodes back to that code, so no two codes share a label |
| UpdateModal.Elements | frontend/src/components/UpdateModal.jsx:78-79 | the per-character list of the code string, and [] when the string is absent |
| UpdateModal.Labels | frontend/src/components/UpdateModal.jsx:95-99 | one label per code, in order, each the code's `TYPE_RECHERCHE` entry |
| UpdateModal.TypeLabel | frontend/src/components/UpdateModal.jsx:89 | "Enquête" iff the type is "ENQ", and "Contestation" otherwise |
| UpdateModal.Render | frontend/src/components/UpdateModal.jsx:75-112 | nothing is rendered iff the modal is closed |
| UpdateModal.RenderedDemandes | frontend/src/components/UpdateModal.jsx:78-99 | one entry per requested code, labelled iff the code is known, and the label decodes back to the code |
| UpdateModal.RenderedObligatoires | frontend/src/components/UpdateModal.jsx:79-112 | the same for the mandatory codes |
| UpdateModal.InitialData | frontend/src/components/UpdateModal.jsx:29-65 | the 26 keys, all empty except `pays` "FRANCE" and `date_retour` the given day |
| UpdateModal.WithInput | frontend/src/components/UpdateModal.jsx:67-73 | the named field takes the value; every other field keeps its presence and value |
| UpdateModal.CloseRequest | frontend/src/components/UpdateModal.jsx:116-215 | `onClose` is called iff the header cross or "Annuler" is used, and always with `false` |
| UpdateModal.CloseRequests | frontend/src/components/UpdateModal.jsx:116-215 | over any sequence of events, every `onClose` call asks for no refresh |
| UpdateModal.CloseIsHeard | frontend/src/components/UpdateModal.jsx:116-215 | any sequence holding a close control makes at least one `onClose` call |
| UpdateModal.AfterAppend | frontend/src/components/UpdateModal.jsx:67-73 | events are processed one after another |
| UpdateModal.LastInputWins | frontend/src/components/UpdateModal.jsx:67-73 | after any events, the last input to a field sets it |
| UpdateModal.UntouchedFieldKept | frontend/src/components/UpdateModal.jsx:67-73 | a field no input names keeps its presence and value |
| UpdateModal.ModalState.constructor | frontend/src/components/UpdateModal.jsx:29-65 | the state starts as `InitialData` |
| UpdateModal.ModalState.HandleInputChange | frontend/src/components/UpdateModal.jsx:67-73 | the state becomes `WithInput` of the old state |
| UpdateModal.ModalState.Handle | frontend/src/components/UpdateModal.jsx:67-215 | one event: the state takes one `Step`, and `onClose` is called as `CloseRequest` says |
| Assignment.FirstIndex | backend/routes/donnees.py:37 | the first row whose case number equals the key, and none iff no row has it |
| Assignment.AssignsFirstMatchOnly | backend/routes/donnees.py:37-44 | a match answers 200 and sets only the first matching row's investigator, to the value sent (null or "" included) |
| Assignment.NoMatchChangesNothing | backend/routes/donnees.py:38-39 | no match answers 404 and leaves the table unchanged |
| Assignment.FailureChangesNothing | backend/routes/donnees.py:33-47 | every answer other than 200 leaves the table unchanged; 200 needs an object body and a successful commit |
| Assignment.FirstIndexIgnoresAssignment | backend/routes/donnees.py:37-41 | assigning does not change which row a key selects |
| Assignment.AssignIdempotent | backend/routes/donnees.py:41 | repeating the same assignment leaves the table as assigning once |
| Assignment.Listing | backend/routes/donnees.py:10-25 | one entry per row, in order, with the investigator passed through |
| Assignment.ListingAfterAssign | backend/routes/donnees.py:11-25 | after an assignment, the listing differs only in that row's investigator |
| Assignment.DonneeTable.constructor | backend/routes/donnees.py:10 | the table holds the given rows |
| Assignment.DonneeTable.AssignEnquete | backend/routes/donnees.py:31-47 | the in-place update leaves the table and the answer given by `AssignOutcome` |
| VpnConfig.EmbedWithoutDirectives | backend/models/enqueteur.py:52-55 | a template naming none of the four files is unchanged |
| VpnConfig.EmbedCa | backend/models/enqueteur.py:52 | "ca ca.crt" becomes `<ca>` + newline + certificate + `</ca>`, provided the certificate holds none of the later directives |
| VpnConfig.EmbedCert | backend/models/enqueteur.py:53 | "cert client1.crt" becomes the `<cert>` block, provided it holds none of the later directives |
| VpnConfig.EmbedKey | backend/models/enqueteur.py:54 | "key client1.key" becomes the `<key>` block, provided it holds no TLS-auth directive |
| VpnConfig.EmbedTlsAuth | backend/models/enqueteur.py:55 | "tls-auth ta.key 1" becomes the `<tls-auth>` block followed by "key-direction 1" |
| VpnConfig.EmbedLines | backend/models/enqueteur.py:52-55 | the substitutions work line by line: embedding two texts joined by a newline embeds each and keeps the newline, so with the four lemmas above each directive standing as a whole line of a template becomes its block there |
| VpnConfig.AbsentCharNoMatch | backend/models/enqueteur.py:52-55 | a directive holding a character the text lacks does not occur in it |
| VpnConfig.CertHoldsNoEarlier | backend/models/enqueteur.py:52-53 | the certificate directive does not contain the CA directive |
| VpnConfig.KeyHoldsNoEarlier | backend/models/enqueteur.py:52-54 | the key directive contains neither earlier directive |
| VpnConfig.TlsAuthHoldsNoEarlier | backend/models/enqueteur.py:52-55 | the TLS-auth directive contains none of the three earlier directives |
| VpnConfig.OutputName | backend/models/enqueteur.py:58 | the name starts with "client" and ends with ".ovpn" |
| VpnConfig.OutputNameInjective | backend/models/enqueteur.py:58 | two investigators get the same file name only when they have the same id |
| VpnConfig.Generation | backend/models/enqueteur.py:27-68 | a file is written iff every file is read and the write succeeds, under the output name and with the substituted template |
| VpnConfig.Enqueteur.constructor | backend/models/enqueteur.py:14 | the flag starts false |
| VpnConfig.Enqueteur.GenerateVpnConfig | backend/models/enqueteur.py:27-68 | the outcome is `Generation`, and the flag is set only once the file is written |
| Upload.LastDot | backend/routes/files.py:15 | the position of the last '.', and none iff the name has no '.' |
| Upload.LastDotAt | backend/routes/files.py:15 | a '.' with none after it is the last one |
| Upload.AllowedFileMeaning | backend/routes/files.py:14-15 | a name is allowed iff it ends with '.' and three characters that lower-case to "ost" |
| Upload.AllowedByExtension | backend/routes/files.py:15 | with a dot-free extension, a name is allowed iff the extension lower-cases to "ost", whatever precedes it |
| Upload.NoDotRefused | backend/routes/files.py:15 | a name without '.' is refused |
| Upload.TrailingDotRefused | backend/routes/files.py:15 | a name ending in '.' is refused |
| Upload.ExtensionExamples | backend/routes/files.py:15 | "x.OST" and "x.txt.ost" are accepted and "x.ost.txt" is refused |
| Upload.CheckUpload | backend/routes/files.py:19-27 | every rejection is 400; the upload goes on iff a file part is present, its name is non-empty and allowed |
| Upload.RejectionOrder | backend/routes/files.py:88-96 | the message names the first failing check: missing part, then empty name, then wrong type |
| Text.PySlice | backend/utils.py:71-73 | Python slicing: cut back to the string's end, and empty rather than an error past it |
| Text.TrimMeaning | backend/utils.py:71 | `strip` keeps the piece `s[i..j]` whose two ends are not white space and drops only white space before `i` and after `j`; it leaves "" iff the text is all white space |
| Text.ReplaceAllSplit | backend/models/enqueteur.py:52-55 | `str.replace` with a pattern lacking some character replaces the text on each side of that character separately |
| Text.SplitLines | backend/utils.py:98 | no produced line holds a line break |
| Text.SplitLinesSingle | backend/utils.py:98 | a non-empty text with no line boundary is one line |
| Text.SplitLinesStep | backend/utils.py:98 | a break-free line followed by one boundary character (other than the "\r" of "\r\n") is the first line, and splitting goes on after the boundary; a final boundary opens no empty line |
| Text.SplitLinesCrLf | backend/utils.py:98 | "\r\n" after a break-free line is a single boundary |
| Text.NatToString | backend/models/enqueteur.py:58 | the decimal text of an id is non-empty digits whose value is the id, with no leading zero unless the id is 0 |

## Left out

- Database sessions: `add`, `flush` and the commits of `process_file_content` are not modelled as steps. Whether the database accepts a record is a parameter, and a refusal is taken to leave the session failed, so that the final commit raises (`ImportOutcome`). The commit every 100 records is not modelled: records committed before a refusal stay stored although the import raises.
- ImportParser.ImportLines: a refused record is counted as that line's error only; the loop model goes on trying later records independently, whereas after a failed flush every later step of the session fails too. What the loop collects after a refusal never reaches the caller, because the import then raises.
- Creating the `DonneeEnqueteur` row for each imported case is not modelled. It is a database call.
- `convert_date` and `convert_float`: date parsing and floating point are not modelled. The import's records are the parsed text fields.
- The error messages of `process_file_content` are reduced to the line numbers. The exception text is not available to the model.
- The `except` branches of both `parse_line` functions are not modelled. Slicing and `strip` cannot raise on a string, so they are unreachable.
- Decoding bytes to UTF-8 is not modelled: `ProcessFileContent` takes decoded text.
- ViewerParser.ParseFile: takes the file's lines as given. Opening and decoding the file as UTF-8 and reading it line by line (each line keeping its newline, which the stripping of every value removes) are not modelled, nor the `DataFrame` built from the rows, nor the error dialog and the `None` returned when any of this raises.
- Lower-casing is ASCII only: letters outside A-Z are left as they are. This is exact for "ost", but the search's case folding of accented capitals ("É") is not modelled.
- JavaScript measures lengths and splits strings in UTF-16 code units; the model counts Unicode scalar values. The two differ only for characters outside the Basic Multilingual Plane.
- HTTP requests and replies: axios calls, `jsonify` and Flask routing. Replies are parameters, and concurrent or interleaved replies are not modelled.
- The address-autocomplete searches other than `searchAddress` are not modelled, because they only relay an external service: `searchByPostalCode`, `searchStreets`, `searchFullAddress`, `handleVilleSelect` and `handleRueSelect`.
- The `isLoading.rue` flag is not modelled. Only the searches left out above set it.
- UpdateModal.InitialData: the clock that supplies `date_retour` is a parameter.
- The read-only case fields shown in the modal are not modelled. Only the type and the element codes are.
- The 409 duplicate-file flow and the rest of `parse_file`/`replace_file` after the checks (saving, `pandas`, `os.remove`) are not modelled. They are file-system and framework work.
- Reading the template and key files and writing the configuration are parameters of `GenerateVpnConfig`.
- Assignment.FirstIndex: `.first()` without an ordering is taken to return the first row in table order.
- Assignment.Row: the `Donnee` model class declares no `enqueteurId` column; only a migration adds it. The model assumes the column is mapped.
- The assignment routes' blueprint is not registered in the application. The model describes the routes as written.
- Assignment.Request: the case number sent is modelled as a string or null. A number sent instead would compare by SQL's rules, which are not modelled.
- ImportParser.ParseLine, `ViewerParser.ParseFile`, `ImportParser.ProcessFileContent` and `Assignment.DonneeTable.AssignEnquete` are stated as equal to their specification functions. What those functions promise is stated in the lemmas about them.
- The tkinter display of the viewer is not modelled, except for the column width rule.
