# AnonyMRI de-identification pipeline in Dafny

AnonyMRI de-identifies MRI studies stored as DICOM files. This project models that pipeline and proves its properties.

**What the program does.**
- `AnonyMRI/core.py` deletes sixteen identifying tags from every data set, at every nesting depth.
- It replaces the Patient ID with a pseudonym: the patient number padded to four digits, followed by the study date.
- It writes the cleaned files under an output directory. It can optionally make a zip archive (see "Modelled as written" for what that archive holds).
- It appends one log line per folder it anonymises (per group in the GUI), with the fields joined by the chosen delimiter.
- The window in `gui.py` walks an input folder and groups its series by study. It then runs the core on every series of a group, using one shared pseudonym.
- Finally the window writes `anonymization_log.txt`.

**How it is represented.** Five modules, one per file:
- **Text** (`text.dfy`): the Python string and integer built-ins the program relies on:
  - `str.strip` with the white space of `str.isspace`, and `str.isdigit`;
  - `int()` with its own, narrower white-space set (the separators U+001C to U+001F are not white space to it), and its sign and underscore rules;
  - `str()`, the `04d` format;
  - `join`, `split` and `replace`.
- **Paths** (`paths.dfy`): `os.path.join`, `basename` and `dirname` on POSIX paths, and a "lies under" relation between paths.
- **Dicom** (`dicom.dfy`):
  - a data set is a map from (group, element) tags to a value, or to a sequence (SQ) of nested data sets;
  - `remove_tags_recursive` is a method with the source's loops, specified by the function `StripTags`.
- **Core** (`core.dfy`):
  - the class `Deidentifier` has the constructor's settings as constants and `log_lines` as its mutable field;
  - its methods are proved against the specification functions `FolderSpec` (one `anonymize_dicom_folder` call) and `RunSpec` (the loop of `run`);
  - a directory is its path with its listing; each file carries an "is DICOM" flag and its data set;
  - the console is a sequence of input lines;
  - the working directory is a parameter;
  - every change to the file system is returned as an `Effect`: makedirs, a data-set write, a zip, `make_archive` or a text file.
  - An exception is an `Err` result that ends the run.
- **Gui** (`gui.dfy`):
  - the window is the class `AnonyMriGui`, with the form's values, the listed groups and the state of the anonymize button;
  - `FindMri` is proved against the grouping function `Grouped`;
  - `Anonymize` is proved against `GroupsSpec` / `AnonymizeEffects`;
  - each group's number field is a plain string; the walk of the input folder is a sequence of directories.

**Modelled as written.** The core keeps four behaviours of the code; where a lemma states what one causes, it is named:
- `patient_number` is stored by the constructor but never read. `run` calls the folder anonymiser with no number. So a non-interactive de-identifier fails at the first folder with DICOM files, whatever number it was built with (`Core.RunWithoutNumberFails`). With a number passed to every call, and a valid study date in the first DICOM file of every walked directory, the same loop would anonymise and log every folder (`Core.StoredNumberRunLogsEveryFolder`); a folder whose date does not parse still ends the run, as `strptime` raises at core.py:85.
- A given `out_root` is used directly as the output directory.
- The core uses `log_delimiter` unchanged, so a de-identifier built with the default delimiter joins its log fields with the text `tab`. Both callers map the choice tab to a tab character (main.py:16, case-insensitively, and gui.py:135); the model covers the window's mapping (`Gui.DelimiterOf`).
- The zip path and the walked root are both taken next to `os.path.dirname(out_dir)`. With the default output location, the archive therefore walks `<cwd>/<id>/<id>`, a directory that holds none of the written files (`Core.ArchiveMissesWrittenFiles`). The patient folder `<cwd>/<id>` would hold all of them (`Core.IntendedArchiveCoversWrittenFiles`).

## Model

| member | source | states |
|---|---|---|
| Dicom.TagsToRemoveFacts | AnonyMRI/core.py:9-26 | the removal list holds 16 pairwise distinct tags, among them Patient ID (0010,0020), Patient's Name and Birth Date |
| Dicom.StripTags | AnonyMRI/core.py:28-35 | defines the filtered data set: the listed tags dropped at this level, and every item of every remaining sequence filtered the same way |
| Dicom.RemoveTagsRecursive | AnonyMRI/core.py:28-35 | the filter's loops compute StripTags(ds, tags): listed tags deleted at top level and, recursively, in every item of every SQ element |
| Dicom.DeleteTags | AnonyMRI/core.py:29-31 | the loop over the tag list keeps exactly the elements whose tag is not listed; an absent tag is no error |
| Dicom.RemoveTagsFromItems | AnonyMRI/core.py:32-35 | every item of a sequence is filtered, with the number and order of items kept |
| Dicom.StripRemovesAll | AnonyMRI/core.py:28-35 | after filtering, no listed tag is present at any depth |
| Dicom.StripShapeAt | AnonyMRI/core.py:28-35 | at every path of (tag, item) steps that avoids the listed tags, the element's value or item count is unchanged by filtering; any other element is gone |
| Dicom.StripIdempotent | AnonyMRI/core.py:28-35 | filtering twice equals filtering once |
| Dicom.Attr | AnonyMRI/core.py:78 | getattr with a default gives the default for an absent element |
| Dicom.OptionalAttr | gui.py:111 | getattr with default None gives None exactly when the element is absent, or is a sequence |
| Dicom.Sanitized | AnonyMRI/core.py:94-96 | defines the data set a file is saved as: filtered with the removal list, then given Patient ID patient_id |
| Dicom.SanitizedIsAnonymized | AnonyMRI/core.py:93-97 | a written data set has Patient ID equal to patient_id, and no other listed tag at any depth |
| Dicom.SanitizedKeepsOthers | AnonyMRI/core.py:93-97 | every element on a path that avoids the listed tags keeps its value and its item count |
| Core.ListDir | AnonyMRI/core.py:56 | defines os.listdir of a folder as the listing of the first walked directory with that path, and no files for a path never walked |
| Core.DicomFiles | AnonyMRI/core.py:56 | the DICOM files of a listing: never more than the listing, and all of them DICOM |
| Core.DicomFilesMembers | AnonyMRI/core.py:56 | a file is selected exactly when it is listed and is DICOM |
| Core.DicomFilesAppend | AnonyMRI/core.py:56 | the selection keeps listing order (it distributes over concatenation) |
| Core.FormatDate | AnonyMRI/core.py:85 | succeeds exactly on a valid YYYYMMDD date and then gives DD.MM.YYYY; otherwise the error names the date |
| Core.FormatDateRoundTrip | AnonyMRI/core.py:85 | reading DD.MM.YYYY back gives the study date |
| Core.ResolvePatientNumber | AnonyMRI/core.py:66-77 | defines how the number is found: an explicit one is used and no line is read; otherwise an interactive call takes FirstInteger of the console, and a non-interactive one gets the missing-number error |
| Core.FirstInteger | AnonyMRI/core.py:69-75 | the prompt loop's result: the first line int() accepts, with the lines consumed; when the lines run out, an end-of-input error after all of them |
| Core.PromptSkipsSeparatorLine | AnonyMRI/core.py:69-75 | a line that int() rejects although str.strip would clean it (U+001C before a digit) is skipped, and the next line's number is taken |
| Core.FirstIntegerSkipsRejected | AnonyMRI/core.py:69-75 | every line read before the accepted one was rejected by int() |
| Core.PromptPatientNumber | AnonyMRI/core.py:69-75 | the while-loop with the try/except returns what FirstInteger specifies |
| Core.PatientId | AnonyMRI/core.py:82 | defines patient_id as the 04d text of the number followed by the study date |
| Core.PatientIdInjective | AnonyMRI/core.py:82 | for study dates of equal length, two identifiers are equal exactly when numbers and dates are |
| Core.PatientIdLayout | AnonyMRI/core.py:82 | for 0 <= n < 10000 and a valid date, the identifier is 12 digits; its first four read back as n, and the rest is the date |
| Core.PatientIdIsComponent | AnonyMRI/core.py:82 | an identifier built from a valid date is one non-empty path component |
| Core.OutDir | AnonyMRI/core.py:90 | defines out_dir: a non-empty out_root as given, otherwise <cwd>/<id>/DICOM |
| Core.WriteEffects | AnonyMRI/core.py:93-97 | one data-set write per DICOM file |
| Core.WriteEffectsAt | AnonyMRI/core.py:93-97 | the i-th write saves the i-th file, filtered and given the new Patient ID, at out_dir/name |
| Core.SaveAll | AnonyMRI/core.py:93-97 | the per-file loop issues exactly WriteEffects |
| Core.LogLine | AnonyMRI/core.py:110-118 | defines the log line: number, patient_id, log date, field strength, manufacturer and model, joined with log_delimiter exactly as stored |
| Core.LogLineFields | AnonyMRI/core.py:111-118 | split at a one-character delimiter that occurs in none of the fields, the log line gives back six fields; the first reads back as the number, the second is patient_id, the third gives back the study date |
| Core.FolderOutput | AnonyMRI/core.py:88-119 | a successful call returns '', makes one directory and one write per file, adds an archive only with archiving on and no override, and adds a log line only without override |
| Core.ArchiveEffect | AnonyMRI/core.py:99-107 | defines the zip as written: <dirname(out_dir)>/<id>.zip, holding the tree walked at <dirname(out_dir)>/<id>, each file named <id>/<relative path> |
| Core.FolderWithNumber | AnonyMRI/core.py:78-119 | once the number is known, the call fails exactly when the sample's study date is invalid; it then writes and logs nothing |
| Core.FolderSpec | AnonyMRI/core.py:55-120 | a folder without DICOM files returns '' with no prompt, no effect and no log line; a failing call has no effect and no log line; one log line exactly on success with DICOM files and no override |
| Core.FolderNumber | AnonyMRI/core.py:66-77 | an explicit number wins and reads no input; otherwise an interactive call takes the first integer line, and a non-interactive one fails with the missing-number error |
| Core.FolderSpecOk | AnonyMRI/core.py:66-97 | a successful call had a resolved number and a valid date before anything was written, and produces FolderOutput |
| Core.FolderWrites | AnonyMRI/core.py:90-97 | makedirs(out_dir) comes first; each DICOM file is then written into out_dir under its own name, anonymised with patient_id |
| Core.OutputArchive | AnonyMRI/core.py:99-107 | an archive is present exactly when archiving is on and there is no override; it is then the last effect |
| Core.FolderIdentity | AnonyMRI/core.py:78-119 | without override, patient_id comes from the resolved number and the first file's study date (default 19000101); the log line holds its six fields; the archive follows the archive setting |
| Core.DefaultLayout | AnonyMRI/core.py:90-103 | by default files go to <cwd>/<id>/DICOM, dirname(out_dir) is <cwd>/<id>, and the walked root is <cwd>/<id>/<id> |
| Core.ArchiveMissesWrittenFiles | AnonyMRI/core.py:99-107 | with the default location, no written file lies under the archive's root |
| Core.IntendedLayout | AnonyMRI/core.py:99-107 | zipping the patient folder <cwd>/<id> into <cwd>/<id>.zip would cover every written file |
| Core.IntendedArchiveCoversWrittenFiles | AnonyMRI/core.py:99-107 | the same, for every identifier built from a number and a valid date |
| Core.LeafDirsWithDicoms | AnonyMRI/core.py:45-53 | at most one directory per walked directory |
| Core.LeafDirsMembers | AnonyMRI/core.py:48-51 | a path is collected exactly when some walked directory with that path has a DICOM file |
| Core.LeafDirsAppend | AnonyMRI/core.py:48-51 | collection keeps walk order |
| Core.LeafDirsListDicoms | AnonyMRI/core.py:48-56 | each collected folder, listed again, has DICOM files |
| Core.RunSpec | AnonyMRI/core.py:122-128 | defines the run loop: each collected folder in turn with the same out_root, input lines, log and effects carried forward, and the first error ending it; it never consumes more lines than there are |
| Core.RunSpecStops | AnonyMRI/core.py:125-126 | after an exception the later folders do nothing |
| Core.RunWithoutNumberFails | AnonyMRI/core.py:122-128 | a non-interactive run over a tree with DICOM files fails with the missing-number error, before any effect or log line |
| Core.StoredNumberRunLogsEveryFolder | AnonyMRI/core.py:125-126 | with a number passed to every call and a valid study date in the first DICOM file of every walked directory, the loop succeeds, reads no input and logs one line per folder |
| Core.Deidentifier.constructor | AnonyMRI/core.py:38-43 | the four settings are stored, with the source's defaults (no number, no archive, delimiter tab, interactive), and the log is empty |
| Core.Deidentifier.FindLeafDirsWithDicoms | AnonyMRI/core.py:45-53 | the walk loop returns LeafDirsWithDicoms |
| Core.Deidentifier.AnonymizeWithNumber | AnonyMRI/core.py:78-119 | once the number is known, the result, the effects and the log's growth are those of FolderWithNumber |
| Core.Deidentifier.AnonymizeDicomFolder | AnonyMRI/core.py:55-120 | result, effects and input lines consumed are those of FolderSpec; the log grows by its line |
| Core.Deidentifier.RunFolders | AnonyMRI/core.py:124-128 | the folder loop returns the log or the first error, with the effects of RunSpec |
| Core.Deidentifier.Run | AnonyMRI/core.py:122-128 | run is RunFolders with no patient number |
| Text.StripRemovesOnlySpaces | gui.py:139 | strip removes white space at both ends, and nothing else |
| Text.Strip | gui.py:139 | its result has no white space at either end; a string without it is unchanged |
| Text.ParseInt | AnonyMRI/core.py:72 | defines int() of a line: int()'s white space (space, tab to carriage return, and white space beyond ASCII) stripped at both ends, then an optional sign and underscore-grouped ASCII digits; None stands for ValueError |
| Text.ParseIntAccepts | AnonyMRI/core.py:72 | int() accepts an optional sign and underscore-grouped ASCII digits, inside int()'s white space, and rejects everything else (see Left out for other Unicode digits) |
| Text.SeparatorIsNoIntSpace | AnonyMRI/core.py:72 | the two white-space sets differ: str.strip removes a leading U+001C, int() rejects a number after it |
| Text.ParseIntOfDigits | gui.py:140-144 | int() of a string that passed isdigit is its decimal value |
| Text.IntToString | AnonyMRI/core.py:112 | defines str() of an int: a '-' for a negative number, then its decimal digits with no leading zero |
| Text.IntToStringRoundTrip | AnonyMRI/core.py:112 | int() reads back str(n) |
| Text.Pad4 | AnonyMRI/core.py:82 | the 04d format: at least four characters, a sign or a digit first, and never a '/' |
| Text.Pad4RoundTrip | AnonyMRI/core.py:82 | int() reads back the 04d format of every int, negative included |
| Text.Pad4Injective | AnonyMRI/core.py:82 | the 04d format is injective |
| Text.Pad4Width | AnonyMRI/core.py:82 | a number below 10000 pads to exactly four characters |
| Text.SplitJoin | AnonyMRI/core.py:111-118 | splitting a join at a one-character separator that occurs in no part gives the parts back |
| Paths.Join | AnonyMRI/core.py:90 | defines os.path.join of two parts: an absolute second part wins; otherwise a '/' goes between them unless the first is empty or already ends in one |
| Paths.Dirname | AnonyMRI/core.py:100 | defines os.path.dirname: everything up to the last '/', with trailing slashes dropped unless it is all slashes |
| Paths.Basename | gui.py:151 | os.path.basename: the text after the last '/', which holds no '/' |
| Paths.BasenameJoin | gui.py:151 | the basename of join(a, b) is b, for b without '/' |
| Paths.DirnameJoin | AnonyMRI/core.py:100 | dirname(join(a, b)) is a, for a without a trailing '/' |
| Gui.SelectedFiles | gui.py:101-108 | the selected files of a directory are DICOM, and never more than its files |
| Gui.FastCheckSelection | gui.py:101-108 | the fast check keeps a directory exactly when its first file is DICOM, and then keeps that file alone; the full check keeps it too, with the same first file |
| Gui.SelectedSample | gui.py:109-110 | the first selected file is the first DICOM file of the listing |
| Gui.StudyKeyOf | gui.py:110-115 | defines the grouping key: StudyInstanceUID or None, then PatientName, PatientBirthDate and StudyDate, each UNKNOWN when absent |
| Gui.KeyIndex | gui.py:116 | the dictionary lookup: the index of the group with the key, or -1 when no group has it |
| Gui.AddSeries | gui.py:116 | defines groups[key].append: the series joins the group with its key, or opens a new group at the end |
| Gui.Grouped | gui.py:99-116 | defines the grouping of the walk: each directory with selected files adds its series under its sample's key, in walk order |
| Gui.AddSeriesGroups | gui.py:116 | appending a series keeps keys distinct and in place, extends only the group with that key, or adds one group at the end |
| Gui.GroupedBySeries | gui.py:99-116 | groups have distinct keys; each group's series are exactly the walk's series with its key, in walk order; no other key has series |
| Gui.GroupsKeepFirstSeenOrder | gui.py:116-120 | the groups of a prefix of the walk keep their places in the groups of the whole walk |
| Gui.GroupedWellFormed | gui.py:109-122 | every group has a first series with a first file |
| Gui.SeriesWithKeyFromWalk | gui.py:100-116 | every grouped series is a walked directory with its selected files |
| Gui.GroupSampleIsCoreSample | gui.py:146-156 | the file the GUI takes a group's identifier from is the one the core reads first in that directory, with the same study date |
| Gui.SeriesSpec | gui.py:150-156 | the core calls of a group add no log line; an abort names the group and an exception |
| Gui.GroupWithNumber | gui.py:146-175 | a group either aborts, leaving the log alone, or adds exactly one log line |
| Gui.GroupSpec | gui.py:139-175 | a group aborts for an invalid number exactly when its stripped field is not all digits |
| Gui.GroupsSpec | gui.py:138-175 | defines the group loop: GroupSpec on each group in turn, effects and log lines carried forward, the first abort ending it |
| Gui.GroupsSpecLog | gui.py:138-175 | without an abort there is one log line per group; with one, one per group before the aborting one |
| Gui.GroupsSpecStops | gui.py:140-143 | after an abort later groups do nothing |
| Gui.FirstInvalidNumberAborts | gui.py:139-143 | the first invalid field aborts: the groups before it keep their effects and log lines, and no log file is written |
| Gui.InvalidNumberIsFirst | gui.py:139-143 | an invalid-number abort names a group whose field is invalid, and every group before it had a valid field |
| Gui.InvalidNumberOfCompleted | gui.py:139-144 | when anonymize completes, every group's stripped field is all digits |
| Gui.GroupIdentity | gui.py:144-175 | a completed group has number int(field) and identifier PatientId(number, first file's study date); its effects are its series calls, then the archive if asked for; its log line has the six fields |
| Gui.OutputDir | gui.py:134 | defines the output folder: the chosen one, or cwd when none was chosen |
| Gui.DelimiterOf | gui.py:135 | defines the delimiter: the choice tab becomes a tab character, any other choice is used as given |
| Gui.SeriesOutDir | gui.py:151-152 | defines a series' output folder: <output>/<id>/DICOM/<basename of the series directory> |
| Gui.SeriesCall | gui.py:150-156 | defines one series call: FolderSpec of the non-archiving, non-interactive core on the series directory's listing, with that output folder, the group's number, the identifier as override and no console input |
| Gui.SeriesOutDirInPatientFolder | gui.py:151-152 | each series' output directory lies under <output>/<id> and is named after the series directory |
| Gui.OverrideCallOnlyWrites | gui.py:137-156 | core calls with an override and archive=False only make directories and write data sets: no archive and no log file |
| Gui.SeriesOnlyWrite | gui.py:150-156 | the same for all the series calls of a group |
| Gui.GroupArchivesOnce | gui.py:150-161 | a completed group makes exactly one archive, after all its series, when archiving is on, and none when it is off |
| Gui.GroupNoLogFile | gui.py:139-175 | no group writes a text file |
| Gui.AnonymizeWritesLog | gui.py:176-189 | the log file is written last, with one line per group, exactly when nothing aborted; after an abort no text file is written |
| Gui.RenderLog | gui.py:178-189 | defines the log file's text: the header joined with the delimiter, then the log lines, all joined by newlines, with a final newline |
| Gui.AnonymizeEffects | gui.py:176-189 | defines anonymize's effects: those of the groups, then, only when nothing aborted, the log file <output>/anonymization_log.txt with RenderLog's text |
| Gui.HeaderWithoutNewline | gui.py:178-185 | the header has no newline when the delimiter has none |
| Gui.RenderLogLines | gui.py:186-189 | split at newlines, the log file text is the header, the lines, and an empty last piece from the trailing newline |
| Gui.GuiArchive | gui.py:158-161 | defines the archive as written: base name join(output, id + ".zip") with every ".zip" removed, holding the tree under <output>/<id> |
| Gui.GuiArchiveBaseAsWritten | gui.py:158-161 | as written, under an output folder named a.zip, the archive's base name is not <output>/<id> |
| Gui.IntendedGuiArchivePlace | gui.py:158-161 | the intended archive is <output>/<id>.zip made from the patient folder, which holds every series' output |
| Gui.GuiArchiveWithoutDots | gui.py:158-161 | when neither folder nor identifier holds a '.', the archive as written is the intended one |
| Gui.AnonymizeSeries | gui.py:150-156 | the series loop on the shared de-identifier gives SeriesSpec's abort, effects and log |
| Gui.AnonymizeGroup | gui.py:139-175 | the number check, series, archive, date check and log append of one group give GroupSpec's abort, effects and log |
| Gui.AnonymizeGroups | gui.py:138-175 | the group loop on a fresh de-identifier, with its early return, gives GroupsSpec |
| Gui.AnonyMriGui.constructor | gui.py:27-38 | empty folders, delimiter 'tab', archiving and the fast check on, no groups, button disabled |
| Gui.AnonyMriGui.FindMri | gui.py:91-131 | entries are cleared first; the error comes exactly for an empty or missing input folder, the info box for no groups; otherwise the entries are Grouped(walk) and the button is enabled; the form is unchanged |
| Gui.AnonyMriGui.Anonymize | gui.py:133-189 | the abort and the effects, log file included, are those of GroupsSpec and AnonymizeEffects, for the chosen output folder (or cwd) and delimiter ('tab' meaning a tab character) |

## Left out

- The tkinter widgets, StringVars, message boxes, status text and `update_idletasks` are not modelled. The message boxes become the `Discovery` result of `FindMri` and the `Abort` result of `Anonymize`. The info strings of `find_mri` (gui.py:120-130) and the second read of each group's first file (for PatientSex) are display only.
- pydicom is not modelled:
  - `dcmread`, `is_dicom`, `save_as` and its encoding are foreign calls. A file carries an "is DICOM" flag and a data set. A write is an effect holding the data set.
  - A file that fails to read is not modelled.
  - `str()` of an element value is the value's text. `getattr` on a sequence element gives the default.
- Dicom.RemoveTagsRecursive: returns the filtered data set instead of deleting in place, so aliasing between nested items is not modelled. The `iterall` traversal visits nested items more than once; the model visits each sequence once, which gives the same result because filtering is idempotent (`Dicom.StripIdempotent`).
- The file system:
  - `os.walk` and `os.listdir` become a sequence of directories. `os.listdir` of a path is the walk's listing of it, and the theorems assume distinct paths.
  - `isfile`, `isdir`, `makedirs` and the writes are effects or parameters.
  - The contents of the zip and of `make_archive` are not modelled. Only the paths and the order of the calls are.
- `datetime.strptime` and `strftime`: only 8-digit YYYYMMDD dates with a calendar check are accepted, and years are printed with four digits. The leniency of `strptime` toward shorter fields is not modelled, nor the unpadded years below 1000 of the platform's `strftime`.
- Text.ParseInt: reads ASCII digits only, so it rejects strings that Python's `int()` accepts; see the next lines.
- Text.ParseIntAccepts: the model's int() reads ASCII digits only. Python's `int()` also accepts every other Unicode decimal digit (`int('７') == 7`). So a console line such as '７' ends the source's prompt loop with that number, while `Core.FirstInteger` and `Core.PromptPatientNumber` reject it and read the next line.
- Core.FirstInteger: inherits the ASCII-only digits of `Text.ParseInt`, so a line of other Unicode decimal digits is skipped where the source accepts it. White space follows `int()`'s own set.
- Core.PromptPatientNumber: proved equal to `Core.FirstInteger`, so it skips the same lines of non-ASCII digits.
- Text.IsDigits: ASCII digits only. Python's `isdigit` also accepts other Unicode digits, which `int()` can then reject. The limit on the number of digits `int()` converts is not modelled either.
- `print` diagnostics and the prompt text are not modelled. `input()` is a sequence of lines, and `EOFError` is an end-of-input error.
- main.py (argument parsing and the CLI log file) is not part of this model.
- Exceptions: an exception escaping `anonymize_dicom_folder` or `anonymize` becomes an `Err` or an `Abort` that ends the run. tkinter's handling of it is not modelled.

## Findings

| source | as written | input that shows it | evidently intended | confidence | as-written member | corrected member |
|---|---|---|---|---|---|---|
| gui.py:158-161 | the base name given to make_archive is zip_path with every ".zip" removed | output folder "a.zip" and any identifier without '/' | remove only the final ".zip", so the base name is <output>/<id> and the archive <output>/<id>.zip | medium, not executed | Gui.GuiArchiveBaseAsWritten | Gui.IntendedGuiArchivePlace |

The GUI model (`GroupWithNumber`, `AnonymizeGroup`) uses the corrected `IntendedGuiArchive`. `GuiArchiveWithoutDots` shows that the two agree whenever neither the output folder nor the identifier contains a '.'.
