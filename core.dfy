/** The de-identifier of AnonyMRI/core.py: the class AnonyMRIDeidentifier
    with its folder discovery, its per-folder anonymisation and its run over
    a whole tree. The file system, pydicom and the console are abstract:
    a directory is its path with its listing, each listed file carries the
    verdict of the DICOM signature probe and the data set a read returns,
    the console's input lines are a sequence, and the calls that write are
    returned as a list of effects. */
module Core {
  import opened Text
  import Paths
  import opened Dicom

  /** One listed file: its name, whether is_dicom accepts it, and the data
      set dcmread returns for it. */
  datatype File = File(name: string, isDicom: bool, ds: Dataset)

  /** One directory of a walk: its path and the files listed in it, in
      listing order. */
  datatype Dir = Dir(path: string, files: seq<File>)

  /** The exceptions that end a call: the ValueError for a missing patient
      number, the EOFError of input() once the console has no more lines,
      and the ValueError of datetime.strptime for a study date it rejects. */
  datatype Error = MissingPatientNumber | EndOfInput | InvalidDate(text: string)

  datatype Result<+T> = Ok(value: T) | Err(error: Error)

  /** The calls that change the file system. */
  datatype Effect =
    | MakeDirs(path: string)                                // the directory and its parents, if missing
    | WriteDataset(path: string, ds: Dataset)               // a data set saved as a DICOM file
    | ZipTree(zipPath: string, root: string, prefix: string) // zip of the files under root, named prefix/<relative path>
    | MakeArchive(baseName: string, rootDir: string)        // <baseName>.zip holding the tree under rootDir
    | WriteText(path: string, text: string)                 // a text file written in full

  /** The DICOM files of a listing, in listing order. */
  function DicomFiles(files: seq<File>): (r: seq<File>)
    ensures |r| <= |files|
    ensures forall i :: 0 <= i < |r| ==> r[i].isDicom
  {
    if files == [] then []
    else
      var last := files[|files| - 1];
      DicomFiles(files[..|files| - 1]) + (if last.isDicom then [last] else [])
  }

  /** The filter keeps exactly the files the signature probe accepts. */
  lemma {:induction false} DicomFilesMembers(files: seq<File>, f: File)
    ensures f in DicomFiles(files) <==> f in files && f.isDicom
    decreases |files|
  {
    if files != [] {
      var init := files[..|files| - 1];
      DicomFilesMembers(init, f);
      assert files == init + [files[|files| - 1]];
    }
  }

  /** The filter works file by file: a listing's DICOM files are those of
      its first part followed by those of its second part. */
  lemma {:induction false} DicomFilesAppend(a: seq<File>, b: seq<File>)
    ensures DicomFiles(a + b) == DicomFiles(a) + DicomFiles(b)
    decreases |b|
  {
    if b == [] {
      assert a + b == a;
    } else {
      assert (a + b)[..|a + b| - 1] == a + b[..|b| - 1];
      DicomFilesAppend(a, b[..|b| - 1]);
    }
  }

  // ---------------------------------------------------------------------
  // Dates

  const DefaultStudyDate := "19000101"

  predicate IsLeapYear(y: nat) {
    y % 4 == 0 && (y % 100 != 0 || y % 400 == 0)
  }

  function DaysInMonth(m: nat, y: nat): nat {
    if m == 2 then (if IsLeapYear(y) then 29 else 28)
    else if m == 4 || m == 6 || m == 9 || m == 11 then 30
    else 31
  }

  /** An eight-digit YYYYMMDD date of the Gregorian calendar, as
      datetime.strptime(s, "%Y%m%d") accepts it. */
  predicate ValidDate(s: string) {
    && |s| == 8 && AllDigits(s)
    && var y, m, d := DecimalValue(s[..4]), DecimalValue(s[4..6]), DecimalValue(s[6..]);
       1 <= y && 1 <= m <= 12 && 1 <= d <= DaysInMonth(m, y)
  }

  /** The log date (core.py:85): the study date read as YYYYMMDD and
      written as DD.MM.YYYY; a date that does not parse is an error. */
  function FormatDate(s: string): (r: Result<string>)
    ensures r.Ok? <==> ValidDate(s)
    ensures r.Err? ==> r.error == InvalidDate(s)
    ensures r.Ok? ==> |r.value| == 10 && r.value[2] == '.' && r.value[5] == '.'
  {
    if ValidDate(s) then Ok(s[6..] + "." + s[4..6] + "." + s[..4]) else Err(InvalidDate(s))
  }

  /** A DD.MM.YYYY log date read back as YYYYMMDD. */
  function StudyDateOfLogDate(d: string): string
    requires |d| == 10
  {
    d[6..] + d[3..5] + d[..2]
  }

  /** The log date is the study date rearranged, with nothing lost. */
  lemma FormatDateRoundTrip(s: string)
    requires ValidDate(s)
    ensures StudyDateOfLogDate(FormatDate(s).value) == s
  {
    var d := FormatDate(s).value;
    assert d[6..] == s[..4] && d[3..5] == s[4..6] && d[..2] == s[6..];
    assert s == s[..4] + s[4..6] + s[6..];
  }

  // ---------------------------------------------------------------------
  // The patient number and the pseudonymous identifier

  /** Where patient-number resolution ends: the number or the error, and
      how many console lines it read. */
  datatype Resolution = Resolution(number: Result<int>, consumed: nat)

  /** The retry loop of core.py:69-75 over the given console lines: the
      first line int() accepts, after reading it and every rejected line
      before it; input() raises EOFError once the lines run out. */
  function FirstInteger(inputs: seq<string>): (r: Resolution)
    ensures r.consumed <= |inputs|
    ensures r.number.Ok? ==> 0 < r.consumed && ParseInt(inputs[r.consumed - 1]) == Some(r.number.value)
    ensures r.number.Err? ==> r.number.error == EndOfInput && r.consumed == |inputs|
  {
    if inputs == [] then Resolution(Err(EndOfInput), 0)
    else
      match ParseInt(inputs[0])
      case Some(n) => Resolution(Ok(n), 1)
      case None =>
        var r := FirstInteger(inputs[1..]);
        Resolution(r.number, r.consumed + 1)
  }

  /** Every line read before the accepted one was rejected by int(); when
      the console runs out, every line was rejected. */
  lemma {:induction false} FirstIntegerSkipsRejected(inputs: seq<string>, j: nat)
    requires j < |inputs|
    requires j < FirstInteger(inputs).consumed - 1 || FirstInteger(inputs).number.Err?
    ensures ParseInt(inputs[j]).None?
    decreases |inputs|
  {
    if ParseInt(inputs[0]).None? && j > 0 {
      assert inputs[1..][j - 1] == inputs[j];
      FirstIntegerSkipsRejected(inputs[1..], j - 1);
    }
  }

  /** A line that str.strip would clean but int() rejects, such as U+001C
      before a digit, is skipped: the prompt reads on to the next line. */
  lemma PromptSkipsSeparatorLine()
    ensures FirstInteger(["\U{1C}7", "8"]) == Resolution(Ok(8), 2)
  {
    var lines := ["\U{1C}7", "8"];
    assert lines[1..] == ["8"];
    assert ParseInt(lines[0]) == None by { SeparatorIsNoIntSpace(); }
    assert FirstInteger(lines[1..]) == Resolution(Ok(8), 1) by { ParseIntOfDigits("8"); }
  }

  /** The prompt loop itself (core.py:69-75): read a line, try int(),
      re-prompt on ValueError. */
  method PromptPatientNumber(inputs: seq<string>) returns (number: Result<int>, consumed: nat)
    ensures Resolution(number, consumed) == FirstInteger(inputs)
  {
    number, consumed := Err(EndOfInput), 0;
    while consumed < |inputs|
      invariant consumed <= |inputs|
      invariant FirstInteger(inputs).number == FirstInteger(inputs[consumed..]).number
      invariant FirstInteger(inputs).consumed == consumed + FirstInteger(inputs[consumed..]).consumed
      decreases |inputs| - consumed
    {
      var line := inputs[consumed];
      assert inputs[consumed..][1..] == inputs[consumed + 1..];
      consumed := consumed + 1;
      var parsed := ParseInt(line);
      if parsed.Some? {
        number := Ok(parsed.value);
        return;
      }
    }
  }

  /** Patient-number resolution (core.py:66-77): the explicit number, else
      the prompt loop when interactive, else the error. */
  function ResolvePatientNumber(explicit: Option<int>, interactive: bool, inputs: seq<string>): Resolution {
    if explicit.Some? then Resolution(Ok(explicit.value), 0)
    else if interactive then FirstInteger(inputs)
    else Resolution(Err(MissingPatientNumber), 0)
  }

  /** The patient identifier (core.py:82): the number zero-padded to four
      characters, then the study date. */
  function PatientId(n: int, studyDate: string): string {
    Pad4(n) + studyDate
  }

  /** Over study dates of one length (the eight digits of every date the
      program accepts), two identifiers coincide exactly when both the
      numbers and the dates do. */
  lemma PatientIdInjective(m: int, n: int, d: string, e: string)
    requires |d| == |e|
    ensures PatientId(m, d) == PatientId(n, e) <==> m == n && d == e
  {
    if PatientId(m, d) == PatientId(n, e) {
      var id := PatientId(m, d);
      assert |Pad4(m)| == |Pad4(n)|;
      assert Pad4(m) == id[..|Pad4(m)|] == Pad4(n);
      assert d == id[|Pad4(m)|..] == e;
      Pad4Injective(m, n);
    }
  }

  /** For numbers up to 9999 and a valid date the identifier is twelve
      digits: the zero-padded number, which int() reads back, then the
      date. */
  lemma PatientIdLayout(n: int, d: string)
    requires 0 <= n < 10000 && ValidDate(d)
    ensures var id := PatientId(n, d);
      |id| == 12 && AllDigits(id) && ParseInt(id[..4]) == Some(n) && id[4..] == d
  {
    Pad4Width(n);
    Pad4RoundTrip(n);
    ZeroFillValue(NatToString(n), 4);
    var p := Pad4(n);
    assert p == ZeroFill(NatToString(n), 4);
    var id := p + d;
    assert id[..4] == p && id[4..] == d;
    assert forall k :: 0 <= k < |id| ==> IsDigit(id[k]) by {
      forall k | 0 <= k < |id| ensures IsDigit(id[k]) {
        if k < 4 { assert id[k] == p[k]; } else { assert id[k] == d[k - 4]; }
      }
    }
  }

  // ---------------------------------------------------------------------
  // One folder

  /** The settings an AnonyMRIDeidentifier is built with that
      anonymize_dicom_folder reads (core.py:38-43). */
  datatype Settings = Settings(archive: bool, delimiter: string, interactive: bool)

  /** What one call of anonymize_dicom_folder does: its outcome, the file
      system calls it makes, the log line it appends (none or one), the
      console lines it reads, and the patient_id it computed ("" if none). */
  datatype FolderRun = FolderRun(
    result: Result<string>, effects: seq<Effect>, logLine: seq<string>, consumed: nat, patientId: string)

  /** The output directory (core.py:90): a given, non-empty out_root as it
      is, otherwise <cwd>/<patient_id>/DICOM. */
  function OutDir(outRoot: Option<string>, cwd: string, id: string): string {
    if outRoot.Some? && outRoot.value != "" then outRoot.value
    else Paths.Join(Paths.Join(cwd, id), "DICOM")
  }

  /** The archive as written (core.py:100-107): zip_path and the walked
      root are both taken next to os.path.dirname(out_dir). */
  function ArchiveEffect(outDir: string, id: string): Effect {
    var parent := Paths.Dirname(outDir);
    ZipTree(Paths.Join(parent, id + ".zip"), Paths.Join(parent, id), id)
  }

  /** The writes of the per-file loop (core.py:93-97), in listing order. */
  function WriteEffects(files: seq<File>, outDir: string, id: string): (r: seq<Effect>)
    ensures |r| == |files|
    ensures forall i :: 0 <= i < |r| ==> r[i].WriteDataset?
  {
    if files == [] then []
    else
      var last := files[|files| - 1];
      WriteEffects(files[..|files| - 1], outDir, id)
        + [WriteDataset(Paths.Join(outDir, last.name), Sanitized(last.ds, id))]
  }

  lemma {:induction false} WriteEffectsAt(files: seq<File>, outDir: string, id: string, i: nat)
    requires i < |files|
    ensures WriteEffects(files, outDir, id)[i]
         == WriteDataset(Paths.Join(outDir, files[i].name), Sanitized(files[i].ds, id))
    decreases |files|
  {
    if i < |files| - 1 {
      WriteEffectsAt(files[..|files| - 1], outDir, id, i);
    }
  }

  /** The per-file loop (core.py:93-97): each DICOM file filtered, given
      patient_id and saved under its own name in out_dir. */
  method SaveAll(dicom: seq<File>, outDir: string, id: string) returns (writes: seq<Effect>)
    ensures writes == WriteEffects(dicom, outDir, id)
  {
    writes := [];
    for i := 0 to |dicom|
      invariant writes == WriteEffects(dicom[..i], outDir, id)
    {
      var ds := RemoveTagsRecursive(dicom[i].ds, TagsToRemove);
      ds := SetPatientId(ds, id);
      assert dicom[..i + 1][..i] == dicom[..i];
      writes := writes + [WriteDataset(Paths.Join(outDir, dicom[i].name), ds)];
    }
    assert dicom[..|dicom|] == dicom;
  }

  /** The six log fields (core.py:111-118). */
  function LogFields(n: int, id: string, date: string, sample: Dataset): seq<string> {
    [ IntToString(n), id, date,
      Attr(sample, MagneticFieldStrengthTag, "NA"),
      Attr(sample, ManufacturerTag, "NA"),
      Attr(sample, ManufacturerModelNameTag, "NA") ]
  }

  function LogLine(delimiter: string, n: int, id: string, date: string, sample: Dataset): string {
    Text.Join(delimiter, LogFields(n, id, date, sample))
  }

  /** With a one-character delimiter that no field contains, a log line
      splits back into its six fields; the first reads back as the patient
      number and the third as the study date. */
  lemma LogLineFields(d: char, n: int, id: string, date: string, sample: Dataset)
    requires ValidDate(date)
    requires forall f :: f in LogFields(n, id, FormatDate(date).value, sample) ==> d !in f
    ensures var fields := Split(LogLine([d], n, id, FormatDate(date).value, sample), d);
      && |fields| == 6 && ParseInt(fields[0]) == Some(n) && fields[1] == id
      && |fields[2]| == 10 && StudyDateOfLogDate(fields[2]) == date
  {
    var fields := LogFields(n, id, FormatDate(date).value, sample);
    SplitJoin(d, fields);
    IntToStringRoundTrip(n);
    FormatDateRoundTrip(date);
  }

  /** The calls of a successful call (core.py:88-118), once patient_id and
      the formatted study date are known: makedirs, one write per DICOM
      file, the archive as written when asked for and without override;
      and the log line, only without override. */
  function FolderOutput(s: Settings, dicom: seq<File>, outRoot: Option<string>, cwd: string, n: int,
                        id: string, date: string, idOverride: Option<string>, consumed: nat): (r: FolderRun)
    requires dicom != []
    ensures r.result == Ok("") && r.consumed == consumed && r.patientId == id
    ensures |r.effects| == |dicom| + (if s.archive && idOverride.None? then 2 else 1)
    ensures |r.logLine| == if idOverride.None? then 1 else 0
  {
    var outDir := OutDir(outRoot, cwd, id);
    var archive := if s.archive && idOverride.None? then [ArchiveEffect(outDir, id)] else [];
    var line := if idOverride.None? then [LogLine(s.delimiter, n, id, date, dicom[0].ds)] else [];
    FolderRun(Ok(""), [MakeDirs(outDir)] + WriteEffects(dicom, outDir, id) + archive, line, consumed, id)
  }

  /** The study date of the first DICOM file, "19000101" when it has none
      (core.py:80). */
  function SampleStudyDate(dicom: seq<File>): string
    requires dicom != []
  {
    Attr(dicom[0].ds, StudyDateTag, DefaultStudyDate)
  }

  /** patient_id: the override when given, else built from n and the
      sample's study date (core.py:80-82). */
  function FolderId(n: int, dicom: seq<File>, idOverride: Option<string>): string
    requires dicom != []
  {
    if idOverride.Some? then idOverride.value else PatientId(n, SampleStudyDate(dicom))
  }

  /** The call once the patient number n is known (core.py:79-118): the
      identifier, then the date check, which fails before anything is
      written. */
  function FolderWithNumber(s: Settings, dicom: seq<File>, outRoot: Option<string>, cwd: string, n: int,
                            idOverride: Option<string>, consumed: nat): (r: FolderRun)
    requires dicom != []
    ensures r.consumed == consumed
    ensures r.result.Err? <==> !ValidDate(SampleStudyDate(dicom))
    ensures r.result.Err? ==> r.result == Err(InvalidDate(SampleStudyDate(dicom))) && r.effects == [] && r.logLine == []
  {
    var date := FormatDate(SampleStudyDate(dicom));
    if date.Err? then FolderRun(Err(date.error), [], [], consumed, "")
    else FolderOutput(s, dicom, outRoot, cwd, n, FolderId(n, dicom, idOverride), date.value, idOverride, consumed)
  }

  /** The whole of anonymize_dicom_folder (core.py:55-120). */
  function FolderSpec(s: Settings, folder: Dir, outRoot: Option<string>, cwd: string,
                      number: Option<int>, idOverride: Option<string>, inputs: seq<string>): (r: FolderRun)
    ensures r.consumed <= |inputs|
    // a folder without DICOM files: no prompt, no error, no write, no log line
    ensures DicomFiles(folder.files) == [] ==> r == FolderRun(Ok(""), [], [], 0, "")
    // every failure happens before makedirs and before any write
    ensures r.result.Err? ==> r.effects == [] && r.logLine == []
    // a log line exactly for a successful call without override
    ensures |r.logLine| == if r.result.Ok? && DicomFiles(folder.files) != [] && idOverride.None? then 1 else 0
  {
    var dicom := DicomFiles(folder.files);
    if dicom == [] then FolderRun(Ok(""), [], [], 0, "")
    else
      var resolved := ResolvePatientNumber(number, s.interactive, inputs);
      if resolved.number.Err? then FolderRun(Err(resolved.number.error), [], [], resolved.consumed, "")
      else FolderWithNumber(s, dicom, outRoot, cwd, resolved.number.value, idOverride, resolved.consumed)
  }

  /** The patient number: an explicit one is used without reading the
      console, and only the date check can then fail; without one, a
      non-interactive call fails before reading anything; an interactive
      one reads the console up to the first integer. */
  lemma FolderNumber(s: Settings, folder: Dir, outRoot: Option<string>, cwd: string,
                     number: Option<int>, idOverride: Option<string>, inputs: seq<string>)
    requires DicomFiles(folder.files) != []
    ensures var r := FolderSpec(s, folder, outRoot, cwd, number, idOverride, inputs);
      && (number.Some? ==> r.consumed == 0 && (r.result.Err? <==> !ValidDate(SampleStudyDate(DicomFiles(folder.files)))))
      && (number.None? && !s.interactive ==> r.result == Err(MissingPatientNumber) && r.consumed == 0)
      && (number.None? && s.interactive ==>
            r.consumed == FirstInteger(inputs).consumed
            && (FirstInteger(inputs).number.Err? ==> r.result == Err(EndOfInput)))
  {
  }

  /** A successful call on a folder with DICOM files is the output of the
      number it resolved and the identifier derived from it. */
  lemma FolderSpecOk(s: Settings, folder: Dir, outRoot: Option<string>, cwd: string,
                     number: Option<int>, idOverride: Option<string>, inputs: seq<string>)
    requires FolderSpec(s, folder, outRoot, cwd, number, idOverride, inputs).result.Ok?
    requires DicomFiles(folder.files) != []
    ensures var dicom := DicomFiles(folder.files);
      var resolved := ResolvePatientNumber(number, s.interactive, inputs);
      && resolved.number.Ok? && ValidDate(SampleStudyDate(dicom))
      && FolderSpec(s, folder, outRoot, cwd, number, idOverride, inputs)
         == FolderOutput(s, dicom, outRoot, cwd, resolved.number.value,
                         FolderId(resolved.number.value, dicom, idOverride),
                         FormatDate(SampleStudyDate(dicom)).value, idOverride, resolved.consumed)
  {
  }

  /** The writes of a successful call, file by file. */
  lemma {:induction false} OutputWrites(s: Settings, dicom: seq<File>, outRoot: Option<string>, cwd: string, n: int,
                                        id: string, date: string, idOverride: Option<string>, consumed: nat, i: nat)
    requires i < |dicom|
    ensures var r := FolderOutput(s, dicom, outRoot, cwd, n, id, date, idOverride, consumed);
      && r.effects[0] == MakeDirs(OutDir(outRoot, cwd, id))
      && r.effects[i + 1] == WriteDataset(Paths.Join(OutDir(outRoot, cwd, id), dicom[i].name), Sanitized(dicom[i].ds, id))
  {
    var outDir := OutDir(outRoot, cwd, id);
    var r := FolderOutput(s, dicom, outRoot, cwd, n, id, date, idOverride, consumed);
    WriteEffectsAt(dicom, outDir, id, i);
    assert r.effects[i + 1] == WriteEffects(dicom, outDir, id)[i];
  }

  /** Every DICOM file of the folder is written once, in listing order, into
      out_dir under its own name, with Patient ID set to patient_id and none
      of the other identifying tags; makedirs comes first. */
  lemma FolderWrites(s: Settings, folder: Dir, outRoot: Option<string>, cwd: string,
                     number: Option<int>, idOverride: Option<string>, inputs: seq<string>, i: nat)
    requires var r := FolderSpec(s, folder, outRoot, cwd, number, idOverride, inputs);
      r.result.Ok? && i < |DicomFiles(folder.files)|
    requires '/' !in DicomFiles(folder.files)[i].name
    ensures var r := FolderSpec(s, folder, outRoot, cwd, number, idOverride, inputs);
      var f := DicomFiles(folder.files)[i];
      && r.effects[0] == MakeDirs(OutDir(outRoot, cwd, r.patientId))
      && r.effects[i + 1].WriteDataset?
      && r.effects[i + 1].path == Paths.Join(OutDir(outRoot, cwd, r.patientId), f.name)
      && Paths.Basename(r.effects[i + 1].path) == f.name
      && Anonymized(r.effects[i + 1].ds, r.patientId)
  {
    var dicom := DicomFiles(folder.files);
    FolderSpecOk(s, folder, outRoot, cwd, number, idOverride, inputs);
    var resolved := ResolvePatientNumber(number, s.interactive, inputs);
    var n := resolved.number.value;
    var id := FolderId(n, dicom, idOverride);
    OutputWrites(s, dicom, outRoot, cwd, n, id, FormatDate(SampleStudyDate(dicom)).value, idOverride, resolved.consumed, i);
    Paths.BasenameJoin(OutDir(outRoot, cwd, id), dicom[i].name);
    SanitizedIsAnonymized(dicom[i].ds, id);
  }

  /** The archive of a successful call: present exactly when asked for and
      without override, and then last. */
  lemma OutputArchive(s: Settings, dicom: seq<File>, outRoot: Option<string>, cwd: string, n: int,
                      id: string, date: string, idOverride: Option<string>, consumed: nat)
    requires dicom != []
    ensures var r := FolderOutput(s, dicom, outRoot, cwd, n, id, date, idOverride, consumed);
      && (exists k :: 0 <= k < |r.effects| && r.effects[k].ZipTree?) == (s.archive && idOverride.None?)
      && (s.archive && idOverride.None? ==>
            r.effects[|r.effects| - 1] == ArchiveEffect(OutDir(outRoot, cwd, id), id))
  {
    var r := FolderOutput(s, dicom, outRoot, cwd, n, id, date, idOverride, consumed);
    var outDir := OutDir(outRoot, cwd, id);
    var writes := WriteEffects(dicom, outDir, id);
    assert forall k :: 0 <= k < |writes| ==> r.effects[k + 1] == writes[k];
    if s.archive && idOverride.None? {
      assert r.effects[|r.effects| - 1].ZipTree?;
    } else {
      assert r.effects == [MakeDirs(outDir)] + writes;
      assert forall k :: 0 <= k < |r.effects| ==> !r.effects[k].ZipTree? by {
        forall k | 0 <= k < |r.effects| ensures !r.effects[k].ZipTree? {
          if k > 0 { assert r.effects[k] == writes[k - 1]; }
        }
      }
    }
  }

  /** Without override, a successful call derives patient_id from the
      resolved number and the study date of the folder's first DICOM file
      (default 19000101), appends the line of the six fields, and archives
      exactly when asked to. */
  lemma FolderIdentity(s: Settings, folder: Dir, outRoot: Option<string>, cwd: string,
                       number: Option<int>, inputs: seq<string>)
    requires var r := FolderSpec(s, folder, outRoot, cwd, number, None, inputs);
      r.result.Ok? && DicomFiles(folder.files) != []
    ensures var r := FolderSpec(s, folder, outRoot, cwd, number, None, inputs);
      var sample := DicomFiles(folder.files)[0].ds;
      var studyDate := Attr(sample, StudyDateTag, DefaultStudyDate);
      var resolved := ResolvePatientNumber(number, s.interactive, inputs);
      && resolved.number.Ok?
      && ValidDate(studyDate)
      && r.patientId == PatientId(resolved.number.value, studyDate)
      && r.logLine == [LogLine(s.delimiter, resolved.number.value, r.patientId, FormatDate(studyDate).value, sample)]
      && (number.Some? ==> resolved.number.value == number.value)
      && (number.None? ==> resolved == FirstInteger(inputs))
      && (exists k :: 0 <= k < |r.effects| && r.effects[k].ZipTree?) == s.archive
  {
    var dicom := DicomFiles(folder.files);
    FolderSpecOk(s, folder, outRoot, cwd, number, None, inputs);
    var resolved := ResolvePatientNumber(number, s.interactive, inputs);
    var n := resolved.number.value;
    OutputArchive(s, dicom, outRoot, cwd, n, FolderId(n, dicom, None),
                  FormatDate(SampleStudyDate(dicom)).value, None, resolved.consumed);
  }

  // ---------------------------------------------------------------------
  // The archive as written versus as intended

  /** A patient_id built from a valid date is a single path component
      that starts with a digit or a minus sign. */
  lemma PatientIdIsComponent(n: int, date: string)
    requires ValidDate(date)
    ensures var id := PatientId(n, date);
      id != [] && '/' !in id && id[0] != 'D'
  {
    var id := PatientId(n, date);
    assert forall k :: 0 <= k < |date| ==> IsDigit(date[k]);
    assert id[0] == Pad4(n)[0];
  }

  /** The default layout for any identifier id that is one path component:
      files go to <cwd>/<id>/DICOM, the archive as written walks
      <cwd>/<id>/<id>, which holds none of them unless id starts with 'D'. */
  lemma {:induction false} DefaultLayout(cwd: string, id: string, name: string)
    requires id != [] && '/' !in id && name != [] && '/' !in name
    ensures var home := Paths.Join(cwd, id);
      var outDir := OutDir(None, cwd, id);
      && home != [] && home[|home| - 1] != '/'
      && outDir == home + "/DICOM"
      && Paths.Dirname(outDir) == home
      && Paths.Join(outDir, name) == home + "/DICOM/" + name
      && Paths.Join(home, id) == home + "/" + id
  {
    var home := Paths.Join(cwd, id);
    Paths.JoinEndsInPart(cwd, id);
    Paths.DirnameJoin(home, "DICOM");
  }

  /** As written, with the default output location the archive walks
      <cwd>/<id>/<id>, a directory the call never writes to: no written
      file is inside it, so the zip holds none of them. */
  lemma ArchiveMissesWrittenFiles(cwd: string, n: int, date: string, name: string)
    requires ValidDate(date) && name != [] && '/' !in name
    ensures var id := PatientId(n, date);
      var outDir := OutDir(None, cwd, id);
      var z := ArchiveEffect(outDir, id);
      && z.root == Paths.Join(Paths.Join(cwd, id), id)
      && !Paths.IsUnder(Paths.Join(outDir, name), z.root)
  {
    var id := PatientId(n, date);
    PatientIdIsComponent(n, date);
    DefaultLayout(cwd, id, name);
    var home := Paths.Join(cwd, id);
    var root := home + "/" + id;
    var written := home + "/DICOM/" + name;
    assert written[|home| + 1] == 'D';
    assert root[|home| + 1] == id[0];
    if |root| < |written| {
      assert written[..|root|][|home| + 1] == 'D';
    }
  }

  /** The archive the code evidently means: the folder that holds
      <id>/DICOM, zipped to <id>.zip beside it. */
  function IntendedArchiveEffect(outDir: string, id: string): Effect {
    var home := Paths.Dirname(outDir);
    ZipTree(home + ".zip", home, id)
  }

  /** The intended archive for any identifier that is one path component. */
  lemma {:induction false} IntendedLayout(cwd: string, id: string, name: string)
    requires id != [] && '/' !in id && name != [] && '/' !in name
    ensures var outDir := OutDir(None, cwd, id);
      var z := IntendedArchiveEffect(outDir, id);
      && z.root == Paths.Join(cwd, id)
      && z.zipPath == Paths.Join(cwd, id + ".zip")
      && Paths.IsUnder(Paths.Join(outDir, name), z.root)
  {
    DefaultLayout(cwd, id, name);
    var home := Paths.Join(cwd, id);
    var written := home + "/DICOM/" + name;
    assert written[..|home|] == home;
    assert id[0] != '/';
    Paths.JoinAppend(cwd, id, ".zip");
  }

  /** With the default output location the intended archive walks the
      patient folder <cwd>/<id>, which holds every written file, and lies
      beside it as <cwd>/<id>.zip. */
  lemma IntendedArchiveCoversWrittenFiles(cwd: string, n: int, date: string, name: string)
    requires ValidDate(date) && name != [] && '/' !in name
    ensures var id := PatientId(n, date);
      var outDir := OutDir(None, cwd, id);
      var z := IntendedArchiveEffect(outDir, id);
      && z.root == Paths.Join(cwd, id)
      && z.zipPath == Paths.Join(cwd, id + ".zip")
      && Paths.IsUnder(Paths.Join(outDir, name), z.root)
  {
    PatientIdIsComponent(n, date);
    IntendedLayout(cwd, PatientId(n, date), name);
  }

  // ---------------------------------------------------------------------
  // A whole run

  /** The listing os.listdir gives for path: that of the walk's first
      directory with this path. */
  function ListDir(walk: seq<Dir>, path: string): seq<File> {
    if walk == [] then []
    else if walk[0].path == path then walk[0].files
    else ListDir(walk[1..], path)
  }

  /** The paths find_leaf_dirs_with_dicoms collects: those of the walked
      directories with at least one DICOM file, in walk order. */
  function LeafDirsWithDicoms(walk: seq<Dir>): (r: seq<string>)
    ensures |r| <= |walk|
  {
    if walk == [] then []
    else
      var last := walk[|walk| - 1];
      LeafDirsWithDicoms(walk[..|walk| - 1]) + (if DicomFiles(last.files) != [] then [last.path] else [])
  }

  /** Every walked directory that lists a DICOM file is collected. */
  lemma {:induction false} LeafDirsComplete(walk: seq<Dir>, i: int)
    requires 0 <= i < |walk| && DicomFiles(walk[i].files) != []
    ensures walk[i].path in LeafDirsWithDicoms(walk)
    decreases |walk|
  {
    var k := |walk| - 1;
    var init := walk[..k];
    var tail := if DicomFiles(walk[k].files) != [] then [walk[k].path] else [];
    assert LeafDirsWithDicoms(walk) == LeafDirsWithDicoms(init) + tail;
    if i < k {
      assert init[i] == walk[i];
      LeafDirsComplete(init, i);
    } else {
      assert walk[i].path in tail;
    }
  }

  /** Only walked directories that list a DICOM file are collected. */
  lemma {:induction false} LeafDirsSound(walk: seq<Dir>, p: string)
    requires p in LeafDirsWithDicoms(walk)
    ensures exists i :: 0 <= i < |walk| && walk[i].path == p && DicomFiles(walk[i].files) != []
    decreases |walk|
  {
    var k := |walk| - 1;
    var init := walk[..k];
    var tail := if DicomFiles(walk[k].files) != [] then [walk[k].path] else [];
    assert LeafDirsWithDicoms(walk) == LeafDirsWithDicoms(init) + tail;
    if p in tail {
      assert 0 <= k < |walk| && walk[k].path == p && DicomFiles(walk[k].files) != [];
    } else {
      assert p in LeafDirsWithDicoms(init);
      LeafDirsSound(init, p);
      var i :| 0 <= i < |init| && init[i].path == p && DicomFiles(init[i].files) != [];
      assert walk[i] == init[i];
      assert 0 <= i < |walk| && walk[i].path == p && DicomFiles(walk[i].files) != [];
    }
  }

  /** A path is collected exactly when some walked directory with that path
      lists a DICOM file. */
  lemma LeafDirsMembers(walk: seq<Dir>, p: string)
    ensures p in LeafDirsWithDicoms(walk)
        <==> exists i :: 0 <= i < |walk| && walk[i].path == p && DicomFiles(walk[i].files) != []
  {
    if p in LeafDirsWithDicoms(walk) {
      LeafDirsSound(walk, p);
    }
    if exists i :: 0 <= i < |walk| && walk[i].path == p && DicomFiles(walk[i].files) != [] {
      var i :| 0 <= i < |walk| && walk[i].path == p && DicomFiles(walk[i].files) != [];
      LeafDirsComplete(walk, i);
    }
  }

  lemma {:induction false} LeafDirsAppend(a: seq<Dir>, b: seq<Dir>)
    ensures LeafDirsWithDicoms(a + b) == LeafDirsWithDicoms(a) + LeafDirsWithDicoms(b)
    decreases |b|
  {
    if b == [] {
      assert a + b == a;
    } else {
      assert (a + b)[..|a + b| - 1] == a + b[..|b| - 1];
      LeafDirsAppend(a, b[..|b| - 1]);
    }
  }

  /** The state of a run after some folders: the error that ended it, if
      any, the effects so far, the log lines and the console lines read. */
  datatype RunState = RunState(failure: Option<Error>, effects: seq<Effect>, log: seq<string>, consumed: nat)

  /** The loop of run (core.py:125-126) over the given folders, each
      anonymised with the given explicit number, no override, starting with
      the log lines log; the first error ends it. */
  function RunSpec(s: Settings, walk: seq<Dir>, folders: seq<string>, outRoot: Option<string>, cwd: string,
                   number: Option<int>, log: seq<string>, inputs: seq<string>): (st: RunState)
    ensures st.consumed <= |inputs|
    decreases |folders|
  {
    if folders == [] then RunState(None, [], log, 0)
    else
      var prev := RunSpec(s, walk, folders[..|folders| - 1], outRoot, cwd, number, log, inputs);
      if prev.failure.Some? then prev
      else
        var p := folders[|folders| - 1];
        var o := FolderSpec(s, Dir(p, ListDir(walk, p)), outRoot, cwd, number, None, inputs[prev.consumed..]);
        RunState(if o.result.Err? then Some(o.result.error) else None,
                 prev.effects + o.effects, prev.log + o.logLine, prev.consumed + o.consumed)
  }

  /** One more folder: the run state after it, in terms of the state before
      it and the folder's own call. */
  lemma RunSpecStep(s: Settings, walk: seq<Dir>, folders: seq<string>, i: nat, outRoot: Option<string>,
                    cwd: string, number: Option<int>, log: seq<string>, inputs: seq<string>)
    requires i < |folders|
    requires RunSpec(s, walk, folders[..i], outRoot, cwd, number, log, inputs).failure.None?
    ensures var st := RunSpec(s, walk, folders[..i], outRoot, cwd, number, log, inputs);
      var o := FolderSpec(s, Dir(folders[i], ListDir(walk, folders[i])), outRoot, cwd, number, None, inputs[st.consumed..]);
      RunSpec(s, walk, folders[..i + 1], outRoot, cwd, number, log, inputs)
        == RunState(if o.result.Err? then Some(o.result.error) else None,
                    st.effects + o.effects, st.log + o.logLine, st.consumed + o.consumed)
  {
    assert folders[..i + 1][..i] == folders[..i];
  }

  /** Once a run has failed, later folders change nothing. */
  lemma {:induction false} RunSpecStops(s: Settings, walk: seq<Dir>, folders: seq<string>, outRoot: Option<string>,
                                        cwd: string, number: Option<int>, log: seq<string>, inputs: seq<string>, k: nat)
    requires k <= |folders|
    requires RunSpec(s, walk, folders[..k], outRoot, cwd, number, log, inputs).failure.Some?
    ensures RunSpec(s, walk, folders, outRoot, cwd, number, log, inputs)
         == RunSpec(s, walk, folders[..k], outRoot, cwd, number, log, inputs)
    decreases |folders| - k
  {
    if k < |folders| {
      var next := folders[..k + 1];
      assert next[..k] == folders[..k];
      RunSpecStops(s, walk, folders, outRoot, cwd, number, log, inputs, k + 1);
    } else {
      assert folders[..k] == folders;
    }
  }

  predicate DistinctPaths(walk: seq<Dir>) {
    forall i, j :: 0 <= i < j < |walk| ==> walk[i].path != walk[j].path
  }

  lemma {:induction false} ListDirOfWalked(walk: seq<Dir>, i: nat)
    requires DistinctPaths(walk) && i < |walk|
    ensures ListDir(walk, walk[i].path) == walk[i].files
  {
    if i > 0 {
      assert walk[1..][i - 1] == walk[i];
      ListDirOfWalked(walk[1..], i - 1);
    }
  }

  /** Each collected folder is listed with at least one DICOM file. */
  lemma LeafDirsListDicoms(walk: seq<Dir>, p: string)
    requires DistinctPaths(walk) && p in LeafDirsWithDicoms(walk)
    ensures DicomFiles(ListDir(walk, p)) != []
  {
    LeafDirsMembers(walk, p);
    var i :| 0 <= i < |walk| && walk[i].path == p && DicomFiles(walk[i].files) != [];
    ListDirOfWalked(walk, i);
  }

  /** As written, run passes no number, so a non-interactive de-identifier
      stops with the missing-number error at the first folder with DICOM
      files, before writing or logging anything, whatever number it was
      built with. */
  lemma RunWithoutNumberFails(s: Settings, walk: seq<Dir>, outRoot: Option<string>, cwd: string,
                              log: seq<string>, inputs: seq<string>)
    requires !s.interactive && DistinctPaths(walk)
    requires LeafDirsWithDicoms(walk) != []
    ensures var st := RunSpec(s, walk, LeafDirsWithDicoms(walk), outRoot, cwd, None, log, inputs);
      st.failure == Some(MissingPatientNumber) && st.effects == [] && st.log == log
  {
    var folders := LeafDirsWithDicoms(walk);
    assert folders[..1][..0] == [];
    LeafDirsListDicoms(walk, folders[0]);
    assert folders[..1] == [folders[0]];
    RunSpecStops(s, walk, folders, outRoot, cwd, None, log, inputs, 1);
  }

  /** The study date of a folder's first DICOM file passes the date check. */
  predicate SampleDateValid(files: seq<File>) {
    DicomFiles(files) != [] ==> ValidDate(Attr(DicomFiles(files)[0].ds, StudyDateTag, DefaultStudyDate))
  }

  /** With an explicit number, a collected folder of a tree whose dates
      are valid is anonymised without reading the console and logged once. */
  lemma StoredNumberFolder(s: Settings, walk: seq<Dir>, p: string, outRoot: Option<string>, cwd: string,
                           n: int, inputs: seq<string>)
    requires DistinctPaths(walk) && p in LeafDirsWithDicoms(walk)
    requires forall i :: 0 <= i < |walk| ==> SampleDateValid(walk[i].files)
    ensures var o := FolderSpec(s, Dir(p, ListDir(walk, p)), outRoot, cwd, Some(n), None, inputs);
      o.result.Ok? && o.consumed == 0 && |o.logLine| == 1
  {
    LeafDirsMembers(walk, p);
    var i :| 0 <= i < |walk| && walk[i].path == p && DicomFiles(walk[i].files) != [];
    ListDirOfWalked(walk, i);
    assert SampleDateValid(walk[i].files);
    FolderNumber(s, Dir(p, ListDir(walk, p)), outRoot, cwd, Some(n), None, inputs);
  }

  /** The folder loop with a number passed to every call, as run would do
      if it handed on the stored patient_number: over a tree whose dates
      are valid it anonymises every collected folder without reading the
      console, and logs exactly one line per folder. */
  lemma {:induction false} StoredNumberRunLogsEveryFolder(s: Settings, walk: seq<Dir>, folders: seq<string>,
                                                          outRoot: Option<string>, cwd: string, n: int,
                                                          log: seq<string>, inputs: seq<string>)
    requires DistinctPaths(walk)
    requires forall p :: p in folders ==> p in LeafDirsWithDicoms(walk)
    requires forall i :: 0 <= i < |walk| ==> SampleDateValid(walk[i].files)
    ensures var st := RunSpec(s, walk, folders, outRoot, cwd, Some(n), log, inputs);
      st.failure.None? && st.consumed == 0 && |st.log| == |log| + |folders|
    decreases |folders|
  {
    if folders != [] {
      var k := |folders| - 1;
      var init := folders[..k];
      assert forall p :: p in init ==> p in folders;
      StoredNumberRunLogsEveryFolder(s, walk, init, outRoot, cwd, n, log, inputs);
      var st := RunSpec(s, walk, init, outRoot, cwd, Some(n), log, inputs);
      RunSpecStep(s, walk, folders, k, outRoot, cwd, Some(n), log, inputs);
      StoredNumberFolder(s, walk, folders[k], outRoot, cwd, n, inputs[st.consumed..]);
      assert folders[..k + 1] == folders;
    }
  }

  // ---------------------------------------------------------------------
  // The class

  /** AnonyMRIDeidentifier. The settings are never reassigned after
      construction; the log lines grow. */
  class Deidentifier {
    const patientNumber: Option<int>
    const archive: bool
    const logDelimiter: string
    const interactive: bool
    var logLines: seq<string>

    /** __init__ (core.py:38-43), with its default arguments. The default
        delimiter is the literal text "tab": the core joins log fields with
        it unchanged. */
    constructor (patientNumber: Option<int> := None, archive: bool := false, logDelimiter: string := "tab",
                 interactive: bool := true)
      ensures this.patientNumber == patientNumber && this.archive == archive
      ensures this.logDelimiter == logDelimiter && this.interactive == interactive
      ensures logLines == []
    {
      this.patientNumber := patientNumber;
      this.archive := archive;
      this.logDelimiter := logDelimiter;
      this.interactive := interactive;
      logLines := [];
    }

    /** The settings anonymize_dicom_folder reads. */
    function Config(): Settings {
      Settings(archive, logDelimiter, interactive)
    }

    /** find_leaf_dirs_with_dicoms (core.py:45-53). */
    method FindLeafDirsWithDicoms(walk: seq<Dir>) returns (dicomDirs: seq<string>)
      ensures dicomDirs == LeafDirsWithDicoms(walk)
    {
      dicomDirs := [];
      for i := 0 to |walk|
        invariant dicomDirs == LeafDirsWithDicoms(walk[..i])
      {
        assert walk[..i + 1][..i] == walk[..i];
        if DicomFiles(walk[i].files) != [] {
          dicomDirs := dicomDirs + [walk[i].path];
        }
      }
      assert walk[..|walk|] == walk;
    }

    /** anonymize_dicom_folder (core.py:55-120); the folder is its path with
        its listing, cwd stands for os.getcwd() and inputs for the console. */
    method AnonymizeDicomFolder(folder: Dir, outRoot: Option<string>, cwd: string, patientNumber: Option<int>,
                                patientIdOverride: Option<string>, inputs: seq<string>)
      returns (result: Result<string>, effects: seq<Effect>, consumed: nat)
      modifies this
      ensures var r := FolderSpec(Config(), folder, outRoot, cwd, patientNumber, patientIdOverride, inputs);
        && result == r.result && effects == r.effects && consumed == r.consumed
        && logLines == old(logLines) + r.logLine
    {
      var dicomFiles := DicomFiles(folder.files);
      if dicomFiles == [] {
        return Ok(""), [], 0;
      }
      var number: int;
      consumed := 0;
      if patientNumber.Some? {
        number := patientNumber.value;
      } else if interactive {
        var entered;
        entered, consumed := PromptPatientNumber(inputs);
        if entered.Err? {
          return Err(entered.error), [], consumed;
        }
        number := entered.value;
      } else {
        return Err(MissingPatientNumber), [], 0;
      }
      assert ResolvePatientNumber(patientNumber, interactive, inputs) == Resolution(Ok(number), consumed);
      result, effects := AnonymizeWithNumber(dicomFiles, outRoot, cwd, number, patientIdOverride, consumed);
    }

    /** The rest of anonymize_dicom_folder once the number is known
        (core.py:78-119): the identifier, the date check, the writes, the
        archive and the log line. */
    method AnonymizeWithNumber(dicomFiles: seq<File>, outRoot: Option<string>, cwd: string, number: int,
                               patientIdOverride: Option<string>, consumed: nat)
      returns (result: Result<string>, effects: seq<Effect>)
      requires dicomFiles != []
      modifies this
      ensures var r := FolderWithNumber(Config(), dicomFiles, outRoot, cwd, number, patientIdOverride, consumed);
        && result == r.result && effects == r.effects && logLines == old(logLines) + r.logLine
    {
      var sample := dicomFiles[0].ds;
      var studyDate := Attr(sample, StudyDateTag, DefaultStudyDate);
      var patientId := if patientIdOverride.Some? then patientIdOverride.value else PatientId(number, studyDate);
      var dateStr := FormatDate(studyDate);
      if dateStr.Err? {
        return Err(dateStr.error), [];
      }
      var outDir := OutDir(outRoot, cwd, patientId);
      var writes := SaveAll(dicomFiles, outDir, patientId);
      effects := [MakeDirs(outDir)] + writes;
      if archive && patientIdOverride.None? {
        effects := effects + [ArchiveEffect(outDir, patientId)];
      }
      if patientIdOverride.None? {
        logLines := logLines + [LogLine(logDelimiter, number, patientId, dateStr.value, sample)];
      }
      assert FolderWithNumber(Config(), dicomFiles, outRoot, cwd, number, patientIdOverride, consumed)
          == FolderOutput(Config(), dicomFiles, outRoot, cwd, number, patientId, dateStr.value,
                          patientIdOverride, consumed);
      result := Ok("");
    }

    /** The folder loop of run (core.py:124-128), with the patient number
        passed to every anonymize_dicom_folder call as a parameter; run
        itself passes none. */
    method RunFolders(walk: seq<Dir>, outRoot: Option<string>, cwd: string, number: Option<int>, inputs: seq<string>)
      returns (result: Result<seq<string>>, effects: seq<Effect>, consumed: nat)
      modifies this
      ensures var st := RunSpec(Config(), walk, LeafDirsWithDicoms(walk), outRoot, cwd, number, old(logLines), inputs);
        && effects == st.effects && consumed == st.consumed && logLines == st.log
        && result == if st.failure.Some? then Err(st.failure.value) else Ok(st.log)
    {
      var dicomDirs := FindLeafDirsWithDicoms(walk);
      ghost var log0 := logLines;
      effects, consumed := [], 0;
      for i := 0 to |dicomDirs|
        invariant var st := RunSpec(Config(), walk, dicomDirs[..i], outRoot, cwd, number, log0, inputs);
          st.failure.None? && effects == st.effects && consumed == st.consumed && logLines == st.log
      {
        RunSpecStep(Config(), walk, dicomDirs, i, outRoot, cwd, number, log0, inputs);
        var folder := Dir(dicomDirs[i], ListDir(walk, dicomDirs[i]));
        var res, eff, used := AnonymizeDicomFolder(folder, outRoot, cwd, number, None, inputs[consumed..]);
        effects := effects + eff;
        consumed := consumed + used;
        if res.Err? {
          RunSpecStops(Config(), walk, dicomDirs, outRoot, cwd, number, log0, inputs, i + 1);
          return Err(res.error), effects, consumed;
        }
      }
      assert dicomDirs[..|dicomDirs|] == dicomDirs;
      result := Ok(logLines);
    }

    /** run (core.py:122-128): every collected folder, with no patient
        number passed. */
    method Run(walk: seq<Dir>, outRoot: Option<string>, cwd: string, inputs: seq<string>)
      returns (result: Result<seq<string>>, effects: seq<Effect>, consumed: nat)
      modifies this
      ensures var st := RunSpec(Config(), walk, LeafDirsWithDicoms(walk), outRoot, cwd, None, old(logLines), inputs);
        && effects == st.effects && consumed == st.consumed && logLines == st.log
        && result == if st.failure.Some? then Err(st.failure.value) else Ok(st.log)
    {
      result, effects, consumed := RunFolders(walk, outRoot, cwd, None, inputs);
    }
  }
}
