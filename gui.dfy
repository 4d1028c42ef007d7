/** The logic of the AnonyMRI window in gui.py without its widgets: the
    discovery of series and their grouping into studies (find_mri), and the
    anonymisation of every group through the core de-identifier with one
    pseudonymous identifier, one archive and one log line per group
    (anonymize). The walk of the input folder is a sequence of directories,
    each patient-number field is a plain string, and the calls that change
    the file system are returned as effects. */
module Gui {
  import opened Text
  import Paths
  import opened Dicom
  import opened Core

  // ---------------------------------------------------------------------
  // Discovery

  /** The key find_mri groups directories by (gui.py:111-115): the study
      instance UID, or None, then the patient's name, birth date and the
      study date, each 'UNKNOWN' when absent. */
  datatype StudyKey = StudyKey(studyUid: Option<string>, patientName: string, birthDate: string, studyDate: string)

  /** One series: a walked directory's path and the files selected in it. */
  datatype Series = Series(path: string, files: seq<File>)

  /** MRIGroup: a key and its series, in walk order; the info strings and
      the entry widget are not part of the model. */
  datatype MriGroup = MriGroup(key: StudyKey, series: seq<Series>)

  const Unknown := "UNKNOWN"

  /** The files find_mri selects in a directory (gui.py:101-108): with the
      fast check only the first listed file, and only when it is DICOM;
      without it every DICOM file in listing order. */
  function SelectedFiles(fastCheck: bool, files: seq<File>): (r: seq<File>)
    ensures |r| <= |files|
    ensures forall i :: 0 <= i < |r| ==> r[i].isDicom
  {
    if !fastCheck then DicomFiles(files)
    else if files != [] && files[0].isDicom then [files[0]]
    else []
  }

  function StudyKeyOf(ds: Dataset): StudyKey {
    StudyKey(OptionalAttr(ds, StudyInstanceUidTag), Attr(ds, PatientNameTag, Unknown),
             Attr(ds, PatientBirthDateTag, Unknown), Attr(ds, StudyDateTag, Unknown))
  }

  /** The fast check keeps a directory exactly when its first listed file
      is DICOM, and then keeps that file alone; whatever it keeps, the full
      check keeps too, with the same first file. */
  lemma FastCheckSelection(files: seq<File>)
    ensures SelectedFiles(true, files) != [] <==> files != [] && files[0].isDicom
    ensures SelectedFiles(true, files) != [] ==>
      && SelectedFiles(true, files) == [files[0]]
      && SelectedFiles(false, files) != []
      && SelectedFiles(false, files)[0] == files[0]
  {
    if files != [] && files[0].isDicom {
      DicomFilesAppend([files[0]], files[1..]);
      assert [files[0]] + files[1..] == files;
      assert [files[0]][..0] == [];
    }
  }

  /** In either mode the first selected file, the one find_mri and
      anonymize read, is the first DICOM file of the listing, the one the
      core reads. */
  lemma SelectedSample(fastCheck: bool, files: seq<File>)
    requires SelectedFiles(fastCheck, files) != []
    ensures DicomFiles(files) != [] && SelectedFiles(fastCheck, files)[0] == DicomFiles(files)[0]
  {
    if fastCheck {
      FastCheckSelection(files);
    }
  }

  /** The position of the group with this key, -1 when there is none. */
  function KeyIndex(groups: seq<MriGroup>, key: StudyKey): (i: int)
    ensures -1 <= i < |groups|
    ensures i >= 0 ==> groups[i].key == key
    ensures i < 0 ==> forall j :: 0 <= j < |groups| ==> groups[j].key != key
  {
    if groups == [] then -1
    else if groups[0].key == key then 0
    else
      var j := KeyIndex(groups[1..], key);
      if j < 0 then -1 else j + 1
  }

  /** groups[key].append(series) on the defaultdict (gui.py:116): the
      series joins its key's group, or starts a new group at the end. */
  function AddSeries(groups: seq<MriGroup>, key: StudyKey, s: Series): seq<MriGroup> {
    var i := KeyIndex(groups, key);
    if i < 0 then groups + [MriGroup(key, [s])]
    else groups[i := MriGroup(key, groups[i].series + [s])]
  }

  /** The groups of find_mri (gui.py:99-116) over the walk, in first-seen
      order. */
  function Grouped(fastCheck: bool, walk: seq<Dir>): seq<MriGroup>
    decreases |walk|
  {
    if walk == [] then []
    else
      var prev := Grouped(fastCheck, walk[..|walk| - 1]);
      var d := walk[|walk| - 1];
      var selected := SelectedFiles(fastCheck, d.files);
      if selected == [] then prev
      else AddSeries(prev, StudyKeyOf(selected[0].ds), Series(d.path, selected))
  }

  /** Reference: the series of the walk whose first selected file has
      this key, in walk order. */
  function SeriesWithKey(fastCheck: bool, walk: seq<Dir>, key: StudyKey): seq<Series>
    decreases |walk|
  {
    if walk == [] then []
    else
      var d := walk[|walk| - 1];
      var selected := SelectedFiles(fastCheck, d.files);
      SeriesWithKey(fastCheck, walk[..|walk| - 1], key)
        + (if selected != [] && StudyKeyOf(selected[0].ds) == key then [Series(d.path, selected)] else [])
  }

  predicate DistinctKeys(groups: seq<MriGroup>) {
    forall i, j :: 0 <= i < j < |groups| ==> groups[i].key != groups[j].key
  }

  /** Every group has a first series with a first file to read. */
  predicate HasSample(g: MriGroup) {
    g.series != [] && g.series[0].files != []
  }

  predicate WellFormed(groups: seq<MriGroup>) {
    forall i :: 0 <= i < |groups| ==> HasSample(groups[i])
  }

  /** Adding a series keeps every existing group's key in its place. */
  lemma AddSeriesKeys(groups: seq<MriGroup>, key: StudyKey, s: Series)
    ensures var r := AddSeries(groups, key, s);
      |groups| <= |r| && forall j :: 0 <= j < |groups| ==> r[j].key == groups[j].key
  {
  }

  /** Adding a series keeps the keys distinct, keeps every existing group
      in its place and gives the series to its key's group alone. */
  lemma AddSeriesGroups(groups: seq<MriGroup>, key: StudyKey, s: Series)
    requires DistinctKeys(groups)
    ensures var r := AddSeries(groups, key, s);
      && DistinctKeys(r)
      && |r| == |groups| + (if KeyIndex(groups, key) < 0 then 1 else 0)
      && (forall j :: 0 <= j < |groups| ==> r[j].key == groups[j].key)
      && (forall j :: 0 <= j < |groups| && groups[j].key != key ==> r[j] == groups[j])
      && (forall j :: 0 <= j < |groups| && groups[j].key == key ==> r[j].series == groups[j].series + [s])
      && (KeyIndex(groups, key) < 0 ==> r[|groups|] == MriGroup(key, [s]))
  {
  }

  /** Each group holds exactly the series of its key, and a key with no
      group has no series. */
  ghost predicate GroupsMatch(groups: seq<MriGroup>, fastCheck: bool, walk: seq<Dir>) {
    && (forall i :: 0 <= i < |groups| ==> groups[i].series == SeriesWithKey(fastCheck, walk, groups[i].key))
    && (forall key :: KeyIndex(groups, key) < 0 ==> SeriesWithKey(fastCheck, walk, key) == [])
  }

  /** Adding the series s under key to groups that match a walk gives
      groups that match the walk extended by a directory whose only series
      is s. */
  lemma AddSeriesMatch(fastCheck: bool, walk: seq<Dir>, prev: seq<MriGroup>, key: StudyKey, s: Series)
    requires walk != []
    requires DistinctKeys(prev) && GroupsMatch(prev, fastCheck, walk[..|walk| - 1])
    requires forall k :: SeriesWithKey(fastCheck, walk, k)
                         == SeriesWithKey(fastCheck, walk[..|walk| - 1], k) + (if k == key then [s] else [])
    ensures GroupsMatch(AddSeries(prev, key, s), fastCheck, walk)
  {
    AddSeriesGroups(prev, key, s);
    var groups := AddSeries(prev, key, s);
    forall i | 0 <= i < |groups|
      ensures groups[i].series == SeriesWithKey(fastCheck, walk, groups[i].key)
    {
      if i == |prev| {
        assert KeyIndex(prev, key) < 0;
      }
    }
    var m := if KeyIndex(prev, key) >= 0 then KeyIndex(prev, key) else |prev|;
    assert groups[m].key == key;
    forall k | KeyIndex(groups, k) < 0
      ensures SeriesWithKey(fastCheck, walk, k) == []
    {
      assert forall j :: 0 <= j < |prev| ==> prev[j].key != k by {
        forall j | 0 <= j < |prev| ensures prev[j].key != k {
          assert groups[j].key == prev[j].key;
        }
      }
    }
  }

  /** One more directory, which has a selected file: the groups of the
      walk so far, with its series added, match the longer walk. */
  lemma GroupsMatchStep(fastCheck: bool, walk: seq<Dir>)
    requires walk != []
    requires var init := walk[..|walk| - 1];
      DistinctKeys(Grouped(fastCheck, init)) && GroupsMatch(Grouped(fastCheck, init), fastCheck, init)
    requires SelectedFiles(fastCheck, walk[|walk| - 1].files) != []
    ensures GroupsMatch(Grouped(fastCheck, walk), fastCheck, walk)
  {
    var init := walk[..|walk| - 1];
    var selected := SelectedFiles(fastCheck, walk[|walk| - 1].files);
    var key := StudyKeyOf(selected[0].ds);
    var s := Series(walk[|walk| - 1].path, selected);
    forall k ensures SeriesWithKey(fastCheck, walk, k) == SeriesWithKey(fastCheck, init, k) + (if k == key then [s] else []) {
    }
    AddSeriesMatch(fastCheck, walk, Grouped(fastCheck, init), key, s);
    assert AddSeries(Grouped(fastCheck, init), key, s) == Grouped(fastCheck, walk);
  }

  /** Distinct keys never share a group, each group holds exactly the
      series of its key in walk order, and a key with no group has no
      series. */
  lemma {:induction false} GroupedBySeries(fastCheck: bool, walk: seq<Dir>)
    ensures DistinctKeys(Grouped(fastCheck, walk))
    ensures GroupsMatch(Grouped(fastCheck, walk), fastCheck, walk)
    decreases |walk|
  {
    if walk != [] {
      var init := walk[..|walk| - 1];
      var d := walk[|walk| - 1];
      var selected := SelectedFiles(fastCheck, d.files);
      GroupedBySeries(fastCheck, init);
      if selected != [] {
        AddSeriesGroups(Grouped(fastCheck, init), StudyKeyOf(selected[0].ds), Series(d.path, selected));
        GroupsMatchStep(fastCheck, walk);
      } else {
        forall k ensures SeriesWithKey(fastCheck, walk, k) == SeriesWithKey(fastCheck, init, k) {
        }
      }
    }
  }

  /** Groups keep first-seen order: the groups of a prefix of the walk
      stay, with their keys, at the front. */
  lemma {:induction false} GroupsKeepFirstSeenOrder(fastCheck: bool, walk: seq<Dir>, n: nat)
    requires n <= |walk|
    ensures var before := Grouped(fastCheck, walk[..n]);
      var after := Grouped(fastCheck, walk);
      && |before| <= |after|
      && forall j :: 0 <= j < |before| ==> after[j].key == before[j].key
    decreases |walk|
  {
    if n == |walk| {
      assert walk[..n] == walk;
    } else {
      var init := walk[..|walk| - 1];
      assert init[..n] == walk[..n];
      GroupsKeepFirstSeenOrder(fastCheck, init, n);
      var d := walk[|walk| - 1];
      var selected := SelectedFiles(fastCheck, d.files);
      if selected != [] {
        AddSeriesKeys(Grouped(fastCheck, init), StudyKeyOf(selected[0].ds), Series(d.path, selected));
      }
    }
  }

  /** Every group has a series, and every series a selected file. */
  lemma {:induction false} GroupedWellFormed(fastCheck: bool, walk: seq<Dir>)
    ensures WellFormed(Grouped(fastCheck, walk))
    decreases |walk|
  {
    if walk != [] {
      var init := walk[..|walk| - 1];
      GroupedWellFormed(fastCheck, init);
      var prev := Grouped(fastCheck, init);
      var d := walk[|walk| - 1];
      var selected := SelectedFiles(fastCheck, d.files);
      if selected != [] {
        var key := StudyKeyOf(selected[0].ds);
        var i := KeyIndex(prev, key);
        if i >= 0 {
          assert HasSample(prev[i]);
          assert (prev[i].series + [Series(d.path, selected)])[0] == prev[i].series[0];
        }
      }
    }
  }

  /** A series that comes from the walk: a walked directory's path with
      the files selected in it. */
  predicate FromWalk(fastCheck: bool, walk: seq<Dir>, s: Series) {
    exists j :: 0 <= j < |walk| && walk[j].path == s.path && s.files == SelectedFiles(fastCheck, walk[j].files)
  }

  lemma {:induction false} SeriesWithKeyFromWalk(fastCheck: bool, walk: seq<Dir>, key: StudyKey, m: nat)
    requires m < |SeriesWithKey(fastCheck, walk, key)|
    ensures FromWalk(fastCheck, walk, SeriesWithKey(fastCheck, walk, key)[m])
    decreases |walk|
  {
    var k := |walk| - 1;
    var init := walk[..k];
    var prev := SeriesWithKey(fastCheck, init, key);
    var s := SeriesWithKey(fastCheck, walk, key)[m];
    if m < |prev| {
      SeriesWithKeyFromWalk(fastCheck, init, key, m);
      var j :| 0 <= j < |init| && init[j].path == s.path && s.files == SelectedFiles(fastCheck, init[j].files);
      assert walk[j] == init[j];
    } else {
      assert walk[k].path == s.path && s.files == SelectedFiles(fastCheck, walk[k].files);
    }
  }

  /** For a walk with distinct paths, the first file of a group's first
      series, whose study date gives the group its identifier, is the
      sample the core reads when it lists that directory: so the date the
      GUI formats is the one the core checks. */
  lemma GroupSampleIsCoreSample(fastCheck: bool, walk: seq<Dir>, i: nat)
    requires DistinctPaths(walk) && i < |Grouped(fastCheck, walk)|
    ensures HasSample(Grouped(fastCheck, walk)[i])
    ensures var g := Grouped(fastCheck, walk)[i];
      var listing := ListDir(walk, g.series[0].path);
      && DicomFiles(listing) != []
      && DicomFiles(listing)[0] == g.series[0].files[0]
      && SampleStudyDate(DicomFiles(listing)) == Attr(g.series[0].files[0].ds, StudyDateTag, DefaultStudyDate)
  {
    var g := Grouped(fastCheck, walk)[i];
    GroupedWellFormed(fastCheck, walk);
    GroupedBySeries(fastCheck, walk);
    SeriesWithKeyFromWalk(fastCheck, walk, g.key, 0);
    var s := g.series[0];
    var j :| 0 <= j < |walk| && walk[j].path == s.path && s.files == SelectedFiles(fastCheck, walk[j].files);
    ListDirOfWalked(walk, j);
    SelectedSample(fastCheck, walk[j].files);
  }

  // ---------------------------------------------------------------------
  // Anonymisation of the groups

  /** The output folder (gui.py:134): the chosen one, or the working
      directory when none is chosen. */
  function OutputDir(chosen: string, cwd: string): string {
    if chosen != "" then chosen else cwd
  }

  /** The delimiter choice: 'tab' is a tab character, anything else is used
      as it is (gui.py:135). */
  function DelimiterOf(choice: string): string {
    if choice == "tab" then "\t" else choice
  }

  /** The text of a group's patient-number field; an untouched field is
      empty. */
  function FieldValue(typed: seq<string>, i: nat): string {
    if i < |typed| then typed[i] else ""
  }

  /** out_dir of a series (gui.py:151-152): <output>/<id>/DICOM/<basename>. */
  function SeriesOutDir(output: string, id: string, path: string): string {
    Paths.Join(Paths.Join(Paths.Join(output, id), "DICOM"), Paths.Basename(path))
  }

  /** The de-identifier the GUI builds (gui.py:137): no archive, the chosen
      delimiter, not interactive. */
  function GuiSettings(delimiter: string): Settings {
    Settings(false, delimiter, false)
  }

  /** The archive as written (gui.py:158-161): the base name handed to
      make_archive is zip_path with every '.zip' removed, the root is the
      patient folder. */
  function GuiArchive(output: string, id: string): Effect {
    MakeArchive(ReplaceAll(Paths.Join(output, id + ".zip"), ".zip", ""), Paths.Join(output, id))
  }

  /** Why anonymize stopped: the number field of a group is not a number
      (the error box of gui.py:140-143), or an exception escaped. */
  datatype Reason = InvalidNumber | Raised(error: Error)
  datatype Abort = Abort(group: nat, reason: Reason)

  /** The state of anonymize after some groups or series: why it stopped,
      if it did, the effects so far and the de-identifier's log lines. */
  datatype Progress = Progress(abort: Option<Abort>, effects: seq<Effect>, log: seq<string>)

  /** The core call for one series (gui.py:156): the explicit number and
      the group's identifier as override; the core's listing of the
      directory is the walk's. */
  function SeriesCall(walk: seq<Dir>, delimiter: string, output: string, cwd: string, n: int, id: string,
                      s: Series): FolderRun
  {
    FolderSpec(GuiSettings(delimiter), Dir(s.path, ListDir(walk, s.path)), Some(SeriesOutDir(output, id, s.path)),
               cwd, Some(n), Some(id), [])
  }

  /** The series loop of a group (gui.py:150-156); an error of the core
      ends it. With the override the core appends no log line. */
  function SeriesSpec(walk: seq<Dir>, delimiter: string, output: string, cwd: string, n: int, id: string,
                      series: seq<Series>, index: nat, log: seq<string>): (p: Progress)
    ensures p.log == log
    ensures p.abort.Some? ==> p.abort.value.group == index && p.abort.value.reason.Raised?
    decreases |series|
  {
    if series == [] then Progress(None, [], log)
    else
      var prev := SeriesSpec(walk, delimiter, output, cwd, n, id, series[..|series| - 1], index, log);
      if prev.abort.Some? then prev
      else
        var o := SeriesCall(walk, delimiter, output, cwd, n, id, series[|series| - 1]);
        Progress(if o.result.Err? then Some(Abort(index, Raised(o.result.error))) else None,
                 prev.effects + o.effects, prev.log + o.logLine)
  }

  /** A group once its number n is known (gui.py:146-175): the identifier
      from the first file of the first series, the series calls, the
      archive when asked for (IntendedGuiArchive, the one the code evidently
      means), the date check and the log line. */
  function GroupWithNumber(walk: seq<Dir>, delimiter: string, archive: bool, output: string, cwd: string,
                           g: MriGroup, n: int, index: nat, log: seq<string>): (p: Progress)
    requires HasSample(g)
    ensures p.abort.Some? ==> p.abort.value.group == index && p.log == log
    ensures p.abort.None? ==> |p.log| == |log| + 1
  {
    var sample := g.series[0].files[0].ds;
    var studyDate := Attr(sample, StudyDateTag, DefaultStudyDate);
    var id := PatientId(n, studyDate);
    var calls := SeriesSpec(walk, delimiter, output, cwd, n, id, g.series, index, log);
    if calls.abort.Some? then calls
    else
      var effects := calls.effects + (if archive then [IntendedGuiArchive(output, id)] else []);
      var date := FormatDate(studyDate);
      if date.Err? then Progress(Some(Abort(index, Raised(date.error))), effects, calls.log)
      else Progress(None, effects, calls.log + [LogLine(delimiter, n, id, date.value, sample)])
  }

  /** One group (gui.py:139-175): the stripped field must be all digits. */
  function GroupSpec(walk: seq<Dir>, delimiter: string, archive: bool, output: string, cwd: string,
                     g: MriGroup, field: string, index: nat, log: seq<string>): (p: Progress)
    requires HasSample(g)
    ensures p.abort.Some? ==> p.abort.value.group == index && p.log == log
    ensures p.abort.None? ==> |p.log| == |log| + 1
    ensures p.abort == Some(Abort(index, InvalidNumber)) <==> !IsDigits(Strip(field))
  {
    var value := Strip(field);
    if !IsDigits(value) then Progress(Some(Abort(index, InvalidNumber)), [], log)
    else GroupWithNumber(walk, delimiter, archive, output, cwd, g, DecimalValue(value), index, log)
  }

  /** The group loop of anonymize (gui.py:138-175), the first abort ending
      it; the de-identifier starts with no log lines. */
  function GroupsSpec(walk: seq<Dir>, delimiter: string, archive: bool, output: string, cwd: string,
                      groups: seq<MriGroup>, typed: seq<string>): (p: Progress)
    requires WellFormed(groups)
    decreases |groups|
  {
    if groups == [] then Progress(None, [], [])
    else
      var k := |groups| - 1;
      var prev := GroupsSpec(walk, delimiter, archive, output, cwd, groups[..k], typed);
      if prev.abort.Some? then prev
      else
        var q := GroupSpec(walk, delimiter, archive, output, cwd, groups[k], FieldValue(typed, k), k, prev.log);
        Progress(q.abort, prev.effects + q.effects, q.log)
  }

  const LogFileName := "anonymization_log.txt"

  /** The six column titles of the log (gui.py:178-185). */
  const HeaderFields := ["Номер пациента", "Номер МРТ", "Дата (DD.MM.YYYY)",
                         "Magnetic Field Strength", "Manufacturer", "Manufacturer's Model Name"]

  /** The log file text (gui.py:186-189): the header, then one line per
      group, each ended by a newline. */
  function RenderLog(delimiter: string, lines: seq<string>): string {
    Text.Join("\n", [Text.Join(delimiter, HeaderFields)] + lines) + "\n"
  }

  /** All the effects of anonymize: those of the groups, then the log
      file, which is written only when no group aborted. */
  function AnonymizeEffects(output: string, delimiter: string, p: Progress): seq<Effect> {
    if p.abort.Some? then p.effects
    else p.effects + [WriteText(Paths.Join(output, LogFileName), RenderLog(delimiter, p.log))]
  }

  // ---------------------------------------------------------------------
  // Lemmas about anonymize

  /** anonymize logs one line for each group it gets through: all of them
      when it does not abort, those before the aborting group when it
      does. */
  lemma {:induction false} GroupsSpecLog(walk: seq<Dir>, delimiter: string, archive: bool, output: string,
                                         cwd: string, groups: seq<MriGroup>, typed: seq<string>)
    requires WellFormed(groups)
    ensures var p := GroupsSpec(walk, delimiter, archive, output, cwd, groups, typed);
      && (p.abort.None? ==> |p.log| == |groups|)
      && (p.abort.Some? ==> p.abort.value.group < |groups| && |p.log| == p.abort.value.group)
    decreases |groups|
  {
    if groups != [] {
      var k := |groups| - 1;
      GroupsSpecLog(walk, delimiter, archive, output, cwd, groups[..k], typed);
      assert groups[..k + 1] == groups;
      if GroupsSpec(walk, delimiter, archive, output, cwd, groups[..k], typed).abort.None? {
        GroupsSpecStep(walk, delimiter, archive, output, cwd, groups, typed, k);
      } else {
        GroupsSpecStops(walk, delimiter, archive, output, cwd, groups, typed, k);
      }
    }
  }

  lemma SeriesSpecStep(walk: seq<Dir>, delimiter: string, output: string, cwd: string, n: int, id: string,
                       series: seq<Series>, index: nat, log: seq<string>, j: nat)
    requires j < |series|
    requires SeriesSpec(walk, delimiter, output, cwd, n, id, series[..j], index, log).abort.None?
    ensures var prev := SeriesSpec(walk, delimiter, output, cwd, n, id, series[..j], index, log);
      var o := SeriesCall(walk, delimiter, output, cwd, n, id, series[j]);
      SeriesSpec(walk, delimiter, output, cwd, n, id, series[..j + 1], index, log)
        == Progress(if o.result.Err? then Some(Abort(index, Raised(o.result.error))) else None,
                    prev.effects + o.effects, prev.log + o.logLine)
  {
    assert series[..j + 1][..j] == series[..j];
  }

  lemma {:induction false} SeriesSpecStops(walk: seq<Dir>, delimiter: string, output: string, cwd: string, n: int,
                                           id: string, series: seq<Series>, index: nat, log: seq<string>, j: nat)
    requires j <= |series|
    requires SeriesSpec(walk, delimiter, output, cwd, n, id, series[..j], index, log).abort.Some?
    ensures SeriesSpec(walk, delimiter, output, cwd, n, id, series, index, log)
         == SeriesSpec(walk, delimiter, output, cwd, n, id, series[..j], index, log)
    decreases |series| - j
  {
    if j < |series| {
      assert series[..j + 1][..j] == series[..j];
      SeriesSpecStops(walk, delimiter, output, cwd, n, id, series, index, log, j + 1);
    } else {
      assert series[..j] == series;
    }
  }

  lemma GroupsSpecStep(walk: seq<Dir>, delimiter: string, archive: bool, output: string, cwd: string,
                       groups: seq<MriGroup>, typed: seq<string>, i: nat)
    requires WellFormed(groups) && i < |groups|
    requires GroupsSpec(walk, delimiter, archive, output, cwd, groups[..i], typed).abort.None?
    ensures var prev := GroupsSpec(walk, delimiter, archive, output, cwd, groups[..i], typed);
      var q := GroupSpec(walk, delimiter, archive, output, cwd, groups[i], FieldValue(typed, i), i, prev.log);
      GroupsSpec(walk, delimiter, archive, output, cwd, groups[..i + 1], typed)
        == Progress(q.abort, prev.effects + q.effects, q.log)
  {
    assert groups[..i + 1][..i] == groups[..i];
  }

  /** A group after an abort changes nothing. */
  lemma GroupsSpecAborted(walk: seq<Dir>, delimiter: string, archive: bool, output: string,
                          cwd: string, groups: seq<MriGroup>, typed: seq<string>, i: nat)
    requires WellFormed(groups) && i < |groups|
    requires GroupsSpec(walk, delimiter, archive, output, cwd, groups[..i], typed).abort.Some?
    ensures GroupsSpec(walk, delimiter, archive, output, cwd, groups[..i + 1], typed)
         == GroupsSpec(walk, delimiter, archive, output, cwd, groups[..i], typed)
  {
    assert groups[..i + 1][..i] == groups[..i];
  }

  /** Once anonymize has aborted, later groups change nothing. */
  lemma {:induction false} GroupsSpecStops(walk: seq<Dir>, delimiter: string, archive: bool, output: string,
                                           cwd: string, groups: seq<MriGroup>, typed: seq<string>, i: nat)
    requires WellFormed(groups) && i <= |groups|
    requires GroupsSpec(walk, delimiter, archive, output, cwd, groups[..i], typed).abort.Some?
    ensures GroupsSpec(walk, delimiter, archive, output, cwd, groups, typed)
         == GroupsSpec(walk, delimiter, archive, output, cwd, groups[..i], typed)
    decreases |groups| - i
  {
    if i < |groups| {
      GroupsSpecAborted(walk, delimiter, archive, output, cwd, groups, typed, i);
      GroupsSpecStops(walk, delimiter, archive, output, cwd, groups, typed, i + 1);
    } else {
      assert groups[..i] == groups;
    }
  }

  /** The first group whose field is not a number ends anonymize: the
      groups before it stay processed, with their effects and log lines,
      and no log file is written. */
  lemma FirstInvalidNumberAborts(walk: seq<Dir>, delimiter: string, archive: bool, output: string, cwd: string,
                                 groups: seq<MriGroup>, typed: seq<string>, i: nat)
    requires WellFormed(groups) && i < |groups|
    requires GroupsSpec(walk, delimiter, archive, output, cwd, groups[..i], typed).abort.None?
    requires !IsDigits(Strip(FieldValue(typed, i)))
    ensures var before := GroupsSpec(walk, delimiter, archive, output, cwd, groups[..i], typed);
      var p := GroupsSpec(walk, delimiter, archive, output, cwd, groups, typed);
      && p == Progress(Some(Abort(i, InvalidNumber)), before.effects, before.log)
      && AnonymizeEffects(output, delimiter, p) == before.effects
  {
    GroupsSpecStep(walk, delimiter, archive, output, cwd, groups, typed, i);
    GroupsSpecStops(walk, delimiter, archive, output, cwd, groups, typed, i + 1);
  }

  /** An abort for an invalid number names a group whose stripped field is
      not all digits, after groups whose fields all were. */
  lemma {:induction false} InvalidNumberIsFirst(walk: seq<Dir>, delimiter: string, archive: bool, output: string,
                                                cwd: string, groups: seq<MriGroup>, typed: seq<string>, j: nat)
    requires WellFormed(groups)
    requires var p := GroupsSpec(walk, delimiter, archive, output, cwd, groups, typed);
      p.abort.Some? && j <= p.abort.value.group
    ensures var p := GroupsSpec(walk, delimiter, archive, output, cwd, groups, typed);
      p.abort.value.reason == InvalidNumber && j == p.abort.value.group ==> !IsDigits(Strip(FieldValue(typed, j)))
    ensures var p := GroupsSpec(walk, delimiter, archive, output, cwd, groups, typed);
      j < p.abort.value.group ==> IsDigits(Strip(FieldValue(typed, j)))
    decreases |groups|
  {
    var k := |groups| - 1;
    var prev := GroupsSpec(walk, delimiter, archive, output, cwd, groups[..k], typed);
    if prev.abort.Some? {
      InvalidNumberIsFirst(walk, delimiter, archive, output, cwd, groups[..k], typed, j);
    } else if j < k {
      InvalidNumberOfCompleted(walk, delimiter, archive, output, cwd, groups[..k], typed, j);
    }
  }

  /** When anonymize gets through all groups, it got through every prefix
      of them. */
  lemma GroupsPrefixCompleted(walk: seq<Dir>, delimiter: string, archive: bool, output: string,
                              cwd: string, groups: seq<MriGroup>, typed: seq<string>, i: nat)
    requires WellFormed(groups) && i <= |groups|
    requires GroupsSpec(walk, delimiter, archive, output, cwd, groups, typed).abort.None?
    ensures GroupsSpec(walk, delimiter, archive, output, cwd, groups[..i], typed).abort.None?
  {
    if GroupsSpec(walk, delimiter, archive, output, cwd, groups[..i], typed).abort.Some? {
      GroupsSpecStops(walk, delimiter, archive, output, cwd, groups, typed, i);
    }
  }

  /** When anonymize gets through all groups, each of their fields was a
      number. */
  lemma InvalidNumberOfCompleted(walk: seq<Dir>, delimiter: string, archive: bool, output: string,
                                 cwd: string, groups: seq<MriGroup>, typed: seq<string>, j: nat)
    requires WellFormed(groups) && j < |groups|
    requires GroupsSpec(walk, delimiter, archive, output, cwd, groups, typed).abort.None?
    ensures IsDigits(Strip(FieldValue(typed, j)))
  {
    GroupsPrefixCompleted(walk, delimiter, archive, output, cwd, groups, typed, j);
    GroupsPrefixCompleted(walk, delimiter, archive, output, cwd, groups, typed, j + 1);
    GroupsSpecStep(walk, delimiter, archive, output, cwd, groups, typed, j);
  }

  /** A group that completes is identified by its stripped number field,
      which int() reads (gui.py:144) as its decimal value, and the study date of its first file
      ('19000101' when absent); every series goes to
      <output>/<id>/DICOM/<basename> with that identifier as override, the
      core logging nothing; the one log line has the six fields. */
  lemma GroupIdentity(walk: seq<Dir>, delimiter: string, archive: bool, output: string, cwd: string,
                      g: MriGroup, field: string, index: nat, log: seq<string>)
    requires HasSample(g)
    requires GroupSpec(walk, delimiter, archive, output, cwd, g, field, index, log).abort.None?
    ensures var p := GroupSpec(walk, delimiter, archive, output, cwd, g, field, index, log);
      var n := DecimalValue(Strip(field));
      var sample := g.series[0].files[0].ds;
      var studyDate := Attr(sample, StudyDateTag, DefaultStudyDate);
      var id := PatientId(n, studyDate);
      && IsDigits(Strip(field)) && ParseInt(Strip(field)) == Some(n)
      && ValidDate(studyDate)
      && p.log == log + [LogLine(delimiter, n, id, FormatDate(studyDate).value, sample)]
      && SeriesSpec(walk, delimiter, output, cwd, n, id, g.series, index, log).abort.None?
      && p.effects == SeriesSpec(walk, delimiter, output, cwd, n, id, g.series, index, log).effects
                      + (if archive then [IntendedGuiArchive(output, id)] else [])
  {
    ParseIntOfDigits(Strip(field));
  }

  /** The header holds no newline when the delimiter holds none. */
  lemma HeaderWithoutNewline(delimiter: string)
    requires '\n' !in delimiter
    ensures '\n' !in Text.Join(delimiter, HeaderFields)
  {
    assert forall i :: 0 <= i < |HeaderFields| ==> '\n' !in HeaderFields[i];
    JoinAvoids(delimiter, HeaderFields, '\n');
  }

  /** The log file splits into its lines: the header, one line per group,
      and the empty rest after the final newline; provided neither the
      delimiter nor a line holds a newline. */
  lemma RenderLogLines(delimiter: string, lines: seq<string>)
    requires '\n' !in delimiter
    requires forall i :: 0 <= i < |lines| ==> '\n' !in lines[i]
    ensures Split(RenderLog(delimiter, lines), '\n') == [Text.Join(delimiter, HeaderFields)] + lines + [""]
  {
    var header := Text.Join(delimiter, HeaderFields);
    HeaderWithoutNewline(delimiter);
    var parts := [header] + lines;
    JoinEmptyLast("\n", parts);
    var all := parts + [""];
    forall i | 0 <= i < |all| ensures '\n' !in all[i] {
      if 0 < i < |parts| { assert all[i] == lines[i - 1]; }
    }
    SplitJoin('\n', all);
  }

  /** A series directory lies inside the patient folder <output>/<id>,
      under DICOM, and keeps the directory's last component. */
  lemma SeriesOutDirInPatientFolder(output: string, id: string, path: string)
    requires id != [] && '/' !in id
    ensures Paths.IsUnder(SeriesOutDir(output, id, path), Paths.Join(output, id))
    ensures Paths.Basename(path) != [] ==> Paths.Basename(SeriesOutDir(output, id, path)) == Paths.Basename(path)
  {
    var home := Paths.Join(output, id);
    Paths.JoinEndsInPart(output, id);
    var dicom := Paths.Join(home, "DICOM");
    Paths.JoinIsUnder(home, "DICOM");
    Paths.JoinEndsInPart(home, "DICOM");
    var b := Paths.Basename(path);
    if b != [] {
      Paths.BasenameJoin(dicom, b);
    }
    Paths.JoinIsUnder(dicom, b);
    Paths.UnderTransitive(SeriesOutDir(output, id, path), dicom, home);
  }
  // ---------------------------------------------------------------------
  // The effects of anonymize

  /** Only makedirs and dataset writes. */
  predicate PlainWrites(effects: seq<Effect>) {
    forall k :: 0 <= k < |effects| ==> effects[k].MakeDirs? || effects[k].WriteDataset?
  }

  /** No text file is written. */
  predicate NoLogFile(effects: seq<Effect>) {
    forall k :: 0 <= k < |effects| ==> !effects[k].WriteText?
  }

  /** A successful call with an identifier override makes its directory
      and writes the data sets, and nothing else. */
  lemma OverrideOutputOnlyWrites(s: Settings, dicom: seq<File>, outRoot: Option<string>, cwd: string, n: int,
                                 id: string, date: string, consumed: nat)
    requires dicom != []
    ensures PlainWrites(FolderOutput(s, dicom, outRoot, cwd, n, id, date, Some(id), consumed).effects)
  {
    var outDir := OutDir(outRoot, cwd, id);
    var writes := WriteEffects(dicom, outDir, id);
    var e := FolderOutput(s, dicom, outRoot, cwd, n, id, date, Some(id), consumed).effects;
    assert e == [MakeDirs(outDir)] + writes;
    forall k | 0 <= k < |e| ensures e[k].MakeDirs? || e[k].WriteDataset? {
      if k > 0 { assert e[k] == writes[k - 1]; }
    }
  }

  /** With an identifier override the core only makes its directory and
      writes the data sets: no archive and no other file. */
  lemma OverrideCallOnlyWrites(s: Settings, folder: Dir, outRoot: Option<string>, cwd: string,
                               number: Option<int>, id: string, inputs: seq<string>)
    ensures PlainWrites(FolderSpec(s, folder, outRoot, cwd, number, Some(id), inputs).effects)
  {
    var dicom := DicomFiles(folder.files);
    if FolderSpec(s, folder, outRoot, cwd, number, Some(id), inputs).result.Ok? && dicom != [] {
      FolderSpecOk(s, folder, outRoot, cwd, number, Some(id), inputs);
      var resolved := ResolvePatientNumber(number, s.interactive, inputs);
      OverrideOutputOnlyWrites(s, dicom, outRoot, cwd, resolved.number.value, id,
                               FormatDate(SampleStudyDate(dicom)).value, resolved.consumed);
    }
  }

  /** The series calls of a group only make directories and write data
      sets. */
  lemma {:induction false} SeriesOnlyWrite(walk: seq<Dir>, delimiter: string, output: string, cwd: string, n: int,
                                           id: string, series: seq<Series>, index: nat, log: seq<string>)
    ensures PlainWrites(SeriesSpec(walk, delimiter, output, cwd, n, id, series, index, log).effects)
    decreases |series|
  {
    if series != [] {
      var k := |series| - 1;
      SeriesOnlyWrite(walk, delimiter, output, cwd, n, id, series[..k], index, log);
      var sk := series[k];
      OverrideCallOnlyWrites(GuiSettings(delimiter), Dir(sk.path, ListDir(walk, sk.path)),
                             Some(SeriesOutDir(output, id, sk.path)), cwd, Some(n), id, []);
    }
  }

  /** A group that completes makes one archive, after all its series, when
      archiving is on, and none when it is off. */
  lemma GroupArchivesOnce(walk: seq<Dir>, delimiter: string, archive: bool, output: string, cwd: string,
                          g: MriGroup, field: string, index: nat, log: seq<string>)
    requires HasSample(g)
    requires GroupSpec(walk, delimiter, archive, output, cwd, g, field, index, log).abort.None?
    ensures var e := GroupSpec(walk, delimiter, archive, output, cwd, g, field, index, log).effects;
      var id := PatientId(DecimalValue(Strip(field)), Attr(g.series[0].files[0].ds, StudyDateTag, DefaultStudyDate));
      && (archive ==> e != [] && e[|e| - 1] == IntendedGuiArchive(output, id) && PlainWrites(e[..|e| - 1]))
      && (!archive ==> PlainWrites(e))
  {
    GroupIdentity(walk, delimiter, archive, output, cwd, g, field, index, log);
    var id := PatientId(DecimalValue(Strip(field)), Attr(g.series[0].files[0].ds, StudyDateTag, DefaultStudyDate));
    var calls := SeriesSpec(walk, delimiter, output, cwd, DecimalValue(Strip(field)), id, g.series, index, log);
    SeriesOnlyWrite(walk, delimiter, output, cwd, DecimalValue(Strip(field)), id, g.series, index, log);
    var e := GroupSpec(walk, delimiter, archive, output, cwd, g, field, index, log).effects;
    if archive {
      assert e[..|e| - 1] == calls.effects;
    } else {
      assert e == calls.effects;
    }
  }

  /** No group writes a text file. */
  lemma GroupNoLogFile(walk: seq<Dir>, delimiter: string, archive: bool, output: string, cwd: string,
                       g: MriGroup, field: string, index: nat, log: seq<string>)
    requires HasSample(g)
    ensures NoLogFile(GroupSpec(walk, delimiter, archive, output, cwd, g, field, index, log).effects)
  {
    var value := Strip(field);
    if IsDigits(value) {
      var n := DecimalValue(value);
      var id := PatientId(n, Attr(g.series[0].files[0].ds, StudyDateTag, DefaultStudyDate));
      var calls := SeriesSpec(walk, delimiter, output, cwd, n, id, g.series, index, log);
      SeriesOnlyWrite(walk, delimiter, output, cwd, n, id, g.series, index, log);
      var e := GroupWithNumber(walk, delimiter, archive, output, cwd, g, n, index, log).effects;
      assert e == calls.effects || e == calls.effects + [IntendedGuiArchive(output, id)];
      assert NoLogFile(e) by {
        forall k | 0 <= k < |e| ensures !e[k].WriteText? {
          if k < |calls.effects| { assert e[k] == calls.effects[k]; }
        }
      }
    }
  }

  lemma {:induction false} GroupsNoLogFile(walk: seq<Dir>, delimiter: string, archive: bool, output: string,
                                           cwd: string, groups: seq<MriGroup>, typed: seq<string>)
    requires WellFormed(groups)
    ensures NoLogFile(GroupsSpec(walk, delimiter, archive, output, cwd, groups, typed).effects)
    decreases |groups|
  {
    if groups != [] {
      var k := |groups| - 1;
      GroupsNoLogFile(walk, delimiter, archive, output, cwd, groups[..k], typed);
      var prev := GroupsSpec(walk, delimiter, archive, output, cwd, groups[..k], typed);
      GroupNoLogFile(walk, delimiter, archive, output, cwd, groups[k], FieldValue(typed, k), k, prev.log);
    }
  }

  /** The log file is written, last, exactly when no group aborts; it then
      holds one line per group. */
  lemma AnonymizeWritesLog(walk: seq<Dir>, delimiter: string, archive: bool, output: string, cwd: string,
                           groups: seq<MriGroup>, typed: seq<string>)
    requires WellFormed(groups)
    ensures var p := GroupsSpec(walk, delimiter, archive, output, cwd, groups, typed);
      var e := AnonymizeEffects(output, delimiter, p);
      && (p.abort.None? ==>
            |p.log| == |groups|
            && e == p.effects + [WriteText(Paths.Join(output, LogFileName), RenderLog(delimiter, p.log))]
            && NoLogFile(p.effects))
      && (p.abort.Some? ==> NoLogFile(e))
  {
    GroupsSpecLog(walk, delimiter, archive, output, cwd, groups, typed);
    GroupsNoLogFile(walk, delimiter, archive, output, cwd, groups, typed);
  }

  // ---------------------------------------------------------------------
  // The archive name as written versus as intended

  /** As written, make_archive's base name drops every '.zip' of the
      path, not only the one at its end: under an output folder named
      a.zip the archive is not made next to the patient folder at all. */
  lemma GuiArchiveBaseAsWritten(id: string)
    requires id != [] && '/' !in id
    ensures GuiArchive("a.zip", id).baseName != Paths.Join("a.zip", id)
  {
    var z := Paths.Join("a.zip", id + ".zip");
    assert (id + ".zip")[0] == id[0];
    assert z == "a.zip/" + (id + ".zip");
    assert z[..4] == "a.zi";
    ReplaceAllKeepsFirst(z, ".zip", "");
    var z1 := z[1..];
    assert z1[..4] == ".zip";
    ReplaceAllAtStart(z1, ".zip", "");
    var z5 := z1[4..];
    assert z5[0] == '/' && |z5| >= 4;
    ReplaceAllKeepsFirst(z5, ".zip", "");
    var base := ReplaceAll(z, ".zip", "");
    assert base == ['a'] + ("" + (['/'] + ReplaceAll(z5[1..], ".zip", "")));
    assert base[1] == '/';
    assert Paths.Join("a.zip", id)[1] == '.';
  }

  /** The archive the code evidently means: <output>/<id>.zip made from the
      patient folder <output>/<id>. */
  function IntendedGuiArchive(output: string, id: string): Effect {
    MakeArchive(Paths.Join(output, id), Paths.Join(output, id))
  }

  /** The intended archive lies at zip_path and holds the patient folder,
      in which every series of the group is written. */
  lemma IntendedGuiArchivePlace(output: string, id: string, path: string)
    requires id != [] && '/' !in id
    ensures var z := IntendedGuiArchive(output, id);
      && z.baseName + ".zip" == Paths.Join(output, id + ".zip")
      && Paths.IsUnder(SeriesOutDir(output, id, path), z.rootDir)
  {
    Paths.JoinAppend(output, id, ".zip");
    SeriesOutDirInPatientFolder(output, id, path);
  }

  /** Removing every '.zip' from x + '.zip', where x holds no '.', leaves
      x. */
  lemma {:induction false} ReplaceZipSuffix(x: string)
    requires '.' !in x
    ensures ReplaceAll(x + ".zip", ".zip", "") == x
    decreases |x|
  {
    if x == [] {
      assert x + ".zip" == ".zip";
      assert ".zip"[4..] == [];
    } else {
      var t := x + ".zip";
      assert t[..4] != ".zip" by { assert t[0] == x[0]; }
      assert t[1..] == x[1..] + ".zip";
      ReplaceZipSuffix(x[1..]);
      assert [x[0]] + x[1..] == x;
    }
  }

  /** Where neither the output folder nor the identifier holds a '.', the
      archive as written is the intended one. */
  lemma GuiArchiveWithoutDots(output: string, id: string)
    requires id != [] && '/' !in id && '.' !in id && '.' !in output
    ensures GuiArchive(output, id) == IntendedGuiArchive(output, id)
  {
    Paths.JoinAppend(output, id, ".zip");
    var j := Paths.Join(output, id);
    assert '.' !in j;
    ReplaceZipSuffix(j);
  }
  // ---------------------------------------------------------------------
  // The window

  /** The series loop of one group (gui.py:150-156) on the GUI's
      de-identifier: one core call per series, an error ending the loop. */
  method AnonymizeSeries(anonymizer: Deidentifier, walk: seq<Dir>, output: string, cwd: string, n: int, id: string,
                         series: seq<Series>, index: nat)
    returns (abort: Option<Abort>, effects: seq<Effect>)
    requires anonymizer.Config() == GuiSettings(anonymizer.logDelimiter)
    modifies anonymizer
    ensures var p := SeriesSpec(walk, anonymizer.logDelimiter, output, cwd, n, id, series, index, old(anonymizer.logLines));
      abort == p.abort && effects == p.effects && anonymizer.logLines == p.log
  {
    ghost var log := anonymizer.logLines;
    var delimiter := anonymizer.logDelimiter;
    abort, effects := None, [];
    var i := 0;
    while i < |series|
      invariant 0 <= i <= |series|
      invariant SeriesSpec(walk, delimiter, output, cwd, n, id, series[..i], index, log)
             == Progress(None, effects, anonymizer.logLines)
    {
      SeriesSpecStep(walk, delimiter, output, cwd, n, id, series, index, log, i);
      var s := series[i];
      var result, e, _ := anonymizer.AnonymizeDicomFolder(Dir(s.path, ListDir(walk, s.path)),
                                                          Some(SeriesOutDir(output, id, s.path)), cwd, Some(n), Some(id), []);
      effects := effects + e;
      if result.Err? {
        abort := Some(Abort(index, Raised(result.error)));
        SeriesSpecStops(walk, delimiter, output, cwd, n, id, series, index, log, i + 1);
        return;
      }
      i := i + 1;
    }
    assert series[..i] == series;
  }

  /** One group of anonymize (gui.py:139-175): the number check, the series,
      the archive of the patient folder and the group's log line, which is
      appended to the de-identifier's lines. */
  method AnonymizeGroup(anonymizer: Deidentifier, walk: seq<Dir>, archive: bool, output: string, cwd: string,
                        g: MriGroup, field: string, index: nat)
    returns (abort: Option<Abort>, effects: seq<Effect>)
    requires HasSample(g) && anonymizer.Config() == GuiSettings(anonymizer.logDelimiter)
    modifies anonymizer
    ensures var p := GroupSpec(walk, anonymizer.logDelimiter, archive, output, cwd, g, field, index,
                               old(anonymizer.logLines));
      abort == p.abort && effects == p.effects && anonymizer.logLines == p.log
  {
    var value := Strip(field);
    if !IsDigits(value) {
      return Some(Abort(index, InvalidNumber)), [];
    }
    var n := DecimalValue(value);
    var sample := g.series[0].files[0].ds;
    var studyDate := Attr(sample, StudyDateTag, DefaultStudyDate);
    var id := PatientId(n, studyDate);
    abort, effects := AnonymizeSeries(anonymizer, walk, output, cwd, n, id, g.series, index);
    if abort.Some? {
      return;
    }
    if archive {
      effects := effects + [IntendedGuiArchive(output, id)];
    }
    var date := FormatDate(studyDate);
    if date.Err? {
      abort := Some(Abort(index, Raised(date.error)));
      return;
    }
    anonymizer.logLines := anonymizer.logLines + [LogLine(anonymizer.logDelimiter, n, id, date.value, sample)];
  }

  /** The group loop of anonymize (gui.py:138-175) on a fresh
      de-identifier: the first abort ends it. */
  method AnonymizeGroups(anonymizer: Deidentifier, walk: seq<Dir>, archive: bool, output: string, cwd: string,
                         groups: seq<MriGroup>, typed: seq<string>)
    returns (abort: Option<Abort>, effects: seq<Effect>)
    requires WellFormed(groups) && anonymizer.logLines == []
    requires anonymizer.Config() == GuiSettings(anonymizer.logDelimiter)
    modifies anonymizer
    ensures var p := GroupsSpec(walk, anonymizer.logDelimiter, archive, output, cwd, groups, typed);
      abort == p.abort && effects == p.effects && anonymizer.logLines == p.log
  {
    var delimiter := anonymizer.logDelimiter;
    abort, effects := None, [];
    var i := 0;
    while i < |groups|
      invariant 0 <= i <= |groups|
      invariant GroupsSpec(walk, delimiter, archive, output, cwd, groups[..i], typed)
             == Progress(None, effects, anonymizer.logLines)
    {
      GroupsSpecStep(walk, delimiter, archive, output, cwd, groups, typed, i);
      var a, e := AnonymizeGroup(anonymizer, walk, archive, output, cwd, groups[i], FieldValue(typed, i), i);
      effects := effects + e;
      if a.Some? {
        abort := a;
        GroupsSpecStops(walk, delimiter, archive, output, cwd, groups, typed, i + 1);
        return;
      }
      i := i + 1;
    }
    assert groups[..i] == groups;
  }

  /** What find_mri reports: no usable input folder (the error box), no
      series found (the info box), or groups listed. */
  datatype Discovery = NoInputDir | NothingFound | Found

  /** AnonyMRIGUI without its widgets: the form's values, the listed groups
      and whether the anonymize button is enabled. The button gates calls
      of Anonymize; the model does not demand it. */
  class AnonyMriGui {
    var inputDir: string
    var outputDir: string
    var delimiterChoice: string
    var archive: bool
    var fastCheck: bool
    var entries: seq<MriGroup>
    var anonymizeEnabled: bool

    /** Every listed group has a first series with a first file. */
    predicate Valid()
      reads this
    {
      WellFormed(entries)
    }

    /** __init__ and build_ui (gui.py:27-38, 75): empty folders, 'tab',
        archiving and the fast check on, no groups, the button disabled. */
    constructor ()
      ensures inputDir == "" && outputDir == "" && delimiterChoice == "tab"
      ensures archive && fastCheck
      ensures entries == [] && !anonymizeEnabled
      ensures Valid()
    {
      inputDir, outputDir, delimiterChoice := "", "", "tab";
      archive, fastCheck := true, true;
      entries, anonymizeEnabled := [], false;
    }

    /** find_mri (gui.py:91-131): walk the input folder when it is one and
        list its groups; isDir stands for os.path.isdir(input_dir). The
        entries are cleared first, and the button is only ever enabled. */
    method FindMri(walk: seq<Dir>, isDir: bool) returns (found: Discovery)
      modifies this
      ensures inputDir == old(inputDir) && outputDir == old(outputDir) && delimiterChoice == old(delimiterChoice)
      ensures archive == old(archive) && fastCheck == old(fastCheck)
      ensures found == NoInputDir <==> inputDir == "" || !isDir
      ensures found != NoInputDir ==> (found == Found <==> Grouped(fastCheck, walk) != [])
      ensures entries == (if found == Found then Grouped(fastCheck, walk) else [])
      ensures anonymizeEnabled == (old(anonymizeEnabled) || found == Found)
      ensures Valid()
    {
      entries := [];
      if inputDir == "" || !isDir {
        return NoInputDir;
      }
      var groups: seq<MriGroup> := [];
      for i := 0 to |walk|
        invariant groups == Grouped(fastCheck, walk[..i])
      {
        assert walk[..i + 1][..i] == walk[..i];
        var d := walk[i];
        var selected := SelectedFiles(fastCheck, d.files);
        if selected != [] {
          groups := AddSeries(groups, StudyKeyOf(selected[0].ds), Series(d.path, selected));
        }
      }
      assert walk[..|walk|] == walk;
      if groups == [] {
        return NothingFound;
      }
      GroupedWellFormed(fastCheck, walk);
      entries := groups;
      anonymizeEnabled := true;
      found := Found;
    }

    /** anonymize (gui.py:133-189) with typed[i] the text of group i's
        number field and cwd for os.getcwd(): what it stopped on, if it
        did, and its effects in order, the log file last. */
    method Anonymize(walk: seq<Dir>, typed: seq<string>, cwd: string) returns (abort: Option<Abort>, effects: seq<Effect>)
      requires Valid()
      ensures var output := OutputDir(outputDir, cwd);
        var p := GroupsSpec(walk, DelimiterOf(delimiterChoice), archive, output, cwd, entries, typed);
        abort == p.abort && effects == AnonymizeEffects(output, DelimiterOf(delimiterChoice), p)
    {
      var output := OutputDir(outputDir, cwd);
      var delimiter := DelimiterOf(delimiterChoice);
      var anonymizer := new Deidentifier(archive := false, logDelimiter := delimiter, interactive := false);
      abort, effects := AnonymizeGroups(anonymizer, walk, archive, output, cwd, entries, typed);
      if abort.Some? {
        return;
      }
      var header := Text.Join(delimiter, HeaderFields);
      effects := effects + [WriteText(Paths.Join(output, LogFileName), Text.Join("\n", [header] + anonymizer.logLines) + "\n")];
    }
  }
}
