/**
 * The loop of `main`: every audio file in sorted order, each stem once,
 * through video lookup, the two existence checks, alignment and
 * `create_vdjedit`, counting what was created, skipped and failed.
 */
module Run {
  import opened Wrappers
  import opened Text
  import opened Paths
  import opened Ordering
  import opened Edit
  import opened Emit
  import opened Discovery

  /** The command line: directories, the overwrite flag, and the tools the script calls. */
  datatype Config = Config(tools: Tools, videoExtensions: seq<string>, audioDir: string, videoDir: string, outputDir: string, overwrite: bool)

  /** The exceptions the loop catches. */
  datatype RunError = AlignmentFailed | EmitFailed(error: EmitError)

  /** How one audio stem was handled. */
  datatype Verdict =
    | Created(path: string, alignment: Alignment)
    | SkippedBase(path: string)
    | SkippedFinal(path: string, alignment: Alignment)
    | NoVideo
    | Failed(error: RunError)

  datatype Processed = Processed(audioName: string, verdict: Verdict)

  datatype Counter = CreatedCount | SkippedCount | FailedCount

  /** The counter each verdict increments. */
  function CounterOf(v: Verdict): Counter
  {
    match v
    case Created(_, _) => CreatedCount
    case SkippedBase(_) => SkippedCount
    case SkippedFinal(_, _) => SkippedCount
    case NoVideo => FailedCount
    case Failed(_) => FailedCount
  }

  /** How many processed stems increment counter `c`. */
  function Count(report: seq<Processed>, c: Counter): (n: nat)
    ensures n <= |report|
  {
    if |report| == 0 then 0
    else Count(report[..|report| - 1], c) + (if CounterOf(report[|report| - 1].verdict) == c then 1 else 0)
  }

  /** Every processed stem is counted exactly once. */
  lemma {:induction false} CountsPartition(report: seq<Processed>)
    ensures Count(report, CreatedCount) + Count(report, SkippedCount) + Count(report, FailedCount) == |report|
  {
    if |report| > 0 {
      CountsPartition(report[..|report| - 1]);
    }
  }

  /** The descriptor name `main` checks before aligning: `<stem>.vdjedit`. */
  function BasePath(cfg: Config, stem: string): string
  {
    Join(cfg.outputDir, stem + EditExtension)
  }

  /** The descriptor name for a stem once the alignment is known. */
  function FinalPath(cfg: Config, stem: string, al: Alignment): string
  {
    Join(cfg.outputDir, EditName(stem, al))
  }

  function VideoFor(cfg: Config, fs: FileSystem, stem: string): Option<string>
  {
    FirstVideo(cfg.videoExtensions, fs.present, cfg.videoDir, stem)
  }

  datatype Step = Step(verdict: Verdict, fs: FileSystem)

  /**
   * The body of the loop's `try` for an audio file whose stem is new: find
   * the video; skip when `<stem>.vdjedit` exists and overwriting is off,
   * before aligning; align; then attempt the descriptor.
   */
  function ProcessAudio(cfg: Config, fs: FileSystem, name: string): (s: Step)
    ensures s.verdict.NoVideo? <==> VideoFor(cfg, fs, Stem(name)).None?
    ensures !s.verdict.Created? ==> s.fs == fs
  {
    var stem, audio := Stem(name), Join(cfg.audioDir, name);
    match VideoFor(cfg, fs, stem)
    case None => Step(NoVideo, fs)
    case Some(video) =>
      if BasePath(cfg, stem) in fs.present && !cfg.overwrite then Step(SkippedBase(BasePath(cfg, stem)), fs)
      else
        match cfg.tools.align(audio, video)
        case None => Step(Failed(AlignmentFailed), fs)
        case Some(al) => Attempt(cfg, fs, name, video, al)
  }

  /**
   * After alignment: skip when the suffixed name exists and overwriting is
   * off, otherwise call `create_vdjedit`, whose exceptions count as failures.
   */
  function Attempt(cfg: Config, fs: FileSystem, name: string, video: string, al: Alignment): (s: Step)
    ensures s.verdict.SkippedFinal? <==> FinalPath(cfg, Stem(name), al) in fs.present && !cfg.overwrite
    ensures s.verdict.Created? || s.verdict.SkippedFinal? || s.verdict.Failed?
    ensures s.verdict.Created? ==> s.verdict == Created(FinalPath(cfg, Stem(name), al), al)
    ensures !s.verdict.Created? ==> s.fs == fs
  {
    var final := FinalPath(cfg, Stem(name), al);
    if final in fs.present && !cfg.overwrite then Step(SkippedFinal(final, al), fs)
    else
      var e := CreateEdit(fs, cfg.tools, Join(cfg.audioDir, name), video, cfg.outputDir, al, cfg.overwrite);
      match e.outcome
      case Raised(err) => Step(Failed(EmitFailed(err)), e.fs)
      case _ => Step(Created(final, al), e.fs)
  }

  /**
   * What each verdict means: which checks passed, what the alignment library
   * said, and that only a creation changes the disk.
   */
  lemma ProcessAudioVerdicts(cfg: Config, fs: FileSystem, name: string)
    ensures var s, stem := ProcessAudio(cfg, fs, name), Stem(name);
      var video := VideoFor(cfg, fs, stem);
      (s.verdict.NoVideo? <==> video.None?)
      && (s.verdict.SkippedBase? <==> video.Some? && BasePath(cfg, stem) in fs.present && !cfg.overwrite)
      && (s.verdict.SkippedBase? ==> s.verdict.path == BasePath(cfg, stem))
      && (s.verdict == Failed(AlignmentFailed) <==>
            video.Some? && (BasePath(cfg, stem) !in fs.present || cfg.overwrite)
            && cfg.tools.align(Join(cfg.audioDir, name), video.value).None?)
      && (s.verdict.SkippedFinal? || s.verdict.Created? ==>
            video.Some?
            && cfg.tools.align(Join(cfg.audioDir, name), video.value) == Some(s.verdict.alignment)
            && s.verdict.path == FinalPath(cfg, stem, s.verdict.alignment))
      && (s.verdict.SkippedFinal? ==> s.verdict.path in fs.present && !cfg.overwrite)
      && (!s.verdict.Created? ==> s.fs == fs)
  {
  }

  /**
   * Once a video is found, the base check passes and the alignment library
   * answers: the stem is skipped exactly when the suffixed name exists and
   * overwriting is off; otherwise it fails exactly when `create_vdjedit`
   * raises, with that error and the disk unchanged, and is created otherwise.
   */
  lemma ProcessAudioAligned(cfg: Config, fs: FileSystem, name: string)
    ensures var s, stem, audio := ProcessAudio(cfg, fs, name), Stem(name), Join(cfg.audioDir, name);
      var video := VideoFor(cfg, fs, stem);
      video.Some? && (BasePath(cfg, stem) !in fs.present || cfg.overwrite) && cfg.tools.align(audio, video.value).Some? ==>
        var al := cfg.tools.align(audio, video.value).value;
        var final := FinalPath(cfg, stem, al);
        var e := CreateEdit(fs, cfg.tools, audio, video.value, cfg.outputDir, al, cfg.overwrite);
        (s.verdict.SkippedFinal? <==> final in fs.present && !cfg.overwrite)
        && (s.verdict.Created? <==> (final !in fs.present || cfg.overwrite) && !e.outcome.Raised?)
        && (s.verdict.Failed? && s.verdict.error.EmitFailed? <==> (final !in fs.present || cfg.overwrite) && e.outcome.Raised?)
        && ((final !in fs.present || cfg.overwrite) && e.outcome.Raised? ==> s == Step(Failed(EmitFailed(e.outcome.error)), fs))
        && (s.verdict.Created? ==> s == Step(Created(final, al), e.fs))
  {
    var stem, audio := Stem(name), Join(cfg.audioDir, name);
    var video := VideoFor(cfg, fs, stem);
    if video.Some? && (BasePath(cfg, stem) !in fs.present || cfg.overwrite) && cfg.tools.align(audio, video.value).Some? {
      AttemptVerdicts(cfg, fs, name, video.value, cfg.tools.align(audio, video.value).value);
    }
  }

  lemma AttemptVerdicts(cfg: Config, fs: FileSystem, name: string, video: string, al: Alignment)
    ensures var s, final := Attempt(cfg, fs, name, video, al), FinalPath(cfg, Stem(name), al);
      var e := CreateEdit(fs, cfg.tools, Join(cfg.audioDir, name), video, cfg.outputDir, al, cfg.overwrite);
      (s.verdict.Created? <==> (final !in fs.present || cfg.overwrite) && !e.outcome.Raised?)
      && (s.verdict.Failed? && s.verdict.error.EmitFailed? <==> (final !in fs.present || cfg.overwrite) && e.outcome.Raised?)
      && ((final !in fs.present || cfg.overwrite) && e.outcome.Raised? ==> s == Step(Failed(EmitFailed(e.outcome.error)), fs))
      && (s.verdict.Created? ==> s == Step(Created(final, al), e.fs))
  {
  }

  /** A created descriptor is written under the name `main` checked, and holds the pair's placement. */
  lemma AttemptWrites(cfg: Config, fs: FileSystem, name: string, video: string, al: Alignment)
    requires '/' !in name
    requires Attempt(cfg, fs, name, video, al).verdict.Created?
    ensures var s, audio := Attempt(cfg, fs, name, video, al), Join(cfg.audioDir, name);
      var path := FinalPath(cfg, Stem(name), al);
      (path !in fs.present || cfg.overwrite)
      && MediaLength(cfg.tools, audio).Ok? && MediaLength(cfg.tools, video).Ok?
      && s.fs.present == fs.present + {path}
      && s.fs.edits == fs.edits[path := Describe(
           audio, cfg.tools.sizeOf(audio), video, cfg.tools.sizeOf(video),
           MediaLength(cfg.tools, audio).value, MediaLength(cfg.tools, video).value, al.offset)]
  {
    OutputPathOfEntry(cfg.outputDir, cfg.audioDir, name, al);
  }

  /** A created descriptor is written under the name `main` checked, and holds the pair's placement. */
  lemma ProcessAudioWrites(cfg: Config, fs: FileSystem, name: string)
    requires '/' !in name
    requires ProcessAudio(cfg, fs, name).verdict.Created?
    ensures var s := ProcessAudio(cfg, fs, name);
      var audio, video := Join(cfg.audioDir, name), VideoFor(cfg, fs, Stem(name)).value;
      var path := s.verdict.path;
      (path !in fs.present || cfg.overwrite)
      && MediaLength(cfg.tools, audio).Ok? && MediaLength(cfg.tools, video).Ok?
      && s.fs.present == fs.present + {path}
      && s.fs.edits == fs.edits[path := Describe(
           audio, cfg.tools.sizeOf(audio), video, cfg.tools.sizeOf(video),
           MediaLength(cfg.tools, audio).value, MediaLength(cfg.tools, video).value,
           s.verdict.alignment.offset)]
  {
    var video := VideoFor(cfg, fs, Stem(name)).value;
    var al := cfg.tools.align(Join(cfg.audioDir, name), video).value;
    AttemptWrites(cfg, fs, name, video, al);
  }

  /**
   * The guard inside `create_vdjedit` never fires when `main` calls it:
   * `main` has already checked the very path it would skip for.
   */
  lemma MainCallNeverSkips(cfg: Config, fs: FileSystem, name: string, video: string, al: Alignment)
    requires '/' !in name
    requires FinalPath(cfg, Stem(name), al) !in fs.present || cfg.overwrite
    ensures !CreateEdit(fs, cfg.tools, Join(cfg.audioDir, name), video, cfg.outputDir, al, cfg.overwrite).outcome.Skipped?
  {
    OutputPathOfEntry(cfg.outputDir, cfg.audioDir, name, al);
  }

  /** When `<stem>.vdjedit` exists and overwriting is off, what the alignment library would say plays no part. */
  lemma BaseSkipIgnoresAlignment(cfg: Config, fs: FileSystem, name: string, align: (string, string) -> Option<Alignment>)
    requires '/' !in name
    requires BasePath(cfg, Stem(name)) in fs.present && !cfg.overwrite
    ensures ProcessAudio(cfg, fs, name) == ProcessAudio(cfg.(tools := cfg.tools.(align := align)), fs, name)
  {
  }

  /** A suffix-free alignment passes the second check whenever it passed the first: both check the same name. */
  lemma BaseCheckDecidesPlainName(cfg: Config, stem: string, al: Alignment)
    requires al.offset <= 0.0 && al.score >= SubstandardBelow
    ensures FinalPath(cfg, stem, al) == BasePath(cfg, stem)
  {
    BaseNameExactly(stem, al);
  }

  /** What the loop has done after a prefix of the sorted audio files. */
  datatype RunState = RunState(fs: FileSystem, seen: set<string>, report: seq<Processed>)

  predicate EntryNames(files: seq<string>)
  {
    forall i :: 0 <= i < |files| ==> '/' !in files[i]
  }

  /**
   * The loop over `files` for any per-file step: a file whose stem was seen
   * is passed over; otherwise its stem is marked seen and the step runs.
   */
  function Loop(step: (FileSystem, string) -> Step, fs0: FileSystem, files: seq<string>): RunState
  {
    if |files| == 0 then RunState(fs0, {}, [])
    else
      var st := Loop(step, fs0, files[..|files| - 1]);
      var name := files[|files| - 1];
      if Stem(name) in st.seen then st
      else
        var s := step(st.fs, name);
        RunState(s.fs, st.seen + {Stem(name)}, st.report + [Processed(name, s.verdict)])
  }

  /** The script's step: `Loop(StepOf(cfg), fs0, files)` is the script's loop over `files`. */
  function StepOf(cfg: Config): (FileSystem, string) -> Step
  {
    (fs, name) => ProcessAudio(cfg, fs, name)
  }

  /** The stems of a list of files. */
  function StemsOf(files: seq<string>): set<string>
  {
    set k | 0 <= k < |files| :: Stem(files[k])
  }

  lemma StemsOfSnoc(files: seq<string>)
    requires |files| > 0
    ensures StemsOf(files) == StemsOf(files[..|files| - 1]) + {Stem(files[|files| - 1])}
  {
    var pre := files[..|files| - 1];
    forall x | x in StemsOf(files) ensures x in StemsOf(pre) + {Stem(files[|files| - 1])} {
      var k :| 0 <= k < |files| && Stem(files[k]) == x;
      if k < |files| - 1 { assert pre[k] == files[k]; }
    }
    forall x | x in StemsOf(pre) ensures x in StemsOf(files) {
      var k :| 0 <= k < |pre| && Stem(pre[k]) == x;
      assert files[k] == pre[k];
    }
  }

  /** The stems a loop marks as seen are the stems of its files. */
  lemma {:induction false} LoopSeesStems(step: (FileSystem, string) -> Step, fs0: FileSystem, files: seq<string>)
    ensures Loop(step, fs0, files).seen == StemsOf(files)
  {
    if |files| > 0 {
      LoopSeesStems(step, fs0, files[..|files| - 1]);
      StemsOfSnoc(files);
    }
  }

  /** A loop reports one file per stem it marks as seen, and only files of seen stems. */
  lemma {:induction false} LoopReportsSeen(step: (FileSystem, string) -> Step, fs0: FileSystem, files: seq<string>)
    ensures var st := Loop(step, fs0, files);
      |st.report| == |st.seen| && forall i :: 0 <= i < |st.report| ==> Stem(st.report[i].audioName) in st.seen
  {
    if |files| > 0 {
      LoopReportsSeen(step, fs0, files[..|files| - 1]);
    }
  }

  /** The stems handled are the stems of the files, and each was reported once. */
  lemma LoopSeesEachStem(step: (FileSystem, string) -> Step, fs0: FileSystem, files: seq<string>)
    ensures var st := Loop(step, fs0, files);
      st.seen == StemsOf(files) && |st.report| == |st.seen|
      && forall i :: 0 <= i < |st.report| ==> Stem(st.report[i].audioName) in st.seen
  {
    LoopSeesStems(step, fs0, files);
    LoopReportsSeen(step, fs0, files);
  }

  /** No earlier file has the same stem as `files[k]`. */
  predicate FirstOfStem(files: seq<string>, k: int)
    requires 0 <= k < |files|
  {
    forall j :: 0 <= j < k ==> Stem(files[j]) != Stem(files[k])
  }

  /** No stem is reported twice. */
  lemma {:induction false} LoopReportsStemsOnce(step: (FileSystem, string) -> Step, fs0: FileSystem, files: seq<string>)
    ensures var r := Loop(step, fs0, files).report;
      forall i, j :: 0 <= i < j < |r| ==> Stem(r[i].audioName) != Stem(r[j].audioName)
  {
    if |files| > 0 {
      var pre := files[..|files| - 1];
      LoopReportsStemsOnce(step, fs0, pre);
      LoopSeesEachStem(step, fs0, pre);
    }
  }

  /** `name` is one of `files`, and no file before it has its stem. */
  predicate FirstWithItsStem(files: seq<string>, name: string)
  {
    exists k :: 0 <= k < |files| && files[k] == name && FirstOfStem(files, k)
  }

  /** The file reported for a stem is the first of the files with that stem, in the order the loop visits them. */
  lemma {:induction false} LoopReportsFirstOfEachStem(step: (FileSystem, string) -> Step, fs0: FileSystem, files: seq<string>)
    ensures var r := Loop(step, fs0, files).report;
      forall i :: 0 <= i < |r| ==> FirstWithItsStem(files, r[i].audioName)
  {
    if |files| > 0 {
      var pre := files[..|files| - 1];
      var name := files[|files| - 1];
      LoopReportsFirstOfEachStem(step, fs0, pre);
      LoopSeesStems(step, fs0, pre);
      var st := Loop(step, fs0, pre);
      var r := Loop(step, fs0, files).report;
      assert Stem(name) in st.seen ==> r == st.report;
      assert Stem(name) !in st.seen ==> r == st.report + [Processed(name, step(st.fs, name).verdict)];
      forall i | 0 <= i < |r|
        ensures FirstWithItsStem(files, r[i].audioName)
      {
        if i < |st.report| {
          assert r[i] == st.report[i];
          assert FirstWithItsStem(pre, st.report[i].audioName);
          var k :| 0 <= k < |pre| && pre[k] == st.report[i].audioName && FirstOfStem(pre, k);
          FirstOfStemExtends(files, k);
          assert files[k] == pre[k];
        } else {
          FirstOfStemLast(files);
          assert files[|files| - 1] == r[i].audioName;
        }
      }
    }
  }

  lemma FirstOfStemExtends(files: seq<string>, k: nat)
    requires k < |files| - 1 && FirstOfStem(files[..|files| - 1], k)
    ensures FirstOfStem(files, k)
  {
    var pre := files[..|files| - 1];
    assert forall j :: 0 <= j <= k ==> files[j] == pre[j];
  }

  lemma FirstOfStemLast(files: seq<string>)
    requires |files| > 0 && Stem(files[|files| - 1]) !in StemsOf(files[..|files| - 1])
    ensures FirstOfStem(files, |files| - 1)
  {
    var pre := files[..|files| - 1];
    forall j | 0 <= j < |files| - 1 ensures Stem(files[j]) != Stem(files[|files| - 1]) {
      assert files[j] == pre[j];
      assert Stem(pre[j]) in StemsOf(pre);
    }
  }

  /** In a sorted list, the first file with a stem is the least of the files with that stem. */
  lemma FirstOfStemIsLeast(files: seq<string>, k0: nat, k: nat)
    requires StrictlySorted(files) && k0 < |files| && k < |files|
    requires FirstOfStem(files, k0) && Stem(files[k]) == Stem(files[k0])
    ensures files[k] == files[k0] || Less(files[k0], files[k])
  {
    if k0 < k {
      assert Less(files[k0], files[k]);
    }
  }

  /** In sorted order, the file that stands for a stem is the least name with that stem. */
  lemma LoopLeastNameWins(step: (FileSystem, string) -> Step, fs0: FileSystem, files: seq<string>)
    requires StrictlySorted(files)
    ensures var r := Loop(step, fs0, files).report;
      forall i, k :: 0 <= i < |r| && 0 <= k < |files| && Stem(files[k]) == Stem(r[i].audioName)
        ==> files[k] == r[i].audioName || Less(r[i].audioName, files[k])
  {
    var r := Loop(step, fs0, files).report;
    LoopReportsFirstOfEachStem(step, fs0, files);
    forall i, k | 0 <= i < |r| && 0 <= k < |files| && Stem(files[k]) == Stem(r[i].audioName)
      ensures files[k] == r[i].audioName || Less(r[i].audioName, files[k])
    {
      assert FirstWithItsStem(files, r[i].audioName);
      var k0 :| 0 <= k0 < |files| && files[k0] == r[i].audioName && FirstOfStem(files, k0);
      FirstOfStemIsLeast(files, k0, k);
    }
  }

  lemma LeastNameWins(cfg: Config, fs0: FileSystem, files: seq<string>)
    requires StrictlySorted(files)
    ensures var r := Loop(StepOf(cfg), fs0, files).report;
      forall i, k :: 0 <= i < |r| && 0 <= k < |files| && Stem(files[k]) == Stem(r[i].audioName)
        ==> files[k] == r[i].audioName || Less(r[i].audioName, files[k])
  {
    LoopLeastNameWins(StepOf(cfg), fs0, files);
  }

  /** The paths of the descriptors a report says were created. */
  function CreatedPaths(report: seq<Processed>): set<string>
  {
    set i | 0 <= i < |report| && report[i].verdict.Created? :: report[i].verdict.path
  }

  lemma CreatedPathsSnoc(report: seq<Processed>, p: Processed)
    ensures CreatedPaths(report + [p])
         == CreatedPaths(report) + (if p.verdict.Created? then {p.verdict.path} else {})
  {
    var r := report + [p];
    assert r[|report|] == p;
    forall x | x in CreatedPaths(report) ensures x in CreatedPaths(r) {
      var i :| 0 <= i < |report| && report[i].verdict.Created? && report[i].verdict.path == x;
      assert r[i] == report[i];
    }
  }

  /** A step that changes the disk only by writing the descriptor it reports as created. */
  predicate WritesOnlyItsDescriptor(s: Step, fs: FileSystem)
  {
    if s.verdict.Created? then
      s.fs.present == fs.present + {s.verdict.path}
      && |s.verdict.path| > 0 && s.verdict.path[|s.verdict.path| - 1] == 't'
      && forall p :: p in fs.edits && p != s.verdict.path ==> p in s.fs.edits && s.fs.edits[p] == fs.edits[p]
    else s.fs == fs
  }

  /** Every name in the set ends in `t`, as descriptor names do. */
  predicate EndInT(names: set<string>)
  {
    forall p :: p in names ==> |p| > 0 && p[|p| - 1] == 't'
  }

  /** The only files a loop adds are the descriptors it reports as created. */
  lemma {:induction false} LoopAddsOnlyCreated(step: (FileSystem, string) -> Step, fs0: FileSystem, files: seq<string>)
    requires EntryNames(files)
    requires forall fs: FileSystem, n: string :: '/' !in n ==> WritesOnlyItsDescriptor(step(fs, n), fs)
    ensures var st := Loop(step, fs0, files);
      st.fs.present == fs0.present + CreatedPaths(st.report) && EndInT(CreatedPaths(st.report))
  {
    if |files| > 0 {
      var pre := files[..|files| - 1];
      assert EntryNames(pre) by { assert forall i :: 0 <= i < |pre| ==> pre[i] == files[i]; }
      LoopAddsOnlyCreated(step, fs0, pre);
      var st := Loop(step, fs0, pre);
      var name := files[|files| - 1];
      if Stem(name) !in st.seen {
        var s := step(st.fs, name);
        assert WritesOnlyItsDescriptor(s, st.fs);
        AddsOnlyCreatedStep(fs0, st, s, name);
      }
    }
  }

  lemma AddsOnlyCreatedStep(fs0: FileSystem, st: RunState, s: Step, name: string)
    requires st.fs.present == fs0.present + CreatedPaths(st.report) && EndInT(CreatedPaths(st.report))
    requires WritesOnlyItsDescriptor(s, st.fs)
    ensures var r := st.report + [Processed(name, s.verdict)];
      s.fs.present == fs0.present + CreatedPaths(r) && EndInT(CreatedPaths(r))
  {
    CreatedPathsSnoc(st.report, Processed(name, s.verdict));
  }

  /** A step that reports a missing video exactly when `missing` holds of the current disk and the file's stem. */
  ghost predicate ReportsMissingVideo(step: (FileSystem, string) -> Step, missing: (set<string>, string) -> bool)
  {
    forall fs: FileSystem, n: string :: '/' !in n ==> (step(fs, n).verdict.NoVideo? <==> missing(fs.present, Stem(n)))
  }

  /** Adding files whose names end in `t` does not change whether a stem's video is missing. */
  ghost predicate BlindToDescriptors(missing: (set<string>, string) -> bool)
  {
    forall present: set<string>, added: set<string>, stem: string ::
      EndInT(added) ==> missing(present + added, stem) == missing(present, stem)
  }

  /** A stem is counted as lacking a video exactly when its video was already missing before the loop. */
  lemma {:induction false} LoopNoVideoFromStart(step: (FileSystem, string) -> Step, missing: (set<string>, string) -> bool,
                                                fs0: FileSystem, files: seq<string>)
    requires EntryNames(files)
    requires forall fs: FileSystem, n: string :: '/' !in n ==> WritesOnlyItsDescriptor(step(fs, n), fs)
    requires ReportsMissingVideo(step, missing) && BlindToDescriptors(missing)
    ensures var r := Loop(step, fs0, files).report;
      forall i :: 0 <= i < |r| ==> (r[i].verdict.NoVideo? <==> missing(fs0.present, Stem(r[i].audioName)))
  {
    if |files| > 0 {
      var pre := files[..|files| - 1];
      assert EntryNames(pre) by { assert forall i :: 0 <= i < |pre| ==> pre[i] == files[i]; }
      LoopNoVideoFromStart(step, missing, fs0, pre);
      var st := Loop(step, fs0, pre);
      var name := files[|files| - 1];
      if Stem(name) !in st.seen {
        LoopAddsOnlyCreated(step, fs0, pre);
        var stem, added := Stem(name), CreatedPaths(st.report);
        assert missing(fs0.present + added, stem) == missing(fs0.present, stem);
        assert st.fs.present == fs0.present + added;
        var s := step(st.fs, name);
        assert s.verdict.NoVideo? <==> missing(st.fs.present, stem);
        var r := st.report + [Processed(name, s.verdict)];
        assert Loop(step, fs0, files).report == r;
        forall i | 0 <= i < |r|
          ensures r[i].verdict.NoVideo? <==> missing(fs0.present, Stem(r[i].audioName))
        {
          if i < |st.report| {
            assert r[i] == st.report[i];
          }
        }
      }
    }
  }

  /** A step that never reports creating a descriptor that was already on disk. */
  ghost predicate CreatesOnlyNewFiles(step: (FileSystem, string) -> Step)
  {
    forall fs: FileSystem, n: string :: '/' !in n && step(fs, n).verdict.Created? ==> step(fs, n).verdict.path !in fs.present
  }

  /** A loop keeps every file that was on disk before it, and never replaces a descriptor when its step creates only new files. */
  lemma {:induction false} LoopKeepsOldDescriptors(step: (FileSystem, string) -> Step, fs0: FileSystem, files: seq<string>)
    requires EntryNames(files)
    requires forall fs: FileSystem, n: string :: '/' !in n ==> WritesOnlyItsDescriptor(step(fs, n), fs)
    requires CreatesOnlyNewFiles(step)
    ensures var st := Loop(step, fs0, files);
      fs0.present <= st.fs.present
      && forall p :: p in fs0.present && p in fs0.edits ==> p in st.fs.edits && st.fs.edits[p] == fs0.edits[p]
  {
    if |files| > 0 {
      var pre := files[..|files| - 1];
      assert EntryNames(pre) by { assert forall i :: 0 <= i < |pre| ==> pre[i] == files[i]; }
      LoopKeepsOldDescriptors(step, fs0, pre);
      var st := Loop(step, fs0, pre);
      var name := files[|files| - 1];
      if Stem(name) !in st.seen {
        var s := step(st.fs, name);
        assert WritesOnlyItsDescriptor(s, st.fs);
        assert s.verdict.Created? ==> s.verdict.path !in fs0.present;
      }
    }
  }

  /** One more file, not on disk before and not yet added, adds one to the count of new files. */
  lemma AddsOneNewFile(before: set<string>, now: set<string>, p: string)
    requires before <= now && p !in now
    ensures |(now + {p}) - before| == |now - before| + 1
  {
    assert (now + {p}) - before == (now - before) + {p};
  }

  /** When its step creates only new files, a loop adds exactly one file per stem it counts as created. */
  lemma {:induction false} LoopAddsOneFilePerCreated(step: (FileSystem, string) -> Step, fs0: FileSystem, files: seq<string>)
    requires EntryNames(files)
    requires forall fs: FileSystem, n: string :: '/' !in n ==> WritesOnlyItsDescriptor(step(fs, n), fs)
    requires CreatesOnlyNewFiles(step)
    ensures var st := Loop(step, fs0, files);
      fs0.present <= st.fs.present && |st.fs.present - fs0.present| == Count(st.report, CreatedCount)
  {
    if |files| > 0 {
      var pre := files[..|files| - 1];
      assert EntryNames(pre) by { assert forall i :: 0 <= i < |pre| ==> pre[i] == files[i]; }
      LoopAddsOneFilePerCreated(step, fs0, pre);
      var st := Loop(step, fs0, pre);
      var name := files[|files| - 1];
      if Stem(name) !in st.seen {
        var s := step(st.fs, name);
        assert WritesOnlyItsDescriptor(s, st.fs);
        CountSnoc(st.report, Processed(name, s.verdict), CreatedCount);
        if s.verdict.Created? {
          AddsOneNewFile(fs0.present, st.fs.present, s.verdict.path);
        }
      }
    }
  }

  /** Descriptor paths end in the last letter of `.vdjedit`. */
  lemma FinalPathEndsInT(cfg: Config, stem: string, al: Alignment)
    ensures var p := FinalPath(cfg, stem, al); |p| > 0 && p[|p| - 1] == 't'
  {
    var p, name := FinalPath(cfg, stem, al), EditName(stem, al);
    assert p == Join(cfg.outputDir, name);
    assert p[|p| - 1] == name[|name| - 1] == EditExtension[|EditExtension| - 1];
  }

  /** The script's step writes only the descriptor it reports, which ends in `.vdjedit`. */
  lemma StepWritesOnlyItsDescriptor(cfg: Config)
    ensures forall fs: FileSystem, n: string :: '/' !in n ==> WritesOnlyItsDescriptor(StepOf(cfg)(fs, n), fs)
  {
    forall fs: FileSystem, n: string | '/' !in n
      ensures WritesOnlyItsDescriptor(StepOf(cfg)(fs, n), fs)
    {
      var s := ProcessAudio(cfg, fs, n);
      ProcessAudioVerdicts(cfg, fs, n);
      if s.verdict.Created? {
        ProcessAudioWrites(cfg, fs, n);
        FinalPathEndsInT(cfg, Stem(n), s.verdict.alignment);
      }
    }
  }

  /** A stem of the script's run is counted as lacking a video exactly when no candidate existed before the run. */
  lemma NoVideoFromStart(cfg: Config, fs0: FileSystem, files: seq<string>)
    requires EntryNames(files) && EndsOtherThanT(cfg.videoExtensions)
    ensures var r := Loop(StepOf(cfg), fs0, files).report;
      forall i :: 0 <= i < |r| ==>
        (r[i].verdict.NoVideo? <==> VideoFor(cfg, fs0, Stem(r[i].audioName)).None?)
  {
    var missing := (present, stem) => FirstVideo(cfg.videoExtensions, present, cfg.videoDir, stem).None?;
    StepWritesOnlyItsDescriptor(cfg);
    forall fs: FileSystem, n: string | '/' !in n
      ensures StepOf(cfg)(fs, n).verdict.NoVideo? <==> missing(fs.present, Stem(n))
    {
      ProcessAudioVerdicts(cfg, fs, n);
    }
    forall present: set<string>, added: set<string>, stem: string | EndInT(added)
      ensures missing(present + added, stem) == missing(present, stem)
    {
      FirstVideoIgnores(cfg.videoExtensions, present, added, cfg.videoDir, stem);
    }
    LoopNoVideoFromStart(StepOf(cfg), missing, fs0, files);
  }

  /**
   * Without overwriting, the script's run never replaces a descriptor that
   * was on disk before it, and `created` counts exactly the new files.
   */
  lemma NoOverwriteAddsOneFilePerCreated(cfg: Config, fs0: FileSystem, files: seq<string>)
    requires EntryNames(files) && !cfg.overwrite
    ensures var st := Loop(StepOf(cfg), fs0, files);
      fs0.present <= st.fs.present
      && |st.fs.present - fs0.present| == Count(st.report, CreatedCount)
      && forall p :: p in fs0.present && p in fs0.edits ==> p in st.fs.edits && st.fs.edits[p] == fs0.edits[p]
  {
    StepWritesOnlyItsDescriptor(cfg);
    forall fs: FileSystem, n: string | '/' !in n && StepOf(cfg)(fs, n).verdict.Created?
      ensures StepOf(cfg)(fs, n).verdict.path !in fs.present
    {
      ProcessAudioWrites(cfg, fs, n);
    }
    LoopKeepsOldDescriptors(StepOf(cfg), fs0, files);
    LoopAddsOneFilePerCreated(StepOf(cfg), fs0, files);
  }

  /** A name no descriptor has: it does not end in `.vdjedit`. */
  predicate NotDescriptorName(n: string)
  {
    !EndsWith(n, EditExtension)
  }

  /**
   * Descriptor names all end in `t`, the last letter of `.vdjedit`, and no
   * audio or video name does: the proofs of a second run tell descriptors
   * from media by that letter, and a name not ending in `t` is never a
   * descriptor name.
   */
  lemma EndsOtherwiseNotDescriptor(n: string)
    requires |n| == 0 || n[|n| - 1] != 't'
    ensures NotDescriptorName(n)
  {
    if |n| >= |EditExtension| {
      assert n[|n| - |EditExtension|..][|EditExtension| - 1] == n[|n| - 1];
    }
  }

  /** No name ends in `t`, as no audio file name does, so none is a descriptor name. */
  predicate NoneEndInT(files: seq<string>)
  {
    forall i :: 0 <= i < |files| ==> |files[i]| == 0 || files[i][|files[i]| - 1] != 't'
  }

  /**
   * The situation of a second visit to `n`: the disk `after` holds what the
   * disk `before` held, plus files ending in `t`, among them the descriptor
   * the first visit created, if it created one.
   */
  predicate RevisitOf(step: (FileSystem, string) -> Step, before: FileSystem, after: FileSystem, n: string)
  {
    '/' !in n && (|n| == 0 || n[|n| - 1] != 't')
    && before.present <= after.present && EndInT(after.present - before.present)
    && (step(before, n).verdict.Created? ==> step(before, n).verdict.path in after.present)
  }

  /** A step that writes nothing when it visits a name a second time. */
  ghost predicate SettlesOnRevisit(step: (FileSystem, string) -> Step)
  {
    forall before: FileSystem, after: FileSystem, n: string ::
      RevisitOf(step, before, after, n) ==> step(after, n).fs == after
  }

  /** Every visit changes the disk only by writing the descriptor it reports as created. */
  ghost predicate WritesOnlyDescriptors(step: (FileSystem, string) -> Step)
  {
    forall fs: FileSystem, n: string :: '/' !in n ==> WritesOnlyItsDescriptor(step(fs, n), fs)
  }

  /** The report of a prefix of the files is a prefix of the report. */
  lemma {:induction false} LoopReportPrefix(step: (FileSystem, string) -> Step, fs0: FileSystem, files: seq<string>, i: nat)
    requires i <= |files|
    ensures Loop(step, fs0, files[..i]).report <= Loop(step, fs0, files).report
  {
    if i < |files| {
      var pre := files[..|files| - 1];
      assert pre[..i] == files[..i];
      LoopReportPrefix(step, fs0, pre, i);
    } else {
      assert files[..i] == files;
    }
  }

  lemma CreatedPathsPrefix(r1: seq<Processed>, r2: seq<Processed>)
    requires r1 <= r2
    ensures CreatedPaths(r1) <= CreatedPaths(r2)
  {
    forall x | x in CreatedPaths(r1) ensures x in CreatedPaths(r2) {
      var i :| 0 <= i < |r1| && r1[i].verdict.Created? && r1[i].verdict.path == x;
      assert r2[i] == r1[i];
    }
  }

  /** The first run only adds descriptors after any point of it. */
  lemma FirstRunOnlyAdds(step: (FileSystem, string) -> Step, fs0: FileSystem, files: seq<string>, i: nat)
    requires EntryNames(files)
    requires forall fs: FileSystem, n: string :: '/' !in n ==> WritesOnlyItsDescriptor(step(fs, n), fs)
    requires i <= |files|
    ensures var mid, after := Loop(step, fs0, files[..i]).fs, Loop(step, fs0, files).fs;
      mid.present <= after.present && EndInT(after.present - mid.present)
  {
    var pre := files[..i];
    LoopReportPrefix(step, fs0, files, i);
    CreatedPathsPrefix(Loop(step, fs0, pre).report, Loop(step, fs0, files).report);
    assert EntryNames(pre) by { assert forall k :: 0 <= k < |pre| ==> pre[k] == files[k]; }
    LoopAddsOnlyCreated(step, fs0, pre);
    LoopAddsOnlyCreated(step, fs0, files);
  }

  /** A descriptor the first run creates is still there when it ends. */
  lemma FirstRunKeepsCreated(step: (FileSystem, string) -> Step, fs0: FileSystem, files: seq<string>, i: nat)
    requires EntryNames(files)
    requires forall fs: FileSystem, n: string :: '/' !in n ==> WritesOnlyItsDescriptor(step(fs, n), fs)
    requires 0 < i <= |files| && Stem(files[i - 1]) !in StemsOf(files[..i - 1])
    ensures var v := step(Loop(step, fs0, files[..i - 1]).fs, files[i - 1]).verdict;
      v.Created? ==> v.path in Loop(step, fs0, files).fs.present
  {
    var first := Loop(step, fs0, files[..i - 1]);
    var p := Processed(files[i - 1], step(first.fs, files[i - 1]).verdict);
    LoopSeesStems(step, fs0, files[..i - 1]);
    LoopExtends(step, fs0, files, i - 1);
    LoopReportPrefix(step, fs0, files, i);
    CreatedPathsPrefix(first.report + [p], Loop(step, fs0, files).report);
    CreatedPathsSnoc(first.report, p);
    LoopAddsOnlyCreated(step, fs0, files);
  }

  /** When the first run handles a file, what it leaves behind at the end is a second visit's disk for that file. */
  lemma RevisitAfterFirstRun(step: (FileSystem, string) -> Step, fs0: FileSystem, files: seq<string>, i: nat)
    requires EntryNames(files) && NoneEndInT(files)
    requires forall fs: FileSystem, n: string :: '/' !in n ==> WritesOnlyItsDescriptor(step(fs, n), fs)
    requires 0 < i <= |files| && Stem(files[i - 1]) !in StemsOf(files[..i - 1])
    ensures RevisitOf(step, Loop(step, fs0, files[..i - 1]).fs, Loop(step, fs0, files).fs, files[i - 1])
  {
    FirstRunOnlyAdds(step, fs0, files, i - 1);
    FirstRunKeepsCreated(step, fs0, files, i);
  }

  /** Running the loop again over the disk the first run left behind leaves it as it is, prefix by prefix. */
  lemma {:induction false} LoopRerunPrefix(step: (FileSystem, string) -> Step, fs0: FileSystem, files: seq<string>, i: nat)
    requires EntryNames(files) && NoneEndInT(files)
    requires WritesOnlyDescriptors(step)
    requires SettlesOnRevisit(step)
    requires i <= |files|
    ensures Loop(step, Loop(step, fs0, files).fs, files[..i]).fs == Loop(step, fs0, files).fs
  {
    if i > 0 {
      LoopRerunPrefix(step, fs0, files, i - 1);
      RerunOneMore(step, fs0, files, i);
    }
  }

  lemma RerunOneMore(step: (FileSystem, string) -> Step, fs0: FileSystem, files: seq<string>, i: nat)
    requires EntryNames(files) && NoneEndInT(files)
    requires WritesOnlyDescriptors(step)
    requires SettlesOnRevisit(step)
    requires 0 < i <= |files|
    requires Loop(step, Loop(step, fs0, files).fs, files[..i - 1]).fs == Loop(step, fs0, files).fs
    ensures Loop(step, Loop(step, fs0, files).fs, files[..i]).fs == Loop(step, fs0, files).fs
  {
    var after := Loop(step, fs0, files).fs;
    LoopSeesStems(step, after, files[..i - 1]);
    LoopExtends(step, after, files, i - 1);
    if Stem(files[i - 1]) !in StemsOf(files[..i - 1]) {
      RevisitAfterFirstRun(step, fs0, files, i);
      assert step(after, files[i - 1]).fs == after;
    }
  }

  /** A second run over the disk the first run left behind leaves it as it is. */
  lemma LoopRerun(step: (FileSystem, string) -> Step, fs0: FileSystem, files: seq<string>)
    requires EntryNames(files) && NoneEndInT(files)
    requires WritesOnlyDescriptors(step)
    requires SettlesOnRevisit(step)
    ensures Loop(step, Loop(step, fs0, files).fs, files).fs == Loop(step, fs0, files).fs
  {
    LoopRerunPrefix(step, fs0, files, |files|);
    assert files[..|files|] == files;
  }

  /**
   * Without overwriting, a second visit to an audio file writes nothing: the
   * video lookup, the alignment and the measurements answer as before, and
   * every path that passed the existence checks before is now either taken
   * or still fails `create_vdjedit`.
   */
  lemma RevisitWritesNothing(cfg: Config, before: FileSystem, after: FileSystem, n: string)
    requires !cfg.overwrite && EndsOtherThanT(cfg.videoExtensions)
    requires RevisitOf(StepOf(cfg), before, after, n)
    ensures ProcessAudio(cfg, after, n).fs == after
  {
    var stem, audio := Stem(n), Join(cfg.audioDir, n);
    var added := after.present - before.present;
    assert before.present + added == after.present;
    FirstVideoIgnores(cfg.videoExtensions, before.present, added, cfg.videoDir, stem);
    if VideoFor(cfg, before, stem).Some? {
      FirstVideoFound(cfg.videoExtensions, before.present, cfg.videoDir, stem);
    }
    assert audio[|audio| - 1] != 't';
    assert audio in after.present ==> audio in before.present;
    if ProcessAudio(cfg, after, n).verdict.Created? {
      ProcessAudioVerdicts(cfg, after, n);
      ProcessAudioAligned(cfg, after, n);
      ProcessAudioAligned(cfg, before, n);
      assert false;
    }
  }

  /**
   * Without overwriting, running the script a second time over the disk
   * the first run left behind writes nothing.
   */
  lemma RerunWritesNothing(cfg: Config, fs0: FileSystem, files: seq<string>)
    requires EntryNames(files) && NoneEndInT(files) && !cfg.overwrite && EndsOtherThanT(cfg.videoExtensions)
    ensures Loop(StepOf(cfg), Loop(StepOf(cfg), fs0, files).fs, files).fs == Loop(StepOf(cfg), fs0, files).fs
  {
    StepWritesOnlyItsDescriptor(cfg);
    forall before: FileSystem, after: FileSystem, n: string | RevisitOf(StepOf(cfg), before, after, n)
      ensures StepOf(cfg)(after, n).fs == after
    {
      RevisitWritesNothing(cfg, before, after, n);
    }
    LoopRerun(StepOf(cfg), fs0, files);
  }

  /**
   * Without overwriting, running the script a second time, on the audio
   * files it found and with the video extensions it lists (in any order),
   * writes nothing. No audio or video name ends in `t`, so none is a
   * descriptor name (`EndsOtherwiseNotDescriptor`).
   */
  lemma ScriptRerunWritesNothing(cfg: Config, fs0: FileSystem, files: seq<string>)
    requires EntryNames(files) && !cfg.overwrite
    requires forall i :: 0 <= i < |files| ==> IsAudioName(files[i])
    requires forall i :: 0 <= i < |cfg.videoExtensions| ==> cfg.videoExtensions[i] in VideoExtensions
    ensures Loop(StepOf(cfg), Loop(StepOf(cfg), fs0, files).fs, files).fs == Loop(StepOf(cfg), fs0, files).fs
  {
    forall i | 0 <= i < |files| ensures |files[i]| == 0 || files[i][|files[i]| - 1] != 't' {
      AudioNameEndsOtherwise(files[i]);
    }
    ListedVideoExtensionsEndOtherwise(cfg.videoExtensions);
    RerunWritesNothing(cfg, fs0, files);
  }

  /**
   * The body of the loop's `try` for a file whose stem is new, as the
   * script runs it: one check after another, leaving at the first that
   * decides the verdict.
   */
  method HandleNewFile(cfg: Config, fs: FileSystem, name: string) returns (verdict: Verdict, fs': FileSystem)
    ensures Step(verdict, fs') == ProcessAudio(cfg, fs, name)
  {
    var stem := Stem(name);
    var audio := Join(cfg.audioDir, name);
    fs' := fs;
    var video := FindVideo(cfg.videoExtensions, fs.present, cfg.videoDir, stem);
    if video.None? {
      return NoVideo, fs';
    }
    var base := Join(cfg.outputDir, stem + EditExtension);
    if base in fs.present && !cfg.overwrite {
      return SkippedBase(base), fs';
    }
    var alignment := cfg.tools.align(audio, video.value);
    if alignment.None? {
      return Failed(AlignmentFailed), fs';
    }
    var al := alignment.value;
    var final := Join(cfg.outputDir, EditName(stem, al));
    if final in fs.present && !cfg.overwrite {
      return SkippedFinal(final, al), fs';
    }
    var e := CreateEdit(fs, cfg.tools, audio, video.value, cfg.outputDir, al, cfg.overwrite);
    fs' := e.fs;
    if e.outcome.Raised? {
      verdict := Failed(EmitFailed(e.outcome.error));
    } else {
      verdict := Created(final, al);
    }
  }

  /** One more file: passed over when its stem was seen, otherwise stepped and reported. */
  lemma LoopExtends(step: (FileSystem, string) -> Step, fs0: FileSystem, files: seq<string>, i: nat)
    requires i < |files|
    ensures var st := Loop(step, fs0, files[..i]);
      Loop(step, fs0, files[..i + 1])
        == if Stem(files[i]) in st.seen then st
           else var s := step(st.fs, files[i]);
             RunState(s.fs, st.seen + {Stem(files[i])}, st.report + [Processed(files[i], s.verdict)])
  {
    assert files[..i + 1][..i] == files[..i];
  }

  lemma CountSnoc(report: seq<Processed>, p: Processed, c: Counter)
    ensures Count(report + [p], c) == Count(report, c) + (if CounterOf(p.verdict) == c then 1 else 0)
  {
    assert (report + [p])[..|report|] == report;
  }

  /**
   * `main` from the audio directory's listing on: discover the audio files,
   * then handle each stem once, counting each in exactly one counter.
   */
  method Run(cfg: Config, fs0: FileSystem, names: set<string>)
    returns (files: seq<string>, fs: FileSystem, created: nat, skipped: nat, failed: nat, report: seq<Processed>)
    requires forall n :: n in names ==> '/' !in n
    ensures StrictlySorted(files) && forall n :: n in files <==> n in names && IsAudioName(n)
    ensures EntryNames(files)
    ensures fs == Loop(StepOf(cfg), fs0, files).fs && report == Loop(StepOf(cfg), fs0, files).report
    ensures created == Count(report, CreatedCount)
    ensures skipped == Count(report, SkippedCount)
    ensures failed == Count(report, FailedCount)
    ensures created + skipped + failed == |report| == |StemsOf(files)|
  {
    files := DiscoverAudio(names);
    fs, created, skipped, failed, report := ProcessFiles(cfg, fs0, files);
    LoopSeesEachStem(StepOf(cfg), fs0, files);
    CountsPartition(report);
  }

  /** Increments the counter for a newly processed stem. */
  method Tally(report: seq<Processed>, p: Processed, created: nat, skipped: nat, failed: nat)
    returns (created': nat, skipped': nat, failed': nat)
    requires created == Count(report, CreatedCount)
    requires skipped == Count(report, SkippedCount)
    requires failed == Count(report, FailedCount)
    ensures created' == Count(report + [p], CreatedCount)
    ensures skipped' == Count(report + [p], SkippedCount)
    ensures failed' == Count(report + [p], FailedCount)
  {
    CountSnoc(report, p, CreatedCount);
    CountSnoc(report, p, SkippedCount);
    CountSnoc(report, p, FailedCount);
    created', skipped', failed' := created, skipped, failed;
    match p.verdict {
      case Created(_, _) => created' := created + 1;
      case SkippedBase(_) => skipped' := skipped + 1;
      case SkippedFinal(_, _) => skipped' := skipped + 1;
      case NoVideo => failed' := failed + 1;
      case Failed(_) => failed' := failed + 1;
    }
  }

  /** The loop of `main`: each file in turn, a stem already seen passed over, each counted once. */
  method ProcessFiles(cfg: Config, fs0: FileSystem, files: seq<string>)
    returns (fs: FileSystem, created: nat, skipped: nat, failed: nat, report: seq<Processed>)
    ensures Loop(StepOf(cfg), fs0, files) == RunState(fs, StemsOf(files), report) 
    ensures created == Count(report, CreatedCount)
    ensures skipped == Count(report, SkippedCount)
    ensures failed == Count(report, FailedCount)
  {
    fs, created, skipped, failed, report := fs0, 0, 0, 0, [];
    var processed: set<string> := {};
    for i := 0 to |files|
      invariant Loop(StepOf(cfg), fs0, files[..i]) == RunState(fs, processed, report)
      invariant created == Count(report, CreatedCount)
      invariant skipped == Count(report, SkippedCount)
      invariant failed == Count(report, FailedCount)
    {
      LoopExtends(StepOf(cfg), fs0, files, i);
      var name := files[i];
      var stem := Stem(name);
      if stem in processed {
        continue;
      }
      processed := processed + {stem};
      var verdict;
      verdict, fs := HandleNewFile(cfg, fs, name);
      created, skipped, failed := Tally(report, Processed(name, verdict), created, skipped, failed);
      report := report + [Processed(name, verdict)];
    }
    assert files[..|files|] == files;
    LoopSeesEachStem(StepOf(cfg), fs0, files);
  }
}
