/**
 * `create_vdjedit` and `get_media_length`: check the inputs, measure both
 * tracks, and write one descriptor unless it exists and overwriting is off.
 *
 * The disk is a value threaded through the calls. Everything the script asks
 * of other programs (mutagen, ffmpeg, `os.path.getsize`, the alignment
 * library) is a field of `Tools`.
 */
module Emit {
  import opened Wrappers
  import opened Text
  import opened Numbers
  import opened Paths
  import opened Probe
  import opened Edit

  /** The paths that exist, and the descriptors the script has written. */
  datatype FileSystem = FileSystem(present: set<string>, edits: map<string, EditDescriptor>)

  /** What mutagen makes of a file: a length, no recognised format (None), or an exception. */
  datatype TagRead = Recognised(length: real) | Unrecognised | Raises

  /**
   * The outside world as the script sees it. `probe` is ffmpeg's standard
   * error for a path, or None when running ffmpeg raises; `align` is None
   * when the alignment library raises or its result lacks a key.
   */
  datatype Tools = Tools(
    readTags: string -> TagRead,
    probe: string -> Option<string>,
    sizeOf: string -> nat,
    align: (string, string) -> Option<Alignment>)

  datatype EmitError = FileNotFound(path: string) | MediaUnreadable(path: string)

  /** What one call of `create_vdjedit` did. */
  datatype Emitted = Wrote(path: string) | Skipped(path: string) | Raised(error: EmitError)

  datatype Emission = Emission(outcome: Emitted, fs: FileSystem)

  /**
   * `get_media_length`: mutagen's length when it recognises the file,
   * otherwise the duration ffmpeg reports. Every failure, including an
   * exception from mutagen, surfaces as one error about the path.
   */
  function MediaLength(tools: Tools, path: string): (r: Result<real, EmitError>)
    ensures r.Err? ==> r.error == MediaUnreadable(path)
    ensures tools.readTags(path).Recognised? ==> r == Ok(tools.readTags(path).length)
    ensures tools.readTags(path).Raises? ==> r.Err?
    ensures tools.readTags(path).Unrecognised? ==>
      (r.Ok? <==> tools.probe(path).Some? && ProbeDuration(tools.probe(path).value).Ok?)
    ensures tools.readTags(path).Unrecognised? && r.Ok? ==> r.value == ProbeDuration(tools.probe(path).value).value
  {
    match tools.readTags(path)
    case Recognised(length) => Ok(length)
    case Raises => Err(MediaUnreadable(path))
    case Unrecognised =>
      match tools.probe(path)
      case None => Err(MediaUnreadable(path))
      case Some(output) =>
        match ProbeDuration(output)
        case Ok(d) => Ok(d)
        case Err(_) => Err(MediaUnreadable(path))
  }

  /**
   * A file mutagen does not recognise is measured by ffmpeg: the first line
   * that mentions `Duration:` gives the length.
   */
  lemma MediaLengthFromProbe(tools: Tools, path: string, lines: seq<string>, k: nat,
                             indent: string, hh: string, mm: string, ss: string, ff: string, tail: string)
    requires tools.readTags(path).Unrecognised?
    requires |lines| > 0 && tools.probe(path) == Some(JoinWith(lines, '\n'))
    requires forall j :: 0 <= j < |lines| ==> '\n' !in lines[j]
    requires k < |lines| && lines[k] == indent + Marker + " " + Clock(hh, mm, ss, ff) + "," + tail
    requires forall j :: 0 <= j < k ==> !MentionsDuration(lines[j])
    requires forall i :: 0 <= i < |indent| ==> IsSpace(indent[i])
    requires |hh| > 0 && AllDigits(hh) && |mm| > 0 && AllDigits(mm)
    requires |ss| > 0 && AllDigits(ss) && |ff| > 0 && AllDigits(ff)
    ensures MediaLength(tools, path) == Ok(ClockValue(hh, mm, ss, ff))
  {
    ProbeDurationOf(lines, k, indent, hh, mm, ss, ff, tail);
  }

  /** Where `create_vdjedit` writes: the audio file's stem with the alignment's suffixes, in the output directory. */
  function OutputPath(outputDir: string, audioPath: string, al: Alignment): (p: string)
    ensures BaseName(p) == EditName(Stem(BaseName(audioPath)), al)
  {
    var name := EditName(Stem(BaseName(audioPath)), al);
    assert '/' !in name by {
      var stem := Stem(BaseName(audioPath));
      assert name == stem + Tags(al) + EditExtension;
    }
    BaseNameOfJoin(outputDir, name);
    Join(outputDir, name)
  }

  /** The path `create_vdjedit` computes from `dir / name` is the one `main` computes from the name's stem. */
  lemma OutputPathOfEntry(outputDir: string, audioDir: string, name: string, al: Alignment)
    requires '/' !in name
    ensures OutputPath(outputDir, Join(audioDir, name), al) == Join(outputDir, EditName(Stem(name), al))
  {
    BaseNameOfJoin(audioDir, name);
  }

  /**
   * `create_vdjedit`: a missing audio or video file raises before anything
   * is measured; a file neither mutagen nor ffmpeg can measure raises before
   * the output name is even looked at; an existing descriptor is kept when
   * overwriting is off; otherwise the descriptor is written.
   */
  function CreateEdit(fs: FileSystem, tools: Tools, audioPath: string, videoPath: string,
                      outputDir: string, al: Alignment, overwrite: bool): (e: Emission)
    ensures audioPath !in fs.present ==> e == Emission(Raised(FileNotFound(audioPath)), fs)
    ensures audioPath in fs.present && videoPath !in fs.present
        ==> e == Emission(Raised(FileNotFound(videoPath)), fs)
    ensures e.outcome.Raised? || e.outcome.Skipped? ==> e.fs == fs
    ensures e.outcome.Raised? <==>
      audioPath !in fs.present || videoPath !in fs.present
      || MediaLength(tools, audioPath).Err? || MediaLength(tools, videoPath).Err?
    ensures e.outcome.Skipped? <==> !e.outcome.Raised? && OutputPath(outputDir, audioPath, al) in fs.present && !overwrite
    ensures e.outcome.Wrote? ==>
      var path := OutputPath(outputDir, audioPath, al);
      e.outcome.path == path
      && e.fs.present == fs.present + {path}
      && e.fs.edits == fs.edits[path := Describe(audioPath, tools.sizeOf(audioPath), videoPath, tools.sizeOf(videoPath),
                                                 MediaLength(tools, audioPath).value, MediaLength(tools, videoPath).value,
                                                 al.offset)]
  {
    if audioPath !in fs.present then Emission(Raised(FileNotFound(audioPath)), fs)
    else if videoPath !in fs.present then Emission(Raised(FileNotFound(videoPath)), fs)
    else
      var audioSize, videoSize := tools.sizeOf(audioPath), tools.sizeOf(videoPath);
      match (MediaLength(tools, audioPath), MediaLength(tools, videoPath))
      case (Err(err), _) => Emission(Raised(err), fs)
      case (_, Err(err)) => Emission(Raised(err), fs)
      case (Ok(audioLength), Ok(videoLength)) =>
        var descriptor := Describe(audioPath, audioSize, videoPath, videoSize, audioLength, videoLength, al.offset);
        var path := OutputPath(outputDir, audioPath, al);
        if path in fs.present && !overwrite then Emission(Skipped(path), fs)
        else Emission(Wrote(path), FileSystem(fs.present + {path}, fs.edits[path := descriptor]))
  }

  /** Without overwriting, a descriptor already on disk is never replaced. */
  lemma CreateEditKeepsExisting(fs: FileSystem, tools: Tools, audioPath: string, videoPath: string,
                                outputDir: string, al: Alignment, p: string)
    requires p in fs.present && p in fs.edits
    ensures var e := CreateEdit(fs, tools, audioPath, videoPath, outputDir, al, false);
      p in e.fs.present && p in e.fs.edits && e.fs.edits[p] == fs.edits[p]
  {
  }
}
