/**
 * The decisions `create_vdjedit` takes for one audio/video pair: where the
 * video starts, how long it plays, and what the descriptor file is called.
 */
module Edit {
  import opened Wrappers

  /** What the alignment library reports: the video's delay against the audio, and a confidence score. */
  datatype Alignment = Alignment(offset: real, score: real)

  /** Scores below this make the pair `(Substandard)`. */
  const SubstandardBelow: real := 5.0

  const NegativeTag := "(Negative)"
  const SubstandardTag := "(Substandard)"
  const EditExtension := ".vdjedit"

  function Abs(x: real): (r: real)
    ensures r >= 0.0 && (r == x || r == -x)
  {
    if x < 0.0 then -x else x
  }

  function Min(a: real, b: real): (r: real)
    ensures r <= a && r <= b && (r == a || r == b)
  {
    if a <= b then a else b
  }

  /** Where the video starts on the edit's time line (`pos`) and where it is read from (`sourcepos`). */
  datatype Placement = Placement(pos: real, sourcePos: real)

  /**
   * A non-positive offset starts the video at once and skips its first
   * `-offset` seconds; a positive one delays the video by `offset`.
   */
  function Place(offset: real): (p: Placement)
    ensures p.pos >= 0.0 && p.sourcePos >= 0.0
    ensures p.pos - p.sourcePos == offset
    ensures p.pos == 0.0 || p.sourcePos == 0.0
  {
    if offset <= 0.0 then Placement(0.0, Abs(offset)) else Placement(Abs(offset), 0.0)
  }

  /** The placement is the only one with both positions non-negative, at most one nonzero, and the offset between them. */
  lemma PlaceUnique(offset: real, p: Placement)
    requires p.pos >= 0.0 && p.sourcePos >= 0.0
    requires p.pos - p.sourcePos == offset
    requires p.pos == 0.0 || p.sourcePos == 0.0
    ensures p == Place(offset)
  {
  }

  /** How long the video plays: until the audio or the video runs out. It is not clamped at zero. */
  function OverlapLength(audioLength: real, videoLength: real, offset: real): (length: real)
    ensures length <= audioLength && length <= videoLength
  {
    if offset > 0.0 then Min(audioLength - offset, videoLength)
    else Min(audioLength, videoLength + offset)
  }

  /**
   * On the edit's time line the audio covers [0, audioLength) and the video
   * [pos, pos + videoLength - sourcePos); the clip starts at pos and ends
   * where the first of the two ends.
   */
  lemma OverlapEndsWithShorterTrack(audioLength: real, videoLength: real, offset: real)
    ensures var p := Place(offset);
      p.pos + OverlapLength(audioLength, videoLength, offset)
        == Min(audioLength, p.pos + videoLength - p.sourcePos)
  {
  }

  /** With lengths that are not negative, the clip length is negative exactly when the tracks do not meet. */
  lemma OverlapNegative(audioLength: real, videoLength: real, offset: real)
    requires audioLength >= 0.0 && videoLength >= 0.0
    ensures OverlapLength(audioLength, videoLength, offset) < 0.0
        <==> offset > audioLength || offset < -videoLength
  {
  }

  /** The name suffix: `(Negative)` for a delayed video, then `(Substandard)` for a low score. */
  function Tags(al: Alignment): (r: string)
    ensures r == "" <==> al.offset <= 0.0 && al.score >= SubstandardBelow
    ensures NegativeTag <= r <==> al.offset > 0.0
  {
    assert NegativeTag[1] != SubstandardTag[1];
    (if al.offset > 0.0 then NegativeTag else "")
    + (if al.score < SubstandardBelow then SubstandardTag else "")
  }

  /** The descriptor's file name for an audio stem. */
  function EditName(stem: string, al: Alignment): (name: string)
    ensures stem <= name && |name| >= |stem| + |EditExtension|
  {
    stem + Tags(al) + EditExtension
  }

  /** Reads back which suffixes a descriptor name carries after a given stem. */
  function SuffixFlags(stem: string, name: string): (r: Option<(bool, bool)>)
  {
    if |name| < |stem| + |EditExtension| || name[..|stem|] != stem
       || name[|name| - |EditExtension|..] != EditExtension
    then None
    else
      var middle := name[|stem|..|name| - |EditExtension|];
      if middle == "" then Some((false, false))
      else if middle == NegativeTag then Some((true, false))
      else if middle == SubstandardTag then Some((false, true))
      else if middle == NegativeTag + SubstandardTag then Some((true, true))
      else None
  }

  /**
   * The name is the stem, then `(Negative)` exactly when the offset is
   * positive, then `(Substandard)` exactly when the score is below 5, then
   * `.vdjedit`.
   */
  lemma EditNameDecodes(stem: string, al: Alignment)
    ensures SuffixFlags(stem, EditName(stem, al)) == Some((al.offset > 0.0, al.score < SubstandardBelow))
  {
    var name := EditName(stem, al);
    assert name[..|stem|] == stem;
    assert name[|name| - |EditExtension|..] == EditExtension;
    assert name[|stem|..|name| - |EditExtension|] == Tags(al);
  }

  /** The name is the plain `<stem>.vdjedit` exactly when neither suffix applies. */
  lemma BaseNameExactly(stem: string, al: Alignment)
    ensures EditName(stem, al) == stem + EditExtension
        <==> al.offset <= 0.0 && al.score >= SubstandardBelow
  {
    if EditName(stem, al) == stem + EditExtension {
      assert |Tags(al)| == 0;
    }
  }

  /** Names of different stems can coincide: a stem that already ends in `(Negative)`. */
  lemma NegativeStemsCollide(stem: string)
    ensures EditName(stem + NegativeTag, Alignment(0.0, SubstandardBelow))
         == EditName(stem, Alignment(1.0, SubstandardBelow))
  {
  }

  /** The video element of a descriptor. */
  datatype VideoClip = VideoClip(pos: real, sourcePos: real, length: real, source: string, sourceSize: nat)

  /** The attribute values of a `.vdjedit` file: the audio source and the video clip laid over it. */
  datatype EditDescriptor = EditDescriptor(source: string, sourceSize: nat, video: VideoClip)

  /**
   * The descriptor for a pair: the clip is shifted by the offset, with both
   * positions non-negative and at most one of them nonzero, and it ends where
   * the first of the two tracks ends, so it lies within both.
   */
  function Describe(audioPath: string, audioSize: nat, videoPath: string, videoSize: nat,
                    audioLength: real, videoLength: real, offset: real): (d: EditDescriptor)
    ensures d.source == audioPath && d.sourceSize == audioSize
    ensures d.video.source == videoPath && d.video.sourceSize == videoSize
    ensures d.video.pos - d.video.sourcePos == offset
    ensures d.video.pos + d.video.length <= audioLength
    ensures d.video.sourcePos + d.video.length <= videoLength
    ensures d.video.pos >= 0.0 && d.video.sourcePos >= 0.0 && (d.video.pos == 0.0 || d.video.sourcePos == 0.0)
    ensures d.video.pos + d.video.length == Min(audioLength, d.video.pos + videoLength - d.video.sourcePos)
    ensures d.video.length == OverlapLength(audioLength, videoLength, offset)
  {
    OverlapEndsWithShorterTrack(audioLength, videoLength, offset);
    var p := Place(offset);
    EditDescriptor(audioPath, audioSize,
      VideoClip(p.pos, p.sourcePos, OverlapLength(audioLength, videoLength, offset), videoPath, videoSize))
  }
}
