/**
 * How `main` finds its inputs: the audio files of a directory, picked by
 * extension, and for each audio stem the video of the same stem.
 *
 * The script keeps both extension lists in Python sets, whose iteration
 * order is not fixed; here they are sequences in the order the script lists
 * them.
 */
module Discovery {
  import opened Wrappers
  import opened Text
  import opened Paths
  import opened Ordering

  const AudioExtensions: seq<string> :=
    [".mp3", ".wav", ".flac", ".m4a", ".aac", ".ogg", ".wma", ".aiff", ".alac", ".opus", ".ac3"]

  const VideoExtensions: seq<string> :=
    [".mp4", ".mkv", ".avi", ".mov", ".wmv", ".flv", ".webm", ".m4v", ".mpg", ".mpeg", ".3gp", ".ts"]

  /** `dir.glob("*" + ext)` over the names in a directory: a star matches any text, dots included. */
  function Glob(names: set<string>, ext: string): (r: set<string>)
    ensures r <= names
    ensures ext == "" ==> r == names
  {
    set n | n in names && EndsWith(n, ext)
  }

  /** A name the script globs for with extension `ext`: in lower case as listed, or wholly upper case. */
  predicate MatchesExtension(name: string, ext: string)
  {
    EndsWith(name, ext) || EndsWith(name, Upper(ext))
  }

  predicate IsAudioName(name: string)
  {
    exists i :: 0 <= i < |AudioExtensions| && MatchesExtension(name, AudioExtensions[i])
  }

  /**
   * The audio files of a directory, without duplicates and in ascending
   * order: every name that ends in a listed extension or its upper-case form.
   */
  method DiscoverAudio(names: set<string>) returns (files: seq<string>)
    ensures StrictlySorted(files)
    ensures forall n :: n in files <==> n in names && IsAudioName(n)
  {
    var found: set<string> := {};
    for i := 0 to |AudioExtensions|
      invariant forall n :: n in found
                  <==> n in names && exists j :: 0 <= j < i && MatchesExtension(n, AudioExtensions[j])
    {
      var ext := AudioExtensions[i];
      found := found + Glob(names, ext) + Glob(names, Upper(ext));
    }
    files := SortNames(found);
  }

  /** Every extension is a dot followed by text without upper-case letters. */
  predicate DottedLowerCase(exts: seq<string>)
  {
    forall i :: 0 <= i < |exts| ==>
      |exts[i]| > 0 && exts[i][0] == '.' && forall k :: 0 <= k < |exts[i]| ==> !('A' <= exts[i][k] <= 'Z')
  }

  lemma AudioExtensionsLowerCase()
    ensures DottedLowerCase(AudioExtensions)
  {
    forall i | 0 <= i < |AudioExtensions|
      ensures |AudioExtensions[i]| > 0 && AudioExtensions[i][0] == '.'
      ensures forall k :: 0 <= k < |AudioExtensions[i]| ==> !('A' <= AudioExtensions[i][k] <= 'Z')
    {
      assert AudioExtensions[i] in AudioExtensions;
    }
  }

  /** `song.Mp3` ends in neither a lower-case extension nor its upper-case form. */
  lemma MixedCaseMissed(exts: seq<string>, i: nat)
    requires DottedLowerCase(exts) && i < |exts|
    ensures !MatchesExtension("song.Mp3", exts[i])
  {
    var name, e := "song.Mp3", exts[i];
    var u := Upper(e);
    assert !EndsWith(name, e) by {
      if |e| <= |name| {
        var tail := name[|name| - |e|..];
        if |e| == 4 {
          assert tail[1] == 'M' != e[1];
        } else {
          assert tail[0] != '.';
        }
      }
    }
    assert !EndsWith(name, u) by {
      if |u| <= |name| {
        var tail := name[|name| - |u|..];
        if |u| == 4 {
          assert tail[2] == 'p' != UpperChar(e[2]) == u[2];
        } else {
          assert tail[0] != '.' == UpperChar(e[0]) == u[0];
        }
      }
    }
  }

  /** A name whose extension mixes cases is not found, although a case-blind match would accept it. */
  lemma MixedCaseIgnored()
    ensures !IsAudioName("song.Mp3")
  {
    AudioExtensionsLowerCase();
    forall i | 0 <= i < |AudioExtensions|
      ensures !MatchesExtension("song.Mp3", AudioExtensions[i])
    {
      MixedCaseMissed(AudioExtensions, i);
    }
  }

  /** The extension a lookup tries `k`-th: each listed extension as written, then in upper case. */
  function ExtensionForm(exts: seq<string>, k: nat): string
    requires k < 2 * |exts|
  {
    if k % 2 == 0 then exts[k / 2] else Upper(exts[k / 2])
  }

  /** The paths the video lookup tries for a stem, in order. */
  function Candidates(exts: seq<string>, videoDir: string, stem: string): (r: seq<string>)
    ensures |r| == 2 * |exts|
  {
    seq(2 * |exts|, k requires 0 <= k < 2 * |exts| => Join(videoDir, stem + ExtensionForm(exts, k)))
  }

  /** Extension `i` is tried as written in place `2 * i` and in upper case in place `2 * i + 1`. */
  lemma CandidatePair(exts: seq<string>, videoDir: string, stem: string, i: nat)
    requires i < |exts|
    ensures Candidates(exts, videoDir, stem)[2 * i] == Join(videoDir, stem + exts[i])
    ensures Candidates(exts, videoDir, stem)[2 * i + 1] == Join(videoDir, stem + Upper(exts[i]))
  {
    assert (2 * i) % 2 == 0 && (2 * i) / 2 == i;
    assert (2 * i + 1) % 2 == 1 && (2 * i + 1) / 2 == i;
  }

  /** The video for a stem: the first candidate that exists, if any does. */
  function FirstVideo(exts: seq<string>, present: set<string>, videoDir: string, stem: string): (r: Option<string>)
    ensures var cands := Candidates(exts, videoDir, stem);
      r.None? <==> forall k :: 0 <= k < |cands| ==> cands[k] !in present
  {
    var cands := Candidates(exts, videoDir, stem);
    match FirstWhere(cands, c => c in present, 0)
    case None => None
    case Some(k) => Some(cands[k])
  }

  /** A video that is found is an existing candidate with no existing candidate before it. */
  lemma FirstVideoFound(exts: seq<string>, present: set<string>, videoDir: string, stem: string)
    requires FirstVideo(exts, present, videoDir, stem).Some?
    ensures var cands := Candidates(exts, videoDir, stem);
      exists k :: 0 <= k < |cands| && cands[k] in present && FirstVideo(exts, present, videoDir, stem) == Some(cands[k])
        && forall j :: 0 <= j < k ==> cands[j] !in present
  {
    var cands := Candidates(exts, videoDir, stem);
    var k := FirstWhere(cands, c => c in present, 0).value;
    assert cands[k] in present && forall j :: 0 <= j < k ==> cands[j] !in present;
  }

  /** The first existing candidate is the video found. */
  lemma FirstVideoAt(exts: seq<string>, present: set<string>, videoDir: string, stem: string, k: nat)
    requires k < 2 * |exts|
    requires Candidates(exts, videoDir, stem)[k] in present
    requires forall j :: 0 <= j < k ==> Candidates(exts, videoDir, stem)[j] !in present
    ensures FirstVideo(exts, present, videoDir, stem) == Some(Candidates(exts, videoDir, stem)[k])
  {
    var cands := Candidates(exts, videoDir, stem);
    FirstWhereAt(cands, c => c in present, k);
  }

  /** None of the first `n` candidates exists. */
  predicate NoneBefore(cands: seq<string>, present: set<string>, n: nat)
    requires n <= |cands|
  {
    forall j :: 0 <= j < n ==> cands[j] !in present
  }

  lemma NoneBeforeStep(cands: seq<string>, present: set<string>, n: nat)
    requires n < |cands| && NoneBefore(cands, present, n) && cands[n] !in present
    ensures NoneBefore(cands, present, n + 1)
  {
  }

  /** The lookup loop: each extension as written, then in upper case, stopping at the first path that exists. */
  method FindVideo(exts: seq<string>, present: set<string>, videoDir: string, stem: string)
    returns (video: Option<string>)
    ensures video == FirstVideo(exts, present, videoDir, stem)
  {
    ghost var cands := Candidates(exts, videoDir, stem);
    var i := 0;
    while i < |exts|
      invariant 0 <= i <= |exts|
      invariant NoneBefore(cands, present, 2 * i)
    {
      var ext := exts[i];
      var lower := Join(videoDir, stem + ext);
      CandidatePair(exts, videoDir, stem, i);
      if lower in present {
        FirstVideoAt(exts, present, videoDir, stem, 2 * i);
        return Some(lower);
      }
      NoneBeforeStep(cands, present, 2 * i);
      var upper := Join(videoDir, stem + Upper(ext));
      if upper in present {
        FirstVideoAt(exts, present, videoDir, stem, 2 * i + 1);
        return Some(upper);
      }
      NoneBeforeStep(cands, present, 2 * i + 1);
      i := i + 1;
    }
    video := None;
  }

  /** Every extension ends in a character other than `t`, in lower and in upper case. */
  predicate EndsOtherThanT(exts: seq<string>)
  {
    forall i :: 0 <= i < |exts| ==> |exts[i]| > 0 && exts[i][|exts[i]| - 1] != 't'
  }

  lemma VideoExtensionsEndOtherwise()
    ensures EndsOtherThanT(VideoExtensions)
  {
    forall i | 0 <= i < |VideoExtensions|
      ensures |VideoExtensions[i]| > 0 && VideoExtensions[i][|VideoExtensions[i]| - 1] != 't'
    {
      assert VideoExtensions[i] in VideoExtensions;
    }
  }

  /** Any order of the script's video extensions, or any selection of them, ends in characters other than `t`. */
  lemma ListedVideoExtensionsEndOtherwise(exts: seq<string>)
    requires forall i :: 0 <= i < |exts| ==> exts[i] in VideoExtensions
    ensures EndsOtherThanT(exts)
  {
    VideoExtensionsEndOtherwise();
    forall i | 0 <= i < |exts| ensures |exts[i]| > 0 && exts[i][|exts[i]| - 1] != 't' {
      var j :| 0 <= j < |VideoExtensions| && VideoExtensions[j] == exts[i];
    }
  }

  /** A name that ends in an extension, as written or in upper case, ends as the extension does. */
  lemma MatchEndsOtherwise(name: string, ext: string)
    requires |ext| > 0 && ext[|ext| - 1] != 't' && MatchesExtension(name, ext)
    ensures |name| > 0 && name[|name| - 1] != 't'
  {
    var u := Upper(ext);
    if EndsWith(name, ext) {
      assert name[|name| - 1] == name[|name| - |ext|..][|ext| - 1];
    } else {
      assert name[|name| - 1] == name[|name| - |u|..][|u| - 1] == UpperChar(ext[|ext| - 1]);
    }
  }

  /** No audio file name ends in `t`. */
  lemma AudioNameEndsOtherwise(name: string)
    requires IsAudioName(name)
    ensures |name| > 0 && name[|name| - 1] != 't'
  {
    var i :| 0 <= i < |AudioExtensions| && MatchesExtension(name, AudioExtensions[i]);
    var e := AudioExtensions[i];
    assert |e| > 0 && e[|e| - 1] != 't' by {
      assert e in AudioExtensions;
    }
    MatchEndsOtherwise(name, e);
  }

  /** No candidate path ends in `t`. */
  lemma CandidatesEndOtherwise(exts: seq<string>, videoDir: string, stem: string, k: nat)
    requires EndsOtherThanT(exts)
    requires k < 2 * |exts|
    ensures var c := Candidates(exts, videoDir, stem)[k]; |c| > 0 && c[|c| - 1] != 't'
  {
    var e := ExtensionForm(exts, k);
    var c := Join(videoDir, stem + e);
    assert c == Candidates(exts, videoDir, stem)[k];
    assert |e| > 0 && e[|e| - 1] != 't' by {
      var x := exts[k / 2];
      assert |x| > 0 && x[|x| - 1] != 't';
      if k % 2 == 1 {
        assert Upper(x)[|x| - 1] == UpperChar(x[|x| - 1]);
      }
    }
    assert c[|c| - 1] == e[|e| - 1];
  }

  /** Writing files whose names end in `t`, such as descriptors, leaves every later video lookup as it was. */
  lemma FirstVideoIgnores(exts: seq<string>, present: set<string>, written: set<string>, videoDir: string, stem: string)
    requires EndsOtherThanT(exts)
    requires forall p :: p in written ==> |p| > 0 && p[|p| - 1] == 't'
    ensures FirstVideo(exts, present + written, videoDir, stem) == FirstVideo(exts, present, videoDir, stem)
  {
    var cands := Candidates(exts, videoDir, stem);
    forall k | 0 <= k < |cands|
      ensures cands[k] in present + written <==> cands[k] in present
    {
      CandidatesEndOtherwise(exts, videoDir, stem, k);
    }
    if FirstVideo(exts, present, videoDir, stem).Some? {
      FirstVideoFound(exts, present, videoDir, stem);
      var k :| 0 <= k < |cands| && cands[k] in present && FirstVideo(exts, present, videoDir, stem) == Some(cands[k])
               && forall j :: 0 <= j < k ==> cands[j] !in present;
      FirstVideoAt(exts, present + written, videoDir, stem, k);
    }
  }
}
