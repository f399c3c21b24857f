# vdjedit: a verified model of the decision core of `create-vdjedit.py`

`create-vdjedit.py` pairs audio files with videos of the same stem. For
each pair it writes a VirtualDJ `.vdjedit` descriptor that lays the video
over the audio at the offset an alignment library finds. This project
models the deterministic part of that script in Dafny and proves its
properties. The script's external calls (mutagen, ffmpeg, the alignment
library, file sizes) appear as uninterpreted fields of a `Tools` value. The
disk is a value: the set of paths that exist, plus the descriptors written.

Modules, one file each:

- `wrappers.dfy` (`Wrappers`): `Option` and `Result`.
- `text.dfy` (`Text`): the `str` operations the script uses (`in`,
  `split`, `strip`, `upper`), and the suffix test a `*<ext>` glob pattern
  performs.
- `numbers.dfy` (`Numbers`): `float()` on plain decimal text.
- `paths.dfy` (`Paths`): `Path / name`, `.name` and `.stem`.
- `ordering.dfy` (`Ordering`): string order and `sorted(set(...))`.
- `probe.dfy` (`Probe`): reading `Duration: HH:MM:SS.ff,` out of ffmpeg's
  stderr.
- `edit.dfy` (`Edit`): the descriptor's clip placement, overlap length and
  file name.
- `emit.dfy` (`Emit`): `get_media_length` and `create_vdjedit` over the disk
  value.
- `discovery.dfy` (`Discovery`): globbing the audio files and looking up a
  video.
- `run.dfy` (`Run`): the loop of `main`, which visits each stem once, runs
  two existence checks, and keeps the created/skipped/failed counters.

The loop is a function `Loop(step, fs0, files)` over any per-file step.
`Loop(StepOf(cfg), fs0, files)` is the script's own loop. The method
`Run.ProcessFiles` executes that loop imperatively, and its loop invariant
ties it to the function.

Where the code and its documentation differ, this model follows the code:

- The extension match is not case-blind on Linux and macOS, where
  pathlib globs by POSIX rules, case-sensitively. A name is found only when its extension is in lower case
  as listed or wholly in upper case, so `song.Mp3` is never found
  (`Discovery.MixedCaseIgnored`).
- At offset 0, both `pos` and `sourcepos` are zero, so "exactly one of
  them is nonzero" does not hold. What holds is "at most one"
  (`Edit.Place`).

## Model

| member | source | states |
|---|---|---|
| Edit.Place | create-vdjedit.py:88-93 | pos and sourcepos are both ≥ 0, their difference is the offset, and at least one of them is zero |
| Edit.PlaceUnique | create-vdjedit.py:88-93 | any placement with those three properties is the one the script picks (so pos = offset when offset > 0, else sourcepos = −offset) |
| Edit.OverlapLength | create-vdjedit.py:74-77 | the clip length never exceeds the audio length or the video length |
| Edit.OverlapEndsWithShorterTrack | create-vdjedit.py:74-77 | on the edit's time line, the clip ends where the first of the two tracks ends |
| Edit.OverlapNegative | create-vdjedit.py:74-77 | the length is not clamped: it is negative exactly when the offset exceeds the audio length or falls below minus the video length |
| Edit.EditNameDecodes | create-vdjedit.py:99-108 | the name is the stem, then `(Negative)` iff offset > 0, then `(Substandard)` iff score < 5, then `.vdjedit`, in that order |
| Edit.BaseNameExactly | create-vdjedit.py:99-108 | the name is plain `<stem>.vdjedit` iff offset ≤ 0 and score ≥ 5 |
| Edit.NegativeStemsCollide | create-vdjedit.py:99-108 | a stem that already ends in `(Negative)` gets the same name as the plain stem with a positive offset |
| Edit.Describe | create-vdjedit.py:65-97 | the descriptor records both paths and sizes; pos and sourcepos are ≥ 0 and at most one is nonzero; the clip is shifted by the offset, its length is `OverlapLength`, and it ends where the first of the two tracks ends |
| Edit.Tags | create-vdjedit.py:104-107 | the suffix is empty iff offset ≤ 0 and score ≥ 5, and it begins with `(Negative)` iff offset > 0 |
| Edit.EditName | create-vdjedit.py:99-108 | the name begins with the stem and is at least `.vdjedit` longer |
| Numbers.ParseWhole | create-vdjedit.py:47 | `float()` of a digit string is its value |
| Numbers.ParseFraction | create-vdjedit.py:47 | `float()` of `digits.digits` is its decimal value |
| Numbers.ParseUnpadded | create-vdjedit.py:47 | text that starts with a digit and ends without a blank parses as an unsigned number |
| Text.SplitJoin | create-vdjedit.py:42 | splitting lines joined by a newline gives those lines back |
| Text.StripPadded | create-vdjedit.py:44 | `strip()` removes exactly the surrounding blanks of a word |
| Probe.TimeText | create-vdjedit.py:44 | the time text, cut at the first `,` after `Duration:`, holds no `,` |
| Probe.TimeTextOfLine | create-vdjedit.py:44 | the time text of `  Duration: <clock>,<rest>` is exactly the clock |
| Probe.ClockSeconds | create-vdjedit.py:46-47 | a duration is only computed when the time text splits into exactly three `:` fields |
| Probe.ClockSecondsOf | create-vdjedit.py:46-47 | `HH:MM:SS.ff` reads as HH·3600 + MM·60 + SS.ff |
| Probe.LineDuration | create-vdjedit.py:43-48 | a marked line gives a duration iff its time text reads as `HH:MM:SS`, and then exactly that clock value; otherwise an error carrying its time text |
| Probe.NoColonNoDuration | create-vdjedit.py:46 | a time text with no `:`, such as `N/A`, does not unpack into `h, m, s`, so the line is an error |
| Probe.LineDurationOf | create-vdjedit.py:43-48 | an ffmpeg line `  Duration: HH:MM:SS.ff, ...` gives exactly its clock value |
| Probe.ProbeDuration | create-vdjedit.py:41-50 | the result is "no duration line" iff no line mentions `Duration:` |
| Probe.ParseProbeOutput | create-vdjedit.py:41-50 | the loop over lines with its early return computes `ProbeDuration` |
| Probe.ProbeReadsFirstMarkedLine | create-vdjedit.py:41-48 | only the first line mentioning `Duration:` decides the result, whatever follows |
| Probe.ProbeDurationOf | create-vdjedit.py:41-48 | ffmpeg output whose first marked line holds `HH:MM:SS.ff` yields that many seconds |
| Probe.ProbeWithoutMarker | create-vdjedit.py:50 | output without any marked line yields the "no duration line" error |
| Emit.MediaLength | create-vdjedit.py:26-56 | mutagen's length when it recognises the file; otherwise exactly the duration read from ffmpeg's output; every failure is one error naming the path |
| Emit.MediaLengthFromProbe | create-vdjedit.py:29-48 | a file mutagen does not recognise is measured by its first `Duration:` line |
| Emit.CreateEdit | create-vdjedit.py:58-120 | a missing audio, then a missing video, raises first with the disk unchanged; an unmeasurable file raises; an existing output is skipped iff overwrite is off; otherwise exactly that path is written with the descriptor |
| Emit.CreateEditKeepsExisting | create-vdjedit.py:110-113 | without overwriting, a descriptor already on disk is never replaced |
| Emit.OutputPath | create-vdjedit.py:100-108 | the output file's name is `EditName` of the audio file's stem |
| Emit.OutputPathOfEntry | create-vdjedit.py:100-108 | the path `create_vdjedit` derives from `dir / name` is `output / EditName(stem)` |
| Paths.BaseNameOfJoin | create-vdjedit.py:100 | the name of `dir / name` is `name` |
| Paths.StemOfExtended | create-vdjedit.py:182 | the stem of `stem + .ext` is `stem` |
| Ordering.LessIrreflexive | create-vdjedit.py:164 | no string is below itself, so a strictly sorted list holds no name twice |
| Ordering.LessTransitive | create-vdjedit.py:164 | string order is transitive |
| Ordering.LessTotal | create-vdjedit.py:164 | string order is total on distinct strings |
| Ordering.InsertSorted | create-vdjedit.py:164 | inserting into a strictly sorted list keeps it strictly sorted |
| Ordering.SortNames | create-vdjedit.py:164 | `sorted(set(...))` is strictly ascending and holds exactly the given names |
| Discovery.DiscoverAudio | create-vdjedit.py:158-164 | the audio list is strictly sorted and holds exactly the names ending in a listed extension or its upper-case form |
| Discovery.MixedCaseIgnored | create-vdjedit.py:159-161 | a mixed-case extension such as `.Mp3` is not found |
| Discovery.AudioNameEndsOtherwise | create-vdjedit.py:10-13 | no audio file name the glob finds ends in `t` |
| Discovery.MatchEndsOtherwise | create-vdjedit.py:159-161 | a name matching an extension, as written or in upper case, ends in the character the extension ends in, or its upper-case form |
| Discovery.VideoExtensionsEndOtherwise | create-vdjedit.py:15-18 | no listed video extension ends in `t` |
| Discovery.ListedVideoExtensionsEndOtherwise | create-vdjedit.py:15-18 | no selection or order of the listed video extensions holds one ending in `t` |
| Discovery.CandidatePair | create-vdjedit.py:189-198 | each extension is tried as written, then in upper case, in list order |
| Discovery.FirstVideoFound | create-vdjedit.py:189-198 | a video that is found is an existing candidate with no existing candidate before it |
| Discovery.FirstVideoAt | create-vdjedit.py:189-198 | the first existing candidate is the video found |
| Discovery.FindVideo | create-vdjedit.py:188-198 | the lookup loop with its `break`s returns the first existing candidate, or none when no candidate exists |
| Discovery.FirstVideoIgnores | create-vdjedit.py:189-198 | writing `.vdjedit` files leaves every video lookup unchanged |
| Run.Count | create-vdjedit.py:172-175 | a counter never exceeds the number of stems processed |
| Run.CountsPartition | create-vdjedit.py:173-237 | created + skipped + failed equals the number of stems processed |
| Run.ProcessAudio | create-vdjedit.py:187-237 | the verdict is "no video" iff the lookup finds none, and only a creation changes the disk |
| Run.Attempt | create-vdjedit.py:212-231 | the file is skipped iff the suffixed path exists and overwrite is off; otherwise it is created at that path or fails; only a creation changes the disk |
| Run.ProcessAudioVerdicts | create-vdjedit.py:187-237 | no video iff none found; a base skip iff `<stem>.vdjedit` exists and overwrite is off; an alignment failure iff alignment raised after the base check; a final skip or creation names the suffixed path for the alignment returned; only a creation changes the disk |
| Run.ProcessAudioAligned | create-vdjedit.py:210-237 | once a video is found, the base check passes and alignment succeeds: a skip iff the suffixed path exists and overwrite is off; otherwise a creation iff `create_vdjedit` does not raise, and a failure carrying its error iff it raises |
| Run.AttemptVerdicts | create-vdjedit.py:222-237 | the same three-way split for the second check and the call to `create_vdjedit` |
| Run.AttemptWrites | create-vdjedit.py:215-231 | a creation writes exactly the suffixed path `main` checked, with the pair's descriptor |
| Run.ProcessAudioWrites | create-vdjedit.py:187-231 | a creation writes exactly the path `main` computed, with the pair's descriptor |
| Run.MainCallNeverSkips | create-vdjedit.py:224-229 | the skip guard in `create_vdjedit` never fires when `main` calls it, because `main` checked the same path |
| Run.BaseSkipIgnoresAlignment | create-vdjedit.py:203-211 | when the base descriptor exists and overwrite is off, the alignment library's answer plays no part |
| Run.BaseCheckDecidesPlainName | create-vdjedit.py:204-227 | for a suffix-free alignment, the second check tests the same path as the first |
| Run.Loop | create-vdjedit.py:178-185 | the loop over any per-file step; what it does is stated by the `Run.Loop…` lemmas and `Run.ProcessFiles` |
| Run.LoopSeesEachStem | create-vdjedit.py:178-185 | the loop marks every stem of the list as processed, and reports each marked stem |
| Run.LoopReportsStemsOnce | create-vdjedit.py:178-185 | no stem is processed twice |
| Run.LoopReportsFirstOfEachStem | create-vdjedit.py:178-185 | the file processed for a stem is the first file of the list with that stem |
| Run.LeastNameWins | create-vdjedit.py:164-185 | on the sorted list, the file processed for a stem is the least name with that stem |
| Run.NoVideoFromStart | create-vdjedit.py:187-234 | a stem is failed for lack of a video iff no candidate existed before the run |
| Run.NoOverwriteAddsOneFilePerCreated | create-vdjedit.py:204-231 | without overwriting, no descriptor on disk before the run is replaced, and `created` equals the number of new files |
| Run.EndsOtherwiseNotDescriptor | create-vdjedit.py:108 | a name whose last letter is not the `t` of `.vdjedit` is not a descriptor name, so the `t` premises of the rerun lemmas say no audio or video name is a descriptor name |
| Run.RevisitWritesNothing | create-vdjedit.py:187-231 | without overwriting, a file whose step ran before and whose descriptor now exists writes nothing when processed again |
| Run.LoopRerun | create-vdjedit.py:178-185 | a loop whose steps write only their own descriptor and settle on a revisit changes nothing when run a second time |
| Run.RerunWritesNothing | create-vdjedit.py:178-237 | without overwriting, and with no video extension ending in `t`, a second run over the same files leaves the disk as the first run left it |
| Run.ScriptRerunWritesNothing | create-vdjedit.py:158-237 | without overwriting, a second run of the script on the audio files it found, with its own video extensions in any order, writes nothing |
| Run.HandleNewFile | create-vdjedit.py:187-237 | the imperative body of the `try` computes `ProcessAudio` |
| Run.Tally | create-vdjedit.py:207-237 | each verdict increments the one counter it belongs to |
| Run.ProcessFiles | create-vdjedit.py:178-237 | the `for` loop with `continue` computes `Loop(StepOf(cfg), ...)`, and its counters count the report |
| Run.Run | create-vdjedit.py:157-237 | `main` globs and sorts the audio files, runs the loop, and created + skipped + failed equals the number of distinct stems |

## Left out

- mutagen (`get_audio_length`, `mutagen.File`): a foreign library. Its answer per path is the `readTags` field of `Tools`. `get_audio_length` is never called by the script.
- Running ffmpeg (`subprocess.run`): external process I/O. Its stderr per path is the `probe` field of `Tools`, with None for a raised `SubprocessError`.
- `find_offset_between_files`: an external cross-correlation library. It is the uninterpreted `align` field of `Tools`, with None when it raises or its result lacks a key.
- `os.path.getsize`: the `sizeOf` field of `Tools`.
- XML tree building and minidom pretty-printing: the descriptor is a record of its attribute values (`Edit.EditDescriptor`).
- The 6-decimal rounding of `float(f"{x:.6f}")` and the `"0.0"` literals: lengths, offsets and positions are exact reals.
- argparse, the `rstrip` of directory arguments, the directory existence checks, `mkdir` and every `print`: command-line plumbing. The directories are strings in `Run.Config`. The audio directory's listing is a set of names given to `Run.Run`.
- Python `set` iteration order of `AUDIO_EXTENSIONS` and `VIDEO_EXTENSIONS`: unspecified in Python. The audio extensions are a sequence in the order the script lists them; their order does not matter, since the results are sorted. The video lookup's order is a free parameter, the `videoExtensions` field of `Run.Config`. `Discovery.ListedVideoExtensionsEndOtherwise` and `Run.ScriptRerunWritesNothing` hold for any order of `Discovery.VideoExtensions`.
- Paths, globbing and `exists` follow POSIX, case-sensitive rules. Globbing is case-sensitive on Linux and macOS, because pathlib uses POSIX rules there. On Windows `song.Mp3` would be found. On a case-insensitive volume (Windows, default macOS) `exists` matches names that differ in case.
- Numbers.ParseFloat: models `float()` on an optional sign, digits and an optional fraction, after stripping blanks. Exponents, `inf`, `nan` and underscores are not modelled.
- Text.IsSpace and Text.UpperChar: ASCII whitespace and ASCII upper-casing only.
- Paths.Join: joins with a single `/`. Path normalisation is not modelled.
- Run.Run: requires that no directory entry name contains `/`, which holds for names in a directory listing.
- Discovery.Candidates: its contract states only the number of candidates. What each candidate is, is stated by `Discovery.CandidatePair`.
- Discovery.FirstVideo: its contract states only when no video is found. Which video is found is stated by `Discovery.FirstVideoFound` and `Discovery.FirstVideoAt`.
- Exceptions other than the ones the script raises itself are not modelled: a failing `exists` call, and a write error in `open`/`write`.
