# auto-transcode, modelled in Dafny

auto-transcode moves live-stream recordings through a pipeline that runs without supervision:

1. A watcher process walks its directories. It picks out every `.flv` recording that has its `.xml` danmaku sidecar and has not been modified for a configured delay.
2. It hands the path of each such recording to a callback.
3. The transcode callback reuses an AV1 re-encode already in `CACHE_DIR`, or produces one with ffmpeg, and validates it against the source.
4. When re-encoding saves no space, the callback substitutes a copy of the source.
5. It moves the video and its sidecar to `SAVE_DIR` without overwriting anything.
6. It deletes the source and its sidecar only after the video saved under the nominal name validates.

Settings come from environment variables and are checked once, at start-up. A small helper script sorts `requirements.txt`.

This project contains:

- a model of the code that makes those decisions;
- proofs of what the code promises: the acceptance rule, the collision-free move, and that, for a recording outside CACHE_DIR (a source path spelled differently from its cached target), however a call ends, even by an exception, the source and its sidecar change only after the saved video validated. Also the start-up check and the sorter's output.

The model follows the code wherever the design of the pipeline and the code differ:

- **Sidecar check.** Validation compares only durations and codecs. Nothing checks that the saved sidecar has the same bytes as the original.
- **Final check.** It probes the nominal `SAVE_DIR/<basename>.mp4`. After a name collision, that is the older file, not the one just moved there (`Transcode.CollisionChecksOlderFile`).
- **Probe failures.** A probe failure during duration probing raises an exception. It is not treated as a validation failure.
- **Source in the cache.** Once the ffmpeg call of `auto_transcode/modules/transcode.py:114` has a defined quality setting (see Findings), a recording whose path is its own cached target, and which has no sidecar, is overwritten by the transcode and then removed, before any validated copy exists (`Transcode.SourceInCacheIsOverwritten`). As written, that call raises AttributeError before ffmpeg runs, so the source survives; with a sidecar beside it, the sidecar copy raises SameFileError first.
- **Watcher filter.** The watcher accepts only `.flv` files that have a sidecar. The filter is fixed; no stage chooses its own extension.

## Structure

| file | module | models |
|---|---|---|
| `wrappers.dfy` | `Wrappers` | `Option` and `Result` |
| `strings.dfy` | `Strings` | `str.rfind`, `str.split` and `sep.join` for one character, `str(n)` for natural numbers |
| `os_path.dfy` | `OsPath` | `os.path.join`, `os.path.split` and `os.path.splitext` as POSIX Python defines them |
| `os.dfy` | `Os` | the exceptions the core raises; a class `FileSystem` whose `files` map (path to bytes) is changed by `copyfile` and `remove` |
| `file_util.dfy` | `FileUtil` | `auto_transcode/utils/file.py` |
| `watcher.dfy` | `Watcher` | `WatcherProcess.watch` in `auto_transcode/modules/base.py` |
| `transcode.dfy` | `Transcode` | `TranscodeProcess` in `auto_transcode/modules/transcode.py` |
| `settings.dfy` | `Settings` | `auto_transcode/settings.py` |
| `sort_requirements.dfy` | `SortRequirements` | `scripts/sort_requirements.py` |

Each operation that changes state is a method. Its `ensures` equates the new state with a function of the old state:

- `Callback` with `CallbackRun`;
- `SafeMoveAndRenameFile` with `SafeMoveEffect`;
- `Init` with `LoadSettings`.

`Watch` changes no state. It is a method because the source is a pair of nested loops, and its `ensures` equates the sequence of callback calls it returns with `Selected`.

The lemmas state what the source promises about those functions.

Three things outside the program's control are parameters:

- **ffmpeg's probe.** An oracle on a file's bytes. `None` means ffmpeg raised.
- **The one transcode run of a call.** Either the output it wrote, or the error it raised after writing part of an output or nothing.
- **The host seen by the settings loaders.** The environment, `os.path.isdir` and `float()`.

## Model

| member | source | states |
|---|---|---|
| Transcode.CallbackSections | auto_transcode/modules/transcode.py:31-71 | a source path that does not end in ".mp4" fails the `assert` and leaves the filesystem unchanged; when `splitext` of its file name gives the extension ".mp4" (so not for a name such as ".mp4" or "..mp4"), the callback is the three sections run on the derived paths, and those paths have the ".mp4"/".xml" shapes their names say |
| Transcode.Callback | auto_transcode/modules/transcode.py:31-71 | the callback's final filesystem and outcome (rejected, kept, completed, or the exception raised) are exactly those of the call's specification |
| Transcode.Produce | auto_transcode/modules/transcode.py:40-53 | the transcode section either continues with exactly the specified filesystem or stops with the specified filesystem and outcome |
| Transcode.Compress | auto_transcode/modules/transcode.py:55-62 | the compression section behaves as specified, including the `FileNotFoundError` from `getsize` and the `ZeroDivisionError` of an empty target |
| Transcode.Relocate | auto_transcode/modules/transcode.py:64-71 | the relocation section behaves as specified: two collision-free moves, the final check, then removal of the source and its sidecar |
| Transcode.TranscodeVideo | auto_transcode/modules/transcode.py:111-121 | after `transcode` the target holds ffmpeg's output, or, after an ffmpeg error, no file is left at the target; nothing else changes |
| Transcode.ToolFailureLeavesNoTarget | auto_transcode/modules/transcode.py:116-121 | after an ffmpeg error the filesystem is the old one without the target, whatever ffmpeg had written |
| Transcode.TranscodeThenRemove | auto_transcode/modules/transcode.py:47-51 | transcoding and then removing the target leaves the same filesystem as removing it alone |
| Transcode.ValidateVideoIff | auto_transcode/modules/transcode.py:73-109 | a target is accepted if and only if it exists, both durations probe and differ by at most one second, the source codec is not "av1" and the target codec is "av1"; validation raises if and only if the source or an existing target cannot be probed |
| Transcode.DurationTolerance | auto_transcode/modules/transcode.py:96-101 | the one-second tolerance is inclusive: a difference of exactly one second passes and any larger difference fails |
| Transcode.SameContentNeverValidates | auto_transcode/modules/transcode.py:103-107 | a file never validates against a file with identical bytes |
| Transcode.ValidateVideoLocal | auto_transcode/modules/transcode.py:73-109 | validation depends only on the bytes stored at the two paths it is given |
| Transcode.NamesEndings | auto_transcode/modules/transcode.py:33-38 | the cached, saved and source video paths end in ".mp4" and every sidecar path ends in ".xml" |
| Transcode.NamesDistinct | auto_transcode/modules/transcode.py:36-38 | no video path of a call coincides with a sidecar path, and the source is neither sidecar |
| Transcode.NamesSeparate | auto_transcode/modules/transcode.py:33-38 | for a source whose path is spelled differently from its cached target, the source, cached target and cached sidecar are all distinct |
| Transcode.CachedOutputIsReused | auto_transcode/modules/transcode.py:41-42 | a cached target that already validates is reused: nothing is copied or transcoded, and the whole call does not depend on ffmpeg's behaviour |
| Transcode.ProduceRejection | auto_transcode/modules/transcode.py:43-52 | a rejection in the transcode section happens only when the cached target did not validate; it leaves the copied sidecar in CACHE_DIR and removes the target |
| Transcode.RejectedInProduce | auto_transcode/modules/transcode.py:48-52 | a call that ends rejected ended in the transcode section |
| Transcode.OnlyProduceRejects | auto_transcode/modules/transcode.py:55-71 | the compression section can stop only by raising, and relocation never rejects |
| Transcode.RejectionCleansUp | auto_transcode/modules/transcode.py:43-52 | a rejected call changes exactly two things (the sidecar copied to CACHE_DIR, nothing left at the cached target) and, when the source's path is spelled differently from the cached target, keeps the source and its sidecar byte for byte |
| Transcode.CopyThenRemoveFrame | auto_transcode/modules/transcode.py:44-51 | copying a sidecar and then removing the target removes the target, creates only the copy and changes nothing else |
| Transcode.ProduceFrame | auto_transcode/modules/transcode.py:40-53 | the transcode section, whether it continues, rejects or raises, changes no file other than the cached target and the cached sidecar |
| Transcode.ProduceStops | auto_transcode/modules/transcode.py:40-53 | the transcode section ends the call only by rejecting or by raising |
| Transcode.SubstitutionCopiesSource | auto_transcode/modules/transcode.py:55-62 | when the source is at least as large as a non-empty target, the target is replaced by the source's bytes and nothing else changes; a smaller target is kept |
| Transcode.CompressionFrame | auto_transcode/modules/transcode.py:55-62 | the compression section, whether it continues or raises, changes no file other than the cached target |
| Transcode.MoveFrame | auto_transcode/modules/transcode.py:64-68 | the two moves succeed if and only if the cached video and sidecar exist; they leave all other files as they were and, when the save path is free, put the video's bytes there |
| Transcode.RelocationRemovesOnlyAfterValidation | auto_transcode/modules/transcode.py:69-71 | the source or its sidecar disappears or changes in the relocation section only after both moves succeeded and the video at the nominal save path validated |
| Transcode.RelocationCompletes | auto_transcode/modules/transcode.py:64-71 | relocation completes if and only if the moves succeed, the nominal save path validates and the source's sidecar exists; it has then removed both source files |
| Transcode.KeptAfterMoves | auto_transcode/modules/transcode.py:64-71 | a call kept at the final check ends with the moved files as they are |
| Transcode.KeptLeavesSources | auto_transcode/modules/transcode.py:69-71 | a call kept at the final check leaves the source and its sidecar as they were |
| Transcode.CollisionChecksOlderFile | auto_transcode/modules/transcode.py:65-69 | when the save path was already taken, the final check judges the file that was already there, not the one just moved |
| Transcode.RelocatedRun | auto_transcode/modules/transcode.py:40-71 | a call that ends kept or completed passed the transcode and compression sections, and its result is the relocation of their output |
| Transcode.SourceChangesOnlyAfterCheck | auto_transcode/modules/transcode.py:40-71 | however a call ends, including by any exception, if the source or its sidecar disappears or changes, then the transcode and compression sections went through, both moves succeeded and the video at the nominal save path validated (for a source spelled differently from its cached target) |
| Transcode.SourceKeptUnlessCompleted | auto_transcode/modules/transcode.py:40-71 | a rejected or kept call leaves the source and its sidecar byte for byte, and a completed call has removed both (for a source spelled differently from its cached target) |
| Transcode.SubstitutedSourceIsKept | auto_transcode/modules/transcode.py:55-71 | when the cached target was swapped for a copy of the source and the save path was free, the final check compares the source with itself: the call never completes and the source survives |
| Transcode.SourceInCacheIsRejected | auto_transcode/modules/transcode.py:36-52 | a source whose path equals its cached target (a recording in CACHE_DIR) can never validate: the call rejects or raises in the transcode section and never reaches SAVE_DIR |
| Transcode.SourceInCacheIsOverwritten | auto_transcode/modules/transcode.py:44-52 | a source whose path equals its cached target, with no sidecar beside it and a duration the probe can read, is lost: afterwards its path holds at most ffmpeg's output, and after an ffmpeg error nothing at all |
| Transcode.AsWrittenAgreesWithoutTranscode | auto_transcode/modules/transcode.py:40-71 | when no fresh transcode is needed, the code as written behaves like the intended code |
| Transcode.AsWrittenNeverTranscodes | auto_transcode/modules/transcode.py:113-116 | as written, every call whose cached target does not validate raises AttributeError right after the sidecar copy, and no new video is written |
| Transcode.AsWrittenOnlyReusesCache | auto_transcode/modules/transcode.py:40-71 | as written, no call is ever rejected, and a call completes only by reusing a cached target that already validated |
| Transcode.FreshTranscodeContinues | auto_transcode/modules/transcode.py:43-53 | as intended, a fresh transcode whose output validates continues to the compression section, with the output in the cache and the sidecar beside it; as written, the same call stops |
| FileUtil.FirstVideoCodec | auto_transcode/utils/file.py:40-42 | a codec is found if and only if some stream is a video stream, and it is the codec of the first such stream |
| FileUtil.GetVideoCodecName | auto_transcode/utils/file.py:30-42 | returns the first video stream's codec, or None when the probe fails or no stream is video |
| FileUtil.FirstVideoCodecAt | auto_transcode/utils/file.py:40-42 | the codec at the first video stream met by the loop is the one reported |
| FileUtil.CandidateShape | auto_transcode/utils/file.py:71-75 | a suffixed candidate is the destination with "_" and the number `k + 1` inserted before its extension |
| FileUtil.CandidatesDistinct | auto_transcode/utils/file.py:71-79 | different duplicate counts give different names, so each recursive call tries a new name |
| FileUtil.CandidateIndex | auto_transcode/utils/file.py:71-79 | every name among the first `k` tried is the name for some count below `k` |
| FileUtil.CandidateIsNew | auto_transcode/utils/file.py:71-79 | the `k`-th name tried is not among those tried before it |
| FileUtil.CandidateSetSize | auto_transcode/utils/file.py:71-79 | the first `k` names tried are `k` different names |
| FileUtil.CandidatesOccupy | auto_transcode/utils/file.py:77-79 | if the first `k` names are all taken, at least `k` files exist, so the recursion ends |
| FileUtil.SubsetCard | auto_transcode/utils/file.py:77-79 | a subset is no larger than the set that contains it (used for termination) |
| FileUtil.FreeIndex | auto_transcode/utils/file.py:77-79 | the search stops at a name that is free, and every name tried before it was taken |
| FileUtil.FreeIndexIsFirstAbsent | auto_transcode/utils/file.py:71-79 | the count the search stops at is the first one whose name is free |
| FileUtil.DestinationIsFirstFree | auto_transcode/utils/file.py:59-83 | the file lands on a name that was free, is one of the candidates, and is the requested name when that was free: nothing is overwritten |
| FileUtil.SafeMoveFrame | auto_transcode/utils/file.py:77-82 | a missing source raises FileNotFoundError and changes nothing; otherwise the bytes land at the destination, the source is gone and every other file is untouched |
| FileUtil.SafeMoveWithoutCollision | auto_transcode/utils/file.py:81-82 | with a free destination, the move is a rename |
| FileUtil.SafeMoveAndRenameFile | auto_transcode/utils/file.py:59-83 | the recursion over duplicate counts, as a loop, leaves exactly the specified filesystem and exception |
| FileUtil.ExampleNameSplits | auto_transcode/utils/file.py:66-68 | "b.txt" splits into "b" and ".txt" |
| FileUtil.CandidateExamples | auto_transcode/utils/file.py:64-69 | the names tried for "b.txt" are "b.txt", "b_2.txt" and "b_3.txt", as the docstring's examples say |
| Watcher.Watch | auto_transcode/modules/base.py:63-81 | the nested loops call the callback on exactly the specified paths, in walk order |
| Watcher.SelectedInWitness | auto_transcode/modules/base.py:64-81 | every path called for in one directory is the joined path of a listed file that qualifies |
| Watcher.SelectedInHas | auto_transcode/modules/base.py:64-81 | every listed file that qualifies is called for |
| Watcher.SelectedInExactly | auto_transcode/modules/base.py:64-81 | within one directory, a path is called for if and only if it is the joined path of a listed file that qualifies |
| Watcher.SelectedByDirectory | auto_transcode/modules/base.py:63-81 | a path is called for in the walk if and only if it is called for in one of the walked directories |
| Watcher.SelectedExactly | auto_transcode/modules/base.py:63-81 | a path is called for if and only if some walked file has the extension ".flv", its ".xml" sidecar exists, it was modified more than `delay` seconds before now, and its joined path is that path |
| Watcher.NoDuplicatesConcat | auto_transcode/modules/base.py:63-64 | the calls of two directories whose paths are disjoint contain no duplicates |
| Watcher.SelectedInOnce | auto_transcode/modules/base.py:64-81 | within one directory, with distinct file names, each path is called at most once, and only for visited paths |
| Watcher.SelectedOnce | auto_transcode/modules/base.py:63-81 | over a walk that visits each path once, each path is called at most once, and only for visited paths |
| Watcher.QualifyingEdges | auto_transcode/modules/base.py:68-81 | a file without the ".flv" extension, or without its sidecar, is never called for, and neither is one modified exactly `delay` seconds before now |
| Watcher.WalkedIn | auto_transcode/modules/base.py:64-65 | the i-th path visited in a directory is `os.path.join(root, files[i])` |
| Settings.Settings.Init | auto_transcode/settings.py:24-55 | if a required setting is missing or invalid, `init` exits with status 1 and assigns nothing; otherwise every attribute holds its loaded value |
| Settings.Settings.constructor | auto_transcode/settings.py:14-22 | before `init`, no attribute is assigned |
| Settings.LoadSettingsIff | auto_transcode/settings.py:26-46 | `init` succeeds if and only if all seven required settings load |
| Settings.RequiredHaveNoDefault | auto_transcode/settings.py:26-46 | an unset setting among the six without a default makes `init` exit |
| Settings.WakeupTimeDefault | auto_transcode/settings.py:32 | an unset WAKEUP_TIME reads as 60 seconds |
| Settings.LogFileOptional | auto_transcode/settings.py:33-46 | LOG_FILE is optional: unsetting it never changes whether `init` succeeds, and it then stays None |
| Settings.LoadStrUnset | auto_transcode/settings.py:57-66 | `load_str` returns None if and only if the variable is unset and there is no default; a set variable's value wins over the default |
| Settings.LoadDirIff | auto_transcode/settings.py:68-76 | `load_dir` returns a value if and only if `load_str` returned it and it names an existing directory |
| Settings.LoadDirs | auto_transcode/settings.py:78-90 | the loop returns exactly the specified list of directories, or None |
| Settings.LoadDirsIff | auto_transcode/settings.py:78-90 | `load_dirs` accepts if and only if every non-empty comma-separated segment is a directory; it then returns every segment, empty ones included, so that joining them with commas gives back the value |
| Settings.LoadDirsRejectsBadSegment | auto_transcode/settings.py:84-89 | one non-empty segment that is not a directory rejects the whole list |
| Settings.LoadFloatIff | auto_transcode/settings.py:92-103 | `load_float` returns a number if and only if there is a value and `float()` accepts it |
| Settings.LoadNonNegativeFloatIff | auto_transcode/settings.py:105-113 | `load_non_negative_float` accepts exactly the parsed values that are not negative, zero included |
| SortRequirements.SortedLinesProperties | scripts/sort_requirements.py:5 | the lines kept are sorted case-insensitively, are a permutation of the stripped non-empty lines, and keep their input order among equal keys |
| SortRequirements.OutputLinesClean | scripts/sort_requirements.py:5 | every line kept is non-empty, stripped and free of newlines |
| SortRequirements.Idempotent | scripts/sort_requirements.py:3-8 | running the script on its own output writes the same text again |
| SortRequirements.EmptyInput | scripts/sort_requirements.py:8 | an empty file is rewritten as a single newline |
| SortRequirements.NewlineOnly | scripts/sort_requirements.py:5 | a file holding only a newline contributes no line |
| SortRequirements.FileLinesOfOutput | scripts/sort_requirements.py:3-8 | reading the written text back line by line gives each written line (non-empty list, no newlines inside) followed by its newline |
| SortRequirements.StrippedTerminated | scripts/sort_requirements.py:5 | stripping newline-terminated clean lines gives them back |
| SortRequirements.FileLinesShape | scripts/sort_requirements.py:3-5 | every line read from the file has no newline except possibly a final one |
| SortRequirements.StrippedClean | scripts/sort_requirements.py:5 | every line of such a file that survives stripping is clean |
| SortRequirements.StrippedMember | scripts/sort_requirements.py:5 | every line read from a file that survives stripping is clean |
| SortRequirements.StrippedCons | scripts/sort_requirements.py:5 | the filter handles the first line, then the rest |
| SortRequirements.StripOneLine | scripts/sort_requirements.py:5 | stripping a line read from the file leaves a clean line or nothing |
| SortRequirements.OneLineOf | scripts/sort_requirements.py:3-5 | a newline-free piece is a line, with or without its newline |
| SortRequirements.Terminated | scripts/sort_requirements.py:8 | one written line per kept line, each followed by exactly one newline |
| SortRequirements.JoinAppendEmpty | scripts/sort_requirements.py:8 | joining with a trailing empty line appends the separator |
| SortRequirements.SortSorted | scripts/sort_requirements.py:5 | `sorted` yields lines in non-decreasing lower-cased order |
| SortRequirements.SortPermutes | scripts/sort_requirements.py:5 | `sorted` keeps every line exactly as often as it occurs |
| SortRequirements.SortStable | scripts/sort_requirements.py:5 | `sorted` is stable: lines with equal lower-cased keys keep their input order |
| SortRequirements.SortOfSorted | scripts/sort_requirements.py:5 | sorting already sorted lines changes nothing |
| SortRequirements.InsertSorted | scripts/sort_requirements.py:5 | one step of the sort keeps the lines sorted |
| SortRequirements.InsertPermutes | scripts/sort_requirements.py:5 | one step of the sort adds exactly one occurrence of the inserted line |
| SortRequirements.InsertMembers | scripts/sort_requirements.py:5 | one step of the sort adds no line other than the inserted one |
| SortRequirements.InsertWithKey | scripts/sort_requirements.py:5 | one step of the sort places the inserted line after every line with the same key |
| SortRequirements.InsertAtEnd | scripts/sort_requirements.py:5 | a line whose key is not below any other is appended |
| SortRequirements.ConsSorted | scripts/sort_requirements.py:5 | a line whose key is not above the key of any line of a sorted sequence can go in front of it |
| SortRequirements.KeyBelowAll | scripts/sort_requirements.py:5 | a line whose key is strictly below the head of a sorted sequence shares its key with no line in it |
| SortRequirements.WithKeyAppend | scripts/sort_requirements.py:5 | the lines of one key in a concatenation are those of each part, in order |
| SortRequirements.WithKeyNone | scripts/sort_requirements.py:5 | lines none of which has key `k` contribute no line of key `k` |
| SortRequirements.LexLeRefl | scripts/sort_requirements.py:5 | string comparison is reflexive |
| SortRequirements.LexLeTotal | scripts/sort_requirements.py:5 | any two strings compare one way or the other |
| SortRequirements.LexLeTrans | scripts/sort_requirements.py:5 | string comparison is transitive |
| SortRequirements.StripIdempotent | scripts/sort_requirements.py:5 | stripping a stripped line changes nothing |
| SortRequirements.StripNewline | scripts/sort_requirements.py:5 | a line's trailing newline does not change its strip |
| SortRequirements.StripInside | scripts/sort_requirements.py:5 | stripping introduces no character that the line did not contain |
| SortRequirements.LStrip | scripts/sort_requirements.py:5 | the left strip is a suffix of the line that does not start with whitespace |
| SortRequirements.RStrip | scripts/sort_requirements.py:5 | the right strip is a prefix of the line that does not end with whitespace |
| OsPath.SplitExtParts | auto_transcode/modules/base.py:66 | `splitext` parts concatenate back to the path, and the extension is empty or a dot followed by neither dot nor slash |
| OsPath.SplitAtLastDot | auto_transcode/modules/base.py:66 | when the last dot lies in the final component after a non-dot character, `splitext` splits there and the two parts make up the path |
| OsPath.LastDotExtension | auto_transcode/modules/base.py:66 | what follows the last dot of the final component holds no further dot and no slash |
| OsPath.SplitExtOfStemAndExt | auto_transcode/utils/file.py:72-73 | a stem whose final component has a non-dot character, followed by a dotted extension, splits into exactly those two parts |
| OsPath.SplitExtOfPlainName | auto_transcode/modules/transcode.py:34 | a plain file name not starting with a dot splits at the dot of its extension |
| OsPath.NoExtensionAfterLeadingDot | auto_transcode/modules/base.py:66-69 | ".flv" has no extension; with `Watcher.QualifyingEdges` a file of that name never qualifies |
| OsPath.JoinEndsWith | auto_transcode/modules/transcode.py:36-38 | a joined path ends with its second part, and an absolute second part replaces the first |
| OsPath.SplitJoinedName | auto_transcode/modules/transcode.py:33 | splitting a directory joined with a plain name gives the name back |
| OsPath.StripTrailingSlashes | auto_transcode/modules/transcode.py:33 | the head that `split` returns loses its trailing slashes and nothing else |
| OsPath.RFindPrefix | auto_transcode/modules/transcode.py:34 | text without `c` appended after a string does not move the last `c` |
| Strings.RFind | auto_transcode/modules/transcode.py:33-34 | the index returned holds the character and no later index does, or it is -1 |
| Strings.RFindAfterLast | auto_transcode/modules/transcode.py:34 | the last occurrence is found, however long the tail without it |
| Strings.Split | auto_transcode/settings.py:83 | `split` yields at least one piece, none containing the separator |
| Strings.JoinSplit | auto_transcode/settings.py:83 | joining the pieces of a split gives back the string |
| Strings.SplitJoin | scripts/sort_requirements.py:8 | splitting a join of separator-free pieces gives back the pieces |
| Strings.NatToString | auto_transcode/utils/file.py:73 | `str(n)` is a non-empty string of decimal digits |
| Strings.ParseNatToString | auto_transcode/utils/file.py:73 | `str(n)` reads back as `n` |
| Strings.NatToStringInjective | auto_transcode/utils/file.py:73 | different counts print differently |
| Os.FileSystem.Exists | auto_transcode/modules/transcode.py:44 | `os.path.exists` is true if and only if a file is stored at the path |
| Os.FileSystem.GetSize | auto_transcode/modules/transcode.py:56-57 | `getsize` returns the number of bytes stored at the path, or raises FileNotFoundError |
| Os.FileSystem.CopyFile | auto_transcode/utils/file.py:81 | `copyfile` creates or overwrites the destination with the source's bytes; it raises on a missing source and on copying a file onto itself |
| Os.FileSystem.Remove | auto_transcode/utils/file.py:82 | `os.remove` removes exactly that file, or raises FileNotFoundError |
| Os.FileSystem.Write | auto_transcode/modules/transcode.py:113-115 | ffmpeg's output overwrites the target and changes nothing else |

## Left out

- Process supervision is not modelled. This covers `WatcherProcess.run`, signal handling, `time.sleep`, `multiprocessing`, `auto_transcode/main.py` and the remux stage (`auto_transcode/modules/remux.py`). These are scheduling and I/O around the core.
- `TranscodeProcess.main` is not modelled. It passes `ext=".mp4"` to `watch`, which takes no such parameter, so the call raises TypeError. It is also outside the modelled core.
- `auto-transcode/watcher.py` and `auto_transcode/utils/logger.py` are not part of this model. Logging is left out everywhere, including the `logger.error` calls in the `except` block of `transcode`.
- `get_video_metadata` is the probe oracle. Its `ffmpeg.Error` is the oracle's `None`. What ffmpeg reports about a file, and the re-encode itself, are outside the model.
- A missing `format.duration`, `streams`, `codec_type` or `codec_name` key raises KeyError in the source. The model's probe always reports these keys.
- The `None` test in `get_video_duration` is left out. `ffmpeg.probe` either raises or returns a dict there, so the test is never true.
- Directories are not modelled. `os.path.exists` on a directory, `copyfile` into a missing directory, and permission errors are not represented.
- Durations are real numbers, not IEEE doubles. NaN and infinities from the probe or from `float()` are not represented.
- `Transcode.CompressionPhase` compares sizes exactly, as `|source| >= |target|`. For files of fewer than 2^53 bytes this agrees with the source's float division `source_size / target_size >= 1.0`; larger files are left out.
- `Settings.LoadFloat`: `float()` is an oracle from strings to reals. The grammar Python accepts, and a NaN result (which passes the `< 0` test), are not modelled.
- `Watcher.Watch` reads the clock once, as `now`. The source calls `time.time()` for each file.
- `Watcher.Watch` does not capture an exception escaping the callback, which ends the walk in the source. The callback's calls are given as one sequence, and their effect on later files of the same walk is not fed back.
- `Watcher.Watch`: `os.walk` is given as its sequence of directory listings. Errors during the walk, which `os.walk` ignores, and a file vanishing before `getmtime` are not modelled.
- `Transcode.KeptLeavesSources`: the sidecar clause is stated only where the source's sidecar path differs from the cached sidecar path. In the model they can coincide for a source spelled differently from its cached target: with cache `d` and source `d//x.mp4`, both sidecar paths are `d/x.xml` while the target `d/x.mp4` differs from the source. On disk the two sidecar paths name one file only when the source is its own cached target, and such a source never gets past the transcode section (`Transcode.SourceInCacheIsRejected`), so the restriction leaves out no run that reaches the relocation section on disk.
- `Transcode.SourceKeptUnlessCompleted`: the sidecar clause is restricted the same way.
- `Transcode.SourceChangesOnlyAfterCheck`: the sidecar clause is restricted the same way.
- Paths are compared as strings: no normalisation, no symbolic links, no `os.path.samefile`. `shutil.copyfile` raises SameFileError here only for textually equal paths. "Outside CACHE_DIR" in the lemmas means a source path spelled differently from its cached target. A source reached through another spelling of CACHE_DIR, such as `c//x.mp4` for the cache `c`, is on disk its own cached target. With the ffmpeg call of line 114 fixed, as the main model takes it, such a source would be lost on disk as `Transcode.SourceInCacheIsOverwritten` describes, but the model treats the two paths as separate files.
- `FileUtil.SafeMoveAndRenameFile`: the model always finds a free name. The source recurses once per taken name, so about a thousand taken candidates raise RecursionError. That error is not modelled.
- `Transcode.TranscodeEffect`: the `except` block at `auto_transcode/modules/transcode.py:116-121` decodes ffmpeg's stdout and stderr as UTF-8 before it removes the output. Output that is not valid UTF-8 raises UnicodeDecodeError there, so the partial output stays at the target and the exception escapes the callback. The model assumes the decoding succeeds, so `Transcode.ToolFailureLeavesNoTarget` and `Transcode.TranscodeVideo` state that no file is left.
- `SortRequirements.LowerChar`: `str.lower` is modelled for ASCII letters only. Python's full Unicode case mapping, including mappings that change a string's length, is left out.
- `SortRequirements.FileLines`: lines are split at "\n" only. Opening a file in text mode also turns "\r\n" and "\r" into "\n".
- Opening, reading and writing `requirements.txt` (`scripts/sort_requirements.py:3` and `:7`) are outside the model. The model is the transform from the text read to the text written.
- `Transcode.CallbackRun`: the main model treats `Settings.CONSTANT_QUALITY` as defined, so that ffmpeg runs. The code as written raises instead; see Findings.

## Findings

| source | as written | input that shows it | evidently intended | confidence | as-written member | corrected member |
|---|---|---|---|---|---|---|
| auto_transcode/modules/transcode.py:114 | The ffmpeg call reads `Settings.CONSTANT_QUALITY`, which `Settings` never declares or assigns (auto_transcode/settings.py:14-55). Building the call therefore raises AttributeError. That exception escapes the `except ffmpeg.Error` at line 116 and ends the callback right after the sidecar copy. | any call whose cached target does not validate, for example a fresh recording with no file in CACHE_DIR | the encoder runs with a configured constant-quality value, and a validating output continues to the compression check | not executed | Transcode.AsWrittenNeverTranscodes | Transcode.FreshTranscodeContinues |
