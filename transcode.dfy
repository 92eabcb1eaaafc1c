/**
 * auto_transcode/modules/transcode.py, `TranscodeProcess`: for one source
 * `.mp4` recording, reuse or produce an AV1 transcode in CACHE_DIR, fall
 * back to a copy of the source when transcoding saves no space, move the
 * result and its `.xml` sidecar to SAVE_DIR, and delete the source files
 * once the saved video validates.
 *
 * `ffmpeg.probe` is the oracle `probe` on file contents, and the one
 * ffmpeg transcode run of a call is the parameter `tool`. Exceptions are
 * the status `Raised`, together with the filesystem as it was when the
 * exception left the callback.
 */
module Transcode {
  import opened Wrappers
  import opened OsPath
  import opened Os
  import opened FileUtil
  import opened Strings

  /** The settings the callback reads: `Settings.CACHE_DIR` and `Settings.SAVE_DIR`. */
  datatype Config = Config(cacheDir: Path, saveDir: Path)

  /**
   * The outcome of the ffmpeg run in `transcode`: either it wrote the whole
   * output, or it raised `ffmpeg.Error` after writing part of an output or
   * nothing at all.
   */
  datatype ToolRun = Encoded(output: Content) | ToolFailed(partial: Option<Content>)

  /** How one call of `callback` ends. */
  datatype Status =
    | Rejected             // the fresh transcode did not validate and was removed
    | Kept                 // the result was moved to SAVE_DIR, but the final check failed
    | Completed            // the result was moved and validated; the source files were removed
    | Raised(error: Error) // an exception escaped the callback

  /** The filesystem after a call, and how the call ended. */
  datatype Run = Run(files: Files, status: Status)

  /** The paths `callback` derives from `source_path`. */
  datatype Names = Names(basename: string, target: Path, xmlFrom: Path, xmlTo: Path,
                         newTarget: Path, newXml: Path)

  /** The end of a section of `callback`: go on with these files, or stop with this run. */
  datatype Phase = Continue(files: Files) | Stop(run: Run)

  /** The filesystem at the end of a section, whether the call goes on or stops there. */
  function PhaseFiles(phase: Phase): Files
  {
    match phase
    case Continue(files) => files
    case Stop(run) => run.files
  }

  function Abs(x: real): real
  {
    if x < 0.0 then -x else x
  }

  // ---------------------------------------------------------------------
  // validate_video

  /**
   * `validate_video(target_path, source_path)`: a chain of early returns.
   * Probing the source, or an existing target, raises when ffmpeg cannot
   * read the file.
   */
  function ValidateVideo(files: Files, probe: Probe, target: Path, source: Path): Result<bool, Error>
  {
    match VideoDuration(files, probe, source)
    case Err(e) => Err(e)
    case Ok(sourceDuration) =>
      if target !in files then Ok(false)
      else
        match VideoDuration(files, probe, target)
        case Err(e) => Err(e)
        case Ok(targetDuration) =>
          if Abs(sourceDuration - targetDuration) > 1.0 then Ok(false)
          else
            var sourceCodec := VideoCodecName(files, probe, source);
            var targetCodec := VideoCodecName(files, probe, target);
            Ok(!(sourceCodec == Some("av1") || targetCodec != Some("av1")))
  }

  /**
   * The acceptance rule: the target is accepted exactly when it exists, both
   * durations probe and differ by at most one second, the source's codec
   * is not "av1" and the target's is; it raises exactly when the source, or
   * the existing target, cannot be probed.
   */
  lemma ValidateVideoIff(files: Files, probe: Probe, target: Path, source: Path)
    ensures ValidateVideo(files, probe, target, source) == Ok(true) <==>
              && VideoDuration(files, probe, source).Ok?
              && target in files
              && VideoDuration(files, probe, target).Ok?
              && Abs(VideoDuration(files, probe, source).value - VideoDuration(files, probe, target).value) <= 1.0
              && VideoCodecName(files, probe, source) != Some("av1")
              && VideoCodecName(files, probe, target) == Some("av1")
    ensures ValidateVideo(files, probe, target, source).Err? <==>
              || VideoDuration(files, probe, source).Err?
              || (target in files && VideoDuration(files, probe, target).Err?)
  {
  }

  /** The duration tolerance is inclusive: one second passes, anything more fails. */
  lemma DurationTolerance(files: Files, probe: Probe, target: Path, source: Path)
    requires target in files
    requires VideoDuration(files, probe, source).Ok? && VideoDuration(files, probe, target).Ok?
    requires VideoCodecName(files, probe, source) != Some("av1")
    requires VideoCodecName(files, probe, target) == Some("av1")
    ensures var diff := VideoDuration(files, probe, source).value - VideoDuration(files, probe, target).value;
            && (diff == 1.0 || diff == -1.0 ==> ValidateVideo(files, probe, target, source) == Ok(true))
            && (Abs(diff) > 1.0 ==> ValidateVideo(files, probe, target, source) == Ok(false))
  {
  }

  /**
   * A file never validates against a file with the same bytes: both report
   * the same codec, which cannot be "av1" and not "av1" at once.
   */
  lemma SameContentNeverValidates(files: Files, probe: Probe, target: Path, source: Path)
    requires target in files && source in files && files[target] == files[source]
    ensures ValidateVideo(files, probe, target, source) != Ok(true)
  {
    assert VideoCodecName(files, probe, source) == VideoCodecName(files, probe, target);
  }

  // ---------------------------------------------------------------------
  // transcode

  /**
   * What `transcode(source_path, target_path)` leaves at `target`: the
   * output, or, after an ffmpeg error, nothing, whatever ffmpeg wrote or
   * whatever was there before.
   */
  function TranscodeEffect(files: Files, target: Path, tool: ToolRun): Files
  {
    match tool
    case Encoded(output) => files[target := output]
    case ToolFailed(partial) =>
      var written := if partial.Some? then files[target := partial.value] else files;
      if target in written then written - {target} else written
  }

  /** After a tool error no file is left at the target, and nothing else changed. */
  lemma ToolFailureLeavesNoTarget(files: Files, target: Path, tool: ToolRun)
    requires tool.ToolFailed?
    ensures TranscodeEffect(files, target, tool) == files - {target}
  {
    var written := if tool.partial.Some? then files[target := tool.partial.value] else files;
    assert written - {target} == files - {target};
  }

  /** `transcode`: run ffmpeg (overwriting the output); on error, remove any output. */
  method TranscodeVideo(fs: FileSystem, target: Path, tool: ToolRun)
    modifies fs
    ensures fs.files == TranscodeEffect(old(fs.files), target, tool)
  {
    match tool
    case Encoded(output) =>
      fs.Write(target, output);
    case ToolFailed(partial) =>
      if partial.Some? {
        fs.Write(target, partial.value);
      }
      var present := fs.Exists(target);
      if present {
        var _ := fs.Remove(target);
      }
  }

  // ---------------------------------------------------------------------
  // callback

  /**
   * The paths of lines 33-38 and 65-67; `None` when the extension is not
   * ".mp4", where the `assert` fails.
   */
  function NamesOf(cfg: Config, source: Path): Option<Names>
  {
    var (dir, filename) := SplitPath(source);
    var (basename, ext) := SplitExt(filename);
    if ext != ".mp4" then None
    else Some(Names(basename,
                    Join(cfg.cacheDir, basename + ".mp4"),
                    Join(dir, basename + ".xml"),
                    Join(cfg.cacheDir, basename + ".xml"),
                    Join(cfg.saveDir, basename + ".mp4"),
                    Join(cfg.saveDir, basename + ".xml")))
  }

  /**
   * Lines 40-53: keep a cached target that already validates; otherwise
   * copy the sidecar to the cache, transcode and validate again, removing
   * the target if it fails.
   */
  function ProducePhase(files: Files, probe: Probe, tool: ToolRun, source: Path, n: Names): Phase
  {
    match ValidateVideo(files, probe, n.target, source)
    case Err(e) => Stop(Run(files, Raised(e)))
    case Ok(true) => Continue(files)
    case Ok(false) =>
      var copied := if n.xmlFrom in files then CopyEffect(files, n.xmlFrom, n.xmlTo) else Effect(files, None);
      if copied.err.Some? then Stop(Run(copied.files, Raised(copied.err.value)))
      else
        var transcoded := TranscodeEffect(copied.files, n.target, tool);
        match ValidateVideo(transcoded, probe, n.target, source)
        case Err(e) => Stop(Run(transcoded, Raised(e)))
        case Ok(false) => Stop(Run(transcoded - {n.target}, Rejected))
        case Ok(true) => Continue(transcoded)
  }

  /**
   * Lines 55-62: when the source is no larger than the target
   * (`source_size / target_size >= 1.0`), replace the target by a copy of
   * the source. A target of size 0 makes the division raise.
   */
  function CompressionPhase(files: Files, source: Path, n: Names): Phase
  {
    if source !in files then Stop(Run(files, Raised(FileNotFound(source))))
    else if n.target !in files then Stop(Run(files, Raised(FileNotFound(n.target))))
    else if |files[n.target]| == 0 then Stop(Run(files, Raised(ZeroDivision)))
    else if |files[source]| >= |files[n.target]| then
      var removed := RemoveEffect(files, n.target);
      var copied := CopyEffect(removed.files, source, n.target);
      if copied.err.Some? then Stop(Run(copied.files, Raised(copied.err.value)))
      else Continue(copied.files)
    else Continue(files)
  }

  /** Lines 64-68: move the video, then the sidecar, to SAVE_DIR. */
  function MoveEffect(files: Files, n: Names): Effect
  {
    var moved := SafeMoveEffect(files, n.target, n.newTarget);
    if moved.err.Some? then moved else SafeMoveEffect(moved.files, n.xmlTo, n.newXml)
  }

  /**
   * Lines 64-71: after the moves, validate the video at the nominal
   * `SAVE_DIR/<basename>.mp4` and, if it passes, remove the source and its
   * sidecar.
   */
  function RelocationRun(files: Files, probe: Probe, source: Path, n: Names): Run
  {
    var moved := MoveEffect(files, n);
    if moved.err.Some? then Run(moved.files, Raised(moved.err.value))
    else
      match ValidateVideo(moved.files, probe, n.newTarget, source)
      case Err(e) => Run(moved.files, Raised(e))
      case Ok(false) => Run(moved.files, Kept)
      case Ok(true) =>
        var removedSource := RemoveEffect(moved.files, source);
        if removedSource.err.Some? then Run(removedSource.files, Raised(removedSource.err.value))
        else
          var removedXml := RemoveEffect(removedSource.files, n.xmlFrom);
          if removedXml.err.Some? then Run(removedXml.files, Raised(removedXml.err.value))
          else Run(removedXml.files, Completed)
  }

  /** Lines 40-71 for the paths `n`: the three sections, each able to end the call. */
  function SectionsRun(files: Files, probe: Probe, tool: ToolRun, source: Path, n: Names): Run
  {
    match ProducePhase(files, probe, tool, source, n)
    case Stop(r) => r
    case Continue(produced) =>
      match CompressionPhase(produced, source, n)
      case Stop(r) => r
      case Continue(compressed) => RelocationRun(compressed, probe, source, n)
  }

  /** The whole of `callback(source_path)`: the paths, then the sections. */
  function CallbackRun(files: Files, cfg: Config, probe: Probe, tool: ToolRun, source: Path): Run
  {
    match NamesOf(cfg, source)
    case None => Run(files, Raised(AssertionFailed))
    case Some(n) => SectionsRun(files, probe, tool, source, n)
  }

  /** Lines 40-53 on the filesystem. */
  method Produce(fs: FileSystem, probe: Probe, tool: ToolRun, source: Path, n: Names)
    returns (stop: Option<Status>)
    modifies fs
    ensures ProducePhase(old(fs.files), probe, tool, source, n)
            == if stop.None? then Continue(fs.files) else Stop(Run(fs.files, stop.value))
  {
    var cached := ValidateVideo(fs.files, probe, n.target, source);
    if cached.Err? {
      return Some(Raised(cached.error));
    }
    if cached.value {
      return None;
    }
    var hasXml := fs.Exists(n.xmlFrom);
    if hasXml {
      var err := fs.CopyFile(n.xmlFrom, n.xmlTo);
      if err.Some? {
        return Some(Raised(err.value));
      }
    }
    TranscodeVideo(fs, n.target, tool);
    var valid := ValidateVideo(fs.files, probe, n.target, source);
    if valid.Err? {
      return Some(Raised(valid.error));
    }
    if !valid.value {
      var present := fs.Exists(n.target);
      if present {
        var _ := fs.Remove(n.target);
      }
      return Some(Rejected);
    }
    return None;
  }

  /** Lines 55-62 on the filesystem. */
  method Compress(fs: FileSystem, source: Path, n: Names) returns (stop: Option<Status>)
    modifies fs
    ensures CompressionPhase(old(fs.files), source, n)
            == if stop.None? then Continue(fs.files) else Stop(Run(fs.files, stop.value))
  {
    var sourceSize := fs.GetSize(source);
    if sourceSize.Err? {
      return Some(Raised(sourceSize.error));
    }
    var targetSize := fs.GetSize(n.target);
    if targetSize.Err? {
      return Some(Raised(targetSize.error));
    }
    if targetSize.value == 0 {
      return Some(Raised(ZeroDivision));
    }
    if sourceSize.value >= targetSize.value {
      var err := fs.Remove(n.target);
      err := fs.CopyFile(source, n.target);
      if err.Some? {
        return Some(Raised(err.value));
      }
    }
    return None;
  }

  /** Lines 64-71 on the filesystem. */
  method Relocate(fs: FileSystem, probe: Probe, source: Path, n: Names) returns (status: Status)
    modifies fs
    ensures Run(fs.files, status) == RelocationRun(old(fs.files), probe, source, n)
  {
    var err := SafeMoveAndRenameFile(fs, n.target, n.newTarget);
    if err.Some? {
      return Raised(err.value);
    }
    err := SafeMoveAndRenameFile(fs, n.xmlTo, n.newXml);
    if err.Some? {
      return Raised(err.value);
    }
    var valid := ValidateVideo(fs.files, probe, n.newTarget, source);
    if valid.Err? {
      return Raised(valid.error);
    }
    if !valid.value {
      return Kept;
    }
    err := fs.Remove(source);
    if err.Some? {
      return Raised(err.value);
    }
    err := fs.Remove(n.xmlFrom);
    if err.Some? {
      return Raised(err.value);
    }
    return Completed;
  }

  /** `TranscodeProcess.callback(source_path)`. */
  method Callback(fs: FileSystem, cfg: Config, probe: Probe, tool: ToolRun, source: Path)
    returns (status: Status)
    modifies fs
    ensures Run(fs.files, status) == CallbackRun(old(fs.files), cfg, probe, tool, source)
  {
    var (dir, filename) := SplitPath(source);
    var (basename, ext) := SplitExt(filename);
    if ext != ".mp4" {
      return Raised(AssertionFailed);
    }
    var n := Names(basename,
                   Join(cfg.cacheDir, basename + ".mp4"),
                   Join(dir, basename + ".xml"),
                   Join(cfg.cacheDir, basename + ".xml"),
                   Join(cfg.saveDir, basename + ".mp4"),
                   Join(cfg.saveDir, basename + ".xml"));
    assert NamesOf(cfg, source) == Some(n);
    var stop := Produce(fs, probe, tool, source, n);
    if stop.Some? {
      return stop.value;
    }
    stop := Compress(fs, source, n);
    if stop.Some? {
      return stop.value;
    }
    status := Relocate(fs, probe, source, n);
  }

  // ---------------------------------------------------------------------
  // Properties of callback

  /** `s` ends with `suffix`. */
  predicate EndsWith(s: string, suffix: string)
  {
    |suffix| <= |s| && s[|s| - |suffix|..] == suffix
  }

  lemma EndsWithTrans(s: string, t: string, u: string)
    requires EndsWith(s, t) && EndsWith(t, u)
    ensures EndsWith(s, u)
  {
    assert s[|s| - |u|..] == s[|s| - |t|..][|t| - |u|..];
  }

  /** A path ending in ".mp4" is not one ending in ".xml". */
  lemma ExtensionsDiffer(x: string, y: string)
    requires EndsWith(x, ".mp4") && EndsWith(y, ".xml")
    ensures x != y
  {
  }

  /** `Join(dir, stem + ext)` ends with `ext`. */
  lemma JoinedEndsWith(dir: string, stem: string, ext: string)
    ensures EndsWith(Join(dir, stem + ext), ext)
  {
    JoinEndsWith(dir, stem + ext);
    EndsWithTrans(Join(dir, stem + ext), stem + ext, ext);
  }

  /**
   * The facts about the derived paths that lines 64-71 rely on: the
   * source is neither the cached target nor a sidecar, the video and
   * sidecar in CACHE_DIR differ, and the save path is an ".mp4" path while
   * the cached sidecar is an ".xml" path.
   */
  predicate SeparatePaths(source: Path, n: Names)
  {
    && source != n.target && source != n.xmlTo && source != n.xmlFrom
    && n.target != n.xmlTo && n.target != n.xmlFrom && n.xmlFrom != n.newTarget
    && EndsWith(n.newTarget, ".mp4") && EndsWith(n.xmlTo, ".xml")
  }

  /**
   * The source and the paths derived from it end with ".mp4" or ".xml" as
   * their names say.
   */
  predicate NameShapes(source: Path, n: Names)
  {
    && EndsWith(source, ".mp4") && EndsWith(n.target, ".mp4") && EndsWith(n.newTarget, ".mp4")
    && EndsWith(n.xmlFrom, ".xml") && EndsWith(n.xmlTo, ".xml") && EndsWith(n.newXml, ".xml")
  }

  /** The paths of lines 33-38 and 65-67 have the shapes their names say. */
  lemma NamesEndings(cfg: Config, source: Path, n: Names)
    requires NamesOf(cfg, source) == Some(n)
    ensures NameShapes(source, n)
  {
    var (dir, filename) := SplitPath(source);
    var (basename, ext) := SplitExt(filename);
    SplitExtParts(filename);
    assert filename == basename + ".mp4";
    var i := RFind(source, '/') + 1;
    assert filename == source[i..];
    assert EndsWith(source, filename);
    assert EndsWith(filename, ".mp4");
    EndsWithTrans(source, filename, ".mp4");
    JoinedEndsWith(cfg.cacheDir, basename, ".mp4");
    JoinedEndsWith(cfg.saveDir, basename, ".mp4");
    JoinedEndsWith(cfg.cacheDir, basename, ".xml");
    JoinedEndsWith(cfg.saveDir, basename, ".xml");
    JoinedEndsWith(dir, basename, ".xml");
  }

  /**
   * A call on a path that does not end in ".mp4" fails its `assert` and
   * changes nothing; otherwise it runs the three sections on its paths.
   */
  lemma CallbackSections(files: Files, cfg: Config, probe: Probe, tool: ToolRun, source: Path)
    ensures !EndsWith(source, ".mp4") ==> CallbackRun(files, cfg, probe, tool, source) == Run(files, Raised(AssertionFailed))
    ensures NamesOf(cfg, source).Some? ==>
              && NameShapes(source, NamesOf(cfg, source).value)
              && CallbackRun(files, cfg, probe, tool, source) == SectionsRun(files, probe, tool, source, NamesOf(cfg, source).value)
  {
    if NamesOf(cfg, source).Some? {
      NamesEndings(cfg, source, NamesOf(cfg, source).value);
    }
  }

  /**
   * The `.mp4` paths and the `.xml` paths of one call are distinct, and the
   * source is neither sidecar. Only the source and the cached target can
   * coincide, when the source lies in CACHE_DIR.
   */
  lemma NamesDistinct(source: Path, n: Names)
    requires NameShapes(source, n)
    ensures n.target != n.xmlTo && n.target != n.xmlFrom
    ensures n.newTarget != n.newXml && n.newTarget != n.xmlTo && n.newTarget != n.xmlFrom
    ensures source != n.xmlFrom && source != n.xmlTo
    ensures n.target != n.newXml && source != n.newXml
  {
    ExtensionsDiffer(n.target, n.xmlTo);
    ExtensionsDiffer(n.target, n.xmlFrom);
    ExtensionsDiffer(n.newTarget, n.newXml);
    ExtensionsDiffer(n.newTarget, n.xmlTo);
    ExtensionsDiffer(n.newTarget, n.xmlFrom);
    ExtensionsDiffer(source, n.xmlFrom);
    ExtensionsDiffer(source, n.xmlTo);
    ExtensionsDiffer(n.target, n.newXml);
    ExtensionsDiffer(source, n.newXml);
  }

  /** Every call whose source is outside CACHE_DIR has separate paths. */
  lemma NamesSeparate(source: Path, n: Names)
    requires NameShapes(source, n) && source != n.target
    ensures SeparatePaths(source, n)
  {
    NamesDistinct(source, n);
  }

  /**
   * No name tried for an ".mp4" destination is an ".xml" path: every
   * candidate ends with the last character of the destination or with a
   * digit.
   */
  lemma CandidateNotSidecar(to: Path, k: nat, x: Path)
    requires EndsWith(to, ".mp4") && EndsWith(x, ".xml")
    ensures Candidate(to, k) != x
  {
    if k > 0 {
      SplitExtParts(to);
      var (stem, ext) := SplitExt(to);
      var c := Candidate(to, k);
      var digits := NatToString(k + 1);
      assert c == stem + "_" + digits + ext;
      assert x[|x| - 1] == ".xml"[3];
      if |ext| > 0 {
        assert c[|c| - 1] == ext[|ext| - 1] == to[|to| - 1] == ".mp4"[3];
      } else {
        assert c[|c| - 1] == digits[|digits| - 1];
      }
    } else {
      ExtensionsDiffer(to, x);
    }
  }

  /** `validate_video` reads only the bytes at the two paths it is given. */
  lemma ValidateVideoLocal(f: Files, g: Files, probe: Probe, target: Path, source: Path)
    requires (source in f <==> source in g) && (source in f ==> f[source] == g[source])
    requires (target in f <==> target in g) && (target in f ==> f[target] == g[target])
    ensures ValidateVideo(f, probe, target, source) == ValidateVideo(g, probe, target, source)
  {
  }

  /**
   * A cached target that already validates is reused: no sidecar is copied,
   * nothing is transcoded, and the whole call does not depend on what the
   * transcoder would have done.
   */
  lemma CachedOutputIsReused(files: Files, probe: Probe, tool: ToolRun, other: ToolRun, source: Path, n: Names)
    requires ValidateVideo(files, probe, n.target, source) == Ok(true)
    ensures ProducePhase(files, probe, tool, source, n) == Continue(files)
    ensures SectionsRun(files, probe, tool, source, n) == SectionsRun(files, probe, other, source, n)
  {
    assert ProducePhase(files, probe, tool, source, n) == Continue(files);
    assert ProducePhase(files, probe, other, source, n) == Continue(files);
  }

  /** Transcoding and then removing the target is the same as removing it. */
  lemma TranscodeThenRemove(files: Files, target: Path, tool: ToolRun)
    ensures TranscodeEffect(files, target, tool) - {target} == files - {target}
  {
    match tool
    case Encoded(output) =>
      assert files[target := output] - {target} == files - {target};
    case ToolFailed(partial) =>
      ToolFailureLeavesNoTarget(files, target, tool);
  }

  /** Only lines 48-53 reject: the later sections end otherwise. */
  lemma OnlyProduceRejects(files: Files, probe: Probe, source: Path, n: Names)
    ensures CompressionPhase(files, source, n).Stop? ==> CompressionPhase(files, source, n).run.status.Raised?
    ensures RelocationRun(files, probe, source, n).status != Rejected
  {
  }

  /** How lines 40-53 reject: the sidecar copy stays, the cached target goes. */
  lemma ProduceRejection(files: Files, probe: Probe, tool: ToolRun, source: Path, n: Names)
    requires ProducePhase(files, probe, tool, source, n).Stop?
    requires ProducePhase(files, probe, tool, source, n).run.status == Rejected
    ensures ValidateVideo(files, probe, n.target, source) == Ok(false)
    ensures n.xmlFrom in files ==> n.xmlFrom != n.xmlTo
    ensures var copied := if n.xmlFrom in files then files[n.xmlTo := files[n.xmlFrom]] else files;
            ProducePhase(files, probe, tool, source, n).run.files == copied - {n.target}
  {
    var copied := if n.xmlFrom in files then CopyEffect(files, n.xmlFrom, n.xmlTo) else Effect(files, None);
    TranscodeThenRemove(copied.files, n.target, tool);
  }

  /** A call that ends `Rejected` ended in lines 48-53. */
  lemma RejectedInProduce(files: Files, probe: Probe, tool: ToolRun, source: Path, n: Names)
    requires SectionsRun(files, probe, tool, source, n).status == Rejected
    ensures ProducePhase(files, probe, tool, source, n).Stop?
    ensures SectionsRun(files, probe, tool, source, n) == ProducePhase(files, probe, tool, source, n).run
  {
    var phase := ProducePhase(files, probe, tool, source, n);
    if phase.Continue? {
      OnlyProduceRejects(phase.files, probe, source, n);
      var compressed := CompressionPhase(phase.files, source, n);
      if compressed.Continue? {
        OnlyProduceRejects(compressed.files, probe, source, n);
      }
      assert false;
    }
  }

  /**
   * A call ends `Rejected` only when the fresh transcode failed validation,
   * and then exactly two things changed: the sidecar, if present, was
   * copied to CACHE_DIR, and nothing is left at the cached target. Nothing
   * else is created (in particular nothing in SAVE_DIR), and the source and
   * its sidecar keep their bytes unless the source is the cached target.
   */
  lemma RejectionCleansUp(files: Files, probe: Probe, tool: ToolRun, source: Path, n: Names)
    requires NameShapes(source, n)
    requires SectionsRun(files, probe, tool, source, n).status == Rejected
    ensures ValidateVideo(files, probe, n.target, source) == Ok(false)
    ensures var copied := if n.xmlFrom in files then files[n.xmlTo := files[n.xmlFrom]] else files;
            SectionsRun(files, probe, tool, source, n).files == copied - {n.target}
    ensures var final := SectionsRun(files, probe, tool, source, n).files;
            && n.target !in final
            && (forall p :: p in final ==> p in files || p == n.xmlTo)
            && source in files
            && (source != n.target ==> source in final && final[source] == files[source])
            && (n.xmlFrom in files ==> n.xmlFrom in final && final[n.xmlFrom] == files[n.xmlFrom])
  {
    NamesDistinct(source, n);
    RejectedInProduce(files, probe, tool, source, n);
    ProduceRejection(files, probe, tool, source, n);
    var final := SectionsRun(files, probe, tool, source, n).files;
    CopyThenRemoveFrame(files, n.xmlFrom, n.xmlTo, n.target, final);
  }

  /** What copying `from` to `to` and then removing `target` leaves in place. */
  lemma CopyThenRemoveFrame(files: Files, from: Path, to: Path, target: Path, final: Files)
    requires final == (if from in files then files[to := files[from]] else files) - {target}
    ensures target !in final
    ensures forall p :: p in final ==> p in files || p == to
    ensures forall p :: p in files && p != to && p != target ==> p in final && final[p] == files[p]
  {
  }

  /**
   * Lines 55-62: with a non-empty target that is no smaller than the
   * source, the cached target is replaced by the source's bytes and nothing
   * else changes; a smaller target is kept as it is.
   */
  lemma SubstitutionCopiesSource(files: Files, source: Path, n: Names)
    requires source in files && n.target in files && source != n.target
    requires |files[n.target]| > 0
    ensures |files[source]| >= |files[n.target]| ==>
              CompressionPhase(files, source, n) == Continue(files[n.target := files[source]])
    ensures |files[source]| < |files[n.target]| ==> CompressionPhase(files, source, n) == Continue(files)
  {
    assert (files - {n.target})[n.target := files[source]] == files[n.target := files[source]];
  }

  /** What the two moves of lines 64-68 do to the filesystem. */
  lemma MoveFrame(files: Files, n: Names)
    requires n.target != n.xmlTo && EndsWith(n.newTarget, ".mp4") && EndsWith(n.xmlTo, ".xml")
    ensures var m := MoveEffect(files, n);
            && (m.err.None? <==> n.target in files && n.xmlTo in files)
            && (n.target !in files ==> m == Effect(files, Some(FileNotFound(n.target))))
            && (forall p :: p in files && p != n.target && p != n.xmlTo ==> p in m.files && m.files[p] == files[p])
            && (m.err.None? && n.newTarget !in files ==> n.newTarget in m.files && m.files[n.newTarget] == files[n.target])
  {
    SafeMoveFrame(files, n.target, n.newTarget);
    var moved := SafeMoveEffect(files, n.target, n.newTarget);
    if moved.err.None? {
      DestinationIsFirstFree(files, n.newTarget);
      var k: nat :| Destination(files, n.newTarget) == Candidate(n.newTarget, k);
      CandidateNotSidecar(n.newTarget, k, n.xmlTo);
      SafeMoveFrame(moved.files, n.xmlTo, n.newXml);
      DestinationIsFirstFree(moved.files, n.newXml);
      if n.newTarget !in files {
        DestinationIsFirstFree(files, n.newTarget);
        assert Destination(files, n.newTarget) == n.newTarget;
      }
    }
  }

  /**
   * The source and its sidecar are removed only after the saved video
   * validates at the nominal `SAVE_DIR/<basename>.mp4`: if either of them
   * disappears or changes in lines 64-71, the moves succeeded and that
   * check passed.
   */
  lemma RelocationRemovesOnlyAfterValidation(files: Files, probe: Probe, source: Path, n: Names, p: Path)
    requires SeparatePaths(source, n)
    requires p == source || (p == n.xmlFrom && n.xmlFrom != n.xmlTo)
    requires p in files
    requires var final := RelocationRun(files, probe, source, n).files;
             p !in final || final[p] != files[p]
    ensures MoveEffect(files, n).err.None?
    ensures ValidateVideo(MoveEffect(files, n).files, probe, n.newTarget, source) == Ok(true)
  {
    MoveFrame(files, n);
  }

  /**
   * A call completes exactly when the moves succeed, the nominal check
   * passes and the source's sidecar exists; it has then removed the source
   * and the sidecar.
   */
  lemma RelocationCompletes(files: Files, probe: Probe, source: Path, n: Names)
    requires SeparatePaths(source, n)
    ensures var m := MoveEffect(files, n);
            RelocationRun(files, probe, source, n).status == Completed <==>
              m.err.None? && ValidateVideo(m.files, probe, n.newTarget, source) == Ok(true) && n.xmlFrom in m.files
    ensures RelocationRun(files, probe, source, n).status == Completed ==>
              source !in RelocationRun(files, probe, source, n).files
              && n.xmlFrom !in RelocationRun(files, probe, source, n).files
  {
    var m := MoveEffect(files, n);
    if m.err.None? && ValidateVideo(m.files, probe, n.newTarget, source) == Ok(true) {
      assert source in m.files;
      var removedSource := RemoveEffect(m.files, source);
      assert removedSource.err.None?;
      assert n.xmlFrom in removedSource.files <==> n.xmlFrom in m.files;
    }
  }

  /** A call that ends `Kept` leaves the source and its sidecar as they were. */
  lemma KeptLeavesSources(files: Files, probe: Probe, source: Path, n: Names)
    requires SeparatePaths(source, n)
    requires source in files && RelocationRun(files, probe, source, n).status == Kept
    ensures var final := RelocationRun(files, probe, source, n).files;
            && source in final && final[source] == files[source]
            && (n.xmlFrom in files && n.xmlFrom != n.xmlTo ==> n.xmlFrom in final && final[n.xmlFrom] == files[n.xmlFrom])
  {
    KeptAfterMoves(files, probe, source, n);
    MoveFrame(files, n);
    var m := MoveEffect(files, n);
    assert source in m.files && m.files[source] == files[source];
    if n.xmlFrom in files && n.xmlFrom != n.xmlTo {
      assert n.xmlFrom in m.files && m.files[n.xmlFrom] == files[n.xmlFrom];
    }
  }

  /** A call kept at the final check ends with the moved files as they are. */
  lemma KeptAfterMoves(files: Files, probe: Probe, source: Path, n: Names)
    requires RelocationRun(files, probe, source, n).status == Kept
    ensures MoveEffect(files, n).err.None?
    ensures RelocationRun(files, probe, source, n).files == MoveEffect(files, n).files
  {
  }

  /**
   * When the moved video lands on a path other than the nominal one,
   * because `SAVE_DIR/<basename>.mp4` already existed, the final check
   * judges that older file instead of the one just saved.
   */
  lemma CollisionChecksOlderFile(files: Files, probe: Probe, source: Path, n: Names)
    requires SeparatePaths(source, n)
    requires source in files && n.newTarget in files && n.newTarget != n.target
    requires MoveEffect(files, n).err.None?
    ensures ValidateVideo(MoveEffect(files, n).files, probe, n.newTarget, source)
            == ValidateVideo(files, probe, n.newTarget, source)
  {
    MoveFrame(files, n);
    ValidateVideoLocal(MoveEffect(files, n).files, files, probe, n.newTarget, source);
  }

  /** Lines 40-53, however they end, change only the cached target and the cached sidecar. */
  lemma ProduceFrame(files: Files, probe: Probe, tool: ToolRun, source: Path, n: Names, p: Path)
    requires p in files && p != n.target && p != n.xmlTo
    ensures var produced := PhaseFiles(ProducePhase(files, probe, tool, source, n));
            p in produced && produced[p] == files[p]
  {
  }

  /** Lines 55-62, however they end, change only the cached target. */
  lemma CompressionFrame(files: Files, source: Path, n: Names, p: Path)
    requires p in files && p != n.target
    ensures var compressed := PhaseFiles(CompressionPhase(files, source, n));
            p in compressed && compressed[p] == files[p]
  {
  }

  /** A call that ends `Kept` or `Completed` went through all three sections. */
  lemma RelocatedRun(files: Files, probe: Probe, tool: ToolRun, source: Path, n: Names)
    requires SectionsRun(files, probe, tool, source, n).status == Kept
             || SectionsRun(files, probe, tool, source, n).status == Completed
    ensures ProducePhase(files, probe, tool, source, n).Continue?
    ensures CompressionPhase(ProducePhase(files, probe, tool, source, n).files, source, n).Continue?
    ensures SectionsRun(files, probe, tool, source, n)
            == RelocationRun(CompressionPhase(ProducePhase(files, probe, tool, source, n).files, source, n).files,
                             probe, source, n)
  {
    var phase := ProducePhase(files, probe, tool, source, n);
    if phase.Stop? {
      ProduceStops(files, probe, tool, source, n);
    } else {
      OnlyProduceRejects(phase.files, probe, source, n);
    }
  }

  /** Lines 40-53 stop only by rejecting or raising. */
  lemma ProduceStops(files: Files, probe: Probe, tool: ToolRun, source: Path, n: Names)
    requires ProducePhase(files, probe, tool, source, n).Stop?
    ensures ProducePhase(files, probe, tool, source, n).run.status.Rejected?
            || ProducePhase(files, probe, tool, source, n).run.status.Raised?
  {
  }

  /**
   * Whenever a call does not complete normally, because the fresh
   * transcode was rejected or the final check failed, the source and its
   * sidecar are left as they were; a completed call has removed both.
   */
  lemma SourceKeptUnlessCompleted(files: Files, probe: Probe, tool: ToolRun, source: Path, n: Names)
    requires NameShapes(source, n) && source != n.target && source in files
    ensures var r := SectionsRun(files, probe, tool, source, n);
            r.status == Rejected || r.status == Kept ==>
              && source in r.files && r.files[source] == files[source]
              && (n.xmlFrom in files && n.xmlFrom != n.xmlTo ==> n.xmlFrom in r.files && r.files[n.xmlFrom] == files[n.xmlFrom])
    ensures var r := SectionsRun(files, probe, tool, source, n);
            r.status == Completed ==> source !in r.files && n.xmlFrom !in r.files
  {
    NamesSeparate(source, n);
    var r := SectionsRun(files, probe, tool, source, n);
    if r.status == Rejected {
      RejectionCleansUp(files, probe, tool, source, n);
    } else if r.status == Kept || r.status == Completed {
      RelocatedRun(files, probe, tool, source, n);
      var produced := ProducePhase(files, probe, tool, source, n).files;
      var compressed := CompressionPhase(produced, source, n).files;
      ProduceFrame(files, probe, tool, source, n, source);
      CompressionFrame(produced, source, n, source);
      if n.xmlFrom in files && n.xmlFrom != n.xmlTo {
        ProduceFrame(files, probe, tool, source, n, n.xmlFrom);
        CompressionFrame(produced, source, n, n.xmlFrom);
      }
      if r.status == Kept {
        KeptLeavesSources(compressed, probe, source, n);
      } else {
        RelocationCompletes(compressed, probe, source, n);
      }
    }
  }

  /**
   * However a call ends, including by an exception, the source and its
   * sidecar lose or change their bytes only after the transcode and
   * compression sections went through, both moves succeeded and the video at
   * the nominal `SAVE_DIR/<basename>.mp4` validated.
   */
  lemma SourceChangesOnlyAfterCheck(files: Files, probe: Probe, tool: ToolRun, source: Path, n: Names, p: Path)
    requires NameShapes(source, n) && source != n.target
    requires p == source || (p == n.xmlFrom && n.xmlFrom != n.xmlTo)
    requires p in files
    requires var final := SectionsRun(files, probe, tool, source, n).files;
             p !in final || final[p] != files[p]
    ensures ProducePhase(files, probe, tool, source, n).Continue?
    ensures CompressionPhase(ProducePhase(files, probe, tool, source, n).files, source, n).Continue?
    ensures var compressed := CompressionPhase(ProducePhase(files, probe, tool, source, n).files, source, n).files;
            && MoveEffect(compressed, n).err.None?
            && ValidateVideo(MoveEffect(compressed, n).files, probe, n.newTarget, source) == Ok(true)
  {
    NamesSeparate(source, n);
    var produced := PhaseFiles(ProducePhase(files, probe, tool, source, n));
    ProduceFrame(files, probe, tool, source, n, p);
    var compressed := PhaseFiles(CompressionPhase(produced, source, n));
    CompressionFrame(produced, source, n, p);
    assert ProducePhase(files, probe, tool, source, n).Continue?;
    assert CompressionPhase(produced, source, n).Continue?;
    RelocationRemovesOnlyAfterValidation(compressed, probe, source, n, p);
  }

  /**
   * When the cached target was swapped for a copy of the source and the
   * nominal save path is free, the final check compares the source with
   * itself and fails: such a call never completes, and the source is kept.
   */
  lemma SubstitutedSourceIsKept(files: Files, probe: Probe, tool: ToolRun, source: Path, n: Names)
    requires NameShapes(source, n) && source != n.target
    requires ProducePhase(files, probe, tool, source, n).Continue?
    requires var produced := ProducePhase(files, probe, tool, source, n).files;
             && source in produced && n.target in produced
             && 0 < |produced[n.target]| <= |produced[source]|
             && n.newTarget !in produced && n.newTarget != n.target
    ensures var r := SectionsRun(files, probe, tool, source, n);
            && r.status != Completed
            && source in r.files
  {
    NamesSeparate(source, n);
    var produced := ProducePhase(files, probe, tool, source, n).files;
    SubstitutionCopiesSource(produced, source, n);
    var compressed := produced[n.target := produced[source]];
    assert CompressionPhase(produced, source, n) == Continue(compressed);
    MoveFrame(compressed, n);
    RelocationCompletes(compressed, probe, source, n);
    var m := MoveEffect(compressed, n);
    if m.err.None? {
      SameContentNeverValidates(m.files, probe, n.newTarget, source);
    }
    if source !in RelocationRun(compressed, probe, source, n).files {
      RelocationRemovesOnlyAfterValidation(compressed, probe, source, n, source);
    }
  }

  /**
   * A source that lies in CACHE_DIR is its own cached target: no check can
   * pass on it, so the call ends `Rejected` or raises, and never reaches
   * SAVE_DIR.
   */
  lemma SourceInCacheIsRejected(files: Files, probe: Probe, tool: ToolRun, source: Path, n: Names)
    requires source == n.target
    ensures SectionsRun(files, probe, tool, source, n).status.Rejected?
            || SectionsRun(files, probe, tool, source, n).status.Raised?
    ensures ProducePhase(files, probe, tool, source, n).Stop?
  {
    if source in files {
      SameContentNeverValidates(files, probe, source, source);
    }
    var copied := if n.xmlFrom in files then CopyEffect(files, n.xmlFrom, n.xmlTo) else Effect(files, None);
    var transcoded := TranscodeEffect(copied.files, n.target, tool);
    if source in transcoded {
      SameContentNeverValidates(transcoded, probe, source, source);
    }
  }

  /**
   * A source in CACHE_DIR without a sidecar beside it is lost: the
   * transcode writes over it, and a failed run or a rejection removes it.
   * After the call, the source path holds at most ffmpeg's output.
   */
  lemma SourceInCacheIsOverwritten(files: Files, probe: Probe, tool: ToolRun, source: Path, n: Names)
    requires source == n.target && source in files && n.xmlFrom !in files
    requires VideoDuration(files, probe, source).Ok?
    ensures var r := SectionsRun(files, probe, tool, source, n);
            source in r.files ==> tool.Encoded? && r.files[source] == tool.output
    ensures tool.ToolFailed? ==> source !in SectionsRun(files, probe, tool, source, n).files
  {
    SameContentNeverValidates(files, probe, source, source);
    assert ValidateVideo(files, probe, n.target, source) == Ok(false);
    var transcoded := TranscodeEffect(files, n.target, tool);
    if source in transcoded {
      SameContentNeverValidates(transcoded, probe, source, source);
    }
    assert ProducePhase(files, probe, tool, source, n).Stop?;
  }

  // ---------------------------------------------------------------------
  // Line 114 as written

  /** The class attribute line 114 reads; `Settings` declares no such attribute. */
  const QualityAttribute: string := "CONSTANT_QUALITY"

  /**
   * Lines 40-53 as the source is written: building the ffmpeg call reads
   * `Settings.CONSTANT_QUALITY`, which raises AttributeError before ffmpeg
   * starts. `transcode` catches only `ffmpeg.Error`, so every fresh
   * transcode ends the call right after the sidecar copy, with no target
   * written.
   */
  function ProducePhaseAsWritten(files: Files, probe: Probe, source: Path, n: Names): Phase
  {
    match ValidateVideo(files, probe, n.target, source)
    case Err(e) => Stop(Run(files, Raised(e)))
    case Ok(true) => Continue(files)
    case Ok(false) =>
      var copied := if n.xmlFrom in files then CopyEffect(files, n.xmlFrom, n.xmlTo) else Effect(files, None);
      if copied.err.Some? then Stop(Run(copied.files, Raised(copied.err.value)))
      else Stop(Run(copied.files, Raised(AttributeMissing(QualityAttribute))))
  }

  /** Lines 40-71 as written. */
  function SectionsRunAsWritten(files: Files, probe: Probe, source: Path, n: Names): Run
  {
    match ProducePhaseAsWritten(files, probe, source, n)
    case Stop(r) => r
    case Continue(produced) =>
      match CompressionPhase(produced, source, n)
      case Stop(r) => r
      case Continue(compressed) => RelocationRun(compressed, probe, source, n)
  }

  /** With a cached target that does not need a new transcode, the code as written does what is intended. */
  lemma AsWrittenAgreesWithoutTranscode(files: Files, probe: Probe, tool: ToolRun, source: Path, n: Names)
    requires ValidateVideo(files, probe, n.target, source) != Ok(false)
    ensures SectionsRunAsWritten(files, probe, source, n) == SectionsRun(files, probe, tool, source, n)
  {
    assert ProducePhaseAsWritten(files, probe, source, n) == ProducePhase(files, probe, tool, source, n);
  }

  /**
   * As written, the transcoder is never reached: without a cached target
   * that already validates, the call raises AttributeError once the sidecar
   * is copied, and the cache holds no new video.
   */
  lemma AsWrittenNeverTranscodes(files: Files, probe: Probe, source: Path, n: Names)
    requires n.target != n.xmlTo
    requires ValidateVideo(files, probe, n.target, source) == Ok(false)
    requires n.xmlFrom in files ==> n.xmlFrom != n.xmlTo
    ensures var copied := if n.xmlFrom in files then files[n.xmlTo := files[n.xmlFrom]] else files;
            && SectionsRunAsWritten(files, probe, source, n) == Run(copied, Raised(AttributeMissing(QualityAttribute)))
            && (n.target in copied <==> n.target in files)
  {
    var copied := if n.xmlFrom in files then CopyEffect(files, n.xmlFrom, n.xmlTo) else Effect(files, None);
    assert copied.err.None?;
    assert ProducePhaseAsWritten(files, probe, source, n) == Stop(Run(copied.files, Raised(AttributeMissing(QualityAttribute))));
  }

  /**
   * As written, a call never rejects a transcode, and it completes only by
   * reusing a cached target that already validated.
   */
  lemma AsWrittenOnlyReusesCache(files: Files, probe: Probe, source: Path, n: Names)
    ensures SectionsRunAsWritten(files, probe, source, n).status != Rejected
    ensures SectionsRunAsWritten(files, probe, source, n).status == Completed ==>
              ValidateVideo(files, probe, n.target, source) == Ok(true)
  {
    var phase := ProducePhaseAsWritten(files, probe, source, n);
    if phase.Continue? {
      assert ValidateVideo(files, probe, n.target, source) == Ok(true);
      var compressed := CompressionPhase(phase.files, source, n);
      OnlyProduceRejects(phase.files, probe, source, n);
      if compressed.Continue? {
        OnlyProduceRejects(compressed.files, probe, source, n);
        assert SectionsRunAsWritten(files, probe, source, n) == RelocationRun(compressed.files, probe, source, n);
      } else {
        assert SectionsRunAsWritten(files, probe, source, n) == compressed.run;
      }
    } else {
      assert SectionsRunAsWritten(files, probe, source, n) == phase.run;
      assert phase.run.status.Raised?;
    }
  }

  /**
   * What line 114 evidently intends: a fresh transcode whose output
   * validates carries the call on to lines 55-62, with the new video in the
   * cache and the sidecar copied beside it.
   */
  lemma FreshTranscodeContinues(files: Files, probe: Probe, output: Content, source: Path, n: Names)
    requires ValidateVideo(files, probe, n.target, source) == Ok(false)
    requires n.xmlFrom in files ==> n.xmlFrom != n.xmlTo
    requires var copied := if n.xmlFrom in files then files[n.xmlTo := files[n.xmlFrom]] else files;
             ValidateVideo(copied[n.target := output], probe, n.target, source) == Ok(true)
    ensures var copied := if n.xmlFrom in files then files[n.xmlTo := files[n.xmlFrom]] else files;
            ProducePhase(files, probe, Encoded(output), source, n) == Continue(copied[n.target := output])
    ensures ProducePhaseAsWritten(files, probe, source, n).Stop?
  {
  }
}
