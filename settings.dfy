/**
 * auto_transcode/settings.py: the loaders that read the configuration from
 * environment variables, and `Settings.init`, which loads every setting and
 * exits with status 1 unless each required one is present and valid.
 */
module Settings {
  import opened Wrappers
  import opened Strings

  /** The process environment, as `os.getenv` sees it. */
  type Env = map<string, string>

  /**
   * What the loaders consult: the environment, `os.path.isdir`, and
   * Python's `float()` on a string, `None` where it raises `ValueError`.
   */
  datatype Host = Host(env: Env, isDir: string -> bool, parseFloat: string -> Option<real>)

  /** The values `init` assigns to the class attributes. */
  datatype Loaded = Loaded(flvDirs: seq<string>, remuxDir: string, saveDir: string, cacheDir: string,
                           daysBeforeRemux: real, daysBeforeTranscode: real, wakeupTime: real,
                           logFile: Option<string>)

  /** `load_str(var_name, default)`: the variable's value if set, else the default. */
  function LoadStr(h: Host, name: string, default: Option<string>): Option<string>
  {
    if name in h.env then Some(h.env[name]) else default
  }

  /** `load_dir(var_name, default)`: the value, provided it names an existing directory. */
  function LoadDir(h: Host, name: string, default: Option<string>): Option<string>
  {
    match LoadStr(h, name, default)
    case None => None
    case Some(value) => if h.isDir(value) then Some(value) else None
  }

  /** Every non-empty segment names an existing directory; empty segments are skipped. */
  predicate NonEmptyAreDirs(dirs: seq<string>, isDir: string -> bool)
  {
    forall i :: 0 <= i < |dirs| && dirs[i] != "" ==> isDir(dirs[i])
  }

  /** What `load_dirs` returns: all comma-separated segments, if the non-empty ones are directories. */
  function DirsSetting(h: Host, name: string, default: Option<string>): Option<seq<string>>
  {
    match LoadStr(h, name, default)
    case None => None
    case Some(value) =>
      var dirs := Split(value, ',');
      if NonEmptyAreDirs(dirs, h.isDir) then Some(dirs) else None
  }

  /** `load_dirs(var_name, default)`: the loop over the segments, returning at the first bad one. */
  method LoadDirs(h: Host, name: string, default: Option<string>) returns (r: Option<seq<string>>)
    ensures r == DirsSetting(h, name, default)
  {
    var value := LoadStr(h, name, default);
    if value.None? {
      return None;
    }
    var dirs := Split(value.value, ',');
    for i := 0 to |dirs|
      invariant forall j :: 0 <= j < i && dirs[j] != "" ==> h.isDir(dirs[j])
    {
      if dirs[i] == "" {
        continue;
      }
      if !h.isDir(dirs[i]) {
        return None;
      }
    }
    return Some(dirs);
  }

  /** `load_float(var_name, default)`: the value parsed by `float()`. */
  function LoadFloat(h: Host, name: string, default: Option<string>): Option<real>
  {
    match LoadStr(h, name, default)
    case None => None
    case Some(value) => h.parseFloat(value)
  }

  /** `load_non_negative_float(var_name, default)`: the parsed value, unless it is negative. */
  function LoadNonNegativeFloat(h: Host, name: string, default: Option<string>): Option<real>
  {
    match LoadFloat(h, name, default)
    case None => None
    case Some(value) => if value < 0.0 then None else Some(value)
  }

  /** Lines 26-46: load every setting; `None` when a required one is missing or invalid. */
  function LoadSettings(h: Host): Option<Loaded>
  {
    var flvDirs := DirsSetting(h, "FLV_DIRS", None);
    var remuxDir := LoadDir(h, "REMUX_DIR", None);
    var saveDir := LoadDir(h, "SAVE_DIR", None);
    var cacheDir := LoadDir(h, "CACHE_DIR", None);
    var daysBeforeRemux := LoadNonNegativeFloat(h, "DAYS_BEFORE_REMUX", None);
    var daysBeforeTranscode := LoadNonNegativeFloat(h, "DAYS_BEFORE_TRANSCODE", None);
    var wakeupTime := LoadNonNegativeFloat(h, "WAKEUP_TIME", Some("60"));
    var logFile := LoadStr(h, "LOG_FILE", None);
    if || flvDirs.None? || remuxDir.None? || saveDir.None? || cacheDir.None?
       || daysBeforeRemux.None? || daysBeforeTranscode.None? || wakeupTime.None?
    then None
    else Some(Loaded(flvDirs.value, remuxDir.value, saveDir.value, cacheDir.value,
                     daysBeforeRemux.value, daysBeforeTranscode.value, wakeupTime.value, logFile))
  }

  /** The class attributes of `Settings`; `None` while `init` has not assigned one. */
  class Settings {
    var flvDirs: Option<seq<string>>
    var remuxDir: Option<string>
    var saveDir: Option<string>
    var cacheDir: Option<string>
    var daysBeforeRemux: Option<real>
    var daysBeforeTranscode: Option<real>
    var wakeupTime: Option<real>
    var logFile: Option<Option<string>>

    /** The attributes are only declared, not assigned. */
    constructor ()
      ensures flvDirs.None? && remuxDir.None? && saveDir.None? && cacheDir.None?
      ensures daysBeforeRemux.None? && daysBeforeTranscode.None? && wakeupTime.None? && logFile.None?
      ensures Current().None?
    {
      flvDirs, remuxDir, saveDir, cacheDir := None, None, None, None;
      daysBeforeRemux, daysBeforeTranscode, wakeupTime, logFile := None, None, None, None;
    }

    /** The assigned attributes, once all of them are assigned. */
    function Current(): Option<Loaded>
      reads this
    {
      if && flvDirs.Some? && remuxDir.Some? && saveDir.Some? && cacheDir.Some?
         && daysBeforeRemux.Some? && daysBeforeTranscode.Some? && wakeupTime.Some? && logFile.Some?
      then Some(Loaded(flvDirs.value, remuxDir.value, saveDir.value, cacheDir.value,
                       daysBeforeRemux.value, daysBeforeTranscode.value, wakeupTime.value, logFile.value))
      else None
    }

    /**
     * `Settings.init()`: with a required setting missing or invalid it
     * calls `sys.exit(1)` (the result `Some(1)`) before assigning anything;
     * otherwise every attribute holds its loaded value.
     */
    method Init(h: Host) returns (exit: Option<int>)
      modifies this
      ensures LoadSettings(h).None? ==> exit == Some(1) && unchanged(this)
      ensures LoadSettings(h).Some? ==> exit.None? && Current() == LoadSettings(h)
    {
      var flvDirs := LoadDirs(h, "FLV_DIRS", None);
      var remuxDir := LoadDir(h, "REMUX_DIR", None);
      var saveDir := LoadDir(h, "SAVE_DIR", None);
      var cacheDir := LoadDir(h, "CACHE_DIR", None);
      var daysBeforeRemux := LoadNonNegativeFloat(h, "DAYS_BEFORE_REMUX", None);
      var daysBeforeTranscode := LoadNonNegativeFloat(h, "DAYS_BEFORE_TRANSCODE", None);
      var wakeupTime := LoadNonNegativeFloat(h, "WAKEUP_TIME", Some("60"));
      var logFile := LoadStr(h, "LOG_FILE", None);
      if || flvDirs.None? || remuxDir.None? || saveDir.None? || cacheDir.None?
         || daysBeforeRemux.None? || daysBeforeTranscode.None? || wakeupTime.None?
      {
        return Some(1);
      }
      ghost var loaded := Loaded(flvDirs.value, remuxDir.value, saveDir.value, cacheDir.value,
                                 daysBeforeRemux.value, daysBeforeTranscode.value, wakeupTime.value, logFile);
      assert LoadSettings(h) == Some(loaded);
      this.flvDirs := flvDirs;
      this.remuxDir := remuxDir;
      this.saveDir := saveDir;
      this.cacheDir := cacheDir;
      this.daysBeforeRemux := daysBeforeRemux;
      this.daysBeforeTranscode := daysBeforeTranscode;
      this.wakeupTime := wakeupTime;
      this.logFile := Some(logFile);
      return None;
    }
  }

  // ---------------------------------------------------------------------
  // Properties of the loaders

  /** `None` from `load_str` means exactly: the variable is unset and there is no default. */
  lemma LoadStrUnset(h: Host, name: string, default: Option<string>)
    ensures LoadStr(h, name, default).None? <==> name !in h.env && default.None?
    ensures name in h.env ==> LoadStr(h, name, default) == Some(h.env[name])
  {
  }

  /** `load_dir` returns the loaded value unchanged exactly when it is an existing directory. */
  lemma LoadDirIff(h: Host, name: string, default: Option<string>, v: string)
    ensures LoadDir(h, name, default) == Some(v) <==> LoadStr(h, name, default) == Some(v) && h.isDir(v)
    ensures LoadStr(h, name, default).None? ==> LoadDir(h, name, default).None?
  {
  }

  /**
   * `load_dirs` accepts exactly when every non-empty segment is a directory,
   * and then returns every segment, empty ones included, so that joining
   * them with commas gives back the variable's value.
   */
  lemma LoadDirsIff(h: Host, name: string, default: Option<string>)
    ensures DirsSetting(h, name, default).Some? <==>
              LoadStr(h, name, default).Some? && NonEmptyAreDirs(Split(LoadStr(h, name, default).value, ','), h.isDir)
    ensures DirsSetting(h, name, default).Some? ==>
              JoinWith(DirsSetting(h, name, default).value, ',') == LoadStr(h, name, default).value
    ensures DirsSetting(h, name, default).Some? ==>
              forall i :: 0 <= i < |DirsSetting(h, name, default).value| ==>
                ',' !in DirsSetting(h, name, default).value[i]
  {
    if LoadStr(h, name, default).Some? {
      JoinSplit(LoadStr(h, name, default).value, ',');
    }
  }

  /** A single non-empty segment that is not a directory rejects the whole list. */
  lemma LoadDirsRejectsBadSegment(h: Host, name: string, default: Option<string>, i: int)
    requires LoadStr(h, name, default).Some?
    requires var dirs := Split(LoadStr(h, name, default).value, ',');
             0 <= i < |dirs| && dirs[i] != "" && !h.isDir(dirs[i])
    ensures DirsSetting(h, name, default).None?
  {
  }

  /** `load_float` passes on a missing value and on a value `float()` rejects. */
  lemma LoadFloatIff(h: Host, name: string, default: Option<string>, x: real)
    ensures LoadFloat(h, name, default) == Some(x) <==>
              LoadStr(h, name, default).Some? && h.parseFloat(LoadStr(h, name, default).value) == Some(x)
  {
  }

  /**
   * `load_non_negative_float` accepts exactly the parsed values that are
   * not negative; zero is accepted.
   */
  lemma LoadNonNegativeFloatIff(h: Host, name: string, default: Option<string>, x: real)
    ensures LoadNonNegativeFloat(h, name, default) == Some(x) <==> LoadFloat(h, name, default) == Some(x) && x >= 0.0
    ensures LoadFloat(h, name, default).None? ==> LoadNonNegativeFloat(h, name, default).None?
    ensures LoadFloat(h, name, default) == Some(0.0) ==> LoadNonNegativeFloat(h, name, default) == Some(0.0)
  {
  }

  // ---------------------------------------------------------------------
  // Properties of init

  /** The required settings that have no default. */
  const NoDefault: set<string> :=
    {"FLV_DIRS", "REMUX_DIR", "SAVE_DIR", "CACHE_DIR", "DAYS_BEFORE_REMUX", "DAYS_BEFORE_TRANSCODE"}

  /** `init` succeeds exactly when the seven required settings all load. */
  lemma LoadSettingsIff(h: Host)
    ensures LoadSettings(h).Some? <==>
              && DirsSetting(h, "FLV_DIRS", None).Some?
              && LoadDir(h, "REMUX_DIR", None).Some?
              && LoadDir(h, "SAVE_DIR", None).Some?
              && LoadDir(h, "CACHE_DIR", None).Some?
              && LoadNonNegativeFloat(h, "DAYS_BEFORE_REMUX", None).Some?
              && LoadNonNegativeFloat(h, "DAYS_BEFORE_TRANSCODE", None).Some?
              && LoadNonNegativeFloat(h, "WAKEUP_TIME", Some("60")).Some?
  {
  }

  /** A required setting without a default that is unset makes `init` exit. */
  lemma RequiredHaveNoDefault(h: Host, name: string)
    requires name in NoDefault && name !in h.env
    ensures LoadSettings(h).None?
  {
  }

  /**
   * An unset `WAKEUP_TIME` reads as "60": with `float("60") == 60.0`, a
   * successful `init` wakes up every 60 seconds.
   */
  lemma WakeupTimeDefault(h: Host)
    requires "WAKEUP_TIME" !in h.env && h.parseFloat("60") == Some(60.0)
    ensures LoadNonNegativeFloat(h, "WAKEUP_TIME", Some("60")) == Some(60.0)
    ensures LoadSettings(h).Some? ==> LoadSettings(h).value.wakeupTime == 60.0
  {
  }

  /**
   * `LOG_FILE` is the one optional setting: unsetting it never decides
   * whether `init` succeeds, and leaves `LOG_FILE` as `None`.
   */
  lemma LogFileOptional(h: Host)
    ensures var unset := h.(env := h.env - {"LOG_FILE"});
            && (LoadSettings(unset).Some? <==> LoadSettings(h).Some?)
            && (LoadSettings(unset).Some? ==> LoadSettings(unset).value.logFile.None?)
  {
  }
}
