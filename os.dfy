/**
 * The operating-system services the core calls: `os.path.exists`,
 * `os.path.getsize`, `os.remove` and `shutil.copyfile`, over a filesystem
 * modelled as a finite map from file paths to their bytes. Directories are
 * not modelled: a path is present exactly when a file is stored at it.
 */
module Os {
  import opened Wrappers

  type Path = string
  type Content = seq<bv8>
  type Files = map<Path, Content>

  /** The exceptions the core can raise, each named after its Python class. */
  datatype Error =
    | FileNotFound(path: Path)   // FileNotFoundError from open, os.remove or os.path.getsize
    | SameFile(path: Path)       // shutil.SameFileError: source and destination are one file
    | ProbeFailed(path: Path)    // ffmpeg.Error raised by ffmpeg.probe
    | AssertionFailed            // AssertionError from an `assert` statement
    | ZeroDivision               // ZeroDivisionError from `/`
    | AttributeMissing(name: string)  // AttributeError: a class attribute that is never defined

  /** The filesystem after an operation, and the exception it raised, if any. */
  datatype Effect = Effect(files: Files, err: Option<Error>)

  /** `shutil.copyfile(src, dst)`: the destination is created or overwritten. */
  function CopyEffect(files: Files, src: Path, dst: Path): Effect
  {
    if src !in files then Effect(files, Some(FileNotFound(src)))
    else if src == dst then Effect(files, Some(SameFile(src)))
    else Effect(files[dst := files[src]], None)
  }

  /** `os.remove(p)`. */
  function RemoveEffect(files: Files, p: Path): Effect
  {
    if p in files then Effect(files - {p}, None) else Effect(files, Some(FileNotFound(p)))
  }

  /** The filesystem the process works on. */
  class FileSystem {
    var files: Files

    constructor (initial: Files)
      ensures files == initial
    {
      files := initial;
    }

    /** `os.path.exists(p)`. */
    method Exists(p: Path) returns (b: bool)
      ensures b <==> p in files
    {
      b := p in files;
    }

    /** `os.path.getsize(p)`. */
    method GetSize(p: Path) returns (r: Result<nat, Error>)
      ensures p in files ==> r == Ok(|files[p]|)
      ensures p !in files ==> r == Err(FileNotFound(p))
    {
      if p in files {
        r := Ok(|files[p]|);
      } else {
        r := Err(FileNotFound(p));
      }
    }

    /** `shutil.copyfile(src, dst)`. */
    method CopyFile(src: Path, dst: Path) returns (err: Option<Error>)
      modifies this
      ensures Effect(files, err) == CopyEffect(old(files), src, dst)
    {
      if src !in files {
        err := Some(FileNotFound(src));
      } else if src == dst {
        err := Some(SameFile(src));
      } else {
        files := files[dst := files[src]];
        err := None;
      }
    }

    /** `os.remove(p)`. */
    method Remove(p: Path) returns (err: Option<Error>)
      modifies this
      ensures Effect(files, err) == RemoveEffect(old(files), p)
    {
      if p in files {
        files := files - {p};
        err := None;
      } else {
        err := Some(FileNotFound(p));
      }
    }

    /** An external tool writes (creates or overwrites) the file at `p`. */
    method Write(p: Path, content: Content)
      modifies this
      ensures files == old(files)[p := content]
    {
      files := files[p := content];
    }
  }
}
