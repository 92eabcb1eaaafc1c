/**
 * auto_transcode/modules/base.py, `WatcherProcess.watch`: walk a directory
 * tree and hand every quiescent `.flv` recording that has its `.xml`
 * sidecar to the callback. The walk is given as the sequence of triples
 * `os.walk` yields, existence as the set of present paths, modification
 * times as a function and the clock as one reading `now`. The callback is
 * represented by the sequence of paths it is called with, in call order.
 */
module Watcher {
  import opened OsPath
  import opened Os

  /** One triple `(root, dirs, files)` yielded by `os.walk`. */
  datatype WalkEntry = WalkEntry(root: Path, dirs: seq<string>, files: seq<string>)

  /**
   * The three tests `watch` applies to `file` in `root`: its extension is
   * exactly ".flv", `root/<basename>.xml` exists, and it was last modified
   * strictly more than `delay` seconds before `now`.
   */
  predicate Qualifies(root: Path, file: string, present: set<Path>, mtime: Path -> real,
                      now: real, delay: real)
  {
    var (basename, ext) := SplitExt(file);
    && ext == ".flv"
    && Join(root, basename + ".xml") in present
    && now - mtime(Join(root, file)) > delay
  }

  /** The calls made for the files of one directory, in listing order. */
  function SelectedIn(root: Path, files: seq<string>, present: set<Path>, mtime: Path -> real,
                      now: real, delay: real): seq<Path>
  {
    if |files| == 0 then []
    else
      var file := files[|files| - 1];
      SelectedIn(root, files[..|files| - 1], present, mtime, now, delay)
        + (if Qualifies(root, file, present, mtime, now, delay) then [Join(root, file)] else [])
  }

  /** The calls made over the whole walk, in walk order. */
  function Selected(walk: seq<WalkEntry>, present: set<Path>, mtime: Path -> real,
                    now: real, delay: real): seq<Path>
  {
    if |walk| == 0 then []
    else
      var e := walk[|walk| - 1];
      Selected(walk[..|walk| - 1], present, mtime, now, delay)
        + SelectedIn(e.root, e.files, present, mtime, now, delay)
  }

  /** Every path the walk visits, `os.path.join(root, file)`, in walk order. */
  function WalkedIn(root: Path, files: seq<string>): (r: seq<Path>)
    ensures |r| == |files|
    ensures forall i :: 0 <= i < |files| ==> r[i] == Join(root, files[i])
  {
    if |files| == 0 then [] else WalkedIn(root, files[..|files| - 1]) + [Join(root, files[|files| - 1])]
  }

  function Walked(walk: seq<WalkEntry>): seq<Path>
  {
    if |walk| == 0 then [] else Walked(walk[..|walk| - 1]) + WalkedIn(walk[|walk| - 1].root, walk[|walk| - 1].files)
  }

  /** No path occurs twice. */
  predicate NoDuplicates(s: seq<Path>)
  {
    forall i, j :: 0 <= i < j < |s| ==> s[i] != s[j]
  }

  /** `watch` itself: the nested loops over the walk and over each directory's files. */
  method Watch(walk: seq<WalkEntry>, present: set<Path>, mtime: Path -> real, now: real, delay: real)
    returns (calls: seq<Path>)
    ensures calls == Selected(walk, present, mtime, now, delay)
  {
    calls := [];
    for i := 0 to |walk|
      invariant calls == Selected(walk[..i], present, mtime, now, delay)
    {
      var root, files := walk[i].root, walk[i].files;
      ghost var before := calls;
      for j := 0 to |files|
        invariant calls == before + SelectedIn(root, files[..j], present, mtime, now, delay)
      {
        var file := files[j];
        var filePath := Join(root, file);
        var (basename, ext) := SplitExt(file);
        assert files[..j + 1][..j] == files[..j];
        if ext != ".flv" {
          continue;
        }
        var danmakuFilePath := Join(root, basename + ".xml");
        if danmakuFilePath !in present {
          continue;
        }
        var lastModified := mtime(filePath);
        if now - lastModified > delay {
          calls := calls + [filePath];
        }
      }
      assert files[..|files|] == files;
      assert walk[..i + 1][..i] == walk[..i];
    }
    assert walk[..|walk|] == walk;
  }

  /** The call `watch` makes for `file` in `root`, if `file` qualifies, is `p`. */
  predicate CalledFor(root: Path, file: string, p: Path, present: set<Path>, mtime: Path -> real,
                      now: real, delay: real)
  {
    p == Join(root, file) && Qualifies(root, file, present, mtime, now, delay)
  }

  /** Every call of one directory comes from one of its qualifying files. */
  lemma {:induction false} SelectedInWitness(root: Path, files: seq<string>, present: set<Path>,
                                             mtime: Path -> real, now: real, delay: real, p: Path)
    returns (j: nat)
    requires p in SelectedIn(root, files, present, mtime, now, delay)
    ensures j < |files| && CalledFor(root, files[j], p, present, mtime, now, delay)
  {
    var init, last := files[..|files| - 1], files[|files| - 1];
    var before := SelectedIn(root, init, present, mtime, now, delay);
    var q := Qualifies(root, last, present, mtime, now, delay);
    assert SelectedIn(root, files, present, mtime, now, delay) == before + (if q then [Join(root, last)] else []);
    if p in before {
      j := SelectedInWitness(root, init, present, mtime, now, delay, p);
      assert files[j] == init[j];
    } else {
      j := |files| - 1;
    }
  }

  /** Every qualifying file of one directory is called. */
  lemma {:induction false} SelectedInHas(root: Path, files: seq<string>, present: set<Path>,
                                         mtime: Path -> real, now: real, delay: real, p: Path, j: nat)
    requires j < |files| && CalledFor(root, files[j], p, present, mtime, now, delay)
    ensures p in SelectedIn(root, files, present, mtime, now, delay)
  {
    var init, last := files[..|files| - 1], files[|files| - 1];
    var before := SelectedIn(root, init, present, mtime, now, delay);
    var q := Qualifies(root, last, present, mtime, now, delay);
    assert SelectedIn(root, files, present, mtime, now, delay) == before + (if q then [Join(root, last)] else []);
    if j < |init| {
      assert init[j] == files[j];
      SelectedInHas(root, init, present, mtime, now, delay, p, j);
    }
  }

  /** The calls of one directory are exactly its qualifying files, joined to the root. */
  lemma SelectedInExactly(root: Path, files: seq<string>, present: set<Path>,
                          mtime: Path -> real, now: real, delay: real, p: Path)
    ensures p in SelectedIn(root, files, present, mtime, now, delay) <==>
            exists j :: 0 <= j < |files| && CalledFor(root, files[j], p, present, mtime, now, delay)
  {
    if p in SelectedIn(root, files, present, mtime, now, delay) {
      var j := SelectedInWitness(root, files, present, mtime, now, delay, p);
    }
    forall j | 0 <= j < |files| && CalledFor(root, files[j], p, present, mtime, now, delay)
      ensures p in SelectedIn(root, files, present, mtime, now, delay)
    {
      SelectedInHas(root, files, present, mtime, now, delay, p, j);
    }
  }

  /** The calls over the walk are the calls of its directories. */
  lemma {:induction false} SelectedByDirectory(walk: seq<WalkEntry>, present: set<Path>, mtime: Path -> real,
                                               now: real, delay: real, p: Path)
    ensures p in Selected(walk, present, mtime, now, delay) <==>
            exists i :: 0 <= i < |walk| && p in SelectedIn(walk[i].root, walk[i].files, present, mtime, now, delay)
  {
    if |walk| > 0 {
      var init, e := walk[..|walk| - 1], walk[|walk| - 1];
      var before := Selected(init, present, mtime, now, delay);
      var here := SelectedIn(e.root, e.files, present, mtime, now, delay);
      assert Selected(walk, present, mtime, now, delay) == before + here;
      SelectedByDirectory(init, present, mtime, now, delay, p);
      if p in before {
        var i :| 0 <= i < |init| && p in SelectedIn(init[i].root, init[i].files, present, mtime, now, delay);
        assert walk[i] == init[i];
      } else if p in here {
        assert walk[|walk| - 1] == e;
      }
      if exists i :: 0 <= i < |walk| && p in SelectedIn(walk[i].root, walk[i].files, present, mtime, now, delay) {
        var i :| 0 <= i < |walk| && p in SelectedIn(walk[i].root, walk[i].files, present, mtime, now, delay);
        if i < |init| {
          assert init[i] == walk[i];
        }
      }
    }
  }

  /**
   * The set of paths the callback receives is exactly the set of
   * `root/file` over the walk for which `file` qualifies.
   */
  lemma SelectedExactly(walk: seq<WalkEntry>, present: set<Path>, mtime: Path -> real,
                        now: real, delay: real, p: Path)
    ensures p in Selected(walk, present, mtime, now, delay) <==>
            exists i, j :: 0 <= i < |walk| && 0 <= j < |walk[i].files|
                           && CalledFor(walk[i].root, walk[i].files[j], p, present, mtime, now, delay)
  {
    SelectedByDirectory(walk, present, mtime, now, delay, p);
    forall i | 0 <= i < |walk|
      ensures p in SelectedIn(walk[i].root, walk[i].files, present, mtime, now, delay) <==>
              exists j :: 0 <= j < |walk[i].files| && CalledFor(walk[i].root, walk[i].files[j], p, present, mtime, now, delay)
    {
      SelectedInExactly(walk[i].root, walk[i].files, present, mtime, now, delay, p);
    }
  }

  /** Two duplicate-free sequences with no common element concatenate without duplicates. */
  lemma NoDuplicatesConcat(a: seq<Path>, b: seq<Path>)
    requires NoDuplicates(a) && NoDuplicates(b)
    requires forall x :: x in a ==> x !in b
    ensures NoDuplicates(a + b)
  {
    var s := a + b;
    forall i, j | 0 <= i < j < |s|
      ensures s[i] != s[j]
    {
      if i < |a| && j >= |a| {
        assert s[i] == a[i] && s[j] == b[j - |a|];
        assert a[i] in a && b[j - |a|] in b;
      } else if i >= |a| {
        assert s[i] == b[i - |a|] && s[j] == b[j - |a|];
      } else {
        assert s[i] == a[i] && s[j] == a[j];
      }
    }
  }

  /** Each call of one directory is one of its walked paths, met once. */
  lemma {:induction false} SelectedInOnce(root: Path, files: seq<string>, present: set<Path>,
                                          mtime: Path -> real, now: real, delay: real)
    requires NoDuplicates(WalkedIn(root, files))
    ensures NoDuplicates(SelectedIn(root, files, present, mtime, now, delay))
    ensures forall p :: p in SelectedIn(root, files, present, mtime, now, delay) ==> p in WalkedIn(root, files)
  {
    if |files| > 0 {
      var init, last := files[..|files| - 1], files[|files| - 1];
      var w := WalkedIn(root, init);
      var all := WalkedIn(root, files);
      assert all == w + [Join(root, last)];
      assert forall k :: 0 <= k < |w| ==> w[k] == all[k];
      assert NoDuplicates(w);
      assert Join(root, last) !in w by {
        assert all[|w|] == Join(root, last);
      }
      SelectedInOnce(root, init, present, mtime, now, delay);
      var before := SelectedIn(root, init, present, mtime, now, delay);
      if Qualifies(root, last, present, mtime, now, delay) {
        NoDuplicatesConcat(before, [Join(root, last)]);
      } else {
        assert SelectedIn(root, files, present, mtime, now, delay) == before;
      }
    }
  }

  /**
   * When the walk visits every path once, the callback is called at most
   * once per path, and only for walked paths.
   */
  lemma {:induction false} SelectedOnce(walk: seq<WalkEntry>, present: set<Path>, mtime: Path -> real,
                                        now: real, delay: real)
    requires NoDuplicates(Walked(walk))
    ensures NoDuplicates(Selected(walk, present, mtime, now, delay))
    ensures forall p :: p in Selected(walk, present, mtime, now, delay) ==> p in Walked(walk)
  {
    if |walk| > 0 {
      var init, e := walk[..|walk| - 1], walk[|walk| - 1];
      var a, b := Walked(init), WalkedIn(e.root, e.files);
      var all := Walked(walk);
      assert all == a + b;
      assert NoDuplicates(a) by {
        assert forall i :: 0 <= i < |a| ==> a[i] == all[i];
      }
      assert NoDuplicates(b) by {
        assert forall i :: 0 <= i < |b| ==> b[i] == all[|a| + i];
      }
      assert forall x :: x in a ==> x !in b by {
        forall x | x in a
          ensures x !in b
        {
          var i :| 0 <= i < |a| && a[i] == x;
          forall j | 0 <= j < |b|
            ensures b[j] != x
          {
            assert all[i] == x && all[|a| + j] == b[j];
          }
        }
      }
      SelectedOnce(init, present, mtime, now, delay);
      SelectedInOnce(e.root, e.files, present, mtime, now, delay);
      NoDuplicatesConcat(Selected(init, present, mtime, now, delay),
                         SelectedIn(e.root, e.files, present, mtime, now, delay));
    }
  }

  /**
   * What qualifying means at the edges: only the extension ".flv" passes,
   * a missing sidecar excludes the file, and a file exactly `delay`
   * seconds old is not yet processed.
   */
  lemma QualifyingEdges(root: Path, file: string, present: set<Path>, mtime: Path -> real, now: real, delay: real)
    ensures SplitExt(file).1 != ".flv" ==> !Qualifies(root, file, present, mtime, now, delay)
    ensures Join(root, SplitExt(file).0 + ".xml") !in present ==> !Qualifies(root, file, present, mtime, now, delay)
    ensures now - mtime(Join(root, file)) == delay ==> !Qualifies(root, file, present, mtime, now, delay)
  {
  }
}
