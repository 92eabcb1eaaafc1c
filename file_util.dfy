/**
 * auto_transcode/utils/file.py: reading what a probe reports about a video,
 * and moving a file to a destination without overwriting anything, by
 * trying `b.ext`, `b_2.ext`, `b_3.ext`, ... until a free name is found.
 */
module FileUtil {
  import opened Wrappers
  import opened Strings
  import opened OsPath
  import opened Os

  /** One entry of the `streams` list that `ffmpeg.probe` reports. */
  datatype Stream = Stream(codecType: string, codecName: string)

  /** What `ffmpeg.probe` reports: `format.duration` in seconds and the streams. */
  datatype Metadata = Metadata(duration: real, streams: seq<Stream>)

  /**
   * `ffmpeg.probe` as an oracle on a file's bytes; `None` stands for the
   * `ffmpeg.Error` it raises on a file it cannot read.
   */
  type Probe = Content -> Option<Metadata>

  // ---------------------------------------------------------------------
  // get_video_codec_name, get_video_duration

  /** The codec of the first stream whose type is "video", if there is one. */
  function FirstVideoCodec(streams: seq<Stream>): (r: Option<string>)
    ensures r.Some? <==> exists i :: 0 <= i < |streams| && streams[i].codecType == "video"
    ensures r.Some? ==> exists i :: 0 <= i < |streams| && streams[i].codecType == "video"
                                  && r.value == streams[i].codecName
                                  && forall j :: 0 <= j < i ==> streams[j].codecType != "video"
  {
    if |streams| == 0 then None
    else if streams[0].codecType == "video" then Some(streams[0].codecName)
    else
      var r := FirstVideoCodec(streams[1..]);
      assert forall i :: 0 < i < |streams| ==> streams[i] == streams[1..][i - 1];
      r
  }

  /**
   * `get_video_codec_name(path)`: `None` when the probe fails (the error is
   * caught and logged) or when no stream is a video stream.
   */
  function VideoCodecName(files: Files, probe: Probe, path: Path): Option<string>
  {
    if path in files && probe(files[path]).Some? then FirstVideoCodec(probe(files[path]).value.streams)
    else None
  }

  /** The loop of `get_video_codec_name`: return the codec of the first video stream met. */
  method GetVideoCodecName(files: Files, probe: Probe, path: Path) returns (r: Option<string>)
    ensures r == VideoCodecName(files, probe, path)
  {
    if path !in files || probe(files[path]).None? {
      return None;
    }
    var streams := probe(files[path]).value.streams;
    for i := 0 to |streams|
      invariant forall j :: 0 <= j < i ==> streams[j].codecType != "video"
    {
      if streams[i].codecType == "video" {
        FirstVideoCodecAt(streams, i);
        return Some(streams[i].codecName);
      }
    }
    return None;
  }

  /** The codec found at the first video stream is the one FirstVideoCodec reports. */
  lemma {:induction false} FirstVideoCodecAt(streams: seq<Stream>, i: nat)
    requires i < |streams| && streams[i].codecType == "video"
    requires forall j :: 0 <= j < i ==> streams[j].codecType != "video"
    ensures FirstVideoCodec(streams) == Some(streams[i].codecName)
  {
    if i > 0 {
      FirstVideoCodecAt(streams[1..], i - 1);
    }
  }

  /**
   * `get_video_duration(path)`: the probed duration. `ffmpeg.probe` is not
   * guarded here, so a failed probe raises.
   */
  function VideoDuration(files: Files, probe: Probe, path: Path): Result<real, Error>
  {
    if path in files && probe(files[path]).Some? then Ok(probe(files[path]).value.duration)
    else Err(ProbeFailed(path))
  }

  // ---------------------------------------------------------------------
  // safe_move_and_rename_file

  /**
   * The destination tried at `duplicate_count == k`: `to` itself for 0, and
   * otherwise the stem of `to`, "_", `k + 1` and the extension of `to`.
   * Every candidate is derived from `to`, never from an earlier candidate.
   */
  function Candidate(to: Path, k: nat): Path
  {
    if k == 0 then to
    else
      var (stem, ext) := SplitExt(to);
      stem + "_" + NatToString(k + 1) + ext
  }

  /** A suffixed candidate is `to` with "_" and a number inserted before the extension. */
  lemma CandidateShape(to: Path, k: nat)
    requires k >= 1
    ensures Candidate(to, k) == SplitExt(to).0 + "_" + NatToString(k + 1) + SplitExt(to).1
    ensures |Candidate(to, k)| == |to| + 1 + |NatToString(k + 1)|
  {
    SplitExtParts(to);
  }

  /** The candidates are pairwise distinct, so the search visits a new name at each step. */
  lemma CandidatesDistinct(to: Path, j: nat, k: nat)
    requires j != k
    ensures Candidate(to, j) != Candidate(to, k)
  {
    if j >= 1 && k >= 1 {
      var (stem, ext) := SplitExt(to);
      var a, b := NatToString(j + 1), NatToString(k + 1);
      var cj, ck := Candidate(to, j), Candidate(to, k);
      if cj == ck && |a| == |b| {
        assert cj[|stem| + 1..|stem| + 1 + |a|] == a;
        assert ck[|stem| + 1..|stem| + 1 + |b|] == b;
        NatToStringInjective(j + 1, k + 1);
      }
    } else if j >= 1 {
      CandidateShape(to, j);
    } else {
      CandidateShape(to, k);
    }
  }

  /** The first `k` candidates. */
  function CandidateSet(to: Path, k: nat): set<Path>
  {
    if k == 0 then {} else CandidateSet(to, k - 1) + {Candidate(to, k - 1)}
  }

  /** Each of the first `k` candidates is the candidate of some index below `k`. */
  lemma {:induction false} CandidateIndex(to: Path, k: nat, p: Path) returns (j: nat)
    requires p in CandidateSet(to, k)
    ensures j < k && p == Candidate(to, j)
  {
    assert CandidateSet(to, k) == CandidateSet(to, k - 1) + {Candidate(to, k - 1)};
    if p == Candidate(to, k - 1) {
      j := k - 1;
    } else {
      j := CandidateIndex(to, k - 1, p);
    }
  }

  /** Candidate `k` is not among the first `k`. */
  lemma CandidateIsNew(to: Path, k: nat)
    ensures Candidate(to, k) !in CandidateSet(to, k)
  {
    if Candidate(to, k) in CandidateSet(to, k) {
      var j := CandidateIndex(to, k, Candidate(to, k));
      CandidatesDistinct(to, j, k);
    }
  }

  /** The first `k` candidates are `k` different names. */
  lemma {:induction false} CandidateSetSize(to: Path, k: nat)
    ensures |CandidateSet(to, k)| == k
  {
    if k > 0 {
      CandidateSetSize(to, k - 1);
      CandidateIsNew(to, k - 1);
      assert CandidateSet(to, k) == CandidateSet(to, k - 1) + {Candidate(to, k - 1)};
    }
  }

  /** Present candidates cannot outnumber the files: the reason the search ends. */
  lemma CandidatesOccupy(files: Files, to: Path, k: nat)
    requires forall j :: 0 <= j < k ==> Candidate(to, j) in files
    ensures k <= |files|
  {
    CandidateSetSize(to, k);
    forall p | p in CandidateSet(to, k)
      ensures p in files
    {
      var j := CandidateIndex(to, k, p);
    }
    SubsetCard(CandidateSet(to, k), files.Keys);
  }

  /** A subset is no larger than its superset. */
  lemma {:induction false} SubsetCard<T>(a: set<T>, b: set<T>)
    requires a <= b
    ensures |a| <= |b|
    decreases |a|
  {
    if a != {} {
      var x :| x in a;
      SubsetCard(a - {x}, b - {x});
    }
  }

  /**
   * The first index, from `k` on, whose candidate is absent; every earlier
   * one is present.
   */
  function FreeIndex(files: Files, to: Path, k: nat): (r: nat)
    requires forall j :: 0 <= j < k ==> Candidate(to, j) in files
    ensures k <= r && Candidate(to, r) !in files
    ensures forall j :: 0 <= j < r ==> Candidate(to, j) in files
    decreases |files| - k
  {
    if Candidate(to, k) !in files then k
    else
      CandidatesOccupy(files, to, k + 1);
      FreeIndex(files, to, k + 1)
  }

  /** The first absent candidate is unique: it is the one the search stops at. */
  lemma FreeIndexIsFirstAbsent(files: Files, to: Path, k: nat)
    requires forall j :: 0 <= j < k ==> Candidate(to, j) in files
    requires Candidate(to, k) !in files
    ensures FreeIndex(files, to, 0) == k
  {
  }

  /** The path that `safe_move_and_rename_file(from, to)` writes. */
  function Destination(files: Files, to: Path): Path
  {
    Candidate(to, FreeIndex(files, to, 0))
  }

  /** Copy to the destination, then remove the source. */
  function SafeMoveEffect(files: Files, from: Path, to: Path): Effect
  {
    var copied := CopyEffect(files, from, Destination(files, to));
    if copied.err.Some? then copied else RemoveEffect(copied.files, from)
  }

  /**
   * The destination is the first absent candidate: every candidate before it
   * was already present.
   */
  lemma DestinationIsFirstFree(files: Files, to: Path)
    ensures Destination(files, to) !in files
    ensures exists k: nat :: Destination(files, to) == Candidate(to, k)
                          && forall j :: 0 <= j < k ==> Candidate(to, j) in files
    ensures to !in files ==> Destination(files, to) == to
  {
    var k := FreeIndex(files, to, 0);
    assert Destination(files, to) == Candidate(to, k);
    if to !in files {
      FreeIndexIsFirstAbsent(files, to, 0);
    }
  }

  /**
   * What a move does: with the source present, the destination gets the
   * source's bytes, the source is removed, and every other file, including
   * the candidates that collided, is unchanged. With the source absent the
   * copy raises and nothing changes.
   */
  lemma SafeMoveFrame(files: Files, from: Path, to: Path)
    ensures var e := SafeMoveEffect(files, from, to);
            var d := Destination(files, to);
            && (from !in files ==> e == Effect(files, Some(FileNotFound(from))))
            && (from in files ==>
                  && e.err.None?
                  && d in e.files && e.files[d] == files[from]
                  && from !in e.files
                  && (forall p :: p in files && p != from ==> p in e.files && e.files[p] == files[p])
                  && (forall p :: p in e.files ==> p == d || p in files))
  {
    DestinationIsFirstFree(files, to);
  }

  /** With nothing at `to`, the file ends up exactly at `to`. */
  lemma SafeMoveWithoutCollision(files: Files, from: Path, to: Path)
    requires from in files && to !in files
    ensures SafeMoveEffect(files, from, to) == Effect((files - {from})[to := files[from]], None)
  {
    DestinationIsFirstFree(files, to);
    var d := Destination(files, to);
    assert d == to;
    assert from != to;
    assert files[to := files[from]] - {from} == (files - {from})[to := files[from]];
  }

  /**
   * `safe_move_and_rename_file(from_path, to_path)`: try the candidates in
   * order, each recomputed from `to_path`, until one is absent; copy there,
   * then remove `from_path`.
   */
  method SafeMoveAndRenameFile(fs: FileSystem, from: Path, to: Path) returns (err: Option<Error>)
    modifies fs
    ensures Effect(fs.files, err) == SafeMoveEffect(old(fs.files), from, to)
  {
    var duplicateCount: nat := 0;
    var acting := to;
    var taken := fs.Exists(acting);
    while taken
      invariant fs.files == old(fs.files)
      invariant acting == Candidate(to, duplicateCount)
      invariant taken <==> acting in fs.files
      invariant forall j :: 0 <= j < duplicateCount ==> Candidate(to, j) in fs.files
      decreases |fs.files| - duplicateCount
    {
      CandidatesOccupy(fs.files, to, duplicateCount + 1);
      duplicateCount := duplicateCount + 1;
      var (stem, ext) := SplitExt(to);
      acting := stem + "_" + NatToString(duplicateCount + 1) + ext;
      taken := fs.Exists(acting);
    }
    FreeIndexIsFirstAbsent(fs.files, to, duplicateCount);
    err := fs.CopyFile(from, acting);
    if err.None? {
      err := fs.Remove(from);
    }
  }

  /** The destination name of the docstring's example. */
  lemma ExampleNameSplits()
    ensures SplitExt("b.txt") == ("b", ".txt")
  {
    SplitExtOfPlainName("b", ".txt");
    assert "b" + ".txt" == "b.txt";
  }

  /** The names the docstring lists: `b.txt`, then `b_2.txt`, then `b_3.txt`. */
  lemma CandidateExamples()
    ensures Candidate("b.txt", 0) == "b.txt"
    ensures Candidate("b.txt", 1) == "b_2.txt"
    ensures Candidate("b.txt", 2) == "b_3.txt"
  {
    ExampleNameSplits();
    assert NatToString(2) == [DigitChar(2)] == "2";
    assert NatToString(3) == [DigitChar(3)] == "3";
    assert "b" + "_" + "2" + ".txt" == "b_2.txt";
    assert "b" + "_" + "3" + ".txt" == "b_3.txt";
  }
}
