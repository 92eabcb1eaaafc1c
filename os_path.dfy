/**
 * The three `os.path` functions of POSIX Python that the core uses to build
 * and take apart paths: `join` (two arguments), `split` and `splitext`.
 */
module OsPath {
  import opened Strings

  /** Some character of `s` is not a dot. */
  predicate HasNonDot(s: string)
  {
    exists k :: 0 <= k < |s| && s[k] != '.'
  }

  /** All characters of `s` are slashes. */
  predicate AllSlashes(s: string)
  {
    forall k :: 0 <= k < |s| ==> s[k] == '/'
  }

  /** `s.rstrip("/")`. */
  function StripTrailingSlashes(s: string): (r: string)
    ensures r <= s
    ensures |r| > 0 ==> r[|r| - 1] != '/'
    ensures AllSlashes(s[|r|..])
  {
    if |s| > 0 && s[|s| - 1] == '/' then StripTrailingSlashes(s[..|s| - 1]) else s
  }

  /**
   * `os.path.join(a, b)`: an absolute `b` replaces `a`; otherwise a slash is
   * inserted unless `a` is empty or already ends with one.
   */
  function Join(a: string, b: string): string
  {
    if |b| > 0 && b[0] == '/' then b
    else if |a| == 0 || a[|a| - 1] == '/' then a + b
    else a + "/" + b
  }

  /**
   * `os.path.split(p)`: the tail is everything after the last slash; the head
   * is everything before it, with trailing slashes removed unless it is made
   * of slashes only.
   */
  function SplitPath(p: string): (string, string)
  {
    var i := RFind(p, '/') + 1;
    var head, tail := p[..i], p[i..];
    if |head| > 0 && !AllSlashes(head) then (StripTrailingSlashes(head), tail) else (head, tail)
  }

  /**
   * `os.path.splitext(p)`: split at the last dot when it lies in the final
   * path component and is preceded there by some character other than a
   * dot (leading dots do not start an extension).
   */
  function SplitExt(p: string): (string, string)
  {
    var sepIndex := RFind(p, '/');
    var dotIndex := RFind(p, '.');
    if dotIndex > sepIndex && HasNonDot(p[sepIndex + 1..dotIndex]) then (p[..dotIndex], p[dotIndex..])
    else (p, "")
  }

  /** The joined path ends with `b`; an absolute `b` replaces `a`. */
  lemma JoinEndsWith(a: string, b: string)
    ensures var p := Join(a, b); |b| <= |p| && p[|p| - |b|..] == b
    ensures |b| > 0 && b[0] == '/' ==> Join(a, b) == b
  {
  }

  /**
   * `splitext` splits a path into two parts that concatenate back to it;
   * the extension is empty, or a dot followed by neither dot nor slash.
   */
  lemma SplitExtParts(p: string)
    ensures SplitExt(p).0 + SplitExt(p).1 == p
    ensures var ext := SplitExt(p).1; ext == "" || (ext[0] == '.' && '/' !in ext && '.' !in ext[1..])
  {
    var sepIndex := RFind(p, '/');
    var dotIndex := RFind(p, '.');
    if dotIndex > sepIndex && HasNonDot(p[sepIndex + 1..dotIndex]) {
      SplitAtLastDot(p, sepIndex, dotIndex);
      LastDotExtension(p, sepIndex, dotIndex);
    } else {
      assert SplitExt(p) == (p, "");
      assert p + "" == p;
    }
  }

  /** Where `splitext` splits, it splits at the last dot, and the two parts make up the path. */
  lemma SplitAtLastDot(p: string, sepIndex: int, dotIndex: int)
    requires sepIndex == RFind(p, '/') && dotIndex == RFind(p, '.')
    requires dotIndex > sepIndex && HasNonDot(p[sepIndex + 1..dotIndex])
    ensures SplitExt(p) == (p[..dotIndex], p[dotIndex..])
    ensures p[..dotIndex] + p[dotIndex..] == p
  {
  }

  /** What follows the last dot of the final component holds no dot and no slash. */
  lemma LastDotExtension(p: string, sepIndex: int, dotIndex: int)
    requires sepIndex == RFind(p, '/') && dotIndex == RFind(p, '.') && dotIndex > sepIndex
    ensures p[dotIndex..][0] == '.' && '/' !in p[dotIndex..] && '.' !in p[dotIndex..][1..]
  {
    var ext := p[dotIndex..];
    forall k | 0 <= k < |ext|
      ensures ext[k] != '/' && (k > 0 ==> ext[k] != '.')
    {
      assert ext[k] == p[dotIndex + k];
    }
    assert forall k :: 0 <= k < |ext| - 1 ==> ext[1..][k] == ext[k + 1];
  }

  /** Joining a directory and a plain file name and splitting again gives the file name back. */
  lemma SplitJoinedName(dir: string, name: string)
    requires '/' !in name
    ensures SplitPath(Join(dir, name)).1 == name
  {
    var p := Join(dir, name);
    JoinEndsWith(dir, name);
    var i := RFind(p, '/');
    var n := |p| - |name|;
    assert p[n..] == name;
    if n > 0 {
      assert p[n - 1] == '/';
      assert i >= n - 1;
    }
    forall j | n <= j < |p|
      ensures p[j] != '/'
    {
      assert p[j] == name[j - n];
    }
    assert i < n;
  }

  /**
   * A name made of a stem and a dotted extension splits into exactly those,
   * provided the stem's final component has a character other than a dot.
   */
  lemma SplitExtOfStemAndExt(stem: string, ext: string)
    requires |ext| >= 1 && ext[0] == '.' && '.' !in ext[1..] && '/' !in ext
    requires HasNonDot(stem[RFind(stem, '/') + 1..])
    ensures SplitExt(stem + ext) == (stem, ext)
  {
    var p := stem + ext;
    var tailSlash := ext[1..];
    assert p == stem + ['.'] + tailSlash;
    RFindAfterLast(stem, '.', tailSlash);
    assert RFind(p, '.') == |stem|;
    var s := RFind(stem, '/');
    assert p == stem + ext;
    RFindPrefix(stem, ext, '/');
    assert RFind(p, '/') == s;
    assert p[s + 1..|stem|] == stem[s + 1..];
  }

  /** A suffix without `c` does not move the last occurrence of `c`. */
  lemma {:induction false} RFindPrefix(a: string, b: string, c: char)
    requires c !in b
    ensures RFind(a + b, c) == RFind(a, c)
    decreases |b|
  {
    if |b| > 0 {
      var s := a + b;
      assert s[|s| - 1] == b[|b| - 1];
      assert s[..|s| - 1] == a + b[..|b| - 1];
      RFindPrefix(a, b[..|b| - 1], c);
    } else {
      assert a + b == a;
    }
  }

  /**
   * A plain file name, without slashes and not starting with a dot, splits
   * at the dot of its extension.
   */
  lemma SplitExtOfPlainName(stem: string, ext: string)
    requires |stem| > 0 && stem[0] != '.' && '/' !in stem
    requires |ext| >= 1 && ext[0] == '.' && '.' !in ext[1..] && '/' !in ext
    ensures SplitExt(stem + ext) == (stem, ext)
  {
    assert RFind(stem, '/') == -1;
    assert stem[0..] == stem;
    SplitExtOfStemAndExt(stem, ext);
  }

  /** A dot that starts the final component does not start an extension. */
  lemma NoExtensionAfterLeadingDot()
    ensures SplitExt(".flv") == (".flv", "")
  {
    RFindPrefix("", ".flv", '/');
    assert "" + ".flv" == ".flv";
    RFindAfterLast("", '.', "flv");
    assert "" + ['.'] + "flv" == ".flv";
    assert ".flv"[0..0] == "";
  }
}
