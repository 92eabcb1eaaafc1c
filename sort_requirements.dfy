/**
 * scripts/sort_requirements.py: rewrite a requirements file with its
 * lines stripped, empty lines dropped, sorted case-insensitively (and
 * stably) and joined with "\n", plus one trailing "\n". Reading and
 * writing the file are left out; the transform is `Output(text)`.
 */
module SortRequirements {
  import opened Strings

  // ---------------------------------------------------------------------
  // str.strip and str.lower

  /** Python's `str.isspace` for one character. */
  predicate IsSpace(c: char)
  {
    || c == ' ' || '\t' <= c <= '\r' || '\U{1c}' <= c <= '\U{1f}'
    || c == '\U{85}' || c == '\U{a0}' || c == '\U{1680}' || '\U{2000}' <= c <= '\U{200a}'
    || c == '\U{2028}' || c == '\U{2029}' || c == '\U{202f}' || c == '\U{205f}' || c == '\U{3000}'
  }

  /** `s.lstrip()`: a suffix of `s` that starts with a non-space, or is empty. */
  function LStrip(s: string): (r: string)
    ensures |r| <= |s| && r == s[|s| - |r|..]
    ensures |r| > 0 ==> !IsSpace(r[0])
  {
    if |s| > 0 && IsSpace(s[0]) then LStrip(s[1..]) else s
  }

  /** `s.rstrip()`: a prefix of `s` that ends with a non-space, or is empty. */
  function RStrip(s: string): (r: string)
    ensures r <= s
    ensures |r| > 0 ==> !IsSpace(r[|r| - 1])
  {
    if |s| > 0 && IsSpace(s[|s| - 1]) then RStrip(s[..|s| - 1]) else s
  }

  /** `s.strip()`. */
  function Strip(s: string): string
  {
    LStrip(RStrip(s))
  }

  /** `str.lower` on one character, for the ASCII letters. */
  function LowerChar(c: char): char
  {
    if 'A' <= c <= 'Z' then (c as int + 32) as char else c
  }

  /** The sort key `str.lower`. */
  function Key(s: string): string
  {
    seq(|s|, i requires 0 <= i < |s| => LowerChar(s[i]))
  }

  /** Stripping a stripped line changes nothing. */
  lemma StripIdempotent(s: string)
    ensures Strip(Strip(s)) == Strip(s)
  {
    var y := RStrip(s);
    var z := LStrip(y);
    if |z| > 0 {
      assert z[|z| - 1] == y[|y| - 1];
    }
    assert RStrip(z) == z;
  }

  /** A line's terminating "\n" is stripped with the rest of the trailing space. */
  lemma StripNewline(s: string)
    ensures Strip(s + "\n") == Strip(s)
  {
    var t := s + "\n";
    assert t[|t| - 1] == '\n' && IsSpace('\n');
    assert t[..|t| - 1] == s;
    assert RStrip(t) == RStrip(s);
  }

  /** Stripping never introduces a character. */
  lemma StripInside(s: string, c: char)
    requires c !in s
    ensures c !in Strip(s)
  {
    var y := RStrip(s);
    var z := LStrip(y);
    forall k | 0 <= k < |z|
      ensures z[k] != c
    {
      assert z[k] == y[|y| - |z| + k] == s[|y| - |z| + k];
    }
  }

  // ---------------------------------------------------------------------
  // String comparison

  /** Python's `a <= b` on strings: lexicographic by code point. */
  predicate LexLe(a: string, b: string)
  {
    if |a| == 0 then true
    else if |b| == 0 then false
    else if a[0] != b[0] then a[0] < b[0]
    else LexLe(a[1..], b[1..])
  }

  lemma {:induction false} LexLeRefl(a: string)
    ensures LexLe(a, a)
  {
    if |a| > 0 {
      LexLeRefl(a[1..]);
    }
  }

  lemma {:induction false} LexLeTotal(a: string, b: string)
    ensures LexLe(a, b) || LexLe(b, a)
  {
    if |a| > 0 && |b| > 0 && a[0] == b[0] {
      LexLeTotal(a[1..], b[1..]);
    }
  }

  lemma {:induction false} LexLeTrans(a: string, b: string, c: string)
    requires LexLe(a, b) && LexLe(b, c)
    ensures LexLe(a, c)
  {
    if |a| > 0 && |b| > 0 && |c| > 0 && a[0] == b[0] && b[0] == c[0] {
      LexLeTrans(a[1..], b[1..], c[1..]);
    }
  }

  // ---------------------------------------------------------------------
  // sorted(..., key=str.lower)

  /** Non-decreasing by key. */
  predicate Sorted(s: seq<string>)
  {
    forall i, j :: 0 <= i < j < |s| ==> LexLe(Key(s[i]), Key(s[j]))
  }

  /** Insert `x` after every element whose key is not greater than its own. */
  function Insert(x: string, s: seq<string>): seq<string>
  {
    if |s| == 0 then [x]
    else if !LexLe(Key(s[0]), Key(x)) then [x] + s
    else [s[0]] + Insert(x, s[1..])
  }

  /**
   * Python's `sorted(lines, key=str.lower)`: each line is inserted after
   * the earlier ones with an equal key, so the sort is stable.
   */
  function Sort(s: seq<string>): seq<string>
  {
    if |s| == 0 then [] else Insert(s[|s| - 1], Sort(s[..|s| - 1]))
  }

  /** Inserting adds exactly one occurrence of `x`. */
  lemma {:induction false} InsertPermutes(x: string, s: seq<string>)
    ensures multiset(Insert(x, s)) == multiset(s) + multiset{x}
  {
    if |s| > 0 && LexLe(Key(s[0]), Key(x)) {
      InsertPermutes(x, s[1..]);
      assert s == [s[0]] + s[1..];
    }
  }

  /** The sorted lines are a permutation of the input lines. */
  lemma {:induction false} SortPermutes(s: seq<string>)
    ensures multiset(Sort(s)) == multiset(s)
  {
    if |s| > 0 {
      SortPermutes(s[..|s| - 1]);
      InsertPermutes(s[|s| - 1], Sort(s[..|s| - 1]));
      assert s == s[..|s| - 1] + [s[|s| - 1]];
    }
  }

  /** Every element of `Insert(x, s)` is `x` or an element of `s`. */
  lemma {:induction false} InsertMembers(x: string, s: seq<string>)
    ensures forall y :: y in Insert(x, s) ==> y == x || y in s
  {
    if |s| > 0 && LexLe(Key(s[0]), Key(x)) {
      InsertMembers(x, s[1..]);
      assert forall y :: y in s[1..] ==> y in s;
    }
  }

  /** A sorted sequence stays sorted under a head whose key bounds it from below. */
  lemma ConsSorted(h: string, s: seq<string>)
    requires Sorted(s)
    requires forall j :: 0 <= j < |s| ==> LexLe(Key(h), Key(s[j]))
    ensures Sorted([h] + s)
  {
    var r := [h] + s;
    forall i, j | 0 <= i < j < |r|
      ensures LexLe(Key(r[i]), Key(r[j]))
    {
      assert r[j] == s[j - 1];
      if i > 0 {
        assert r[i] == s[i - 1];
      }
    }
  }

  /** Inserting into a sorted sequence keeps it sorted. */
  lemma {:induction false} InsertSorted(x: string, s: seq<string>)
    requires Sorted(s)
    ensures Sorted(Insert(x, s))
  {
    if |s| == 0 {
      assert Insert(x, s) == [x];
    } else if !LexLe(Key(s[0]), Key(x)) {
      LexLeTotal(Key(s[0]), Key(x));
      forall j | 0 <= j < |s|
        ensures LexLe(Key(x), Key(s[j]))
      {
        if j > 0 {
          LexLeTrans(Key(x), Key(s[0]), Key(s[j]));
        }
      }
      assert Insert(x, s) == [x] + s;
      ConsSorted(x, s);
    } else {
      var tail := s[1..];
      var rest := Insert(x, tail);
      assert Sorted(tail) by {
        forall i, j | 0 <= i < j < |tail|
          ensures LexLe(Key(tail[i]), Key(tail[j]))
        {
          assert tail[i] == s[i + 1] && tail[j] == s[j + 1];
        }
      }
      InsertSorted(x, tail);
      InsertMembers(x, tail);
      forall j | 0 <= j < |rest|
        ensures LexLe(Key(s[0]), Key(rest[j]))
      {
        assert rest[j] in rest;
        if rest[j] != x {
          var k :| 0 <= k < |tail| && tail[k] == rest[j];
          assert s[k + 1] == rest[j];
        }
      }
      assert Insert(x, s) == [s[0]] + rest;
      ConsSorted(s[0], rest);
    }
  }

  /** The sorted lines are non-decreasing by `str.lower`. */
  lemma {:induction false} SortSorted(s: seq<string>)
    ensures Sorted(Sort(s))
  {
    if |s| > 0 {
      SortSorted(s[..|s| - 1]);
      InsertSorted(s[|s| - 1], Sort(s[..|s| - 1]));
    }
  }

  /** The lines with key `k`, in order. */
  function WithKey(s: seq<string>, k: string): seq<string>
  {
    if |s| == 0 then [] else (if Key(s[0]) == k then [s[0]] else []) + WithKey(s[1..], k)
  }

  lemma {:induction false} WithKeyAppend(a: seq<string>, b: seq<string>, k: string)
    ensures WithKey(a + b, k) == WithKey(a, k) + WithKey(b, k)
  {
    if |a| > 0 {
      assert (a + b)[1..] == a[1..] + b;
      WithKeyAppend(a[1..], b, k);
    } else {
      assert a + b == b;
    }
  }

  lemma {:induction false} WithKeyNone(s: seq<string>, k: string)
    requires forall i :: 0 <= i < |s| ==> Key(s[i]) != k
    ensures WithKey(s, k) == []
  {
    if |s| > 0 {
      WithKeyNone(s[1..], k);
    }
  }

  /** A line placed before the head of a sorted sequence shares its key with none of it. */
  lemma KeyBelowAll(x: string, s: seq<string>)
    requires Sorted(s) && |s| > 0 && !LexLe(Key(s[0]), Key(x))
    ensures forall i :: 0 <= i < |s| ==> Key(s[i]) != Key(x)
  {
    LexLeRefl(Key(x));
    forall i | 0 < i < |s|
      ensures Key(s[i]) != Key(x)
    {
      assert LexLe(Key(s[0]), Key(s[i]));
    }
  }

  /** Inserting `x` puts it after every line with the same key. */
  lemma {:induction false} InsertWithKey(x: string, s: seq<string>, k: string)
    requires Sorted(s)
    ensures WithKey(Insert(x, s), k) == WithKey(s, k) + (if Key(x) == k then [x] else [])
  {
    var tail := if Key(x) == k then [x] else [];
    var r := Insert(x, s);
    if |s| == 0 {
      assert r == [x];
      assert WithKey(r, k) == tail + WithKey([], k);
    } else if !LexLe(Key(s[0]), Key(x)) {
      assert r == [x] + s;
      assert r[1..] == s;
      assert WithKey(r, k) == tail + WithKey(s, k);
      if Key(x) == k {
        KeyBelowAll(x, s);
        WithKeyNone(s, k);
      }
    } else {
      var head := if Key(s[0]) == k then [s[0]] else [];
      var rest := Insert(x, s[1..]);
      assert r == [s[0]] + rest;
      assert r[1..] == rest;
      assert WithKey(r, k) == head + WithKey(rest, k);
      assert Sorted(s[1..]);
      InsertWithKey(x, s[1..], k);
      assert WithKey(s, k) == head + WithKey(s[1..], k);
    }
  }

  /** The sort is stable: the lines of each key keep their input order. */
  lemma {:induction false} SortStable(s: seq<string>, k: string)
    ensures WithKey(Sort(s), k) == WithKey(s, k)
  {
    if |s| > 0 {
      var init, last := s[..|s| - 1], s[|s| - 1];
      var tail := if Key(last) == k then [last] else [];
      SortStable(init, k);
      SortSorted(init);
      InsertWithKey(last, Sort(init), k);
      assert WithKey(Sort(s), k) == WithKey(init, k) + tail;
      WithKeyAppend(init, [last], k);
      assert WithKey([last], k) == tail + WithKey([], k);
      assert s == init + [last];
    }
  }

  /** Inserting a line whose key is not below any other appends it. */
  lemma {:induction false} InsertAtEnd(x: string, s: seq<string>)
    requires forall i :: 0 <= i < |s| ==> LexLe(Key(s[i]), Key(x))
    ensures Insert(x, s) == s + [x]
  {
    if |s| > 0 {
      InsertAtEnd(x, s[1..]);
      assert s == [s[0]] + s[1..];
    }
  }

  /** Sorting sorted lines changes nothing. */
  lemma {:induction false} SortOfSorted(s: seq<string>)
    requires Sorted(s)
    ensures Sort(s) == s
  {
    if |s| > 0 {
      var init, last := s[..|s| - 1], s[|s| - 1];
      assert Sorted(init);
      SortOfSorted(init);
      InsertAtEnd(last, init);
      assert s == init + [last];
    }
  }

  // ---------------------------------------------------------------------
  // The transform

  /** Each piece followed by its "\n". */
  function Terminated(pieces: seq<string>): (r: seq<string>)
    ensures |r| == |pieces|
    ensures forall i :: 0 <= i < |pieces| ==> r[i] == pieces[i] + "\n"
  {
    if |pieces| == 0 then [] else [pieces[0] + "\n"] + Terminated(pieces[1..])
  }

  /**
   * The lines iterating over the file yields: every line keeps its "\n";
   * the text after the last "\n" is a line only when it is not empty.
   */
  function FileLines(text: string): seq<string>
  {
    var pieces := Split(text, '\n');
    var last := pieces[|pieces| - 1];
    Terminated(pieces[..|pieces| - 1]) + (if last == "" then [] else [last])
  }

  /** `line.strip() for line in file if line.strip()`. */
  function Stripped(lines: seq<string>): seq<string>
  {
    if |lines| == 0 then []
    else
      var line := Strip(lines[0]);
      (if line == "" then [] else [line]) + Stripped(lines[1..])
  }

  /** Line 5: the sorted, stripped, non-empty lines. */
  function SortedLines(text: string): seq<string>
  {
    Sort(Stripped(FileLines(text)))
  }

  /** Line 8: the text written back. */
  function Output(text: string): string
  {
    JoinWith(SortedLines(text), '\n') + "\n"
  }

  /** A line that is non-empty, its own strip, and free of "\n". */
  predicate CleanLine(l: string)
  {
    l != "" && Strip(l) == l && '\n' !in l
  }

  /** A line as the file yields it: no "\n" except possibly a final one. */
  predicate OneLine(l: string)
  {
    l == "" || '\n' !in l[..|l| - 1]
  }

  /** The strip of one yielded line, when not empty, is clean. */
  lemma StripOneLine(line: string)
    requires OneLine(line)
    ensures Strip(line) != "" ==> CleanLine(Strip(line))
  {
    if line != "" {
      StripIdempotent(line);
      var body := line[..|line| - 1];
      if line[|line| - 1] == '\n' {
        assert line == body + "\n";
        StripNewline(body);
        StripInside(body, '\n');
      } else {
        assert '\n' !in line by {
          assert line == body + [line[|line| - 1]];
        }
        StripInside(line, '\n');
      }
    }
  }

  /** `Stripped` takes the lines one at a time. */
  lemma StrippedCons(l: string, rest: seq<string>)
    ensures Stripped([l] + rest) == (if Strip(l) == "" then [] else [Strip(l)]) + Stripped(rest)
  {
    assert ([l] + rest)[0] == l && ([l] + rest)[1..] == rest;
  }

  /** Each kept line is clean. */
  lemma {:induction false} StrippedMember(lines: seq<string>, x: string)
    requires forall k :: 0 <= k < |lines| ==> OneLine(lines[k])
    requires x in Stripped(lines)
    ensures CleanLine(x)
  {
    var line, rest := lines[0], lines[1..];
    var head := if Strip(line) == "" then [] else [Strip(line)];
    assert Stripped(lines) == head + Stripped(rest);
    if x in head {
      StripOneLine(line);
    } else {
      assert forall k :: 0 <= k < |rest| ==> OneLine(rest[k]) by {
        forall k | 0 <= k < |rest|
          ensures OneLine(rest[k])
        {
          assert rest[k] == lines[k + 1];
        }
      }
      StrippedMember(rest, x);
    }
  }

  /** Every kept line is non-empty, its own strip and free of "\n". */
  lemma StrippedClean(lines: seq<string>)
    requires forall i :: 0 <= i < |lines| ==> OneLine(lines[i])
    ensures forall i :: 0 <= i < |Stripped(lines)| ==> CleanLine(Stripped(lines)[i])
  {
    forall i | 0 <= i < |Stripped(lines)|
      ensures CleanLine(Stripped(lines)[i])
    {
      StrippedMember(lines, Stripped(lines)[i]);
    }
  }

  /** A line without "\n", or with one final "\n" only, is a yielded line. */
  lemma OneLineOf(piece: string)
    requires '\n' !in piece
    ensures OneLine(piece) && OneLine(piece + "\n")
  {
    assert (piece + "\n")[..|piece|] == piece;
    if piece != "" {
      assert forall k :: 0 <= k < |piece| - 1 ==> piece[..|piece| - 1][k] == piece[k];
    }
  }

  lemma FileLinesShape(text: string)
    ensures var lines := FileLines(text);
            forall i :: 0 <= i < |lines| ==> OneLine(lines[i])
  {
    var pieces := Split(text, '\n');
    var init := pieces[..|pieces| - 1];
    var last := pieces[|pieces| - 1];
    var tail := if last == "" then [] else [last];
    var lines := FileLines(text);
    assert lines == Terminated(init) + tail;
    assert forall i :: 0 <= i < |init| ==> '\n' !in init[i] by {
      forall i | 0 <= i < |init|
        ensures '\n' !in init[i]
      {
        assert init[i] == pieces[i];
      }
    }
    forall i | 0 <= i < |lines|
      ensures OneLine(lines[i])
    {
      if i < |init| {
        assert lines[i] == Terminated(init)[i] == init[i] + "\n";
        OneLineOf(init[i]);
      } else {
        assert lines[i] == last;
        OneLineOf(last);
      }
    }
  }

  /** Every written line is non-empty and equal to its own `strip()`. */
  lemma OutputLinesClean(text: string)
    ensures forall i :: 0 <= i < |SortedLines(text)| ==> CleanLine(SortedLines(text)[i])
  {
    var stripped := Stripped(FileLines(text));
    FileLinesShape(text);
    StrippedClean(FileLines(text));
    var sorted := SortedLines(text);
    SortPermutes(stripped);
    forall i | 0 <= i < |sorted|
      ensures CleanLine(sorted[i])
    {
      assert sorted[i] in multiset(stripped);
      var j :| 0 <= j < |stripped| && stripped[j] == sorted[i];
    }
  }

  /**
   * The written lines are the stripped non-empty input lines, permuted into
   * non-decreasing `str.lower` order, with the lines of equal key in input
   * order.
   */
  lemma SortedLinesProperties(text: string)
    ensures Sorted(SortedLines(text))
    ensures multiset(SortedLines(text)) == multiset(Stripped(FileLines(text)))
    ensures forall k :: WithKey(SortedLines(text), k) == WithKey(Stripped(FileLines(text)), k)
  {
    SortSorted(Stripped(FileLines(text)));
    SortPermutes(Stripped(FileLines(text)));
    forall k
      ensures WithKey(SortedLines(text), k) == WithKey(Stripped(FileLines(text)), k)
    {
      SortStable(Stripped(FileLines(text)), k);
    }
  }

  /** An empty file is rewritten as a single "\n". */
  lemma EmptyInput()
    ensures Output("") == "\n"
  {
    assert Split("", '\n') == [""];
    assert FileLines("") == [];
  }

  /** Stripping the terminated clean lines gives them back. */
  lemma {:induction false} StrippedTerminated(lines: seq<string>)
    requires forall i :: 0 <= i < |lines| ==> CleanLine(lines[i])
    ensures Stripped(Terminated(lines)) == lines
  {
    if |lines| > 0 {
      var l, rest := lines[0], lines[1..];
      assert CleanLine(l);
      assert forall i :: 0 <= i < |rest| ==> CleanLine(rest[i]) by {
        forall i | 0 <= i < |rest|
          ensures CleanLine(rest[i])
        {
          assert rest[i] == lines[i + 1];
        }
      }
      StrippedTerminated(rest);
      assert Terminated(lines) == [l + "\n"] + Terminated(rest);
      StripNewline(l);
      StrippedCons(l + "\n", Terminated(rest));
      assert lines == [l] + rest;
    }
  }

  lemma JoinAppendEmpty(lines: seq<string>, sep: char)
    requires |lines| >= 1
    ensures JoinWith(lines + [""], sep) == JoinWith(lines, sep) + [sep]
  {
    assert (lines + [""])[..|lines|] == lines;
  }

  /** Reading the written text back yields each written line with its "\n". */
  lemma FileLinesOfOutput(lines: seq<string>)
    requires |lines| >= 1
    requires forall i :: 0 <= i < |lines| ==> '\n' !in lines[i]
    ensures FileLines(JoinWith(lines, '\n') + "\n") == Terminated(lines)
  {
    var parts := lines + [""];
    var out := JoinWith(lines, '\n') + "\n";
    JoinAppendEmpty(lines, '\n');
    assert out == JoinWith(parts, '\n');
    assert forall k :: 0 <= k < |parts| ==> '\n' !in parts[k] by {
      forall k | 0 <= k < |parts|
        ensures '\n' !in parts[k]
      {
        if k < |lines| {
          assert parts[k] == lines[k];
        }
      }
    }
    SplitJoin(parts, '\n');
    var pieces := Split(out, '\n');
    assert pieces == parts;
    assert pieces[..|pieces| - 1] == lines && pieces[|pieces| - 1] == "";
    assert FileLines(out) == Terminated(lines) + [];
  }

  /** A file holding only "\n" has no non-empty line. */
  lemma NewlineOnly()
    ensures Stripped(FileLines("\n")) == []
  {
    assert RFind("\n", '\n') == 0;
    assert "\n"[..0] == "" && "\n"[1..] == "";
    assert Split("", '\n') == [""];
    assert Split("\n", '\n') == ["", ""];
    assert Terminated([""]) == ["\n"] by {
      assert Terminated([""][1..]) == [];
      assert "" + "\n" == "\n";
    }
    assert FileLines("\n") == ["\n"];
    assert RStrip("\n") == "" by {
      assert "\n"[..0] == "";
    }
    assert Strip("\n") == "";
  }

  /** Running the transform on its own output writes the same text. */
  lemma Idempotent(text: string)
    ensures Output(Output(text)) == Output(text)
  {
    var lines := SortedLines(text);
    OutputLinesClean(text);
    SortedLinesProperties(text);
    if |lines| == 0 {
      assert Output(text) == "\n";
      NewlineOnly();
    } else {
      assert forall i :: 0 <= i < |lines| ==> '\n' !in lines[i] by {
        forall i | 0 <= i < |lines|
          ensures '\n' !in lines[i]
        {
          assert CleanLine(lines[i]);
        }
      }
      FileLinesOfOutput(lines);
      StrippedTerminated(lines);
      SortOfSorted(lines);
      assert SortedLines(Output(text)) == lines;
    }
  }
}
