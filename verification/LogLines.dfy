/** Log files as bytes: their complete lines, and what it means to have shipped them. */
module LogLines {
  import opened Resp

  /** A line without its newline, unless that leaves nothing. */
  function Text(line: Bytes): seq<Bytes> {
    if |line| <= 1 then [] else [line[..|line| - 1]]
  }

  /** The complete non-empty lines of b, in order. */
  function Lines(b: Bytes): seq<Bytes>
    decreases |b|
  {
    var k := LineLen(b);
    if k == 0 then [] else Text(b[..k]) + Lines(b[k..])
  }

  /** Everything up to and with the last newline. */
  function Complete(b: Bytes): (n: nat)
    ensures n <= |b|
    decreases |b|
  {
    var k := LineLen(b);
    if k == 0 then 0 else k + Complete(b[k..])
  }

  /** An offset that splits no line. */
  predicate AtLine(b: Bytes, n: nat) {
    n <= |b| && (n == 0 || b[n - 1] == LF)
  }

  lemma {:induction false} CompleteAtLine(b: Bytes)
    ensures AtLine(b, Complete(b))
    ensures LF in b ==> Complete(b) > 0
    ensures LF !in b[Complete(b)..]
    decreases |b|
  {
    LineEndsAtLF(b);
    var k := LineLen(b);
    if k == 0 {
      assert b[0..] == b;
    } else {
      var later := b[k..];
      CompleteAtLine(later);
      var n := Complete(later);
      assert Complete(b) == k + n && later[n..] == b[k + n..];
    }
  }

  lemma CutAfter(a: Bytes, b: Bytes, k: nat)
    requires k <= |a|
    ensures (a + b)[..k] == a[..k] && (a + b)[k..] == a[k..] + b
  {
  }

  /** Cutting at a line cuts the lines. */
  lemma {:induction false} LinesSplit(a: Bytes, b: Bytes)
    requires a == [] || a[|a| - 1] == LF
    ensures Lines(a + b) == Lines(a) + Lines(b)
    decreases |a|
  {
    hide LineLen, Text;
    if a == [] {
      EmptyHasNoLines();
      assert a + b == b;
    } else {
      LineEndsAtLF(a);
      assert a[|a| - 1] in a;
      var k := LineLen(a);
      CutAfter(a, b, k);
      LineIsLocal(a, a + b);
      LinesSplit(a[k..], b);
      assert Text(a[..k]) + Lines(a[k..]) + Lines(b) == Text(a[..k]) + (Lines(a[k..]) + Lines(b));
    }
  }

  lemma EmptyHasNoLines()
    ensures Lines([]) == []
  {
  }

  lemma InsideLine(b: Bytes, i: nat, j: nat)
    requires i <= j <= |b| && LF !in b[i..j]
    ensures forall x :: i <= x < j ==> b[x] != LF
  {
    forall x | i <= x < j
      ensures b[x] != LF
    {
      assert b[x] == b[i..j][x - i];
    }
  }

  /** A line inside a piece that splits no line is one of the piece's lines. */
  lemma {:induction false} LineAmong(b: Bytes, i: nat, j: nat)
    requires i < j < |b| && AtLine(b, i) && b[j] == LF && LF !in b[i..j]
    ensures b[i..j] in Lines(b)
    decreases |b|
  {
    hide LineLen;
    LineEndsAtLF(b);
    assert b[j] in b;
    var k := LineLen(b);
    InsideLine(b, i, j);
    InsideLine(b, 0, k - 1);
    if i < k {
      assert i == 0 && j == k - 1;
      assert b[..k][..k - 1] == b[i..j];
      assert Text(b[..k])[0] == b[i..j];
    } else {
      var later := b[k..];
      assert later[i - k..j - k] == b[i..j];
      LineAmong(later, i - k, j - k);
    }
  }

  // ---- lines that are there, and lines that are not ----

  /** The line b[i..j], newline excluded, of a file. */
  ghost predicate IsLine(b: Bytes, i: nat, j: nat) {
    i < j < |b| && AtLine(b, i) && b[j] == LF && LF !in b[i..j]
  }

  lemma SameSlice(b: Bytes, at: nat, end: nat, i: nat, j: nat)
    requires at <= i < j < end <= |b|
    ensures b[at..end][i - at..j - at] == b[i..j] && b[at..end][j - at] == b[j]
    ensures AtLine(b, i) ==> AtLine(b[at..end], i - at)
  {
    var piece := b[at..end];
    var left, right := piece[i - at..j - at], b[i..j];
    assert forall k :: 0 <= k < |left| ==> left[k] == piece[i - at + k] == b[i + k] == right[k];
    assert left == right;
    assert i > at ==> piece[i - at - 1] == b[i - 1];
  }

  /** A complete non-empty line lies in b[from..to]. */
  ghost predicate HasLine(b: Bytes, from: nat, to: nat) {
    exists i: nat, j: nat :: from <= i && j < to && IsLine(b, i, j)
  }

  lemma {:induction false} FirstOfLines(s: Bytes) returns (i: nat, j: nat)
    requires Lines(s) != []
    ensures IsLine(s, i, j)
    decreases |s|
  {
    hide LineLen;
    LineEndsAtLF(s);
    var k := LineLen(s);
    if k > 1 {
      return 0, k - 1;
    }
    i, j := FirstOfLines(s[k..]);
    i, j := i + k, j + k;
    var left, right := s[k..][i - k..j - k], s[i..j];
    assert forall x :: 0 <= x < |left| ==> left[x] == s[i + x] == right[x];
    assert left == right;
  }

  /** A piece that begins at a line has lines to give if and only if a line lies in it. */
  lemma LinesOfPiece(b: Bytes, from: nat, to: nat)
    requires from <= to <= |b| && AtLine(b, from)
    ensures Lines(b[from..to]) != [] <==> HasLine(b, from, to)
  {
    hide Lines;
    var s := b[from..to];
    if Lines(s) != [] {
      var i, j := FirstOfLines(s);
      LineOfSlice(b, from, to, i, j);
    }
    if HasLine(b, from, to) {
      var i: nat, j: nat :| from <= i && j < to && IsLine(b, i, j);
      SameSlice(b, from, to, i, j);
      LineAmong(s, i - from, j - from);
    }
  }

  lemma LineOfSlice(b: Bytes, from: nat, to: nat, i: nat, j: nat)
    requires from <= to <= |b| && AtLine(b, from) && IsLine(b[from..to], i, j)
    ensures IsLine(b, from + i, from + j) && from + j < to
  {
    var left, right := b[from..to][i..j], b[from + i..from + j];
    assert forall x :: 0 <= x < |left| ==> left[x] == b[from + i + x] == right[x];
    assert left == right;
    assert i > 0 ==> b[from..to][i - 1] == b[from + i - 1];
    assert b[from..to][j] == b[from + j];
  }

  lemma NoLines(s: Bytes)
    requires LF !in s
    ensures Lines(s) == []
  {
    LineEndsAtLF(s);
  }

  /** What follows the last newline is no line yet. */
  lemma CompleteLines(s: Bytes)
    ensures Lines(s[..Complete(s)]) == Lines(s)
  {
    hide Lines, Complete;
    var n := Complete(s);
    CompleteAtLine(s);
    LinesSplit(s[..n], s[n..]);
    NoLines(s[n..]);
    assert s == s[..n] + s[n..];
  }

  lemma NoLineBeyond(b: Bytes, n: nat, to: nat)
    requires n <= to <= |b| && LF !in b[n..to]
    ensures !HasLine(b, n, to)
  {
    InsideLine(b, n, to);
  }

  /** Where no line lies beyond, the prefix has all the lines. */
  lemma AllLines(b: Bytes, n: nat)
    requires AtLine(b, n) && !HasLine(b, n, |b|)
    ensures Lines(b) == Lines(b[..n])
  {
    hide Lines;
    LinesOfPiece(b, n, |b|);
    assert b == b[..n] + b[n..] && b[n..|b|] == b[n..];
    LinesSplit(b[..n], b[n..]);
  }
}
