/** The log sink's ring of the most recent records, and its query (services/log-sink/main.go). */
module LogSink {
  datatype Record = Record(ts: string, line: string)

  /** The last n elements. */
  function Newest<T>(s: seq<T>, n: nat): seq<T> {
    if |s| <= n then s else s[|s| - n..]
  }

  predicate Contains(line: string, q: string) {
    q <= line || (line != "" && Contains(line[1..], q))
  }

  predicate StartsAt(line: string, q: string, i: nat) {
    i <= |line| && q <= line[i..]
  }

  /** A substring, wherever it begins. */
  lemma {:induction false} ContainsIff(line: string, q: string)
    ensures Contains(line, q) <==> exists i: nat :: StartsAt(line, q, i)
  {
    assert line[0..] == line;
    if q <= line {
      assert StartsAt(line, q, 0);
    } else if line != "" {
      ContainsIff(line[1..], q);
      if Contains(line[1..], q) {
        var i: nat :| StartsAt(line[1..], q, i);
        assert line[1..][i..] == line[i + 1..];
        assert StartsAt(line, q, i + 1);
      }
      if i: nat :| StartsAt(line, q, i) {
        assert i > 0 && line[1..][i - 1..] == line[i..];
        assert StartsAt(line[1..], q, i - 1);
      }
    }
  }

  predicate Matches(r: Record, q: string) {
    q == "" || Contains(r.line, q)
  }

  /** The matching records, newest first. */
  function Answer(s: seq<Record>, q: string): seq<Record> {
    if s == [] then []
    else
      var n := |s| - 1;
      (if Matches(s[n], q) then [s[n]] else []) + Answer(s[..n], q)
  }

  lemma {:induction false} AnswerIsAll(s: seq<Record>, q: string, r: Record)
    ensures r in Answer(s, q) <==> r in s && Matches(r, q)
    decreases |s|
  {
    hide Matches;
    if s != [] {
      var n := |s| - 1;
      AnswerIsAll(s[..n], q, r);
      assert s == s[..n] + [s[n]];
    }
  }

  /** The records of a ring, oldest first. */
  function InOrder<T>(b: seq<T>, next: nat, full: bool): seq<T>
    requires next <= |b|
  {
    if full then b[next..] + b[..next] else b[..next]
  }

  function Pushed<T>(s: seq<T>, n: nat, r: T): seq<T> {
    (if |s| == n && s != [] then s[1..] else s) + [r]
  }

  lemma NewestPushed<T>(s: seq<T>, n: nat, r: T)
    requires n > 0
    ensures Newest(s + [r], n) == Pushed(Newest(s, n), n, r)
  {
  }

  lemma Overwritten<T>(b: seq<T>, next: nat, full: bool, r: T)
    requires next < |b|
    ensures var next1 := if next + 1 == |b| then 0 else next + 1;
            InOrder(b[next := r], next1, full || next1 == 0) == Pushed(InOrder(b, next, full), |b|, r)
  {
    if full {
      assert InOrder(b, next, full)[1..] == b[next + 1..] + b[..next];
    }
    assert b[next := r][..next + 1] == b[..next] + [r];
  }

  lemma WrapsAround(i: nat, n: nat)
    requires i < n
    ensures (i + 1) % n == if i + 1 == n then 0 else i + 1
  {
  }

  class Ring {
    var buf: array<Record>
    var next: nat
    var full: bool
    /** Everything ever added. */
    ghost var added: seq<Record>

    ghost predicate Valid()
      reads this, buf
    {
      && next < buf.Length
      && (full ==> buf.Length <= |added|)
      && (!full ==> |added| == next)
      && Stored() == Newest(added, buf.Length)
    }

    function Stored(): seq<Record>
      requires next <= buf.Length
      reads this, buf
    {
      InOrder(buf[..], next, full)
    }

    constructor (capacity: nat)
      requires capacity > 0
      ensures Valid() && fresh(buf) && buf.Length == capacity && added == []
    {
      buf := new Record[capacity](_ => Record("", ""));
      next, full, added := 0, false, [];
    }

    /** Overwrites the oldest record once the ring is full. */
    method Add(r: Record)
      requires Valid()
      modifies this, buf
      ensures Valid() && buf == old(buf) && added == old(added) + [r]
    {
      ghost var b := buf[..];
      Overwritten(b, next, full, r);
      NewestPushed(added, buf.Length, r);
      WrapsAround(next, buf.Length);
      buf[next] := r;
      assert buf[..] == b[next := r];
      next := (next + 1) % buf.Length;
      if next == 0 {
        full := true;
      }
      added := added + [r];
    }

    method Snapshot() returns (s: seq<Record>)
      requires Valid()
      ensures s == Newest(added, buf.Length)
    {
      return Stored();
    }

    method Query(q: string) returns (matches: seq<Record>)
      requires Valid()
      ensures matches == Answer(Newest(added, buf.Length), q)
    {
      hide Matches, Answer;
      var all := Snapshot();
      matches := [];
      WholeAnswer(all, q);
      var i := |all|;
      while i > 0
        invariant 0 <= i <= |all| && matches + Answer(all[..i], q) == Answer(all, q)
      {
        i := i - 1;
        NextAnswer(matches, all, i, q);
        if Matches(all[i], q) {
          matches := matches + [all[i]];
        }
      }
      NoAnswer(matches, all, q);
    }
  }

  lemma WholeAnswer(all: seq<Record>, q: string)
    ensures [] + Answer(all[..|all|], q) == Answer(all, q)
  {
    assert all[..|all|] == all;
  }

  /** The query takes the newest record that is left, or passes it over. */
  lemma NextAnswer(matches: seq<Record>, all: seq<Record>, i: nat, q: string)
    requires i < |all|
    ensures matches + Answer(all[..i + 1], q) ==
            (if Matches(all[i], q) then matches + [all[i]] else matches) + Answer(all[..i], q)
  {
    hide Matches;
    assert all[..i + 1][..i] == all[..i];
  }

  lemma NoAnswer(matches: seq<Record>, all: seq<Record>, q: string)
    ensures matches + Answer(all[..0], q) == matches
  {
  }
}
