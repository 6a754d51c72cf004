/**
  The RESP2 framing of the cache ambassador (Redis serialization protocol specification, RESP2,
  sections "Bulk strings" and "Arrays"): what readCommand and readReply accept, as functions of the
  bytes to come, and what the encoders print.
*/
module Resp {
  import opened Lists

  type byte = b: int | 0 <= b < 256
  type Bytes = seq<byte>

  const CR: byte := 13
  const LF: byte := 10
  const CRLF: Bytes := [CR, LF]
  const STAR: byte := 42
  const DOLLAR: byte := 36
  const PLUS: byte := 43
  const MINUS: byte := 45
  const COLON: byte := 58
  const ZERO: byte := 48

  const MAX_INT: int := 0x7fff_ffff_ffff_ffff

  // make panics on more than a 48-bit address space; a slice header takes 24 bytes.
  const MAX_ALLOC := 0x1_0000_0000_0000
  const MAX_ARGS := MAX_ALLOC / 24
  const MAX_ARG := MAX_ALLOC - 2

  // ---- decimal numbers ----

  /** %d of a length. */
  function Digits(n: nat): Bytes {
    if n < 10 then [(ZERO + n) as byte] else Digits(n / 10) + [(ZERO + n % 10) as byte]
  }

  predicate IsDigit(b: byte) {
    ZERO <= b <= ZERO + 9
  }

  /** The value of a digit string, or None when some byte is no digit. */
  function DigitsValue(s: Bytes): (r: Option<nat>) {
    if s == [] then Some(0)
    else
      var last := |s| - 1;
      var before := DigitsValue(s[..last]);
      if before.Some? && IsDigit(s[last]) then Some(10 * before.value + (s[last] - ZERO)) else None
  }

  /** strconv.Atoi: an optional sign, at least one digit, and a value that fits 64 bits. */
  function Atoi(s: Bytes): Option<int> {
    if s == [] then None
    else
      var signed := s[0] == PLUS || s[0] == MINUS;
      var digits := if signed then s[1..] else s;
      if digits == [] then None
      else
        match DigitsValue(digits)
        case None => None
        case Some(v) =>
          var sign := if s[0] == MINUS then -1 else 1;
          var n := sign * v;
          if -MAX_INT - 1 <= n <= MAX_INT then Some(n) else None
  }

  lemma {:induction false} DigitsAreValue(n: nat)
    ensures DigitsValue(Digits(n)) == Some(n) && Digits(n) != [] && IsDigit(Digits(n)[0])
  {
    if n < 10 {
      assert DigitsValue([]) == Some(0);
    } else {
      DigitsAreValue(n / 10);
      var s := Digits(n);
      assert s[..|s| - 1] == Digits(n / 10);
    }
  }

  lemma AtoiDigits(n: nat)
    requires n <= MAX_INT
    ensures Atoi(Digits(n)) == Some(n)
  {
    DigitsAreValue(n);
  }

  /** A sign changes nothing but the sign, and what does not fit 64 bits is no number. */
  lemma AtoiSigned(n: nat)
    ensures Atoi([PLUS] + Digits(n)) == if n <= MAX_INT then Some(n) else None
    ensures Atoi([MINUS] + Digits(n)) == if n <= MAX_INT + 1 then Some(0 - n) else None
    ensures Atoi(Digits(n)) == if n <= MAX_INT then Some(n) else None
  {
    DigitsAreValue(n);
    assert ([PLUS] + Digits(n))[1..] == Digits(n) && ([MINUS] + Digits(n))[1..] == Digits(n);
  }

  // ---- lines ----

  /** The length of the first line with its LF, or 0 when there is no LF. */
  function LineLen(s: Bytes): (k: nat)
    ensures k <= |s|
  {
    if s == [] then 0
    else if s[0] == LF then 1
    else
      var k := LineLen(s[1..]);
      if k == 0 then 0 else k + 1
  }

  lemma {:induction false} LineEndsAtLF(s: Bytes)
    ensures var k := LineLen(s);
            if k == 0 then LF !in s else s[k - 1] == LF && LF !in s[..k - 1]
  {
    if s != [] && s[0] != LF {
      LineEndsAtLF(s[1..]);
      var k := LineLen(s[1..]);
      if k > 0 {
        assert s[..k] == [s[0]] + s[1..][..k - 1];
      } else {
        assert s == [s[0]] + s[1..];
      }
    }
  }

  function TrimCRLF(b: Bytes): Bytes {
    var b := if b != [] && b[|b| - 1] == LF then b[..|b| - 1] else b;
    if b != [] && b[|b| - 1] == CR then b[..|b| - 1] else b
  }

  /** The first line is settled by its own bytes. */
  lemma {:induction false} LineIsLocal(s: Bytes, t: Bytes)
    requires LineLen(s) > 0 && s[..LineLen(s)] <= t
    ensures LineLen(t) == LineLen(s) && t[..LineLen(t)] == s[..LineLen(s)]
  {
    assert t[0] == s[..LineLen(s)][0] == s[0];
    if s[0] != LF {
      assert s[1..][..LineLen(s[1..])] == s[..LineLen(s)][1..];
      LineIsLocal(s[1..], t[1..]);
    }
  }

  lemma {:induction false} LineAfter(body: Bytes, rest: Bytes)
    requires LF !in body
    ensures LineLen(body + [LF] + rest) == |body| + 1
  {
    var s := body + [LF] + rest;
    if body != [] {
      assert s[1..] == body[1..] + [LF] + rest;
      LineAfter(body[1..], rest);
    }
  }

  lemma LineOf(body: Bytes, rest: Bytes)
    requires LF !in body
    ensures LineLen(body + CRLF + rest) == |body| + 2
    ensures (body + CRLF + rest)[..|body| + 2] == body + CRLF
    ensures (body + CRLF + rest)[|body| + 2..] == rest
    ensures TrimCRLF(body + CRLF) == body
  {
    LineAfter(body + [CR], rest);
    assert body + CRLF + rest == body + [CR] + [LF] + rest;
  }

  /** 64-bit wrap-around. */
  function Wrap(n: int): int {
    if n > MAX_INT then n - 2 * (MAX_INT + 1) else n
  }

  // ---- readReply ----

  /** What the first line of a reply announces. */
  datatype Heading = Malformed | Whole | Payload(size: nat) | Elements(count: nat)

  function HeadingOf(line: Bytes): Heading {
    if line == [] then Malformed
    else if line[0] == PLUS || line[0] == MINUS || line[0] == COLON then Whole
    else if line[0] == DOLLAR then
      match Atoi(line[1..])
      case None => Malformed
      case Some(n) =>
        // io.CopyN copies nothing, and succeeds, when n + 2 has wrapped around.
        if n < 0 || Wrap(n + 2) < 0 then Whole else Payload(Wrap(n + 2))
    else if line[0] == STAR then
      match Atoi(line[1..])
      case None => Malformed
      case Some(n) => if n < 0 then Whole else Elements(n)
    else Malformed
  }

  /** How many bytes of s the first reply takes, or None when readReply fails on s. */
  function ReplyLen(s: Bytes): (r: Option<nat>)
    ensures r.Some? ==> 0 < r.value <= |s|
    decreases |s|, 0, 0
  {
    var k := LineLen(s);
    if k == 0 then None
    else
      match HeadingOf(TrimCRLF(s[..k]))
      case Malformed => None
      case Whole => Some(k)
      case Payload(size) => if size <= |s| - k then Some(k + size) else None
      case Elements(count) =>
        var inner := RepliesLen(count, s[k..]);
        if inner.Some? then Some(k + inner.value) else None
  }

  /** The same for n replies in a row. */
  function RepliesLen(n: nat, s: Bytes): (r: Option<nat>)
    ensures r.Some? ==> r.value <= |s|
    decreases |s|, 1, n
  {
    if n == 0 then Some(0)
    else
      var first := ReplyLen(s);
      if first.None? then None
      else
        var later := RepliesLen(n - 1, s[first.value..]);
        if later.Some? then Some(first.value + later.value) else None
  }

  /** Main result: success depends on the consumed bytes alone. */
  lemma {:induction false} ReplyIsLocal(s: Bytes, t: Bytes)
    requires ReplyLen(s).Some? && s[..ReplyLen(s).value] <= t
    ensures ReplyLen(t) == ReplyLen(s)
    decreases |s|, 0, 0
  {
    hide HeadingOf, LineLen, TrimCRLF;
    var k, a := LineLen(s), ReplyLen(s).value;
    assert s[..k] == s[..a][..k];
    LineIsLocal(s, t);
    var heading := HeadingOf(TrimCRLF(s[..k]));
    if heading.Elements? {
      assert s[k..][..a - k] == s[..a][k..];
      RepliesAreLocal(heading.count, s[k..], t[k..]);
    }
  }

  lemma {:induction false} RepliesAreLocal(n: nat, s: Bytes, t: Bytes)
    requires RepliesLen(n, s).Some? && s[..RepliesLen(n, s).value] <= t
    ensures RepliesLen(n, t) == RepliesLen(n, s)
    decreases |s|, 1, n
  {
    hide ReplyLen;
    if n > 0 {
      var a, b := ReplyLen(s).value, RepliesLen(n, s).value;
      assert s[..a] == s[..b][..a];
      ReplyIsLocal(s, t);
      assert s[a..][..b - a] == s[..b][a..];
      RepliesAreLocal(n - 1, s[a..], t[a..]);
    }
  }

  /** Appending input never changes a reply that has been read. */
  lemma ReplyIsStable(s: Bytes, more: Bytes)
    requires ReplyLen(s).Some?
    ensures ReplyLen(s + more) == ReplyLen(s)
  {
    ReplyIsLocal(s, s + more);
  }

  /** No proper prefix of a reply is itself a reply. */
  lemma NoPrefixIsReply(s: Bytes, n: nat)
    requires ReplyLen(s).Some? && n < ReplyLen(s).value
    ensures ReplyLen(s[..n]).None?
  {
    if ReplyLen(s[..n]).Some? {
      ReplyIsLocal(s[..n], s);
    }
  }

  // ---- reply values ----

  datatype Reply =
    | Simple(text: Bytes) | Error(text: Bytes) | Integer(text: Bytes)
    | Bulk(data: Bytes) | NullBulk
    | Array(items: seq<Reply>) | NullArray

  /** Lines carry no LF; lengths are such that n + 2 does not wrap. */
  predicate IsPrintable(v: Reply) {
    match v
    case Simple(text) => LF !in text
    case Error(text) => LF !in text
    case Integer(text) => LF !in text
    case Bulk(data) => |data| <= MAX_INT - 2
    case Array(items) => |items| <= MAX_INT && forall i :: 0 <= i < |items| ==> IsPrintable(items[i])
    case _ => true
  }

  function Print(v: Reply): Bytes
    decreases v, 0
  {
    match v
    case Simple(text) => [PLUS] + text + CRLF
    case Error(text) => [MINUS] + text + CRLF
    case Integer(text) => [COLON] + text + CRLF
    case Bulk(data) => [DOLLAR] + Digits(|data|) + CRLF + (data + CRLF)
    case NullBulk => [DOLLAR, MINUS, ZERO + 1] + CRLF
    case Array(items) => [STAR] + Digits(|items|) + CRLF + PrintAll(items)
    case NullArray => [STAR, MINUS, ZERO + 1] + CRLF
  }

  function PrintAll(items: seq<Reply>): Bytes
    decreases items, 1
  {
    if items == [] then [] else Print(items[0]) + PrintAll(items[1..])
  }

  lemma {:induction false} DigitsOneLine(n: nat)
    ensures LF !in Digits(n) && CR !in Digits(n)
  {
    if n >= 10 {
      DigitsOneLine(n / 10);
    }
  }

  lemma MinusOne()
    ensures Atoi([MINUS, ZERO + 1]) == Some(-1)
  {
    assert [MINUS, ZERO + 1][1..] == [ZERO + 1];
    assert DigitsValue([]) == Some(0);
    assert [ZERO + 1][..0] == [];
    assert DigitsValue([ZERO + 1]) == Some(1);
  }

  /** The first line of kind + body + CRLF + rest. */
  lemma Header(kind: byte, body: Bytes, rest: Bytes)
    requires kind != LF && LF !in body
    ensures var s := [kind] + body + CRLF + rest;
            LineLen(s) == |body| + 3 && s[|body| + 3..] == rest && TrimCRLF(s[..|body| + 3]) == [kind] + body
  {
    LineOf([kind] + body, rest);
  }

  lemma HeadingLine(kind: byte, body: Bytes)
    ensures kind in {PLUS, MINUS, COLON} ==> HeadingOf([kind] + body) == Whole
  {
  }

  lemma HeadingSize(n: nat)
    requires n <= MAX_INT
    ensures n <= MAX_INT - 2 ==> HeadingOf([DOLLAR] + Digits(n)) == Payload(n + 2)
    ensures HeadingOf([STAR] + Digits(n)) == Elements(n)
  {
    hide Digits, Atoi;
    AtoiDigits(n);
    assert ([DOLLAR] + Digits(n))[1..] == Digits(n) == ([STAR] + Digits(n))[1..];
  }

  lemma HeadingNull()
    ensures HeadingOf([DOLLAR] + [MINUS, ZERO + 1]) == Whole == HeadingOf([STAR] + [MINUS, ZERO + 1])
  {
    hide Atoi;
    MinusOne();
    assert ([DOLLAR] + [MINUS, ZERO + 1])[1..] == [MINUS, ZERO + 1] == ([STAR] + [MINUS, ZERO + 1])[1..];
  }

  /** A reply that is one line. */
  lemma ReadLine(kind: byte, body: Bytes, rest: Bytes)
    requires kind != LF && LF !in body && HeadingOf([kind] + body) == Whole
    ensures ReplyLen([kind] + body + CRLF + rest) == Some(|body| + 3)
  {
    hide HeadingOf, LineLen, TrimCRLF;
    Header(kind, body, rest);
  }

  lemma ReadBulk(data: Bytes, rest: Bytes)
    requires |data| <= MAX_INT - 2
    ensures ReplyLen([DOLLAR] + Digits(|data|) + CRLF + (data + CRLF + rest)) == Some(|Digits(|data|)| + 3 + |data| + 2)
  {
    hide HeadingOf, LineLen, TrimCRLF, Digits;
    DigitsOneLine(|data|);
    HeadingSize(|data|);
    Header(DOLLAR, Digits(|data|), data + CRLF + rest);
  }

  lemma ReadArray(n: nat, inner: Bytes, rest: Bytes)
    requires n <= MAX_INT && RepliesLen(n, inner + rest) == Some(|inner|)
    ensures ReplyLen([STAR] + Digits(n) + CRLF + (inner + rest)) == Some(|Digits(n)| + 3 + |inner|)
  {
    hide HeadingOf, LineLen, TrimCRLF, Digits, RepliesLen;
    DigitsOneLine(n);
    HeadingSize(n);
    Header(STAR, Digits(n), inner + rest);
  }

  /** A value printed as one line. */
  lemma PrintedLine(v: Reply, rest: Bytes)
    requires IsPrintable(v) && !v.Bulk? && !v.Array?
    ensures ReplyLen(Print(v) + rest) == Some(|Print(v)|)
  {
    hide ReplyLen, HeadingOf, PrintAll, Digits;
    HeadingNull();
    match v {
      case Simple(text) =>
        HeadingLine(PLUS, text);
        ReadLine(PLUS, text, rest);
      case Error(text) =>
        HeadingLine(MINUS, text);
        ReadLine(MINUS, text, rest);
      case Integer(text) =>
        HeadingLine(COLON, text);
        ReadLine(COLON, text, rest);
      case NullBulk => NullLine(DOLLAR, rest);
      case NullArray => NullLine(STAR, rest);
    }
  }

  lemma NullLine(kind: byte, rest: Bytes)
    requires kind == DOLLAR || kind == STAR
    ensures ReplyLen([kind, MINUS, ZERO + 1] + CRLF + rest) == Some(5)
  {
    hide ReplyLen, HeadingOf;
    HeadingNull();
    ReadLine(kind, [MINUS, ZERO + 1], rest);
    assert [kind] + [MINUS, ZERO + 1] == [kind, MINUS, ZERO + 1];
  }

  lemma PrintedBulk(data: Bytes, rest: Bytes)
    requires |data| <= MAX_INT - 2
    ensures ReplyLen(Print(Bulk(data)) + rest) == Some(|Print(Bulk(data))|)
  {
    hide ReplyLen, Digits;
    ReadBulk(data, rest);
    assert Print(Bulk(data)) + rest == [DOLLAR] + Digits(|data|) + CRLF + (data + CRLF + rest);
  }

  /**
    Main result: every printable reply value, however nested, followed by any bytes at all, is read
    as exactly its own encoding.
  */
  lemma {:induction false} PrintThenRead(v: Reply, rest: Bytes)
    requires IsPrintable(v)
    ensures ReplyLen(Print(v) + rest) == Some(|Print(v)|)
    decreases v, 0
  {
    hide ReplyLen, Digits, PrintAll;
    match v {
      case Bulk(data) => PrintedBulk(data, rest);
      case Array(items) =>
        PrintAllThenRead(items, rest);
        ReadArray(|items|, PrintAll(items), rest);
        assert Print(v) + rest == [STAR] + Digits(|items|) + CRLF + (PrintAll(items) + rest);
      case _ => PrintedLine(v, rest);
    }
  }

  lemma {:induction false} PrintAllThenRead(items: seq<Reply>, rest: Bytes)
    requires forall i :: 0 <= i < |items| ==> IsPrintable(items[i])
    ensures RepliesLen(|items|, PrintAll(items) + rest) == Some(|PrintAll(items)|)
    decreases items, 1
  {
    hide ReplyLen, Print;
    if items != [] {
      var first := Print(items[0]);
      var later := PrintAll(items[1..]) + rest;
      assert PrintAll(items) + rest == first + later;
      PrintThenRead(items[0], later);
      assert (first + later)[|first|..] == later;
      PrintAllThenRead(items[1..], rest);
    }
  }

  // ---- commands ----

  datatype CommandRead = Got(args: seq<Bytes>, used: nat) | Failed | Panicked

  /** What the header line of one argument announces. */
  datatype ArgHeading = NoSize | Oversized | Size(len: nat)

  function ArgHeadingOf(h: Bytes): (r: ArgHeading)
    ensures r.Size? ==> r.len <= MAX_ARG
  {
    if h == [] || h[0] != DOLLAR then NoSize
    else
      match Atoi(h[1..])
      case None => NoSize
      case Some(len) =>
        if len < 0 then NoSize
        else if len > MAX_ARG then Oversized       // make([]byte, n+2) panics, also when n+2 wraps around
        else Size(len)
  }

  /** The argument loop of readCommand: n arguments still to read. */
  function ArgsAt(n: nat, s: Bytes): (r: CommandRead)
    ensures r.Got? ==> r.used <= |s| && |r.args| == n
    decreases n
  {
    if n == 0 then Got([], 0)
    else
      var k := LineLen(s);
      if k == 0 then Failed
      else
        match ArgHeadingOf(TrimCRLF(s[..k]))
        case NoSize => Failed
        case Oversized => Panicked
        case Size(len) =>
          var next := k + len + 2;
          if next > |s| then Failed
          else
            var later := ArgsAt(n - 1, s[next..]);
            if later.Got? then Got([s[k..k + len]] + later.args, next + later.used) else later
  }

  predicate IsSpace(b: byte) {
    b == 32 || 9 <= b <= 13
  }

  /** Space, tab, line feed, vertical tab, form feed and carriage return. */
  lemma Spaces(b: byte)
    ensures IsSpace(b) <==> b as char in [' ', '\t', '\n', '\U{0B}', '\U{0C}', '\r']
  {
    assert IsSpace(b) ==> b in [32, 9, 10, 11, 12, 13];
  }

  /** bytes.Fields on ASCII: the maximal runs of non-space bytes. */
  function Fields(s: Bytes): seq<Bytes> {
    if s == [] then []
    else if IsSpace(s[0]) then Fields(s[1..])
    else
      var n := WordLen(s);
      [s[..n]] + Fields(s[n..])
  }

  function WordLen(s: Bytes): (n: nat)
    ensures n <= |s| && (s != [] && !IsSpace(s[0]) ==> n > 0)
  {
    if s == [] || IsSpace(s[0]) then 0 else 1 + WordLen(s[1..])
  }

  predicate IsWord(w: Bytes) {
    w != [] && forall b <- w :: !IsSpace(b)
  }

  predicate IsGap(g: Bytes) {
    forall b <- g :: IsSpace(b)
  }

  /** Words with gaps before, between and behind them. */
  function Spread(gaps: seq<Bytes>, words: seq<Bytes>): Bytes
    requires |gaps| == |words| + 1
  {
    if words == [] then gaps[0] else gaps[0] + words[0] + Spread(gaps[1..], words[1..])
  }

  predicate AreWords(gaps: seq<Bytes>, words: seq<Bytes>)
  {
    && |gaps| == |words| + 1
    && (forall w <- words :: IsWord(w)) && (forall g <- gaps :: IsGap(g))
    && forall i :: 0 < i < |words| ==> gaps[i] != []
  }

  lemma {:induction false} SkipGap(gap: Bytes, s: Bytes)
    requires IsGap(gap)
    ensures Fields(gap + s) == Fields(s)
  {
    if gap == [] {
      assert gap + s == s;
    } else {
      assert gap[0] in gap && (gap + s)[1..] == gap[1..] + s && forall b <- gap[1..] :: b in gap;
      SkipGap(gap[1..], s);
    }
  }

  lemma {:induction false} WordEnds(w: Bytes, s: Bytes)
    requires (forall b <- w :: !IsSpace(b)) && (s == [] || IsSpace(s[0]))
    ensures WordLen(w + s) == |w|
  {
    if w == [] {
      assert w + s == s;
    } else {
      assert w[0] in w && (w + s)[1..] == w[1..] + s && forall b <- w[1..] :: b in w;
      WordEnds(w[1..], s);
    }
  }

  lemma FirstField(w: Bytes, s: Bytes)
    requires IsWord(w) && (s == [] || IsSpace(s[0]))
    ensures Fields(w + s) == [w] + Fields(s)
  {
    WordEnds(w, s);
    assert w[0] in w && (w + s)[0] == w[0];
    assert (w + s)[..|w|] == w && (w + s)[|w|..] == s;
  }

  /** Main result: the words of a line are found, whole and in order, whatever space is around them. */
  lemma {:induction false} FieldsAreWords(gaps: seq<Bytes>, words: seq<Bytes>)
    requires AreWords(gaps, words)
    ensures Fields(Spread(gaps, words)) == words
    decreases |words|
  {
    hide Fields, IsWord, IsGap;
    assert gaps[0] in gaps;
    if words == [] {
      SkipGap(gaps[0], []);
      assert gaps[0] + [] == gaps[0];
      NoFields();
    } else {
      var later := Spread(gaps[1..], words[1..]);
      assert words[0] in words;
      LaterWords(gaps, words);
      FieldsAreWords(gaps[1..], words[1..]);
      FirstField(words[0], later);
      SkipGap(gaps[0], words[0] + later);
      assert gaps[0] + words[0] + later == gaps[0] + (words[0] + later);
    }
  }

  lemma NoFields()
    ensures Fields([]) == []
  {
  }

  lemma LaterWords(gaps: seq<Bytes>, words: seq<Bytes>)
    requires AreWords(gaps, words) && words != []
    ensures AreWords(gaps[1..], words[1..])
    ensures var later := Spread(gaps[1..], words[1..]); later == [] || IsSpace(later[0])
  {
    hide IsWord;
    assert forall w <- words[1..] :: w in words;
    assert forall g <- gaps[1..] :: g in gaps;
    assert gaps[1] in gaps && gaps[1..][0] == gaps[1];
    assert gaps[1] != [] ==> gaps[1][0] in gaps[1];
  }

  /** The words of an inline command, which bytes.Fields makes a slice for. */
  function Inline(line: Bytes, used: nat): CommandRead {
    var words := Fields(line);
    if |words| > MAX_ARGS then Panicked else Got(words, used)
  }

  /** What readCommand makes of the bytes to come. */
  function CommandAt(s: Bytes): (r: CommandRead)
    ensures r.Got? ==> 0 < r.used <= |s|
  {
    var k := LineLen(s);
    if k == 0 then Failed
    else if s[0] != STAR then Inline(TrimCRLF(s[..k]), k)
    else
      // The prefix byte is consumed before the line is read.
      match Atoi(TrimCRLF(s[1..k]))
      case None => Failed
      case Some(n) =>
        if n < 0 then Failed
        else if n > MAX_ARGS then Panicked       // make([][]byte, n) panics
        else
          match ArgsAt(n, s[k..])
          case Got(args, used) => Got(args, k + used)
          case bad => bad
  }

  /** Main result: a count or a size that cannot be allocated panics, whatever follows. */
  lemma HugeCountPanics(n: nat, rest: Bytes)
    requires MAX_ARGS < n <= MAX_INT
    ensures CommandAt([STAR] + Digits(n) + CRLF + rest) == Panicked
  {
    hide LineLen, TrimCRLF, Digits, Atoi, ArgsAt, Inline;
    DigitsOneLine(n);
    AtoiDigits(n);
    Header(STAR, Digits(n), rest);
    StarLine(Digits(n), rest);
    LineOf(Digits(n), []);
  }

  lemma HugeArgPanics(count: nat, n: nat, rest: Bytes)
    requires 0 < count && MAX_ARG < n <= MAX_INT
    ensures ArgsAt(count, [DOLLAR] + Digits(n) + CRLF + rest) == Panicked
  {
    hide LineLen, TrimCRLF, Digits, Atoi, ArgsAt;
    DigitsOneLine(n);
    AtoiDigits(n);
    Header(DOLLAR, Digits(n), rest);
    NextArg(count, [DOLLAR] + Digits(n) + CRLF + rest);
    assert ([DOLLAR] + Digits(n))[1..] == Digits(n);
  }

  lemma SameCut(seen: Bytes, t: Bytes, i: nat, j: nat, k: nat)
    requires seen <= t && i <= j <= k <= |seen|
    ensures seen[i..j] == t[i..j] && seen[k..] <= t[k..]
  {
  }

  /** One argument, and what comes after it. */
  function WithArg(a: Bytes, next: nat, later: CommandRead): CommandRead {
    if later.Got? then Got([a] + later.args, next + later.used) else later
  }

  lemma NextArg(n: nat, s: Bytes)
    requires n > 0
    ensures var k := LineLen(s);
            ArgsAt(n, s) ==
              if k == 0 then Failed
              else
                var heading := ArgHeadingOf(TrimCRLF(s[..k]));
                if heading.NoSize? then Failed
                else if heading.Oversized? then Panicked
                else if k + heading.len + 2 > |s| then Failed
                else WithArg(s[k..k + heading.len], k + heading.len + 2, ArgsAt(n - 1, s[k + heading.len + 2..]))
  {
    hide LineLen, TrimCRLF, ArgHeadingOf;
  }

  lemma {:induction false} ArgsAreLocal(n: nat, s: Bytes, t: Bytes)
    requires var r := ArgsAt(n, s); (r.Got? && s[..r.used] <= t) || (r.Panicked? && s <= t)
    ensures ArgsAt(n, t) == ArgsAt(n, s)
    decreases n
  {
    hide LineLen, TrimCRLF, ArgHeadingOf, ArgsAt;
    if n == 0 {
      NoArgs(s);
      NoArgs(t);
    } else {
      NextArg(n, s);
      NextArg(n, t);
      var k, r := LineLen(s), ArgsAt(n, s);
      var seen := if r.Got? then s[..r.used] else s;
      SameCut(seen, s, 0, k, k);
      LineIsLocal(s, t);
      var heading := ArgHeadingOf(TrimCRLF(s[..k]));
      if heading.Size? {
        var next := k + heading.len + 2;
        SameCut(seen, s, k, k + heading.len, next);
        SameCut(seen, t, k, k + heading.len, next);
        assert r.Got? ==> s[next..][..r.used - next] == seen[next..];
        ArgsAreLocal(n - 1, s[next..], t[next..]);
      }
    }
  }

  /** Main result: a command, once read, is settled by its own bytes; so is a panic. */
  lemma CommandIsLocal(s: Bytes, t: Bytes)
    requires var r := CommandAt(s); (r.Got? && s[..r.used] <= t) || (r.Panicked? && s <= t)
    ensures CommandAt(t) == CommandAt(s)
  {
    hide LineLen, TrimCRLF, Atoi, ArgsAt, Fields;
    var k := LineLen(s);
    var seen := if CommandAt(s).Got? then s[..CommandAt(s).used] else s;
    assert s[..k] == seen[..k];
    LineIsLocal(s, t);
    assert t[0] == t[..k][0] == s[..k][0] == s[0];
    if s[0] == STAR {
      assert s[1..k] == s[..k][1..] && t[1..k] == t[..k][1..];
      var n := Atoi(TrimCRLF(s[1..k])).value;
      if n <= MAX_ARGS {
        if CommandAt(s).Got? {
          assert s[k..][..ArgsAt(n, s[k..]).used] == seen[k..];
        }
        assert seen[k..] <= t[k..];
        ArgsAreLocal(n, s[k..], t[k..]);
      }
    }
  }

  /** encodeCommand. */
  function EncodeArgs(args: seq<Bytes>): Bytes {
    if args == [] then []
    else [DOLLAR] + Digits(|args[0]|) + CRLF + (args[0] + CRLF) + EncodeArgs(args[1..])
  }

  function EncodeCommand(args: seq<Bytes>): Bytes {
    [STAR] + Digits(|args|) + CRLF + EncodeArgs(args)
  }

  /** Sizes that fit the machine. */
  predicate IsSendable(args: seq<Bytes>) {
    |args| <= MAX_ARGS && forall i :: 0 <= i < |args| ==> |args[i]| <= MAX_ARG
  }

  lemma ArgHeadingSize(n: nat)
    requires n <= MAX_ARG
    ensures ArgHeadingOf([DOLLAR] + Digits(n)) == Size(n)
  {
    hide Digits, Atoi;
    AtoiDigits(n);
    assert ([DOLLAR] + Digits(n))[1..] == Digits(n);
  }

  lemma ArgInside(head: Bytes, a: Bytes, later: Bytes)
    ensures var s, k := head + (a + CRLF + later), |head|;
            && |s| == k + |a| + 2 + |later|
            && s[..k] == head && s[k..k + |a|] == a && s[k + |a| + 2..] == later
  {
  }

  lemma ReadArg(n: nat, a: Bytes, later: Bytes)
    requires 0 < n && |a| <= MAX_ARG
    ensures var r := ArgsAt(n - 1, later);
            r.Got? ==>
              ArgsAt(n, [DOLLAR] + Digits(|a|) + CRLF + (a + CRLF + later))
              == Got([a] + r.args, |Digits(|a|)| + 3 + |a| + 2 + r.used)
  {
    hide ArgHeadingOf, LineLen, TrimCRLF, Digits, ArgsAt;
    DigitsOneLine(|a|);
    ArgHeadingSize(|a|);
    var head := [DOLLAR] + Digits(|a|) + CRLF;
    ArgInside(head, a, later);
    Header(DOLLAR, Digits(|a|), a + CRLF + later);
    NextArg(n, head + (a + CRLF + later));
  }

  lemma EncodeNext(args: seq<Bytes>, rest: Bytes)
    requires args != []
    ensures var a := args[0];
            var later := EncodeArgs(args[1..]);
            && EncodeArgs(args) + rest == [DOLLAR] + Digits(|a|) + CRLF + (a + CRLF + (later + rest))
            && |EncodeArgs(args)| == |Digits(|a|)| + 3 + |a| + 2 + |later|
  {
    hide Digits;
    var a := args[0];
    var head, later := [DOLLAR] + Digits(|a|) + CRLF, EncodeArgs(args[1..]);
    assert head + (a + CRLF) + later + rest == head + (a + CRLF + (later + rest));
  }

  lemma {:induction false} ArgsRoundTrip(args: seq<Bytes>, rest: Bytes)
    requires IsSendable(args)
    ensures ArgsAt(|args|, EncodeArgs(args) + rest) == Got(args, |EncodeArgs(args)|)
    decreases |args|
  {
    hide ArgsAt, Digits, EncodeArgs;
    if args == [] {
      NoArgs(rest);
    } else {
      ArgsRoundTrip(args[1..], rest);
      ReadArg(|args|, args[0], EncodeArgs(args[1..]) + rest);
      EncodeNext(args, rest);
      assert [args[0]] + args[1..] == args;
    }
  }

  lemma NoArgs(rest: Bytes)
    ensures ArgsAt(0, rest) == Got([], 0) && EncodeArgs([]) == [] && [] + rest == rest
  {
  }

  lemma StarLine(digits: Bytes, rest: Bytes)
    ensures var s := [STAR] + digits + CRLF + rest;
            && s[0] == STAR && s[1..|digits| + 3] == digits + CRLF
  {
  }

  /** Main result: binary arguments of any content survive encodeCommand and readCommand. */
  lemma CommandRoundTrip(args: seq<Bytes>, rest: Bytes)
    requires IsSendable(args)
    ensures CommandAt(EncodeCommand(args) + rest) == Got(args, |EncodeCommand(args)|)
  {
    hide LineLen, TrimCRLF, Digits, Atoi, ArgsAt, EncodeArgs, Inline;
    var digits, inner := Digits(|args|), EncodeArgs(args);
    DigitsOneLine(|args|);
    AtoiDigits(|args|);
    Header(STAR, digits, inner + rest);
    Regroup([STAR] + digits + CRLF, inner, rest);
    StarLine(digits, inner + rest);
    LineOf(digits, []);
    ArgsRoundTrip(args, rest);
  }

  /** Main result: a plain line is read as the command made of its words. */
  lemma InlineRoundTrip(gaps: seq<Bytes>, words: seq<Bytes>, rest: Bytes)
    requires AreWords(gaps, words) && |words| <= MAX_ARGS
    requires var line := Spread(gaps, words); LF !in line && (line == [] || line[0] != STAR)
    ensures CommandAt(Spread(gaps, words) + CRLF + rest) == Got(words, |Spread(gaps, words)| + 2)
  {
    hide Fields, LineLen, TrimCRLF, Spread;
    var line := Spread(gaps, words);
    FieldsAreWords(gaps, words);
    LineOf(line, rest);
    assert (line + CRLF + rest)[0] != STAR;
  }

  /** readCommand until the input ends or a command fails. */
  function CommandsAt(s: Bytes): seq<seq<Bytes>>
    decreases |s|
  {
    match CommandAt(s)
    case Got(args, used) => [args] + CommandsAt(s[used..])
    case _ => []
  }

  function EncodeAll(cmds: seq<seq<Bytes>>): Bytes {
    if cmds == [] then [] else EncodeCommand(cmds[0]) + EncodeAll(cmds[1..])
  }

  /** What n calls of readCommand leave of s, if all of them succeed. */
  function AfterCommands(n: nat, s: Bytes): Option<Bytes> {
    if n == 0 then Some(s)
    else
      match CommandAt(s)
      case Got(_, used) => AfterCommands(n - 1, s[used..])
      case _ => None
  }

  lemma EncodeFirst(cmds: seq<seq<Bytes>>, rest: Bytes)
    ensures cmds == [] ==> EncodeAll(cmds) + rest == rest
    ensures cmds != [] ==>
              var first, later := EncodeCommand(cmds[0]), EncodeAll(cmds[1..]) + rest;
              EncodeAll(cmds) + rest == first + later && (first + later)[|first|..] == later
  {
    hide EncodeCommand;
    Regroup([], [], rest);
    if cmds != [] {
      Regroup(EncodeCommand(cmds[0]), EncodeAll(cmds[1..]), rest);
    }
  }

  lemma Regroup(a: Bytes, b: Bytes, c: Bytes)
    ensures a + b + c == a + (b + c) && (a + (b + c))[|a|..] == b + c && [] + c == c
  {
  }

  /**
    Main result: a pipeline of encoded commands is read back one by one, in order, whatever follows it,
    and what follows is left for the next call.
  */
  lemma {:induction false} PipelineRoundTrip(cmds: seq<seq<Bytes>>, rest: Bytes)
    requires forall i :: 0 <= i < |cmds| ==> IsSendable(cmds[i])
    ensures CommandsAt(EncodeAll(cmds) + rest) == cmds + CommandsAt(rest)
    ensures AfterCommands(|cmds|, EncodeAll(cmds) + rest) == Some(rest)
    decreases |cmds|
  {
    hide CommandAt, EncodeCommand, IsSendable, EncodeAll;
    EncodeFirst(cmds, rest);
    if cmds != [] {
      CommandRoundTrip(cmds[0], EncodeAll(cmds[1..]) + rest);
      PipelineRoundTrip(cmds[1..], rest);
      assert cmds + CommandsAt(rest) == [cmds[0]] + (cmds[1..] + CommandsAt(rest));
    }
  }
}
