/** Byte logs made of newline-terminated lines, and the test by which a projection accepts one. */
module Lines {

  newtype byte = x: int | 0 <= x < 256

  type Bytes = seq<byte>

  const NEWLINE: byte := 10

  /** One newline, at the end. */
  predicate IsLine(b: Bytes) {
    b != [] && b[|b| - 1] == NEWLINE && forall i | 0 <= i < |b| - 1 :: b[i] != NEWLINE
  }

  function Concat(lines: seq<Bytes>): Bytes {
    if lines == [] then [] else lines[0] + Concat(lines[1..])
  }

  lemma ConcatHead(line: Bytes, rest: seq<Bytes>)
    ensures Concat([line] + rest) == line + Concat(rest)
  {
    assert ([line] + rest)[1..] == rest;
  }

  /** Complete lines, each with its newline, and the bytes after the last newline. */
  datatype Pieces = Pieces(complete: seq<Bytes>, tail: Bytes)

  /** Splitting at newlines. */
  function Split(s: Bytes): Pieces {
    if s == [] then Pieces([], [])
    else
      var rest := Split(s[1..]);
      if s[0] == NEWLINE then Pieces([[NEWLINE]] + rest.complete, rest.tail)
      else if rest.complete == [] then Pieces([], [s[0]] + rest.tail)
      else Pieces([[s[0]] + rest.complete[0]] + rest.complete[1..], rest.tail)
  }

  /** `a` is a prefix of `b`. */
  predicate StartsWith(b: Bytes, a: Bytes) {
    a <= b
  }

  lemma LineGrows(b: byte, line: Bytes)
    requires b != NEWLINE && IsLine(line)
    ensures IsLine([b] + line)
  {
    forall i | 0 <= i < |line|
      ensures ([b] + line)[i] != NEWLINE
    {
      if i > 0 {
        assert ([b] + line)[i] == line[i - 1];
      }
    }
  }

  /** One byte before pieces that join to `s`. */
  lemma RejoinNext(b: byte, p: Pieces, s: Bytes)
    requires s == Concat(p.complete) + p.tail
    ensures [b] + s == Concat([[b]] + p.complete) + p.tail
    ensures p.complete == [] ==> [b] + s == Concat([]) + ([b] + p.tail)
    ensures p.complete != [] ==> [b] + s == Concat([[b] + p.complete[0]] + p.complete[1..]) + p.tail
  {
    ConcatHead([b], p.complete);
    if p.complete != [] {
      ConcatHead([b] + p.complete[0], p.complete[1..]);
    }
  }

  lemma {:induction false} SplitJoins(s: Bytes)
    ensures s == Concat(Split(s).complete) + Split(s).tail
  {
    if s == [] {
      assert Split(s) == Pieces([], []);
    } else {
      SplitJoins(s[1..]);
      RejoinNext(s[0], Split(s[1..]), s[1..]);
      assert s == [s[0]] + s[1..];
    }
  }

  lemma {:induction false} SplitIntoLines(s: Bytes)
    ensures forall l <- Split(s).complete :: IsLine(l)
    ensures NEWLINE !in Split(s).tail
  {
    if s == [] {
      assert Split(s) == Pieces([], []);
    } else {
      SplitIntoLines(s[1..]);
      var rest := Split(s[1..]);
      if s[0] == NEWLINE {
        assert IsLine([NEWLINE]);
      } else if rest.complete != [] {
        LineGrows(s[0], rest.complete[0]);
      }
    }
  }

  /** Nothing is lost by splitting, and every piece but the last is a line. */
  lemma SplitRejoins(s: Bytes)
    ensures s == Concat(Split(s).complete) + Split(s).tail
    ensures forall l <- Split(s).complete :: IsLine(l)
    ensures NEWLINE !in Split(s).tail
  {
    SplitJoins(s);
    SplitIntoLines(s);
  }

  lemma {:induction false} SplitTail(s: Bytes)
    requires NEWLINE !in s
    ensures Split(s) == Pieces([], s)
  {
    if s == [] {
    } else {
      SplitTail(s[1..]);
    }
  }

  lemma {:induction false} SplitLine(line: Bytes, rest: Bytes)
    requires IsLine(line)
    ensures Split(line + rest) == Pieces([line] + Split(rest).complete, Split(rest).tail)
  {
    if |line| == 1 {
      assert line == [NEWLINE];
      assert (line + rest)[1..] == rest;
    } else {
      assert (line + rest)[1..] == line[1..] + rest;
      SplitLine(line[1..], rest);
      assert line == [line[0]] + line[1..];
    }
  }

  lemma {:induction false} ConcatAppend(a: seq<Bytes>, b: seq<Bytes>)
    ensures Concat(a + b) == Concat(a) + Concat(b)
  {
    if a == [] {
      assert a + b == b;
    } else {
      ConcatAppend(a[1..], b);
      assert a + b == [a[0]] + (a[1..] + b);
      ConcatHead(a[0], a[1..] + b);
      Rebracket(a[0], Concat(a[1..]), Concat(b));
    }
  }

  lemma Rebracket(a: Bytes, b: Bytes, c: Bytes)
    ensures a + (b + c) == (a + b) + c
  {}

  /** Splitting a log of whole lines gives the lines back. */
  lemma {:induction false} SplitConcat(lines: seq<Bytes>, tail: Bytes)
    requires (forall l <- lines :: IsLine(l)) && NEWLINE !in tail
    ensures Split(Concat(lines) + tail) == Pieces(lines, tail)
  {
    if lines == [] {
      assert Concat(lines) + tail == tail;
      SplitTail(tail);
    } else {
      SplitConcat(lines[1..], tail);
      assert Concat(lines) + tail == lines[0] + (Concat(lines[1..]) + tail);
      SplitLine(lines[0], Concat(lines[1..]) + tail);
    }
  }

  /** The checks of one projection on the log it found, in the order the code makes them. */
  predicate Consistent(expected: seq<Bytes>, ack: nat, log: Bytes) {
    var p := Split(log);
    && ack <= |p.complete| && ack <= |expected|
    && |p.complete| <= |expected| && p.complete == expected[..|p.complete|]
    && (p.tail != [] ==> |p.complete| != |expected| && StartsWith(expected[|p.complete|], p.tail))
  }

  lemma {:induction false} ConcatPrefix(lines: seq<Bytes>, n: nat)
    requires n <= |lines|
    ensures Concat(lines) == Concat(lines[..n]) + Concat(lines[n..])
  {
    ConcatAppend(lines[..n], lines[n..]);
    assert lines == lines[..n] + lines[n..];
  }

  /** The pieces are the first of the lines and a prefix of the next. */
  predicate Along(p: Pieces, lines: seq<Bytes>) {
    && |p.complete| <= |lines| && p.complete == lines[..|p.complete|]
    && (p.tail != [] ==> |p.complete| < |lines| && p.tail <= lines[|p.complete|])
  }

  lemma PrefixAfter(line: Bytes, rest: Bytes, log: Bytes)
    requires log <= line + rest
    ensures |line| <= |log| ==> log == line + log[|line|..] && log[|line|..] <= rest
    ensures |log| <= |line| ==> log <= line
  {
    assert log == (line + rest)[..|log|];
  }

  lemma InsideLine(line: Bytes, part: Bytes)
    requires IsLine(line) && part <= line && |part| < |line|
    ensures NEWLINE !in part
  {
    assert forall i | 0 <= i < |part| :: part[i] == line[i];
  }

  lemma AlongNext(p: Pieces, lines: seq<Bytes>)
    requires lines != [] && Along(p, lines[1..])
    ensures Along(Pieces([lines[0]] + p.complete, p.tail), lines)
  {
    var n := |p.complete|;
    assert lines[..n + 1] == [lines[0]] + lines[1..][..n];
    assert p.tail != [] ==> lines[1..][n] == lines[n + 1];
  }

  /** Cutting a log of whole lines anywhere leaves some lines and a proper prefix of the next. */
  lemma {:induction false} PrefixSplits(lines: seq<Bytes>, log: Bytes)
    requires forall l <- lines :: IsLine(l)
    requires log <= Concat(lines)
    ensures Along(Split(log), lines)
  {
    if lines == [] {
      assert log == [];
    } else {
      PrefixAfter(lines[0], Concat(lines[1..]), log);
      if |lines[0]| <= |log| {
        var rest := log[|lines[0]|..];
        PrefixSplits(lines[1..], rest);
        SplitLine(lines[0], rest);
        AlongNext(Split(rest), lines);
      } else {
        InsideLine(lines[0], log);
        SplitTail(log);
        assert lines[..0] == [];
      }
    }
  }

  /** A shorter list of lines takes fewer bytes, strictly if a line is missing. */
  lemma {:induction false} ConcatLonger(lines: seq<Bytes>, m: nat, n: nat)
    requires m <= n <= |lines| && forall l <- lines :: IsLine(l)
    ensures Concat(lines[..m]) <= Concat(lines[..n])
    ensures m < n ==> |Concat(lines[..m])| < |Concat(lines[..n])|
  {
    assert lines[..n] == lines[..m] + lines[m..n];
    ConcatAppend(lines[..m], lines[m..n]);
    if m < n {
      assert lines[m] in lines && lines[m..n][0] == lines[m];
    }
  }

  lemma ConsistentLogIsPrefix(expected: seq<Bytes>, ack: nat, log: Bytes)
    requires forall l <- expected :: IsLine(l)
    requires Consistent(expected, ack, log)
    ensures Concat(expected[..ack]) <= log <= Concat(expected)
  {
    SplitRejoins(log);
    var p := Split(log);
    var n := |p.complete|;
    ConcatLonger(expected, ack, n);
    ConcatPrefix(expected, n);
    if p.tail != [] {
      assert expected[n..] == [expected[n]] + expected[n + 1..];
      ConcatHead(expected[n], expected[n + 1..]);
    }
  }

  /**
   Exactly which logs are accepted: the line-by-line checks pass if and only if the log is a byte prefix of the
   authoritative lines that contains every acknowledged line.
   */
  lemma ConsistentIsPrefix(expected: seq<Bytes>, ack: nat, log: Bytes)
    requires forall l <- expected :: IsLine(l)
    ensures Consistent(expected, ack, log) <==>
              ack <= |expected| && Concat(expected[..ack]) <= log <= Concat(expected)
  {
    if Consistent(expected, ack, log) {
      ConsistentLogIsPrefix(expected, ack, log);
    }
    if ack <= |expected| && Concat(expected[..ack]) <= log <= Concat(expected) {
      SplitRejoins(log);
      PrefixSplits(expected, log);
      var p := Split(log);
      var n := |p.complete|;
      if n < ack {
        TailTooShort(expected, p.tail, n);
        ConcatLonger(expected, n + 1, ack);
        assert false;
      }
    }
  }

  lemma ShorterThanLine(tail: Bytes, line: Bytes)
    requires IsLine(line) && NEWLINE !in tail && (tail == [] || tail <= line)
    ensures |tail| < |line|
  {
    assert tail != [] ==> tail[|tail| - 1] in tail;
  }

  /** A log with `n` complete lines is shorter than the first `n + 1` lines. */
  lemma TailTooShort(expected: seq<Bytes>, tail: Bytes, n: nat)
    requires n < |expected| && IsLine(expected[n])
    requires NEWLINE !in tail && (tail == [] || tail <= expected[n])
    ensures |Concat(expected[..n])| + |tail| < |Concat(expected[..n + 1])|
  {
    ShorterThanLine(tail, expected[n]);
    assert expected[..n + 1] == expected[..n] + [expected[n]];
    ConcatAppend(expected[..n], [expected[n]]);
    assert Concat([expected[n]]) == expected[n] + Concat([]);
  }
}
