/** That the assumptions on encodings and digests can be met: an encoding of strings that is read back, and its uses. */
module Codecs {
  import opened Text
  import opened Lines
  import Outbox
  import Store

  // ---------- a number as so many ones and a zero; a string as marked numbers ----------

  function WriteNumber(n: nat): Bytes {
    if n == 0 then [0] else [1] + WriteNumber(n - 1)
  }

  function ReadNumber(b: Bytes): (nat, Bytes) {
    if b == [] then (0, [])
    else if b[0] != 1 then (0, b[1..])
    else var r := ReadNumber(b[1..]); (r.0 + 1, r.1)
  }

  lemma {:induction false} NumberReads(n: nat, rest: Bytes)
    ensures ReadNumber(WriteNumber(n) + rest) == (n, rest)
  {
    if n == 0 {
      assert ([0] + rest)[1..] == rest;
    } else {
      NumberReads(n - 1, rest);
      assert (WriteNumber(n) + rest)[1..] == WriteNumber(n - 1) + rest;
    }
  }

  lemma {:induction false} ReadingShortens(b: Bytes)
    ensures |ReadNumber(b).1| <= |b| && (b != [] ==> |ReadNumber(b).1| < |b|)
  {
    if b == [] {
    } else {
      ReadingShortens(b[1..]);
    }
  }

  function CharOf(n: nat): char {
    if n < 0xD800 || 0xE000 <= n < 0x11_0000 then n as char else '?'
  }

  /** Every character is marked by a two, and the end of the string by a zero. */
  function WriteString(s: string): Bytes {
    if s == [] then [0] else [2] + WriteNumber(s[0] as int) + WriteString(s[1..])
  }

  function ReadString(b: Bytes): (string, Bytes)
    decreases |b|
  {
    if b == [] then ([], [])
    else if b[0] != 2 then ([], b[1..])
    else
      ReadingShortens(b[1..]);
      var (n, rest) := ReadNumber(b[1..]);
      var (s, more) := ReadString(rest);
      ([CharOf(n)] + s, more)
  }

  lemma AfterMark(mark: byte, a: Bytes, b: Bytes, c: Bytes)
    ensures ([mark] + a + b + c)[0] == mark && ([mark] + a + b + c)[1..] == a + (b + c)
  {}

  lemma {:induction false} StringReads(s: string, rest: Bytes)
    ensures ReadString(WriteString(s) + rest) == (s, rest)
  {
    if s == [] {
      assert ([0] + rest)[1..] == rest;
    } else {
      var first, later := WriteNumber(s[0] as int), WriteString(s[1..]);
      StringReads(s[1..], rest);
      NumberReads(s[0] as int, later + rest);
      AfterMark(2, first, later, rest);
      assert s == [s[0]] + s[1..];
    }
  }

  lemma {:induction false} NumberIsPlain(n: nat)
    ensures forall x <- WriteNumber(n) :: x < 3
  {
    if n == 0 {
    } else {
      NumberIsPlain(n - 1);
    }
  }

  lemma {:induction false} StringIsPlain(s: string)
    ensures forall x <- WriteString(s) :: x < 3
  {
    if s == [] {
    } else {
      StringIsPlain(s[1..]);
      NumberIsPlain(s[0] as int);
    }
  }

  // ---------- a digest that loses nothing ----------

  function Spelled(b: Bytes): string {
    seq(|b|, i requires 0 <= i < |b| => b[i] as char)
  }

  lemma SpellingIdentifies(a: Bytes, b: Bytes)
    requires Spelled(a) == Spelled(b)
    ensures a == b
  {
    assert |Spelled(a)| == |a| && |Spelled(b)| == |b|;
    forall i | 0 <= i < |a|
      ensures a[i] == b[i]
    {
      assert Spelled(a)[i] == a[i] as char && Spelled(b)[i] == b[i] as char;
    }
  }

  // ---------- envelopes ----------

  function WriteEnvelope(h: Store.Header, payload: string): Bytes {
    WriteString(h.kind) + (WriteString(h.visibility) + (WriteString(payload) + []))
  }

  function ReadEnvelope(b: Bytes): Option<(Store.Header, string)> {
    var (kind, rest) := ReadString(b);
    var (visibility, last) := ReadString(rest);
    Some((Store.Header(kind, visibility), ReadString(last).0))
  }

  function EnvelopeCodec(): Store.Codec {
    Store.Codec((h, p) => WriteEnvelope(h, p), b => ReadEnvelope(b), b => Spelled(b))
  }

  lemma EnvelopesAreLawful()
    ensures Store.Lawful(EnvelopeCodec())
  {
    var c := EnvelopeCodec();
    forall h, p
      ensures c.open(c.envelope(h, p)) == Some((h, p))
    {
      StringReads(p, []);
      StringReads(h.visibility, WriteString(p) + []);
      StringReads(h.kind, WriteString(h.visibility) + (WriteString(p) + []));
    }
    forall a, b | c.digest(a) == c.digest(b)
      ensures a == b
    {
      SpellingIdentifies(a, b);
    }
  }

  // ---------- events ----------

  /** A mark for the kind of event and its decision, and then its strings. */
  function WriteEvent(p: Outbox.Payload): Bytes {
    match p
    case Started(attempt) => [3] + WriteString(attempt)
    case Observed(attempt, measured) => [4] + WriteString(attempt) + WriteString(measured)
    case Completed(attempt, digest, decision) =>
      [if decision.Selected? then 5 else if decision.SameOutput? then 6 else 7] +
      WriteString(attempt) + WriteString(digest)
  }

  function ReadEvent(b: Bytes): Outbox.Payload {
    if b == [] then Outbox.Started("")
    else
      var (attempt, rest) := ReadString(b[1..]);
      var text := ReadString(rest).0;
      if b[0] == 3 then Outbox.Started(attempt)
      else if b[0] == 4 then Outbox.Observed(attempt, text)
      else if b[0] == 5 then Outbox.Completed(attempt, text, Outbox.Selected)
      else if b[0] == 6 then Outbox.Completed(attempt, text, Outbox.SameOutput)
      else Outbox.Completed(attempt, text, Outbox.Conflict)
  }

  function EventCodec(): Outbox.Codec {
    Outbox.Codec((n, k, p) => WriteEvent(p), b => ReadEvent(b), b => Spelled(b))
  }

  lemma EventReads(p: Outbox.Payload, rest: Bytes)
    ensures ReadEvent(WriteEvent(p) + rest) == p
  {
    match p
    case Started(attempt) =>
      StringReads(attempt, [] + rest);
      AfterMark(3, WriteString(attempt), [], rest);
      assert [3] + WriteString(attempt) + [] == [3] + WriteString(attempt);
    case Observed(attempt, measured) =>
      StringReads(attempt, WriteString(measured) + rest);
      StringReads(measured, rest);
      AfterMark(4, WriteString(attempt), WriteString(measured), rest);
    case Completed(attempt, digest, decision) =>
      StringReads(attempt, WriteString(digest) + rest);
      StringReads(digest, rest);
      AfterMark(WriteEvent(p)[0], WriteString(attempt), WriteString(digest), rest);
  }

  lemma EventIsPlain(p: Outbox.Payload)
    ensures NEWLINE !in WriteEvent(p)
  {
    match p
    case Started(attempt) =>
      StringIsPlain(attempt);
    case Observed(attempt, measured) =>
      StringIsPlain(attempt);
      StringIsPlain(measured);
    case Completed(attempt, digest, decision) =>
      StringIsPlain(attempt);
      StringIsPlain(digest);
  }

  lemma EventsAreLawful()
    ensures Outbox.Lawful(EventCodec())
  {
    var c := EventCodec();
    forall n, k, p
      ensures NEWLINE !in c.encode(n, k, p) && c.decode(c.encode(n, k, p) + [NEWLINE]) == p
    {
      EventIsPlain(p);
      EventReads(p, [NEWLINE]);
    }
    forall a, b | c.digest(a) == c.digest(b)
      ensures a == b
    {
      SpellingIdentifies(a, b);
    }
  }
}
