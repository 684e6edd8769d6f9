/** The base64 text of byte objects (section 4 of RFC 4648), and the checks made before decoding it. */
module Base64 {
  import opened Text
  import opened Lines

  /** The alphabet: letters, digits, plus and slash. */
  function Symbol(n: nat): char
    requires n < 64
  {
    if n < 26 then 'A' + n as char
    else if n < 52 then 'a' + (n - 26) as char
    else if n < 62 then '0' + (n - 52) as char
    else if n == 62 then '+' else '/'
  }

  function Sextet(c: char): (r: Option<nat>)
    ensures r.Some? ==> r.value < 64
  {
    if 'A' <= c <= 'Z' then Some((c - 'A') as nat)
    else if 'a' <= c <= 'z' then Some((c - 'a') as nat + 26)
    else if '0' <= c <= '9' then Some((c - '0') as nat + 52)
    else if c == '+' then Some(62)
    else if c == '/' then Some(63)
    else None
  }

  lemma SymbolReads(n: nat)
    requires n < 64
    ensures Sextet(Symbol(n)) == Some(n) && Symbol(n) != '='
  {}

  lemma SextetWrites(c: char)
    requires Sextet(c).Some?
    ensures Symbol(Sextet(c).value) == c && c != '='
  {}

  /** Four symbols for at most three bytes. */
  function Group(data: Bytes): (s: string)
    requires 1 <= |data| <= 3
    ensures |s| == 4
  {
    var a := data[0] as nat;
    if |data| == 1 then [Symbol(a / 4), Symbol(a % 4 * 16), '=', '=']
    else
      var b := data[1] as nat;
      if |data| == 2 then [Symbol(a / 4), Symbol(a % 4 * 16 + b / 16), Symbol(b % 16 * 4), '=']
      else
        var c := data[2] as nat;
        [Symbol(a / 4), Symbol(a % 4 * 16 + b / 16), Symbol(b % 16 * 4 + c / 64), Symbol(c % 64)]
  }

  function Encode(data: Bytes): string {
    if data == [] then ""
    else if |data| <= 3 then Group(data)
    else Group(data[..3]) + Encode(data[3..])
  }

  /** The bytes of one group of four symbols; padding is allowed in the last group only. */
  function Quad(s: string, last: bool): (r: Option<Bytes>)
    requires |s| == 4
    ensures r.Some? ==> |r.value| == 3 - (if s[2] == '=' then 2 else if s[3] == '=' then 1 else 0)
  {
    var a, b := Sextet(s[0]), Sextet(s[1]);
    if a.None? || b.None? then None
    else
      var first := (a.value * 4 + b.value / 16) as byte;
      if last && s[2] == '=' && s[3] == '=' then Some([first])
      else
        var c := Sextet(s[2]);
        if c.None? then None
        else
          var second := (b.value % 16 * 16 + c.value / 4) as byte;
          if last && s[3] == '=' then Some([first, second])
          else
            var d := Sextet(s[3]);
            if d.None? then None else Some([first, second, (c.value % 4 * 64 + d.value) as byte])
  }

  /** Strict decoding: every symbol in the alphabet, except padding at the end; spare bits are ignored. */
  function Decode(s: string): Option<Bytes> {
    if s == [] then Some([])
    else if |s| < 4 then None
    else
      var head, rest := Quad(s[..4], |s| == 4), Decode(s[4..]);
      if head.None? || rest.None? then None else Some(head.value + rest.value)
  }

  predicate EndsWith(s: string, t: string) {
    |t| <= |s| && s[|s| - |t|..] == t
  }

  function Padding(s: string): nat {
    if EndsWith(s, "==") then 2 else if EndsWith(s, "=") then 1 else 0
  }

  /** The index of the first padding symbol, or the length of the text. */
  function FirstPadding(s: string): (i: nat)
    ensures i <= |s|
    ensures forall k | 0 <= k < i :: s[k] != '='
    ensures i < |s| ==> s[i] == '='
  {
    if s == [] || s[0] == '=' then 0 else 1 + FirstPadding(s[1..])
  }

  /** Whole groups, with padding at the very end only. */
  predicate Shaped(s: string) {
    |s| % 4 == 0 && FirstPadding(s) == |s| - Padding(s)
  }

  function DecodedSize(s: string): int {
    |s| / 4 * 3 - Padding(s)
  }

  predicate Ascii(s: string) {
    forall c <- s :: c < 128 as char
  }

  datatype Payload = Data(data: Bytes) | TooLarge | Invalid

  /** What `get_bytes` makes of a payload: the size is checked before anything is decoded. */
  function ReadPayload(s: string, cap: Option<nat>): Payload {
    if !Ascii(s) || !Shaped(s) then Invalid
    else if cap.Some? && DecodedSize(s) > cap.value then TooLarge
    else
      var data := Decode(s);
      if data.None? || Encode(data.value) != s then Invalid else Data(data.value)
  }

  // ---------- properties ----------

  /** The first two symbols of a group give its first byte. */
  lemma FirstByte(a: nat, b: nat)
    requires a < 256 && b < 256
    ensures a / 4 < 64 && a % 4 * 16 + b / 16 < 64
    ensures a / 4 * 4 + (a % 4 * 16 + b / 16) / 16 == a
  {
    assert (a % 4 * 16 + b / 16) / 16 == a % 4;
  }

  lemma SecondByte(a: nat, b: nat, c: nat)
    requires a < 256 && b < 256 && c < 256
    ensures b % 16 * 4 + c / 64 < 64
    ensures (a % 4 * 16 + b / 16) % 16 * 16 + (b % 16 * 4 + c / 64) / 4 == b
  {
    assert (a % 4 * 16 + b / 16) % 16 == b / 16;
    assert (b % 16 * 4 + c / 64) / 4 == b % 16;
  }

  lemma ThirdByte(b: nat, c: nat)
    requires b < 256 && c < 256
    ensures c % 64 < 64
    ensures (b % 16 * 4 + c / 64) % 4 * 64 + c % 64 == c
  {
    assert (b % 16 * 4 + c / 64) % 4 == c / 64;
  }

  /** What a group of symbols stands for, and the byte of each of its three places. */
  lemma QuadReads(p: nat, q: nat, r: nat, t: nat, last: bool)
    requires p < 64 && q < 64 && r < 64 && t < 64
    ensures p * 4 + q / 16 < 256 && q % 16 * 16 + r / 4 < 256 && r % 4 * 64 + t < 256
    ensures Quad([Symbol(p), Symbol(q), '=', '='], true) == Some([(p * 4 + q / 16) as byte])
    ensures Quad([Symbol(p), Symbol(q), Symbol(r), '='], true) ==
            Some([(p * 4 + q / 16) as byte, (q % 16 * 16 + r / 4) as byte])
    ensures Quad([Symbol(p), Symbol(q), Symbol(r), Symbol(t)], last) ==
            Some([(p * 4 + q / 16) as byte, (q % 16 * 16 + r / 4) as byte, (r % 4 * 64 + t) as byte])
  {
    SymbolReads(p);
    SymbolReads(q);
    SymbolReads(r);
    SymbolReads(t);
  }

  lemma GroupOfOne(x: byte)
    ensures Quad(Group([x]), true) == Some([x])
  {
    var p, q := OneSymbols(x);
    QuadReads(p, q, 0, 0, true);
  }

  lemma OneSymbols(x: byte) returns (p: nat, q: nat)
    ensures p < 64 && q < 64 && Group([x]) == [Symbol(p), Symbol(q), '=', '=']
    ensures p * 4 + q / 16 == x as nat
  {
    p, q := x as nat / 4, x as nat % 4 * 16;
  }

  lemma GroupOfTwo(x: byte, y: byte)
    ensures Quad(Group([x, y]), true) == Some([x, y])
  {
    var p, q, r := TwoSymbols(x, y);
    QuadReads(p, q, r, 0, true);
  }

  lemma TwoSymbols(x: byte, y: byte) returns (p: nat, q: nat, r: nat)
    ensures p < 64 && q < 64 && r < 64 && Group([x, y]) == [Symbol(p), Symbol(q), Symbol(r), '=']
    ensures p * 4 + q / 16 == x as nat && q % 16 * 16 + r / 4 == y as nat
  {
    var a, b := x as nat, y as nat;
    p, q, r := a / 4, a % 4 * 16 + b / 16, b % 16 * 4;
    FirstByte(a, b);
    SecondByte(a, b, 0);
    assert Group([x, y]) == [Symbol(p), Symbol(q), Symbol(r), '='];
  }

  lemma GroupOfThree(x: byte, y: byte, z: byte, last: bool)
    ensures Quad(Group([x, y, z]), last) == Some([x, y, z])
  {
    var p, q, r, t := ThreeSymbols(x, y, z);
    var s := [Symbol(p), Symbol(q), Symbol(r), Symbol(t)];
    assert Quad(s, last) == Some([x, y, z]) by {
      QuadReads(p, q, r, t, last);
    }
    assert Group([x, y, z]) == s;
  }

  lemma ThreeSymbols(x: byte, y: byte, z: byte) returns (p: nat, q: nat, r: nat, t: nat)
    ensures p < 64 && q < 64 && r < 64 && t < 64
    ensures Group([x, y, z]) == [Symbol(p), Symbol(q), Symbol(r), Symbol(t)]
    ensures p * 4 + q / 16 == x as nat && q % 16 * 16 + r / 4 == y as nat && r % 4 * 64 + t == z as nat
  {
    var a, b, c := x as nat, y as nat, z as nat;
    p, q, r, t := a / 4, a % 4 * 16 + b / 16, b % 16 * 4 + c / 64, c % 64;
    FirstByte(a, b);
    SecondByte(a, b, c);
    ThirdByte(b, c);
    assert Group([x, y, z]) == [Symbol(p), Symbol(q), Symbol(r), Symbol(t)];
  }

  lemma GroupReads(data: Bytes, last: bool)
    requires 1 <= |data| <= 3 && (|data| < 3 ==> last)
    ensures Quad(Group(data), last) == Some(data)
  {
    if |data| == 1 {
      GroupOfOne(data[0]);
      assert data == [data[0]];
    } else if |data| == 2 {
      GroupOfTwo(data[0], data[1]);
      assert data == [data[0], data[1]];
    } else {
      GroupOfThree(data[0], data[1], data[2], last);
      assert data == [data[0], data[1], data[2]];
    }
  }

  lemma DecodeGroups(head: string, rest: string, first: Bytes, later: Bytes)
    requires |head| == 4 && Quad(head, rest == []) == Some(first) && Decode(rest) == Some(later)
    ensures Decode(head + rest) == Some(first + later)
  {
    assert (head + rest)[..4] == head && (head + rest)[4..] == rest;
  }

  /** Decoding gives back what was encoded. */
  lemma {:induction false} DecodeEncode(data: Bytes)
    ensures Decode(Encode(data)) == Some(data)
  {
    if data == [] {
    } else if |data| <= 3 {
      GroupReads(data, true);
      DecodeGroups(Group(data), "", data, []);
      assert Group(data) + "" == Encode(data) && data + [] == data;
    } else {
      var first, later := data[..3], data[3..];
      assert data == first + later;
      GroupReads(first, false);
      DecodeEncode(later);
      EncodeWhole(later);
      DecodeGroups(Group(first), Encode(later), first, later);
    }
  }

  /** Encodings are whole groups, one for every three bytes begun. */
  lemma {:induction false} EncodeWhole(data: Bytes)
    ensures |Encode(data)| == 4 * ((|data| + 2) / 3)
  {
    if |data| > 3 {
      EncodeWhole(data[3..]);
      assert (|data| + 2) / 3 == 1 + (|data[3..]| + 2) / 3;
    }
  }

  /** Symbols before other groups change nothing about the padding. */
  lemma PaddingAfter(head: string, rest: string)
    requires '=' !in head && |rest| >= 2
    ensures Padding(head + rest) == Padding(rest)
    ensures FirstPadding(head + rest) == |head| + FirstPadding(rest)
  {
    FirstAfter(head, rest);
    EndsBy(head + rest);
    EndsBy(rest);
  }

  /** In the text of an encoding, padding stands only at the end. */
  lemma {:induction false} EncodeShaped(data: Bytes)
    ensures Shaped(Encode(data))
  {
    if data == [] {
      NothingShaped();
    } else if |data| <= 3 {
      GroupShaped(data);
    } else {
      GroupPadding(data[..3]);
      EncodeShaped(data[3..]);
      EncodeWhole(data[3..]);
      ShapedAfter(Group(data[..3]), Encode(data[3..]));
    }
  }

  lemma ShapedAfter(head: string, rest: string)
    requires |head| == 4 && '=' !in head && |rest| >= 2
    ensures Shaped(head + rest) <==> Shaped(rest)
    ensures DecodedSize(head + rest) == 3 + DecodedSize(rest)
  {
    PaddingAfter(head, rest);
    var n := |rest|;
    assert |head + rest| == 4 + n && (4 + n) % 4 == n % 4 && (4 + n) / 4 == 1 + n / 4;
  }

  lemma NothingShaped()
    ensures Shaped("") && DecodedSize("") == 0
  {
    assert !EndsWith("", "=") && !EndsWith("", "==");
  }

  lemma GroupShaped(data: Bytes)
    requires 1 <= |data| <= 3
    ensures Shaped(Group(data))
  {
    GroupPadding(data);
  }

  lemma EndsBy(s: string)
    requires |s| >= 2
    ensures EndsWith(s, "=") <==> s[|s| - 1] == '='
    ensures EndsWith(s, "==") <==> s[|s| - 1] == '=' && s[|s| - 2] == '='
  {
    assert s[|s| - 1..] == [s[|s| - 1]];
    assert s[|s| - 2..] == [s[|s| - 2], s[|s| - 1]];
  }

  lemma {:induction false} FirstAfter(s: string, rest: string)
    requires '=' !in s
    ensures FirstPadding(s + rest) == |s| + FirstPadding(rest)
  {
    if s == [] {
      assert s + rest == rest;
    } else {
      assert (s + rest)[1..] == s[1..] + rest;
      FirstAfter(s[1..], rest);
    }
  }

  lemma GroupPadding(data: Bytes)
    requires 1 <= |data| <= 3
    ensures Padding(Group(data)) == 3 - |data|
    ensures FirstPadding(Group(data)) == 1 + |data|
    ensures |data| == 3 ==> '=' !in Group(data)
  {
    var s := Group(data);
    EndsBy(s);
    var a := data[0] as nat;
    SymbolReads(a / 4);
    if |data| == 1 {
      SymbolReads(a % 4 * 16);
    } else {
      var b := data[1] as nat;
      SymbolReads(a % 4 * 16 + b / 16);
      if |data| == 2 {
        SymbolReads(b % 16 * 4);
      } else {
        var c := data[2] as nat;
        SymbolReads(b % 16 * 4 + c / 64);
        SymbolReads(c % 64);
      }
    }
    assert s[0] != '=' && s[1] != '=' && (s[2] != '=' <==> |data| >= 2) && (s[3] != '=' <==> |data| == 3);
  }

  lemma OneGroupSize(s: string)
    requires |s| == 4 && Shaped(s) && Decode(s).Some?
    ensures DecodedSize(s) == |Decode(s).value|
  {
    EndsBy(s);
    assert s[..4] == s && Decode(s[4..]) == Some([]);
  }

  lemma HeadIsUnpadded(s: string)
    requires |s| > 4 && Shaped(s)
    ensures '=' !in s[..4] && |s| >= 8
  {
    assert Padding(s) <= 2;
  }

  /** The size computed from the text alone is the size of what it decodes to. */
  lemma {:induction false} SizeIsExact(s: string)
    requires Shaped(s) && Decode(s).Some?
    ensures DecodedSize(s) == |Decode(s).value|
  {
    if s == [] {
      NothingShaped();
    } else if |s| == 4 {
      OneGroupSize(s);
    } else {
      var head, rest := s[..4], s[4..];
      assert s == head + rest;
      HeadIsUnpadded(s);
      ShapedAfter(head, rest);
      SizeIsExact(rest);
    }
  }

  // ---------- which texts are encodings ----------

  /** Symbols of the alphabet wherever there is no padding. */
  predicate Alphabetic(s: string) {
    forall i | 0 <= i < |s| - Padding(s) :: Sextet(s[i]).Some?
  }

  /** The bits of the last symbol that belong to no byte are zero. */
  predicate SpareZero(s: string) {
    var n, p := |s|, Padding(s);
    if p == 2 && n >= 3 then Sextet(s[n - 3]).Some? && Sextet(s[n - 3]).value % 16 == 0
    else if p == 1 && n >= 2 then Sextet(s[n - 2]).Some? && Sextet(s[n - 2]).value % 4 == 0
    else true
  }

  /** A text is an encoding by its looks. */
  predicate Canonical(s: string) {
    Shaped(s) && Alphabetic(s) && SpareZero(s)
  }

  lemma FirstSymbol(p: nat, q: nat)
    requires p < 64 && q < 64
    ensures (p * 4 + q / 16) / 4 == p && (p * 4 + q / 16) % 4 == q / 16
  {}

  lemma SecondSymbol(q: nat, r: nat)
    requires q < 64 && r < 64
    ensures (q % 16 * 16 + r / 4) / 16 == q % 16 && (q % 16 * 16 + r / 4) % 16 == r / 4
    ensures q / 16 * 16 + q % 16 == q
  {}

  lemma ThirdSymbol(r: nat, t: nat)
    requires r < 64 && t < 64
    ensures (r % 4 * 64 + t) / 64 == r % 4 && (r % 4 * 64 + t) % 64 == t
    ensures r / 4 * 4 + r % 4 == r
  {}

  /** The symbols of the bytes that four symbol values stand for: the same values, but for spare bits. */
  lemma GroupWrites(p: nat, q: nat, r: nat, t: nat)
    requires p < 64 && q < 64 && r < 64 && t < 64
    ensures p * 4 + q / 16 < 256 && q % 16 * 16 + r / 4 < 256 && r % 4 * 64 + t < 256
    ensures Group([(p * 4 + q / 16) as byte]) == [Symbol(p), Symbol(q / 16 * 16), '=', '=']
    ensures Group([(p * 4 + q / 16) as byte, (q % 16 * 16 + r / 4) as byte]) ==
            [Symbol(p), Symbol(q), Symbol(r / 4 * 4), '=']
    ensures Group([(p * 4 + q / 16) as byte, (q % 16 * 16 + r / 4) as byte, (r % 4 * 64 + t) as byte]) ==
            [Symbol(p), Symbol(q), Symbol(r), Symbol(t)]
  {
    FirstSymbol(p, q);
    SecondSymbol(q, r);
    ThirdSymbol(r, t);
  }

  lemma SpareBits(n: nat, d: nat)
    requires n < 64 && (d == 16 || d == 4)
    ensures n / d * d < 64
    ensures Symbol(n / d * d) == Symbol(n) <==> n % d == 0
  {
    SymbolReads(n);
    SymbolReads(n / d * d);
  }

  /** A group without padding is read if it is alphabetic, and then written back as it was. */
  lemma FullGroup(s: string, last: bool)
    requires |s| == 4 && '=' !in s
    ensures Quad(s, last).Some? <==> forall i | 0 <= i < 4 :: Sextet(s[i]).Some?
    ensures Quad(s, last).Some? ==> |Quad(s, last).value| == 3 && Group(Quad(s, last).value) == s
  {
    assert s[2] in s && s[3] in s;
    assert s == [s[0], s[1], s[2], s[3]];
    GroupWithNone(s[0], s[1], s[2], s[3], last);
  }

  lemma GroupWithNone(c: char, d: char, e: char, f: char, last: bool)
    requires e != '=' && f != '='
    ensures var s := [c, d, e, f];
            && (Quad(s, last).Some? <==> Sextet(c).Some? && Sextet(d).Some? && Sextet(e).Some? && Sextet(f).Some?)
            && (Quad(s, last).Some? ==> Group(Quad(s, last).value) == s)
  {
    if Sextet(c).Some? && Sextet(d).Some? && Sextet(e).Some? && Sextet(f).Some? {
      var p, q, r, t := Sextet(c).value, Sextet(d).value, Sextet(e).value, Sextet(f).value;
      SextetWrites(c);
      SextetWrites(d);
      SextetWrites(e);
      SextetWrites(f);
      QuadReads(p, q, r, t, last);
      GroupWrites(p, q, r, t);
    }
  }

  /** A last group with padding: written back as it was exactly if its spare bits are zero. */
  lemma PaddedGroup(s: string)
    requires |s| == 4 && Shaped(s) && Padding(s) > 0
    ensures Quad(s, true).Some? <==> Alphabetic(s)
    ensures Quad(s, true).Some? ==> (Group(Quad(s, true).value) == s <==> SpareZero(s))
  {
    EndsBy(s);
    if s[2] == '=' {
      assert s == [s[0], s[1], '=', '='];
      GroupWithTwo(s[0], s[1]);
    } else {
      assert s == [s[0], s[1], s[2], '='];
      GroupWithOne(s[0], s[1], s[2]);
    }
  }

  lemma GroupWithTwo(c: char, d: char)
    ensures var s := [c, d, '=', '='];
            && (Quad(s, true).Some? <==> Sextet(c).Some? && Sextet(d).Some?)
            && (Quad(s, true).Some? ==> (Group(Quad(s, true).value) == s <==> Sextet(d).value % 16 == 0))
  {
    if Sextet(c).Some? && Sextet(d).Some? {
      var p, q := Sextet(c).value, Sextet(d).value;
      SextetWrites(c);
      SextetWrites(d);
      QuadReads(p, q, 0, 0, true);
      GroupWrites(p, q, 0, 0);
      SpareBits(q, 16);
    }
  }

  lemma GroupWithOne(c: char, d: char, e: char)
    requires e != '='
    ensures var s := [c, d, e, '='];
            && (Quad(s, true).Some? <==> Sextet(c).Some? && Sextet(d).Some? && Sextet(e).Some?)
            && (Quad(s, true).Some? ==> (Group(Quad(s, true).value) == s <==> Sextet(e).value % 4 == 0))
  {
    if Sextet(c).Some? && Sextet(d).Some? && Sextet(e).Some? {
      var p, q, r := Sextet(c).value, Sextet(d).value, Sextet(e).value;
      SextetWrites(c);
      SextetWrites(d);
      SextetWrites(e);
      QuadReads(p, q, r, 0, true);
      GroupWrites(p, q, r, 0);
      SpareBits(r, 4);
    }
  }

  lemma AlphabeticAfter(head: string, rest: string)
    requires |head| == 4 && Padding(head + rest) == Padding(rest) && |rest| >= 2
    ensures Alphabetic(head + rest) <==> (forall i | 0 <= i < 4 :: Sextet(head[i]).Some?) && Alphabetic(rest)
  {
    var s, n := head + rest, |rest| - Padding(rest);
    assert forall i | 0 <= i < 4 :: s[i] == head[i];
    assert forall i | 0 <= i < n :: s[4 + i] == rest[i];
    if Alphabetic(s) {
      forall i | 0 <= i < n
        ensures Sextet(rest[i]).Some?
      {
        assert Sextet(s[4 + i]).Some?;
      }
    }
    if Alphabetic(rest) && forall i | 0 <= i < 4 :: Sextet(head[i]).Some? {
      forall i | 0 <= i < |s| - Padding(s)
        ensures Sextet(s[i]).Some?
      {
        if i >= 4 {
          assert Sextet(rest[i - 4]).Some?;
        }
      }
    }
  }

  lemma SpareAfter(head: string, rest: string)
    requires Padding(head + rest) == Padding(rest) && |rest| >= 4
    ensures SpareZero(head + rest) <==> SpareZero(rest)
  {
    var s, n := head + rest, |rest|;
    assert s[|s| - 3] == rest[n - 3] && s[|s| - 2] == rest[n - 2];
  }

  lemma EncodeGroups(first: Bytes, later: Bytes)
    requires |first| == 3 && later != []
    ensures Encode(first + later) == Group(first) + Encode(later)
  {
    assert (first + later)[..3] == first && (first + later)[3..] == later;
  }

  lemma OneGroupCanonical(s: string)
    requires |s| == 4 && Shaped(s)
    ensures Decode(s).Some? <==> Alphabetic(s)
    ensures Decode(s).Some? ==> (Encode(Decode(s).value) == s <==> SpareZero(s))
  {
    if Padding(s) == 0 {
      FullGroupCanonical(s);
    } else {
      EndsBy(s);
      assert s[..4] == s && s[4..] == "" && Decode("") == Some([]);
      PaddedGroup(s);
    }
  }

  lemma FullGroupCanonical(s: string)
    requires |s| == 4 && Shaped(s) && Padding(s) == 0
    ensures Decode(s).Some? <==> Alphabetic(s)
    ensures Decode(s).Some? ==> (Encode(Decode(s).value) == s <==> SpareZero(s))
  {
    EndsBy(s);
    assert s[..4] == s && s[4..] == "" && Decode("") == Some([]);
    assert '=' !in s;
    FullGroup(s, true);
  }

  /**
   Of the texts of the right shape, those over the alphabet are decoded, and of these exactly the ones
   without spare bits are written back as they were.
   */
  lemma {:induction false} DecodesExactly(s: string)
    requires Shaped(s)
    ensures Decode(s).Some? <==> Alphabetic(s)
    ensures Decode(s).Some? ==> (Encode(Decode(s).value) == s <==> SpareZero(s))
  {
    if s == [] {
      NothingShaped();
    } else if |s| == 4 {
      OneGroupCanonical(s);
    } else {
      var head, rest := s[..4], s[4..];
      assert s == head + rest;
      HeadIsUnpadded(s);
      ShapedAfter(head, rest);
      PaddingAfter(head, rest);
      AlphabeticAfter(head, rest);
      SpareAfter(head, rest);
      FullGroup(head, false);
      DecodesExactly(rest);
      if Decode(s).Some? {
        RestIsNotEmpty(rest);
        EncodeGroups(Quad(head, false).value, Decode(rest).value);
        SameTail(head, Encode(Decode(rest).value), rest);
      }
    }
  }

  lemma SameTail(head: string, a: string, b: string)
    ensures head + a == head + b <==> a == b
  {
    assert (head + a)[|head|..] == a && (head + b)[|head|..] == b;
  }

  lemma RestIsNotEmpty(s: string)
    requires |s| >= 4 && Decode(s).Some?
    ensures Decode(s).value != []
  {}

  lemma AlphabetIsAscii(c: char)
    requires Sextet(c).Some?
    ensures c < 128 as char
  {}

  lemma PaddingIs(s: string, i: nat)
    requires |s| >= 2 && |s| - Padding(s) <= i < |s|
    ensures s[i] == '='
  {
    EndsBy(s);
  }

  lemma CanonicalIsAscii(s: string)
    requires Alphabetic(s) && |s| != 1
    ensures Ascii(s)
  {
    forall i | 0 <= i < |s|
      ensures s[i] < 128 as char
    {
      if i < |s| - Padding(s) {
        AlphabetIsAscii(s[i]);
      } else {
        PaddingIs(s, i);
      }
    }
  }

  /** By its looks alone, a text is known to be the encoding of some bytes. */
  lemma CanonicalAreEncodings(s: string)
    ensures Canonical(s) <==> exists data: Bytes :: s == Encode(data)
  {
    if Canonical(s) {
      DecodesExactly(s);
      assert s == Encode(Decode(s).value);
    }
    if data: Bytes :| s == Encode(data) {
      EncodeShaped(data);
      DecodeEncode(data);
      DecodesExactly(s);
    }
  }

  /**
   Reading a payload: data exactly from a canonical text within the cap, and a text is called too large
   exactly if it is ASCII of the right shape for too many bytes, whatever its symbols.
   */
  lemma ReadsCanonical(s: string, cap: Option<nat>)
    ensures ReadPayload(s, cap).Data? <==> Canonical(s) && (cap.None? || DecodedSize(s) <= cap.value)
    ensures ReadPayload(s, cap).TooLarge? <==> Ascii(s) && Shaped(s) && cap.Some? && DecodedSize(s) > cap.value
  {
    if Shaped(s) {
      DecodesExactly(s);
    }
    if Canonical(s) {
      CanonicalIsAscii(s);
    }
  }

  /** Exactly the encodings are read, as what they encode, up to the size cap. */
  lemma ReadsExactly(s: string, cap: Option<nat>, data: Bytes)
    ensures ReadPayload(s, cap) == Data(data) <==> s == Encode(data) && (cap.None? || |data| <= cap.value)
    ensures s == Encode(data) && cap.Some? && |data| > cap.value ==> ReadPayload(s, cap).TooLarge?
  {
    ReadsCanonical(s, cap);
    if s == Encode(data) {
      DecodeEncode(data);
      EncodeShaped(data);
      SizeIsExact(s);
      CanonicalAreEncodings(s);
      CanonicalIsAscii(s);
    }
    if ReadPayload(s, cap) == Data(data) {
      SizeIsExact(s);
    }
  }
}
