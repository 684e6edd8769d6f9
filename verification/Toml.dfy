/**
 A reader for the part of TOML v1.0.0 that a bounded manifest uses: basic strings, integers, floats,
 booleans, arrays, quoted keys, tables and arrays of tables.  What it accepts, it reads as the
 standard says; it refuses the rest of the language.
 */
module Toml {
  import opened Text

  /** `Float` holds the text of a finite float; `Other` is anything without a TOML form. */
  datatype Value =
    | Str(text: string)
    | Int(number: int)
    | Bool(truth: bool)
    | Float(token: string)
    | Other
    | List(items: seq<Value>)
    | Table(members: map<string, Value>)

  const DELETE: char := '\U{7F}'

  // ---------- strings ----------

  /** Control characters that a basic string must not contain unescaped (section "String"). */
  predicate MustBeEscaped(c: char) {
    (c < ' ' && c != '\t') || c == DELETE
  }

  function HexValue(c: char): Option<nat> {
    if '0' <= c <= '9' then Some((c - '0') as nat)
    else if 'a' <= c <= 'f' then Some((c - 'a') as nat + 10)
    else if 'A' <= c <= 'F' then Some((c - 'A') as nat + 10)
    else None
  }

  /** The character that an escape sequence (after its backslash) stands for, and the length of the sequence. */
  function ReadEscape(s: string): (r: Option<(char, nat)>)
    ensures r.Some? ==> 1 <= r.value.1 <= |s|
  {
    if s == [] then None
    else match s[0]
         case 'b' => Some(('\U{8}', 1))
         case 't' => Some(('\t', 1))
         case 'n' => Some(('\n', 1))
         case 'f' => Some(('\U{C}', 1))
         case 'r' => Some(('\r', 1))
         case '"' => Some(('"', 1))
         case '\\' => Some(('\\', 1))
         case 'u' => ReadCodePoint(s)
         case _ => None
  }

  function ReadCodePoint(s: string): (r: Option<(char, nat)>)
    ensures r.Some? ==> r.value.1 == 5 <= |s|
  {
    if |s| < 5 then None
    else
      var a, b, c, d := HexValue(s[1]), HexValue(s[2]), HexValue(s[3]), HexValue(s[4]);
      if a.None? || b.None? || c.None? || d.None? then None
      else
        var code := ((a.value * 16 + b.value) * 16 + c.value) * 16 + d.value;
        if 0 <= code < 0xD800 || 0xE000 <= code < 0x11_0000 then Some((code as char, 5)) else None
  }

  /** Reads a basic string from behind its opening quote; gives its text and what follows it. */
  function ReadString(s: string): (r: Option<(string, string)>)
    ensures r.Some? ==> |r.value.1| < |s|
  {
    if s == [] then None
    else if s[0] == '"' then Some(("", s[1..]))
    else if s[0] == '\\' then
      var e := ReadEscape(s[1..]);
      if e.None? then None else Prepend(e.value.0, ReadString(s[1 + e.value.1..]))
    else if MustBeEscaped(s[0]) then None
    else Prepend(s[0], ReadString(s[1..]))
  }

  function Prepend(c: char, r: Option<(string, string)>): Option<(string, string)> {
    if r.None? then None else Some(([c] + r.value.0, r.value.1))
  }

  // ---------- numbers ----------

  predicate IsDigit(c: char) {
    '0' <= c <= '9'
  }

  predicate InNumber(c: char) {
    IsDigit(c) || c in "+-.eE"
  }

  /** The length of the longest prefix made of characters of numbers. */
  function NumberLength(s: string): (n: nat)
    ensures n <= |s|
  {
    if s == [] || !InNumber(s[0]) then 0 else 1 + NumberLength(s[1..])
  }

  predicate AllDigits(s: string) {
    s != [] && forall c <- s :: IsDigit(c)
  }

  function Unsigned(s: string): string {
    if s != [] && (s[0] == '-' || s[0] == '+') then s[1..] else s
  }

  /** Digits without a superfluous leading zero (section "Integer"). */
  predicate IsNatural(s: string) {
    AllDigits(s) && (s[0] == '0' ==> |s| == 1)
  }

  function NaturalOf(s: string): nat
    requires AllDigits(s)
  {
    assert IsDigit(s[|s| - 1]);
    (if |s| == 1 then 0 else NaturalOf(s[..|s| - 1]) * 10) + (s[|s| - 1] - '0') as nat
  }

  function IntegerOf(s: string): int
    requires IsNatural(Unsigned(s))
  {
    if s[0] == '-' then 0 - NaturalOf(Unsigned(s)) as int else NaturalOf(Unsigned(s))
  }

  /** Where the leading digits end. */
  function DigitsLength(s: string): (n: nat)
    ensures n <= |s|
  {
    if s == [] || !IsDigit(s[0]) then 0 else 1 + DigitsLength(s[1..])
  }

  /** An optional fraction, then an optional exponent, then nothing; at least one of the two. */
  predicate IsFloatEnd(s: string) {
    if s != [] && s[0] == '.' then
      var n := DigitsLength(s[1..]);
      n > 0 && (s[n + 1..] == [] || IsExponent(s[n + 1..]))
    else IsExponent(s)
  }

  predicate IsExponent(s: string) {
    s != [] && (s[0] == 'e' || s[0] == 'E') && AllDigits(Unsigned(s[1..]))
  }

  /** Section "Float", without the special values. */
  predicate IsFloat(s: string) {
    var t := Unsigned(s);
    var n := DigitsLength(t);
    && (forall c <- s :: InNumber(c))
    && IsNatural(t[..n]) && IsFloatEnd(t[n..])
  }

  function ReadNumber(token: string): Option<Value> {
    if IsNatural(Unsigned(token)) then Some(Int(IntegerOf(token)))
    else if IsFloat(token) then Some(Float(token))
    else None
  }

  // ---------- values ----------

  function Skip(s: string): (r: string)
    ensures |r| <= |s|
  {
    if s != [] && (s[0] == ' ' || s[0] == '\t') then Skip(s[1..]) else s
  }

  predicate StartsWith(s: string, t: string) {
    t <= s
  }

  function ReadValue(s: string): (r: Option<(Value, string)>)
    ensures r.Some? ==> |r.value.1| < |s|
    decreases |s|, 0
  {
    if s == [] then None
    else if s[0] == '"' then
      var t := ReadString(s[1..]);
      if t.None? then None else Some((Str(t.value.0), t.value.1))
    else if s[0] == '[' then
      var t := ReadItems(Skip(s[1..]));
      if t.None? then None else Some((List(t.value.0), t.value.1))
    else if StartsWith(s, "true") then Some((Bool(true), s[4..]))
    else if StartsWith(s, "false") then Some((Bool(false), s[5..]))
    else
      var n := NumberLength(s);
      var v := ReadNumber(s[..n]);
      if n == 0 || v.None? then None else Some((v.value, s[n..]))
  }

  /** What follows an item: the closing bracket, a comma, or something else. */
  datatype ItemEnd = Closed(rest: string) | More(rest: string) | Neither

  function ReadItemEnd(s: string): (e: ItemEnd)
    ensures !e.Neither? ==> |e.rest| < |s|
  {
    var t := Skip(s);
    if t == [] then Neither
    else if t[0] == ']' then Closed(t[1..])
    else if t[0] == ',' then More(Skip(t[1..]))
    else Neither
  }

  /** The items of an array, up to and including its closing bracket (section "Array"). */
  function ReadItems(s: string): (r: Option<(seq<Value>, string)>)
    ensures r.Some? ==> |r.value.1| < |s|
    decreases |s|, 1
  {
    if s == [] then None
    else if s[0] == ']' then Some(([], s[1..]))
    else
      var v := ReadValue(s);
      if v.None? then None
      else
        match ReadItemEnd(v.value.1)
        case Neither => None
        case Closed(rest) => Some(([v.value.0], rest))
        case More(rest) =>
          var more := ReadItems(rest);
          if more.None? then None else Some(([v.value.0] + more.value.0, more.value.1))
  }

  // ---------- lines ----------

  datatype Statement =
    | Header(path: seq<string>)
    | Element(path: seq<string>)
    | Assign(key: string, value: Value)
    | Blank

  /** Quoted keys joined by dots, up to the first closing bracket (section "Keys"). */
  function ReadPath(s: string): (r: Option<(seq<string>, string)>)
    ensures r.Some? ==> r.value.0 != [] && |r.value.1| < |s|
    decreases |s|
  {
    if s == [] || s[0] != '"' then None
    else
      var k := ReadString(s[1..]);
      if k.None? then None
      else if k.value.1 == [] || k.value.1[0] != '.' then Some(([k.value.0], k.value.1))
      else
        var more := ReadPath(k.value.1[1..]);
        if more.None? then None else Some(([k.value.0] + more.value.0, more.value.1))
  }

  function ReadLine(line: string): Option<Statement> {
    var s := Skip(line);
    if s == [] then Some(Blank)
    else if StartsWith(s, "[[") then
      var p := ReadPath(s[2..]);
      if p.None? || !StartsWith(p.value.1, "]]") || Skip(p.value.1[2..]) != [] then None
      else Some(Element(p.value.0))
    else if s[0] == '[' then
      var p := ReadPath(s[1..]);
      if p.None? || !StartsWith(p.value.1, "]") || Skip(p.value.1[1..]) != [] then None
      else Some(Header(p.value.0))
    else if s[0] == '"' then
      var k := ReadString(s[1..]);
      if k.None? then None else ReadAssignment(k.value.0, Skip(k.value.1))
    else None
  }

  function ReadAssignment(key: string, s: string): Option<Statement> {
    if s == [] || s[0] != '=' then None
    else
      var v := ReadValue(Skip(s[1..]));
      if v.None? || Skip(v.value.1) != [] then None else Some(Assign(key, v.value.0))
  }

  // ---------- tables ----------

  /** A document being read: what it defines so far, and the table that assignments go to. */
  datatype Reader = Reader(root: Value, cursor: seq<string>)

  predicate IsArrayOfTables(v: Value) {
    v.List? && v.items != [] && v.items[|v.items| - 1].Table?
  }

  /**
   What the name of a member stands for in a path: of an array of tables, its last element
   (section "Array of Tables").
   */
  function Current(child: Value): Value {
    if IsArrayOfTables(child) then child.items[|child.items| - 1] else child
  }

  function WithCurrent(child: Value, x: Value): Value {
    if IsArrayOfTables(child) then List(child.items[..|child.items| - 1] + [x]) else x
  }

  lemma CurrentReplaced(child: Value, x: Value, y: Value)
    requires x.Table?
    ensures Current(WithCurrent(child, x)) == x
    ensures WithCurrent(WithCurrent(child, x), y) == WithCurrent(child, y)
  {
    if IsArrayOfTables(child) {
      var items := child.items[..|child.items| - 1] + [x];
      assert items[..|items| - 1] == child.items[..|child.items| - 1];
    }
  }

  /** The table that a path names. */
  function Get(v: Value, path: seq<string>): (r: Option<Value>)
    ensures r.Some? ==> r.value.Table?
    decreases |path|
  {
    if !v.Table? then None
    else if path == [] then Some(v)
    else if path[0] !in v.members then None
    else Get(Current(v.members[path[0]]), path[1..])
  }

  /** The document with the table that a path names replaced. */
  function Put(v: Value, path: seq<string>, x: Value): (r: Value)
    requires Get(v, path).Some?
    ensures x.Table? ==> r.Table?
    decreases |path|
  {
    if path == [] then x
    else
      var child := v.members[path[0]];
      Table(v.members[path[0] := WithCurrent(child, Put(Current(child), path[1..], x))])
  }

  const EMPTY: Value := Table(map[])

  /** One statement; `None` when it redefines something or its super-table is not defined before it. */
  function Apply(r: Reader, st: Statement): Option<Reader> {
    match st
    case Blank => Some(r)
    case Assign(key, value) => Define(r, r.cursor, key, value, r.cursor)
    case Header(path) =>
      if path == [] then None
      else Define(r, path[..|path| - 1], path[|path| - 1], EMPTY, path)
    case Element(path) =>
      if path == [] then None
      else
        var parent, key := path[..|path| - 1], path[|path| - 1];
        var t := Get(r.root, parent);
        if t.None? then None
        else if key !in t.value.members then Define(r, parent, key, List([EMPTY]), path)
        else if !IsArrayOfTables(t.value.members[key]) then None
        else
          var grown := List(t.value.members[key].items + [EMPTY]);
          Some(Reader(Put(r.root, parent, Table(t.value.members[key := grown])), path))
  }

  /** Defines a key that its table does not have yet. */
  function Define(r: Reader, parent: seq<string>, key: string, value: Value, cursor: seq<string>): Option<Reader> {
    var t := Get(r.root, parent);
    if t.None? || key in t.value.members then None
    else Some(Reader(Put(r.root, parent, Table(t.value.members[key := value])), cursor))
  }

  function Run(r: Reader, statements: seq<Statement>): Option<Reader>
    decreases |statements|
  {
    if statements == [] then Some(r)
    else
      var next := Apply(r, statements[0]);
      if next.None? then None else Run(next.value, statements[1..])
  }

  // ---------- documents ----------

  /** The lines of a text; what follows the last newline is a line too. */
  function SplitLines(text: string): (lines: seq<string>)
    ensures lines != []
  {
    if text == [] then [[]]
    else
      var rest := SplitLines(text[1..]);
      if text[0] == '\n' then [[]] + rest else [[text[0]] + rest[0]] + rest[1..]
  }

  function ReadLines(lines: seq<string>): Option<seq<Statement>> {
    if lines == [] then Some([])
    else
      var st, rest := ReadLine(lines[0]), ReadLines(lines[1..]);
      if st.None? || rest.None? then None else Some([st.value] + rest.value)
  }

  /** The value of a document, if it is one. */
  function Read(text: string): Option<Value> {
    var statements := ReadLines(SplitLines(text));
    if statements.None? then None
    else
      var r := Run(Reader(EMPTY, []), statements.value);
      if r.None? then None else Some(r.value.root)
  }

  // ---------- tables by path ----------

  lemma {:induction false} GetAppend(v: Value, p: seq<string>, q: seq<string>)
    ensures Get(v, p).Some? ==> Get(v, p + q) == Get(Get(v, p).value, q)
    ensures Get(v, p).None? ==> Get(v, p + q).None?
    decreases |p|
  {
    if p == [] {
      assert p + q == q;
    } else if v.Table? && p[0] in v.members {
      GetAppend(Current(v.members[p[0]]), p[1..], q);
      assert (p + q)[1..] == p[1..] + q;
    }
  }

  lemma {:induction false} GetPut(v: Value, p: seq<string>, x: Value)
    requires Get(v, p).Some? && x.Table?
    ensures Get(Put(v, p, x), p) == Some(x)
    decreases |p|
  {
    if p == [] {
    } else {
      var child := v.members[p[0]];
      GetPut(Current(child), p[1..], x);
      CurrentReplaced(child, Put(Current(child), p[1..], x), x);
    }
  }

  lemma {:induction false} PutPut(v: Value, p: seq<string>, x: Value, y: Value)
    requires Get(v, p).Some? && x.Table?
    ensures Get(Put(v, p, x), p).Some? && Put(Put(v, p, x), p, y) == Put(v, p, y)
    decreases |p|
  {
    GetPut(v, p, x);
    if p != [] {
      var child := v.members[p[0]];
      PutPut(Current(child), p[1..], x, y);
      CurrentReplaced(child, Put(Current(child), p[1..], x), Put(Current(child), p[1..], y));
    }
  }

  lemma {:induction false} PutAppend(v: Value, p: seq<string>, q: seq<string>, x: Value)
    requires Get(v, p).Some? && Get(Get(v, p).value, q).Some?
    ensures Get(v, p + q).Some? && Put(v, p + q, x) == Put(v, p, Put(Get(v, p).value, q, x))
    decreases |p|
  {
    GetAppend(v, p, q);
    if p == [] {
      assert p + q == q;
    } else {
      PutAppend(Current(v.members[p[0]]), p[1..], q, x);
      assert (p + q)[1..] == p[1..] + q;
    }
  }
}
