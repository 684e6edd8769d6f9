/** The bounded TOML serialization of the manifest from which Cargo fetches dependencies. */
module Manifest {
  import opened Text
  import opened Toml

  const MAX_DEPTH := 16
  const MAX_MEMBERS := 4096

  // ---------- strings, as `json.dumps` writes them ----------

  function HexDigit(n: nat): char
    requires n < 16
  {
    "0123456789abcdef"[n]
  }

  function Escape(c: char): string {
    if c == '"' then "\\\"" else if c == '\\' then "\\\\"
    else if c == '\n' then "\\n" else if c == '\r' then "\\r" else if c == '\t' then "\\t"
    else if c == '\U{8}' then "\\b" else if c == '\U{C}' then "\\f"
    else if c < ' ' then
      assert c as int < 32;
      "\\u00" + [HexDigit(c as int / 16), HexDigit(c as int % 16)]
    else [c]
  }

  function Escaped(s: string): string {
    if s == [] then "" else Escape(s[0]) + Escaped(s[1..])
  }

  function Quote(s: string): string {
    "\"" + Escaped(s) + "\""
  }

  lemma Assoc<T>(a: seq<T>, b: seq<T>, c: seq<T>)
    ensures a + b + c == a + (b + c)
  {}

  lemma HexReads(n: nat)
    requires n < 16
    ensures HexValue(HexDigit(n)) == Some(n)
  {}

  lemma ControlReads(c: char, rest: string)
    requires c < ' '
    ensures ReadCodePoint("u00" + [HexDigit(c as int / 16), HexDigit(c as int % 16)] + rest) == Some((c, 5))
  {
    HexReads(c as int / 16);
    HexReads(c as int % 16);
    HexReads(0);
    var s := "u00" + [HexDigit(c as int / 16), HexDigit(c as int % 16)] + rest;
    assert s[1] == HexDigit(0) && s[2] == HexDigit(0);
    assert ((0 * 16 + 0) * 16 + c as int / 16) * 16 + c as int % 16 == c as int;
  }

  lemma ShortEscapeReads(c: char, rest: string)
    requires |Escape(c)| == 2
    ensures ReadString(Escape(c) + rest) == Prepend(c, ReadString(rest))
  {
    var s := Escape(c) + rest;
    assert s[0] == '\\' && ReadEscape(s[1..]) == Some((c, 1)) && s[2..] == rest;
  }

  lemma LongEscapeReads(c: char, rest: string)
    requires |Escape(c)| == 6
    ensures ReadString(Escape(c) + rest) == Prepend(c, ReadString(rest))
  {
    ControlReads(c, rest);
    HexEscapeReads(Escape(c), [HexDigit(c as int / 16), HexDigit(c as int % 16)], c, rest);
  }

  lemma HexEscapeReads(escape: string, digits: string, c: char, rest: string)
    requires escape == "\\u00" + digits && |digits| == 2
    requires ReadCodePoint("u00" + digits + rest) == Some((c, 5))
    ensures ReadString(escape + rest) == Prepend(c, ReadString(rest))
  {
    CodeReads("u00" + digits, c, rest);
    assert "\\u00" + digits == "\\" + ("u00" + digits);
  }

  lemma CodeReads(code: string, c: char, rest: string)
    requires |code| == 5 && ReadEscape(code + rest) == Some((c, 5))
    ensures ReadString("\\" + code + rest) == Prepend(c, ReadString(rest))
  {
    AfterBackslash(code, rest);
  }

  lemma AfterBackslash(code: string, rest: string)
    requires |code| == 5
    ensures ("\\" + code + rest)[0] == '\\'
    ensures ("\\" + code + rest)[1..] == code + rest && ("\\" + code + rest)[6..] == rest
  {}

  lemma EscapeReads(c: char, rest: string)
    ensures ReadString(Escape(c) + rest) == if c == DELETE then None else Prepend(c, ReadString(rest))
  {
    if |Escape(c)| == 1 {
      assert (Escape(c) + rest)[1..] == rest;
    } else if |Escape(c)| == 2 {
      ShortEscapeReads(c, rest);
    } else {
      LongEscapeReads(c, rest);
    }
  }

  /** A quoted string reads back, unless it contains U+007F, which JSON leaves as it is and TOML forbids. */
  lemma {:induction false} QuoteReads(s: string, rest: string)
    ensures ReadString(Escaped(s) + "\"" + rest) == if DELETE in s then None else Some((s, rest))
  {
    if s == [] {
      assert (Escaped(s) + "\"" + rest)[1..] == rest;
    } else {
      var more := Escaped(s[1..]) + "\"" + rest;
      assert Escaped(s) + "\"" + rest == Escape(s[0]) + more;
      EscapeReads(s[0], more);
      QuoteReads(s[1..], rest);
      assert s == [s[0]] + s[1..];
    }
  }

  // ---------- scalars ----------

  function DigitsOf(n: nat): string {
    (if n < 10 then "" else DigitsOf(n / 10)) + [(n % 10) as char + '0']
  }

  function IntegerText(n: int): string {
    if n < 0 then "-" + DigitsOf(-n) else DigitsOf(n)
  }

  lemma {:induction false} DigitsRead(n: nat)
    ensures IsNatural(DigitsOf(n)) && NaturalOf(DigitsOf(n)) == n
    ensures n > 0 ==> DigitsOf(n)[0] != '0'
  {
    var d := (n % 10) as char + '0';
    if n < 10 {
      assert DigitsOf(n) == [d];
    } else {
      DigitsRead(n / 10);
      var s := DigitsOf(n / 10);
      assert DigitsOf(n) == s + [d];
      assert DigitsOf(n)[..|s|] == s && DigitsOf(n)[0] == s[0];
    }
  }

  predicate NumberStart(c: char) {
    IsDigit(c) || c == '-' || c == '+'
  }

  /** Not a blank, and not the end of an array. */
  predicate ValueStart(c: char) {
    c != ' ' && c != '\t' && c != ']'
  }

  lemma NaturalReads(sign: string, digits: string)
    requires IsNatural(digits) && (sign == "" || sign == "-")
    ensures ReadNumber(sign + digits) ==
            Some(Int(if sign == "" then NaturalOf(digits) else 0 - NaturalOf(digits) as int))
    ensures forall c <- sign + digits :: InNumber(c)
    ensures sign + digits != [] && NumberStart((sign + digits)[0])
  {
    var t := sign + digits;
    assert IsDigit(digits[0]) && IsDigit(digits[|digits| - 1]);
    assert Unsigned(t) == digits;
    forall c <- t
      ensures InNumber(c)
    {
      assert c in sign || c in digits;
    }
  }

  lemma IntegerReads(n: int)
    ensures ReadNumber(IntegerText(n)) == Some(Int(n))
    ensures forall c <- IntegerText(n) :: InNumber(c)
    ensures IntegerText(n) != [] && NumberStart(IntegerText(n)[0])
  {
    if n < 0 {
      DigitsRead(-n);
      NaturalReads("-", DigitsOf(-n));
    } else {
      DigitsRead(n);
      NaturalReads("", DigitsOf(n));
      assert "" + DigitsOf(n) == DigitsOf(n);
    }
  }

  lemma {:induction false} DigitsBeforeEnd(s: string, n: nat)
    requires n == DigitsLength(s) && n < |s|
    ensures !IsDigit(s[n])
  {
    if n == 0 {
    } else {
      DigitsBeforeEnd(s[1..], n - 1);
    }
  }

  lemma FloatReads(t: string)
    requires IsFloat(t)
    ensures ReadNumber(t) == Some(Float(t)) && t != [] && NumberStart(t[0])
  {
    var u := Unsigned(t);
    var n := DigitsLength(u);
    assert t[0] in t;
    assert u[n..] != [] && u[n] in u;
    DigitsBeforeEnd(u, n);
  }

  lemma {:induction false} NumberEnds(t: string, rest: string)
    requires (forall c <- t :: InNumber(c)) && (rest == [] || !InNumber(rest[0]))
    ensures NumberLength(t + rest) == |t|
  {
    if t == [] {
      assert t + rest == rest;
    } else {
      assert (t + rest)[1..] == t[1..] + rest;
      NumberEnds(t[1..], rest);
    }
  }

  /** The text of a scalar, or of an array of them. */
  function ScalarText(v: Value): string
    decreases v, 2
  {
    match v
    case Str(s) => Quote(s)
    case Int(n) => IntegerText(n)
    case Bool(b) => if b then "true" else "false"
    case Float(t) => t
    case List(items) => "[" + ItemsText(v, 0)
    case _ => ""
  }

  /** The items from the `i`-th on, and the closing bracket. */
  function ItemsText(v: Value, i: nat): string
    requires v.List? && i <= |v.items|
    decreases v, 1, |v.items| - i
  {
    if i == |v.items| then "]"
    else ScalarText(v.items[i]) + (if i + 1 == |v.items| then "" else ", ") + ItemsText(v, i + 1)
  }

  /** What `scalar` accepts: finite floats are the ones whose text is a TOML float. */
  predicate ScalarOk(v: Value, depth: nat) {
    && depth <= MAX_DEPTH
    && match v
       case Str(_) => true
       case Int(_) => true
       case Bool(_) => true
       case Float(t) => IsFloat(t)
       case List(items) => forall c <- items :: ScalarOk(c, depth + 1)
       case _ => false
  }

  /** Some string or key of the value contains U+007F. */
  ghost predicate Dirty(v: Value) {
    match v
    case Str(s) => DELETE in s
    case List(items) => SomeDirty(items)
    case Table(members) => exists k <- members :: DELETE in k || Dirty(v.members[k])
    case _ => false
  }

  ghost predicate SomeDirty(items: seq<Value>) {
    exists c <- items :: Dirty(c)
  }

  lemma SomeDirtyFirst(c: Value, later: seq<Value>)
    ensures SomeDirty([c] + later) <==> Dirty(c) || SomeDirty(later)
  {
    assert c in [c] + later;
    assert forall x :: x in [c] + later <==> x == c || x in later;
  }

  predicate Delimited(rest: string) {
    rest == [] || rest[0] == ',' || rest[0] == ']'
  }

  function After<T>(dirty: bool, x: T, rest: string): Option<(T, string)> {
    if dirty then None else Some((x, rest))
  }

  /** Quoted text, as the readers of values, keys and paths meet it. */
  lemma QuotedReads(t: string, rest: string)
    ensures var s := Quote(t) + rest;
            s[0] == '"' && ReadString(s[1..]) == After(DELETE in t, t, rest)
  {
    assert (Quote(t) + rest)[1..] == Escaped(t) + "\"" + rest;
    QuoteReads(t, rest);
  }

  lemma StringReads(t: string, rest: string)
    ensures ReadValue(Quote(t) + rest) == After(DELETE in t, Str(t), rest)
  {
    QuotedReads(t, rest);
  }

  lemma BoolReads(b: bool, rest: string)
    ensures ReadValue((if b then "true" else "false") + rest) == Some((Bool(b), rest))
  {
    assert ("true" + rest)[4..] == rest && ("false" + rest)[5..] == rest;
  }

  lemma IntegerValueReads(n: int, rest: string)
    requires Delimited(rest)
    ensures ReadValue(IntegerText(n) + rest) == Some((Int(n), rest))
    ensures IntegerText(n) != [] && ValueStart(IntegerText(n)[0])
  {
    IntegerReads(n);
    NumberEnds(IntegerText(n), rest);
    NumberStarts(IntegerText(n), rest);
  }

  lemma FloatValueReads(t: string, rest: string)
    requires IsFloat(t) && Delimited(rest)
    ensures ReadValue(t + rest) == Some((Float(t), rest))
    ensures t != [] && ValueStart(t[0])
  {
    FloatReads(t);
    NumberEnds(t, rest);
    NumberStarts(t, rest);
  }

  lemma ListReads(s: string, text: string, dirty: bool, items: seq<Value>, rest: string)
    requires s != [] && s[0] == '[' && s[1..] == text && Skip(text) == text
    requires ReadItems(text) == After(dirty, items, rest)
    ensures ReadValue(s) == After(dirty, List(items), rest)
  {}

  /** A scalar reads back as it was, unless it contains U+007F: then nothing is read. */
  lemma {:induction false} ScalarReads(v: Value, depth: nat, rest: string)
    requires ScalarOk(v, depth) && Delimited(rest)
    ensures ReadValue(ScalarText(v) + rest) == After(Dirty(v), v, rest)
    ensures ScalarText(v) != [] && ValueStart(ScalarText(v)[0])
    decreases v, 2
  {
    match v
    case Str(t) => StringReads(t, rest);
    case Int(n) => IntegerValueReads(n, rest);
    case Float(t) => FloatValueReads(t, rest);
    case Bool(b) => BoolReads(b, rest);
    case List(items) =>
      ItemsRead(v, 0, depth, rest);
      assert items[0..] == items;
      Assoc("[", ItemsText(v, 0), rest);
      ListReads(ScalarText(v) + rest, ItemsText(v, 0) + rest, SomeDirty(items), items, rest);
    case _ =>
  }

  lemma NumberStarts(t: string, rest: string)
    requires t != [] && NumberStart(t[0])
    requires ReadNumber(t).Some? && NumberLength(t + rest) == |t|
    ensures ReadValue(t + rest) == Some((ReadNumber(t).value, rest))
    ensures ValueStart(t[0])
  {
    var s := t + rest;
    assert s[..|t|] == t && s[|t|..] == rest && s[0] == t[0];
    NumberValue(s, |t|);
  }

  lemma NumberValue(s: string, n: nat)
    requires s != [] && NumberStart(s[0]) && n == NumberLength(s) && n > 0 && ReadNumber(s[..n]).Some?
    ensures ReadValue(s) == Some((ReadNumber(s[..n]).value, s[n..]))
  {
    OtherStart(s, "true");
    OtherStart(s, "false");
  }

  lemma OtherStart(s: string, t: string)
    requires s != [] && t != [] && s[0] != t[0]
    ensures !StartsWith(s, t)
  {}

  lemma ItemsSplit(v: Value, i: nat, rest: string)
    requires v.List? && i < |v.items|
    ensures v.items[i..] == [v.items[i]] + v.items[i + 1..]
    ensures i + 1 == |v.items| ==> v.items[i..] == [v.items[i]]
    ensures i + 1 == |v.items| ==> ItemsText(v, i) + rest == ScalarText(v.items[i]) + ("]" + rest)
    ensures i + 1 < |v.items| ==>
              ItemsText(v, i) + rest == ScalarText(v.items[i]) + (", " + (ItemsText(v, i + 1) + rest))
  {
    assert i + 1 == |v.items| ==> ItemsText(v, i + 1) == "]";
  }

  lemma {:induction false} ItemsRead(v: Value, i: nat, depth: nat, rest: string)
    requires v.List? && i <= |v.items| && ScalarOk(v, depth) && Delimited(rest)
    ensures Skip(ItemsText(v, i) + rest) == ItemsText(v, i) + rest
    ensures ReadItems(ItemsText(v, i) + rest) == After(SomeDirty(v.items[i..]), v.items[i..], rest)
    decreases v, 1, |v.items| - i
  {
    if i == |v.items| {
      NoItems(rest);
      assert v.items[i..] == [];
    } else {
      var c, later := v.items[i], v.items[i + 1..];
      assert c in v.items && ScalarOk(c, depth + 1);
      ItemsSplit(v, i, rest);
      SomeDirtyFirst(c, later);
      if i + 1 == |v.items| {
        ScalarReads(c, depth + 1, "]" + rest);
        BracketReads(rest);
        LastItem(c, ItemsText(v, i) + rest, "]" + rest, rest);
      } else {
        ItemsRead(v, i + 1, depth, rest);
        var tail := ItemsText(v, i + 1) + rest;
        ScalarReads(c, depth + 1, ", " + tail);
        SeparatorReads(tail);
        NextItem(c, ItemsText(v, i) + rest, ", " + tail, tail, later, SomeDirty(later), rest);
      }
    }
  }

  lemma NoItems(rest: string)
    ensures Skip("]" + rest) == "]" + rest && ReadItems("]" + rest) == Some(([], rest))
  {
    assert ("]" + rest)[1..] == rest;
  }

  lemma SeparatorReads(tail: string)
    requires Skip(tail) == tail
    ensures ReadItemEnd(", " + tail) == More(tail)
  {
    assert (", " + tail)[1..] == " " + tail;
    assert (" " + tail)[1..] == tail;
  }

  lemma BracketReads(rest: string)
    ensures ReadItemEnd("]" + rest) == Closed(rest)
  {
    assert ("]" + rest)[1..] == rest;
  }

  lemma LastItem(c: Value, s: string, t: string, rest: string)
    requires s != [] && ValueStart(s[0])
    requires ReadValue(s) == After(Dirty(c), c, t) && ReadItemEnd(t) == Closed(rest)
    ensures Skip(s) == s && ReadItems(s) == After(Dirty(c), [c], rest)
  {}

  lemma NextItem(c: Value, s: string, t: string, tail: string, later: seq<Value>, dirty: bool, rest: string)
    requires s != [] && ValueStart(s[0])
    requires ReadValue(s) == After(Dirty(c), c, t) && ReadItemEnd(t) == More(tail)
    requires ReadItems(tail) == After(dirty, later, rest)
    ensures Skip(s) == s && ReadItems(s) == After(Dirty(c) || dirty, [c] + later, rest)
  {}

  // ---------- lines ----------

  function KeysText(path: seq<string>): string {
    if path == [] then ""
    else if |path| == 1 then Quote(path[0])
    else Quote(path[0]) + "." + KeysText(path[1..])
  }

  function LineOf(st: Statement): string {
    match st
    case Header(path) => "[" + KeysText(path) + "]"
    case Element(path) => "[[" + KeysText(path) + "]]"
    case Assign(key, value) => Quote(key) + " = " + ScalarText(value)
    case Blank => ""
  }

  ghost predicate DirtyPath(path: seq<string>) {
    exists k <- path :: DELETE in k
  }

  ghost predicate DirtyStatement(st: Statement) {
    match st
    case Header(path) => DirtyPath(path)
    case Element(path) => DirtyPath(path)
    case Assign(key, value) => DELETE in key || Dirty(value)
    case Blank => false
  }

  ghost predicate StatementOk(st: Statement) {
    match st
    case Header(path) => path != []
    case Element(path) => path != []
    case Assign(key, value) => exists depth: nat :: ScalarOk(value, depth)
    case Blank => true
  }

  lemma DirtyPathFirst(k: string, later: seq<string>)
    ensures DirtyPath([k] + later) <==> DELETE in k || DirtyPath(later)
  {
    assert k in [k] + later;
    assert forall x :: x in [k] + later <==> x == k || x in later;
  }

  lemma PathEnds(s: string, k: string, rest: string)
    requires s != [] && s[0] == '"' && ReadString(s[1..]) == After(DELETE in k, k, rest)
    requires rest != [] && rest[0] == ']'
    ensures ReadPath(s) == After(DELETE in k, [k], rest)
  {}

  lemma PathGoesOn(s: string, k: string, t: string, later: seq<string>, dirty: bool, rest: string)
    requires s != [] && s[0] == '"' && ReadString(s[1..]) == After(DELETE in k, k, t)
    requires t != [] && t[0] == '.' && ReadPath(t[1..]) == After(dirty, later, rest)
    ensures ReadPath(s) == After(DELETE in k || dirty, [k] + later, rest)
  {}

  lemma KeysSplit(path: seq<string>, rest: string)
    requires path != []
    ensures path == [path[0]] + path[1..]
    ensures |path| == 1 ==> path == [path[0]] && KeysText(path) + rest == Quote(path[0]) + rest
    ensures |path| > 1 ==> KeysText(path) + rest == Quote(path[0]) + ("." + (KeysText(path[1..]) + rest))
  {
    if |path| > 1 {
      Assoc(Quote(path[0]) + ".", KeysText(path[1..]), rest);
      Assoc(Quote(path[0]), ".", KeysText(path[1..]) + rest);
    }
  }

  lemma KeysStart(path: seq<string>)
    requires path != []
    ensures KeysText(path) != [] && KeysText(path)[0] == '"'
  {
    assert Quote(path[0])[0] == '"';
  }

  lemma {:induction false} PathReads(path: seq<string>, rest: string)
    requires path != [] && rest != [] && rest[0] == ']'
    ensures ReadPath(KeysText(path) + rest) == After(DirtyPath(path), path, rest)
    decreases |path|
  {
    var k, later := path[0], path[1..];
    KeysSplit(path, rest);
    DirtyPathFirst(k, later);
    if later == [] {
      QuotedReads(k, rest);
      PathEnds(KeysText(path) + rest, k, rest);
    } else {
      var tail := KeysText(later) + rest;
      PathReads(later, rest);
      QuotedReads(k, "." + tail);
      assert ("." + tail)[1..] == tail;
      PathGoesOn(KeysText(path) + rest, k, "." + tail, later, DirtyPath(later), rest);
    }
  }

  lemma HeaderLineReads(s: string, path: seq<string>, dirty: bool)
    requires |s| > 1 && s[0] == '[' && s[1] == '"' && ReadPath(s[1..]) == After(dirty, path, "]")
    ensures ReadLine(s) == if dirty then None else Some(Header(path))
  {
    assert "]"[1..] == "";
  }

  lemma ElementLineReads(s: string, path: seq<string>, dirty: bool)
    requires |s| > 2 && s[..2] == "[[" && ReadPath(s[2..]) == After(dirty, path, "]]")
    ensures ReadLine(s) == if dirty then None else Some(Element(path))
  {
    assert s[0] == s[..2][0];
    assert "]]"[2..] == "";
  }

  lemma HeaderReads(path: seq<string>)
    requires path != []
    ensures ReadLine(LineOf(Header(path))) == if DirtyPath(path) then None else Some(Header(path))
  {
    var keys := KeysText(path);
    PathReads(path, "]");
    KeysStart(path);
    Assoc("[", keys, "]");
    assert ("[" + (keys + "]"))[1..] == keys + "]";
    HeaderLineReads(LineOf(Header(path)), path, DirtyPath(path));
  }

  lemma ElementReads(path: seq<string>)
    requires path != []
    ensures ReadLine(LineOf(Element(path))) == if DirtyPath(path) then None else Some(Element(path))
  {
    var keys := KeysText(path);
    PathReads(path, "]]");
    Assoc("[[", keys, "]]");
    assert ("[[" + (keys + "]]"))[2..] == keys + "]]";
    ElementLineReads(LineOf(Element(path)), path, DirtyPath(path));
  }

  lemma KeyReads(s: string, k: string, t: string)
    requires s != [] && s[0] == '"' && ReadString(s[1..]) == After(DELETE in k, k, t)
    ensures ReadLine(s) == if DELETE in k then None else ReadAssignment(k, Skip(t))
  {}

  lemma AssignedReads(key: string, s: string, value: Value, dirty: bool)
    requires s != [] && s[0] == '=' && ReadValue(Skip(s[1..])) == After(dirty, value, "")
    ensures ReadAssignment(key, s) == if dirty then None else Some(Assign(key, value))
  {}

  lemma EqualsSign(text: string)
    requires text != [] && ValueStart(text[0])
    ensures var s := Skip(" = " + text);
            s != [] && s[0] == '=' && Skip(s[1..]) == text
  {
    var s := "= " + text;
    assert (" = " + text)[1..] == s;
    assert s[1..] == " " + text;
    assert s[1..][1..] == text;
  }

  lemma AssignReads(key: string, value: Value, depth: nat)
    requires ScalarOk(value, depth)
    ensures ReadLine(LineOf(Assign(key, value))) ==
            if DELETE in key || Dirty(value) then None else Some(Assign(key, value))
  {
    var text := ScalarText(value);
    ScalarReads(value, depth, "");
    assert text + "" == text;
    EqualsSign(text);
    AssignedReads(key, Skip(" = " + text), value, Dirty(value));
    QuotedReads(key, " = " + text);
    KeyReads(Quote(key) + (" = " + text), key, " = " + text);
    Assoc(Quote(key), " = ", text);
  }

  /** A line reads back as the statement it was printed from, unless it contains U+007F. */
  lemma LineReads(st: Statement)
    requires StatementOk(st)
    ensures ReadLine(LineOf(st)) == if DirtyStatement(st) then None else Some(st)
  {
    match st
    case Header(path) => HeaderReads(path);
    case Element(path) => ElementReads(path);
    case Assign(key, value) =>
      var depth: nat :| ScalarOk(value, depth);
      AssignReads(key, value, depth);
    case Blank =>
  }

  // ---------- the statements of a value ----------

  /** Tables and arrays with a table among their items get headers; everything else is assigned. */
  predicate Nested(v: Value) {
    v.Table? || (v.List? && exists c <- v.items :: c.Table?)
  }

  /** What `visit` accepts, for a table at the given depth. */
  ghost predicate Printable(v: Value, depth: nat)
    decreases v, 0
  {
    && v.Table? && depth <= MAX_DEPTH
    && forall k <- v.members :: MemberOk(v.members[k], depth)
  }

  ghost predicate MemberOk(x: Value, depth: nat)
    decreases x, 1
  {
    if x.Table? then Printable(x, depth + 1)
    else if Nested(x) then forall c <- x.items :: Printable(c, depth + 1)
    else ScalarOk(x, depth)
  }

  ghost function Plain(v: Value): set<string>
    requires v.Table?
  {
    set k <- v.members | !Nested(v.members[k])
  }

  ghost function Inner(v: Value): set<string>
    requires v.Table?
  {
    set k <- v.members | Nested(v.members[k])
  }

  /** The statements of a table's own members, plain ones first. */
  ghost function Body(v: Value, path: seq<string>): seq<Statement>
    requires v.Table?
    decreases v, 4, 0
  {
    Assigns(v, Sorted(Plain(v))) + Subtables(v, Sorted(Inner(v)), path)
  }

  ghost function Assigns(v: Value, keys: seq<string>): seq<Statement>
    requires v.Table? && forall k <- keys :: k in v.members
    decreases |keys|
  {
    if keys == [] then [] else [Assign(keys[0], v.members[keys[0]])] + Assigns(v, keys[1..])
  }

  ghost function Subtables(v: Value, keys: seq<string>, path: seq<string>): seq<Statement>
    requires v.Table? && forall k <- keys :: k in v.members
    decreases v, 3, |keys|
  {
    if keys == [] then []
    else Member(v.members[keys[0]], path + [keys[0]]) + Subtables(v, keys[1..], path)
  }

  ghost function Member(x: Value, path: seq<string>): seq<Statement>
    decreases x, 5, 0
  {
    if x.Table? then [Header(path)] + Body(x, path)
    else if x.List? then Elements(x, 0, path)
    else []
  }

  /** The elements of an array of tables from the `i`-th on. */
  ghost function Elements(x: Value, i: nat, path: seq<string>): seq<Statement>
    requires x.List? && i <= |x.items|
    decreases x, 2, |x.items| - i
  {
    if i == |x.items| then []
    else [Element(path)] + (if x.items[i].Table? then Body(x.items[i], path) else []) + Elements(x, i + 1, path)
  }

  // ---------- reading the statements back ----------

  lemma {:induction false} RunAppend(r: Reader, a: seq<Statement>, b: seq<Statement>)
    ensures Run(r, a + b) == if Run(r, a).None? then None else Run(Run(r, a).value, b)
    decreases |a|
  {
    if a == [] {
      assert a + b == b;
    } else {
      assert (a + b)[1..] == a[1..] + b;
      var next := Apply(r, a[0]);
      if next.Some? {
        RunAppend(next.value, a[1..], b);
      }
    }
  }

  /** The statements succeed, and what they change is that the table at `p` becomes `t`. */
  ghost predicate Makes(r: Reader, statements: seq<Statement>, p: seq<string>, t: Value) {
    && Get(r.root, p).Some?
    && Run(r, statements).Some? && Run(r, statements).value.root == Put(r.root, p, t)
  }

  lemma MakesThen(r: Reader, a: seq<Statement>, b: seq<Statement>, p: seq<string>, t: Value, u: Value)
    requires t.Table? && Makes(r, a, p, t) && Makes(Run(r, a).value, b, p, u)
    ensures Makes(r, a + b, p, u)
  {
    RunAppend(r, a, b);
    PutPut(r.root, p, t, u);
  }

  /** The members `acc`, and those of `v` under the given keys. */
  ghost function With(acc: map<string, Value>, v: Value, keys: seq<string>): map<string, Value>
    requires v.Table? && forall k <- keys :: k in v.members
    decreases |keys|
  {
    if keys == [] then acc else With(acc[keys[0] := v.members[keys[0]]], v, keys[1..])
  }

  lemma {:induction false} WithMeaning(acc: map<string, Value>, v: Value, keys: seq<string>)
    requires v.Table? && forall k <- keys :: k in v.members
    ensures With(acc, v, keys).Keys == acc.Keys + set k <- keys
    ensures forall k <- With(acc, v, keys) :: With(acc, v, keys)[k] == if k in keys then v.members[k] else acc[k]
    decreases |keys|
  {
    if keys == [] {
    } else {
      WithMeaning(acc[keys[0] := v.members[keys[0]]], v, keys[1..]);
      assert keys == [keys[0]] + keys[1..];
    }
  }

  predicate Fresh(keys: seq<string>, acc: map<string, Value>) {
    && (forall k <- keys :: k !in acc)
    && (forall i, j | 0 <= i < j < |keys| :: keys[i] != keys[j])
  }

  lemma FreshTail(keys: seq<string>, acc: map<string, Value>, x: Value)
    requires keys != [] && Fresh(keys, acc)
    ensures Fresh(keys[1..], acc[keys[0] := x]) && keys[0] !in acc
  {
    forall k <- keys[1..]
      ensures k !in acc && k != keys[0]
    {
      var j :| 0 <= j < |keys[1..]| && keys[1..][j] == k;
      assert keys[j + 1] == k;
    }
  }

  lemma {:induction false} AssignsMake(r: Reader, v: Value, keys: seq<string>, p: seq<string>, acc: map<string, Value>)
    requires v.Table? && forall k <- keys :: k in v.members
    requires Get(r.root, p) == Some(Table(acc)) && r.cursor == p && Fresh(keys, acc)
    ensures Makes(r, Assigns(v, keys), p, Table(With(acc, v, keys)))
    ensures Run(r, Assigns(v, keys)).value.cursor == p
    decreases |keys|
  {
    if keys == [] {
      PutSame(r.root, p);
    } else {
      var st := Assign(keys[0], v.members[keys[0]]);
      var t := Table(acc[keys[0] := v.members[keys[0]]]);
      FreshTail(keys, acc, v.members[keys[0]]);
      var next := Reader(Put(r.root, p, t), p);
      assert Apply(r, st) == Some(next);
      GetPut(r.root, p, t);
      AssignsMake(next, v, keys[1..], p, t.members);
      PutPut(r.root, p, t, Table(With(acc, v, keys)));
      assert Assigns(v, keys)[1..] == Assigns(v, keys[1..]);
    }
  }

  lemma {:induction false} PutSame(v: Value, p: seq<string>)
    requires Get(v, p).Some?
    ensures Put(v, p, Get(v, p).value) == v
    decreases |p|
  {
    if p == [] {
    } else {
      var child := v.members[p[0]];
      PutSame(Current(child), p[1..]);
      if IsArrayOfTables(child) {
        assert child.items == child.items[..|child.items| - 1] + [child.items[|child.items| - 1]];
      }
      assert v.members[p[0] := child] == v.members;
    }
  }

  /** Reading below the member `k` of the table at `p`, whose current element is a table. */
  lemma PutDown(root: Value, p: seq<string>, acc: map<string, Value>, k: string, w: Value, x: Value)
    requires Get(root, p).Some? && Current(w).Table?
    ensures var below := Put(root, p, Table(acc[k := w]));
            && Get(below, p + [k]) == Some(Current(w))
            && Put(below, p + [k], x) == Put(root, p, Table(acc[k := WithCurrent(w, x)]))
  {
    var t := Table(acc[k := w]);
    var below := Put(root, p, t);
    GetPut(root, p, t);
    GetAppend(below, p, [k]);
    PutAppend(below, p, [k], x);
    assert Put(t, [k], x) == Table(acc[k := WithCurrent(w, x)]);
    PutPut(root, p, t, Put(t, [k], x));
  }

  /** A header for the member `k` of the table at `p`, then the body of that table. */
  lemma HeaderMakes(r: Reader, st: Statement, body: seq<Statement>, p: seq<string>, k: string,
                    acc: map<string, Value>, w: Value, x: Value)
    requires Get(r.root, p).Some? && Current(w) == EMPTY
    requires var below := Reader(Put(r.root, p, Table(acc[k := w])), p + [k]);
             && Apply(r, st) == Some(below)
             && (Get(below.root, p + [k]) == Some(EMPTY) ==> Makes(below, body, p + [k], x))
    ensures Makes(r, [st] + body, p, Table(acc[k := WithCurrent(w, x)]))
  {
    PutDown(r.root, p, acc, k, w, x);
    assert ([st] + body)[1..] == body;
  }

  lemma {:induction false} BodyMakes(r: Reader, v: Value, p: seq<string>, depth: nat)
    requires Printable(v, depth) && Get(r.root, p) == Some(EMPTY) && r.cursor == p
    ensures Makes(r, Body(v, p), p, v)
    decreases v, 4, 0
  {
    var plain, inner := Sorted(Plain(v)), Sorted(Inner(v));
    var acc := With(map[], v, plain);
    PlainThenInner(v);
    AssignsMake(r, v, plain, p, map[]);
    GetPut(r.root, p, Table(acc));
    SubtablesMake(Run(r, Assigns(v, plain)).value, v, inner, p, acc, depth);
    MakesThen(r, Assigns(v, plain), Subtables(v, inner, p), p, Table(acc), v);
  }

  /** The plain members and the inner ones are all members, each once. */
  lemma PlainThenInner(v: Value)
    requires v.Table?
    ensures var plain, inner := Sorted(Plain(v)), Sorted(Inner(v));
            var acc := With(map[], v, plain);
            && Fresh(plain, map[]) && Fresh(inner, acc)
            && (forall k <- inner :: k in v.members && Nested(v.members[k]))
            && Table(With(acc, v, inner)) == v
  {
    var plain, inner := Sorted(Plain(v)), Sorted(Inner(v));
    var acc := With(map[], v, plain);
    WithMeaning(map[], v, plain);
    assert acc.Keys == Plain(v);
    SortedFresh(Plain(v), map[]);
    SortedFresh(Inner(v), acc);
    AllMembers(v, acc, inner);
  }

  lemma AllMembers(v: Value, acc: map<string, Value>, inner: seq<string>)
    requires v.Table? && acc.Keys == Plain(v) && (forall k <- acc :: acc[k] == v.members[k])
    requires forall k :: k in Inner(v) <==> k in inner
    ensures Table(With(acc, v, inner)) == v
  {
    WithMeaning(acc, v, inner);
    var all := With(acc, v, inner);
    assert all.Keys == v.members.Keys by {
      forall k
        ensures k in all <==> k in v.members
      {
        assert k in v.members ==> k in Plain(v) || k in Inner(v);
      }
    }
    assert all == v.members;
  }

  lemma SortedFresh(keys: set<string>, acc: map<string, Value>)
    requires keys !! acc.Keys
    ensures Fresh(Sorted(keys), acc)
  {
    SortedAscends(keys);
    var s := Sorted(keys);
    forall i, j | 0 <= i < j < |s|
      ensures s[i] != s[j]
    {
      LessIrreflexive(s[i]);
    }
  }

  lemma {:induction false} SubtablesMake(
    r: Reader, v: Value, keys: seq<string>, p: seq<string>, acc: map<string, Value>, depth: nat)
    requires Printable(v, depth) && forall k <- keys :: k in v.members && Nested(v.members[k])
    requires Get(r.root, p) == Some(Table(acc)) && Fresh(keys, acc)
    ensures Makes(r, Subtables(v, keys, p), p, Table(With(acc, v, keys)))
    decreases v, 3, |keys|
  {
    if keys == [] {
      PutSame(r.root, p);
    } else {
      var k := keys[0];
      var x := v.members[k];
      FreshTail(keys, acc, x);
      MemberMakes(r, x, p, k, acc, depth);
      var member := Member(x, p + [k]);
      GetPut(r.root, p, Table(acc[k := x]));
      SubtablesMake(Run(r, member).value, v, keys[1..], p, acc[k := x], depth);
      MakesThen(r, member, Subtables(v, keys[1..], p), p, Table(acc[k := x]), Table(With(acc, v, keys)));
    }
  }

  lemma {:induction false} MemberMakes(
    r: Reader, x: Value, p: seq<string>, k: string, acc: map<string, Value>, depth: nat)
    requires MemberOk(x, depth) && Nested(x)
    requires Get(r.root, p) == Some(Table(acc)) && k !in acc
    ensures Makes(r, Member(x, p + [k]), p, Table(acc[k := x]))
    decreases x, 5, 0
  {
    var q := p + [k];
    if x.Table? {
      var below := Reader(Put(r.root, p, Table(acc[k := EMPTY])), q);
      assert q[..|q| - 1] == p && q[|q| - 1] == k;
      PutDown(r.root, p, acc, k, EMPTY, x);
      BodyMakes(below, x, q, depth + 1);
      HeaderMakes(r, Header(q), Body(x, q), p, k, acc, EMPTY, x);
    } else {
      assert x.items[0..] == x.items && x.items[..0] == [];
      ElementsMake(r, x, 0, p, k, acc, depth);
    }
  }

  /** The elements from the `i`-th on, once those before it are there. */
  lemma {:induction false} ElementsMake(
    r: Reader, x: Value, i: nat, p: seq<string>, k: string, acc: map<string, Value>, depth: nat)
    requires x.List? && i <= |x.items| && x.items != [] && forall c <- x.items :: Printable(c, depth + 1)
    requires Get(r.root, p) == Some(Table(acc))
    requires if i == 0 then k !in acc else k in acc && acc[k] == List(x.items[..i])
    ensures Makes(r, Elements(x, i, p + [k]), p, Table(acc[k := x]))
    decreases x, 2, |x.items| - i, 1
  {
    if i == |x.items| {
      ElementsDone(r.root, x, p, k, acc);
    } else {
      assert x.items[i] in x.items && (i > 0 ==> x.items[i - 1] in x.items);
      ElementMakes(r, x, i, p, k, acc, depth);
      LaterElementsMake(r, [Element(p + [k])] + Body(x.items[i], p + [k]), x, i, p, k, acc, depth);
    }
  }

  lemma {:induction false} LaterElementsMake(
    r: Reader, first: seq<Statement>, x: Value, i: nat, p: seq<string>, k: string,
    acc: map<string, Value>, depth: nat)
    requires x.List? && i < |x.items| && forall c <- x.items :: Printable(c, depth + 1)
    requires Makes(r, first, p, Table(acc[k := List(x.items[..i + 1])]))
    ensures Makes(r, first + Elements(x, i + 1, p + [k]), p, Table(acc[k := x]))
    decreases x, 2, |x.items| - i, 0
  {
    var next := acc[k := List(x.items[..i + 1])];
    GetPut(r.root, p, Table(next));
    ElementsMake(Run(r, first).value, x, i + 1, p, k, next, depth);
    Overwrite(acc, k, List(x.items[..i + 1]), x);
    MakesThen(r, first, Elements(x, i + 1, p + [k]), p, Table(next), Table(acc[k := x]));
  }

  lemma {:induction false} ElementMakes(
    r: Reader, x: Value, i: nat, p: seq<string>, k: string, acc: map<string, Value>, depth: nat)
    requires x.List? && i < |x.items| && Printable(x.items[i], depth + 1) && (i > 0 ==> x.items[i - 1].Table?)
    requires Get(r.root, p) == Some(Table(acc))
    requires if i == 0 then k !in acc else k in acc && acc[k] == List(x.items[..i])
    ensures var q := p + [k];
            Makes(r, [Element(q)] + Body(x.items[i], q), p, Table(acc[k := List(x.items[..i + 1])]))
    decreases x, 1, 0
  {
    var q, c := p + [k], x.items[i];
    var grown := List(x.items[..i] + [EMPTY]);
    ElementApplies(r, x, i, p, k, acc);
    var below := Reader(Put(r.root, p, Table(acc[k := grown])), q);
    PutDown(r.root, p, acc, k, grown, c);
    BodyMakes(below, c, q, depth + 1);
    HeaderMakes(r, Element(q), Body(c, q), p, k, acc, grown, c);
    ElementReplaced(x, i);
  }

  lemma ElementReplaced(x: Value, i: nat)
    requires x.List? && i < |x.items|
    ensures WithCurrent(List(x.items[..i] + [EMPTY]), x.items[i]) == List(x.items[..i + 1])
  {
    assert (x.items[..i] + [EMPTY])[..i] == x.items[..i];
    assert x.items[..i + 1] == x.items[..i] + [x.items[i]];
  }

  lemma Overwrite(acc: map<string, Value>, k: string, x: Value, y: Value)
    ensures acc[k := x][k := y] == acc[k := y]
  {}

  lemma ElementsDone(root: Value, x: Value, p: seq<string>, k: string, acc: map<string, Value>)
    requires x.List? && Get(root, p) == Some(Table(acc)) && k in acc && acc[k] == List(x.items[..|x.items|])
    ensures Put(root, p, Table(acc[k := x])) == root
  {
    assert x.items[..|x.items|] == x.items;
    assert acc[k := x] == acc;
    PutSame(root, p);
  }

  lemma ElementApplies(r: Reader, x: Value, i: nat, p: seq<string>, k: string, acc: map<string, Value>)
    requires x.List? && i < |x.items| && (i > 0 ==> x.items[i - 1].Table?)
    requires Get(r.root, p) == Some(Table(acc))
    requires if i == 0 then k !in acc else k in acc && acc[k] == List(x.items[..i])
    ensures var grown := List(x.items[..i] + [EMPTY]);
            && Current(grown) == EMPTY
            && Apply(r, Element(p + [k])) == Some(Reader(Put(r.root, p, Table(acc[k := grown])), p + [k]))
  {
    var q := p + [k];
    assert q[..|q| - 1] == p && q[|q| - 1] == k;
    if i == 0 {
      assert x.items[..i] + [EMPTY] == [EMPTY];
    } else {
      assert x.items[..i][i - 1] == x.items[i - 1];
    }
  }

  // ---------- which statements a value has ----------

  ghost predicate AllOk(statements: seq<Statement>) {
    forall st <- statements :: StatementOk(st)
  }

  ghost predicate AnyDirty(statements: seq<Statement>) {
    exists st <- statements :: DirtyStatement(st)
  }

  lemma BothParts(a: seq<Statement>, b: seq<Statement>)
    ensures AllOk(a + b) <==> AllOk(a) && AllOk(b)
    ensures AnyDirty(a + b) <==> AnyDirty(a) || AnyDirty(b)
  {
    assert forall st :: st in a + b <==> st in a || st in b;
  }

  lemma OneStatement(st: Statement)
    ensures AllOk([st]) <==> StatementOk(st)
    ensures AnyDirty([st]) <==> DirtyStatement(st)
  {
    assert st in [st];
  }

  ghost predicate DirtyKeys(v: Value, keys: seq<string>)
    requires v.Table? && forall k <- keys :: k in v.members
  {
    exists k <- keys :: DELETE in k || Dirty(v.members[k])
  }

  lemma DirtyKeysFirst(v: Value, keys: seq<string>)
    requires v.Table? && keys != [] && forall k <- keys :: k in v.members
    ensures DirtyKeys(v, keys) <==> DELETE in keys[0] || Dirty(v.members[keys[0]]) || DirtyKeys(v, keys[1..])
  {
    assert keys == [keys[0]] + keys[1..];
  }

  lemma {:induction false} AssignStatements(v: Value, keys: seq<string>, depth: nat)
    requires Printable(v, depth) && forall k <- keys :: k in v.members && !Nested(v.members[k])
    ensures AllOk(Assigns(v, keys))
    ensures AnyDirty(Assigns(v, keys)) <==> DirtyKeys(v, keys)
    decreases |keys|
  {
    if keys == [] {
    } else {
      var st := Assign(keys[0], v.members[keys[0]]);
      assert MemberOk(v.members[keys[0]], depth);
      AssignStatements(v, keys[1..], depth);
      DirtyKeysFirst(v, keys);
      OneStatement(st);
      BothParts([st], Assigns(v, keys[1..]));
    }
  }

  /** Every string and key of the table is in some statement, and nothing else but the path is. */
  lemma {:induction false} BodyStatements(v: Value, p: seq<string>, depth: nat)
    requires Printable(v, depth)
    ensures AllOk(Body(v, p))
    ensures Dirty(v) ==> AnyDirty(Body(v, p))
    ensures AnyDirty(Body(v, p)) ==> Dirty(v) || DirtyPath(p)
    decreases v, 4, 0
  {
    var plain, inner := Sorted(Plain(v)), Sorted(Inner(v));
    AssignStatements(v, plain, depth);
    SubtableStatements(v, inner, p, depth);
    BothParts(Assigns(v, plain), Subtables(v, inner, p));
    DirtyMembers(v);
  }

  lemma DirtyMembers(v: Value)
    requires v.Table?
    ensures Dirty(v) <==> DirtyKeys(v, Sorted(Plain(v))) || DirtyKeys(v, Sorted(Inner(v)))
  {
    assert forall k <- v.members :: k in Sorted(Plain(v)) || k in Sorted(Inner(v));
  }

  lemma {:induction false} SubtableStatements(v: Value, keys: seq<string>, p: seq<string>, depth: nat)
    requires Printable(v, depth) && forall k <- keys :: k in v.members && Nested(v.members[k])
    ensures AllOk(Subtables(v, keys, p))
    ensures DirtyKeys(v, keys) ==> AnyDirty(Subtables(v, keys, p))
    ensures AnyDirty(Subtables(v, keys, p)) ==> DirtyKeys(v, keys) || DirtyPath(p)
    decreases v, 3, |keys|
  {
    if keys == [] {
    } else {
      var k := keys[0];
      assert MemberOk(v.members[k], depth);
      MemberStatements(v.members[k], p + [k], depth);
      assert DirtyPath(p + [k]) <==> DirtyPath(p) || DELETE in k by {
        assert k in p + [k];
      }
      SubtableStatements(v, keys[1..], p, depth);
      DirtyKeysFirst(v, keys);
      BothParts(Member(v.members[k], p + [k]), Subtables(v, keys[1..], p));
    }
  }

  lemma {:induction false} MemberStatements(x: Value, q: seq<string>, depth: nat)
    requires MemberOk(x, depth) && Nested(x) && q != []
    ensures AllOk(Member(x, q))
    ensures AnyDirty(Member(x, q)) <==> DirtyPath(q) || Dirty(x)
    decreases x, 5, 0
  {
    if x.Table? {
      BodyStatements(x, q, depth + 1);
      OneStatement(Header(q));
      BothParts([Header(q)], Body(x, q));
    } else {
      ElementStatements(x, 0, q, depth);
      assert x.items[0..] == x.items;
    }
  }

  lemma {:induction false} ElementStatements(x: Value, i: nat, q: seq<string>, depth: nat)
    requires MemberOk(x, depth) && Nested(x) && x.List? && i <= |x.items| && q != []
    ensures AllOk(Elements(x, i, q))
    ensures AnyDirty(Elements(x, i, q)) <==> i < |x.items| && (DirtyPath(q) || SomeDirty(x.items[i..]))
    decreases x, 2, |x.items| - i
  {
    if i < |x.items| {
      var c, later := x.items[i], x.items[i + 1..];
      assert c in x.items;
      ElementStatement(c, q, depth);
      ElementStatements(x, i + 1, q, depth);
      SomeDirtyFirst(c, later);
      assert x.items[i..] == [c] + later;
      BothParts([Element(q)] + Body(c, q), Elements(x, i + 1, q));
    }
  }

  lemma {:induction false} ElementStatement(c: Value, q: seq<string>, depth: nat)
    requires Printable(c, depth + 1) && q != []
    ensures AllOk([Element(q)] + Body(c, q))
    ensures AnyDirty([Element(q)] + Body(c, q)) <==> DirtyPath(q) || Dirty(c)
    decreases c, 6, 0
  {
    BodyStatements(c, q, depth + 1);
    OneStatement(Element(q));
    BothParts([Element(q)], Body(c, q));
  }

  // ---------- documents ----------

  function LinesOf(statements: seq<Statement>): seq<string> {
    if statements == [] then [] else [LineOf(statements[0])] + LinesOf(statements[1..])
  }

  lemma {:induction false} LinesRead(statements: seq<Statement>)
    requires AllOk(statements)
    ensures ReadLines(LinesOf(statements)) == if AnyDirty(statements) then None else Some(statements)
  {
    if statements == [] {
    } else {
      var st, rest := statements[0], statements[1..];
      assert statements == [st] + rest;
      BothParts([st], rest);
      OneStatement(st);
      LineReads(st);
      LinesRead(rest);
      assert LinesOf(statements)[1..] == LinesOf(rest);
    }
  }

  /** The lines joined by newlines, and one more newline. */
  function Document(lines: seq<string>): string {
    if |lines| <= 1 then (if lines == [] then "" else lines[0]) + "\n"
    else lines[0] + "\n" + Document(lines[1..])
  }

  lemma {:induction false} SplitFirst(line: string, rest: string)
    requires '\n' !in line
    ensures SplitLines(line + "\n" + rest) == [line] + SplitLines(rest)
  {
    var s := line + "\n" + rest;
    if line == [] {
      assert s[1..] == rest;
    } else {
      assert s[1..] == line[1..] + "\n" + rest;
      SplitFirst(line[1..], rest);
      assert [line[0]] + line[1..] == line;
    }
  }

  lemma {:induction false} SplitDocument(lines: seq<string>)
    requires forall l <- lines :: '\n' !in l
    ensures SplitLines(Document(lines)) == (if lines == [] then [""] else lines) + [""]
  {
    if |lines| <= 1 {
      var line := if lines == [] then "" else lines[0];
      SplitFirst(line, "");
      assert Document(lines) == line + "\n" + "";
    } else {
      SplitFirst(lines[0], Document(lines[1..]));
      SplitDocument(lines[1..]);
      assert [lines[0]] + (lines[1..] + [""]) == lines + [""];
    }
  }

  lemma {:induction false} ReadLinesAppend(a: seq<string>, b: seq<string>)
    ensures var x, y := ReadLines(a), ReadLines(b);
            ReadLines(a + b) == if x.None? || y.None? then None else Some(x.value + y.value)
  {
    if a == [] {
      assert a + b == b;
      assert ReadLines(b).Some? ==> [] + ReadLines(b).value == ReadLines(b).value;
    } else {
      assert (a + b)[1..] == a[1..] + b;
      ReadLinesAppend(a[1..], b);
      var st, x, y := ReadLine(a[0]), ReadLines(a[1..]), ReadLines(b);
      assert st.Some? && x.Some? && y.Some? ==> [st.value] + (x.value + y.value) == [st.value] + x.value + y.value;
    }
  }

  lemma BlankLine()
    ensures ReadLines([""]) == Some([Blank])
  {
    var lines: seq<string> := [""];
    var none: seq<string> := lines[1..];
    assert ReadLine(lines[0]) == Some(Blank);
    assert none == [] && ReadLines(none) == Some([]);
    assert [Blank] + [] == [Blank];
  }

  lemma EscapeIsNoNewline(c: char)
    ensures '\n' !in Escape(c)
  {}

  lemma {:induction false} NoNewlineInEscape(s: string)
    ensures '\n' !in Escaped(s)
  {
    if s == [] {
    } else {
      NoNewlineInEscape(s[1..]);
      EscapeIsNoNewline(s[0]);
    }
  }

  lemma {:induction false} NoNewlineInScalar(v: Value, depth: nat)
    requires ScalarOk(v, depth)
    ensures '\n' !in ScalarText(v)
    decreases v, 2
  {
    match v
    case Str(s) => NoNewlineInEscape(s);
    case Int(n) => IntegerReads(n);
    case Float(t) =>
    case Bool(b) =>
    case List(items) => NoNewlineInItems(v, 0, depth);
    case _ =>
  }

  lemma {:induction false} NoNewlineInItems(v: Value, i: nat, depth: nat)
    requires v.List? && i <= |v.items| && ScalarOk(v, depth)
    ensures '\n' !in ItemsText(v, i)
    decreases v, 1, |v.items| - i
  {
    if i < |v.items| {
      assert v.items[i] in v.items;
      NoNewlineInScalar(v.items[i], depth + 1);
      NoNewlineInItems(v, i + 1, depth);
    }
  }

  lemma {:induction false} NoNewlineInKeys(path: seq<string>)
    ensures '\n' !in KeysText(path)
  {
    if path == [] {
    } else {
      NoNewlineInEscape(path[0]);
      NoNewlineInKeys(path[1..]);
    }
  }

  lemma NoNewlineInLine(st: Statement)
    requires StatementOk(st)
    ensures '\n' !in LineOf(st)
  {
    match st
    case Header(path) => NoNewlineInKeys(path);
    case Element(path) => NoNewlineInKeys(path);
    case Assign(key, value) =>
      var depth: nat :| ScalarOk(value, depth);
      NoNewlineInEscape(key);
      NoNewlineInScalar(value, depth);
    case Blank =>
  }

  lemma {:induction false} NoNewlineInLines(statements: seq<Statement>)
    requires AllOk(statements)
    ensures forall l <- LinesOf(statements) :: '\n' !in l
  {
    if statements == [] {
    } else {
      NoNewlineInLine(statements[0]);
      NoNewlineInLines(statements[1..]);
    }
  }

  /** The lines of the document for a table. */
  ghost function ManifestLines(v: Value): seq<string> {
    if v.Table? then LinesOf(Body(v, [])) else []
  }

  ghost function Blanks(n: nat): seq<Statement> {
    seq(n, _ => Blank)
  }

  /** What is read of a printed text: its statements, and blank lines at the end. */
  lemma DocumentReads(statements: seq<Statement>)
    requires AllOk(statements)
    ensures var lines := SplitLines(Document(LinesOf(statements)));
            if AnyDirty(statements) then ReadLines(lines).None?
            else exists n: nat :: n <= 2 && ReadLines(lines) == Some(statements + Blanks(n))
  {
    var lines := LinesOf(statements);
    NoNewlineInLines(statements);
    SplitDocument(lines);
    LinesRead(statements);
    BlankLine();
    if lines == [] {
      assert statements == [];
      ReadLinesAppend([""], [""]);
      assert [Blank] + [Blank] == statements + Blanks(2);
    } else {
      ReadLinesAppend(lines, [""]);
      assert [Blank] == Blanks(1);
    }
  }

  lemma {:induction false} BlankRun(r: Reader, n: nat)
    ensures Run(r, Blanks(n)) == Some(r)
  {
    if n == 0 {
    } else {
      assert Blanks(n)[1..] == Blanks(n - 1);
      BlankRun(r, n - 1);
    }
  }

  /**
   Round trip: the text of a table is read back as the table, exactly if no string and no key in it
   contains U+007F; otherwise the text is not TOML.
   */
  lemma RoundTrip(v: Value)
    requires Printable(v, 0)
    ensures Read(Document(ManifestLines(v))) == if Dirty(v) then None else Some(v)
  {
    var statements := Body(v, []);
    BodyStatements(v, [], 0);
    DocumentReads(statements);
    if !Dirty(v) {
      var r := Reader(EMPTY, []);
      BodyMakes(r, v, [], 0);
      var n: nat :| n <= 2 && ReadLines(SplitLines(Document(LinesOf(statements)))) == Some(statements + Blanks(n));
      RunAppend(r, statements, Blanks(n));
      BlankRun(Run(r, statements).value, n);
    }
  }

  /** The shortest manifest that is accepted but is not TOML. */
  lemma DeleteIsNotEscaped()
    ensures var v := Table(map["name" := Str([DELETE])]);
            Printable(v, 0) && Read(Document(ManifestLines(v))).None?
  {
    var v := Table(map["name" := Str([DELETE])]);
    assert v.members["name"] == Str([DELETE]);
    assert MemberOk(v.members["name"], 0);
    assert Dirty(v) by {
      assert DELETE in [DELETE];
    }
    RoundTrip(v);
  }

  // ---------- limits ----------

  function Utf8Length(s: string): nat {
    if s == [] then 0
    else (if s[0] as int < 0x80 then 1 else if s[0] as int < 0x800 then 2 else if s[0] as int < 0x1_0000 then 3 else 4)
         + Utf8Length(s[1..])
  }

  /** What the lines count for: each with its newline. */
  function Bytes(lines: seq<string>): nat {
    if lines == [] then 0 else Utf8Length(lines[0]) + 1 + Bytes(lines[1..])
  }

  lemma {:induction false} Utf8Append(a: string, b: string)
    ensures Utf8Length(a + b) == Utf8Length(a) + Utf8Length(b)
  {
    if a == [] {
      assert a + b == b;
    } else {
      assert (a + b)[1..] == a[1..] + b;
      Utf8Append(a[1..], b);
    }
  }

  lemma {:induction false} BytesAppend(a: seq<string>, b: seq<string>)
    ensures Bytes(a + b) == Bytes(a) + Bytes(b)
  {
    if a == [] {
      assert a + b == b;
    } else {
      assert (a + b)[1..] == a[1..] + b;
      BytesAppend(a[1..], b);
    }
  }

  lemma {:induction false} LinesAppend(a: seq<Statement>, b: seq<Statement>)
    ensures LinesOf(a + b) == LinesOf(a) + LinesOf(b)
  {
    if a == [] {
      assert a + b == b;
    } else {
      assert (a + b)[1..] == a[1..] + b;
      LinesAppend(a[1..], b);
    }
  }

  /** The document is as long as its lines count for, except that no lines at all make one newline. */
  lemma {:induction false} DocumentBytes(lines: seq<string>)
    ensures Utf8Length(Document(lines)) == if lines == [] then 1 else Bytes(lines)
  {
    if |lines| <= 1 {
      var line := if lines == [] then "" else lines[0];
      Utf8Append(line, "\n");
      assert Utf8Length("\n") == 1 by {
        assert "\n"[1..] == "";
      }
    } else {
      DocumentBytes(lines[1..]);
      Utf8Append(lines[0] + "\n", Document(lines[1..]));
      Utf8Append(lines[0], "\n");
      assert Utf8Length("\n") == 1 by {
        assert "\n"[1..] == "";
      }
    }
  }

  /** How many members all tables together have. */
  ghost function Entries(v: Value): nat
    decreases v, 4, 0
  {
    if v.Table? then |v.members| + EntriesUnder(v, Sorted(Inner(v))) else 0
  }

  ghost function EntriesUnder(v: Value, keys: seq<string>): nat
    requires v.Table? && forall k <- keys :: k in v.members
    decreases v, 3, |keys|
  {
    if keys == [] then 0 else EntriesOf(v.members[keys[0]]) + EntriesUnder(v, keys[1..])
  }

  ghost function EntriesOf(x: Value): nat
    decreases x, 5, 0
  {
    if x.List? then EntriesFrom(x, 0) else Entries(x)
  }

  ghost function EntriesFrom(x: Value, i: nat): nat
    requires x.List? && i <= |x.items|
    decreases x, 2, |x.items| - i
  {
    if i == |x.items| then 0 else Entries(x.items[i]) + EntriesFrom(x, i + 1)
  }

  // ---------- printing ----------

  ghost function HeaderOf(path: seq<string>, inArray: bool): seq<Statement> {
    if path == [] then [] else [if inArray then Element(path) else Header(path)]
  }

  /** The statements of one table: its header, unless it is the whole document, and its body. */
  ghost function Statements(v: Value, path: seq<string>, inArray: bool): seq<Statement> {
    HeaderOf(path, inArray) + (if v.Table? then Body(v, path) else [])
  }

  ghost function Cost(statements: seq<Statement>): nat {
    if statements == [] then 0 else Utf8Length(LineOf(statements[0])) + 1 + Cost(statements[1..])
  }

  lemma {:induction false} CostIsBytes(statements: seq<Statement>)
    ensures Cost(statements) == Bytes(LinesOf(statements))
  {
    if statements == [] {
    } else {
      CostIsBytes(statements[1..]);
      assert LinesOf(statements)[1..] == LinesOf(statements[1..]);
    }
  }

  lemma {:induction false} CostAppend(a: seq<Statement>, b: seq<Statement>)
    ensures Cost(a + b) == Cost(a) + Cost(b)
  {
    if a == [] {
      assert a + b == b;
    } else {
      assert (a + b)[1..] == a[1..] + b;
      CostAppend(a[1..], b);
    }
  }

  lemma CostOne(st: Statement)
    ensures LinesOf([st]) == [LineOf(st)] && Cost([st]) == Utf8Length(LineOf(st)) + 1
  {
    assert LinesOf([st]) == [LineOf(st)];
  }

  /** Going through all keys in order goes through any part of them in order. */
  lemma LeastFirst(rest: set<string>, part: set<string>)
    requires rest != {} && part <= rest
    ensures Least(rest) in part ==> Sorted(part) == [Least(rest)] + Sorted(part - {Least(rest)})
    ensures Least(rest) !in part ==> part <= rest - {Least(rest)}
  {
    if Least(rest) in part {
      assert IsLeast(Least(rest), part);
      LeastUnique(Least(part), Least(rest), part);
      assert Sorted(part) == [Least(part)] + Sorted(part - {Least(part)});
    } else {
      assert forall x <- part :: x in rest && x != Least(rest);
    }
  }

  class Printer {
    const maxBytes: nat
    var lines: seq<string>
    var size: nat
    var members: nat

    constructor (maxBytes: nat)
      ensures this.maxBytes == maxBytes && lines == [] && size == 0 && members == 0
    {
      this.maxBytes, lines, size, members := maxBytes, [], 0, 0;
    }

    method Emit(st: Statement) returns (ok: bool)
      modifies this`lines, this`size
      ensures ok <==> old(size) + Cost([st]) <= maxBytes
      ensures ok ==> size == old(size) + Cost([st]) && lines == old(lines) + LinesOf([st])
    {
      CostOne(st);
      size := size + Utf8Length(LineOf(st)) + 1;
      if size > maxBytes {
        return false;
      }
      lines := lines + [LineOf(st)];
      return true;
    }

    method EmitScalar(st: Statement, depth: nat) returns (ok: bool)
      requires st.Assign?
      modifies this`lines, this`size
      ensures ok <==> ScalarOk(st.value, depth) && old(size) + Cost([st]) <= maxBytes
      ensures ok ==> size == old(size) + Cost([st]) && lines == old(lines) + LinesOf([st])
    {
      if !ScalarOk(st.value, depth) {
        return false;
      }
      ok := Emit(st);
    }

    /** Emits the plain members of a table in the order of their keys, and puts the others aside. */
    method EmitPlain(v: Value, depth: nat) returns (ok: bool, nested: seq<string>)
      requires v.Table? && size <= maxBytes
      modifies this`lines, this`size
      ensures ok <==> PlainOk(v, v.members.Keys, depth) && old(size) + Cost(PlainAmong(v, v.members.Keys)) <= maxBytes
      ensures ok ==> size == old(size) + Cost(PlainAmong(v, v.members.Keys))
      ensures ok ==> lines == old(lines) + LinesOf(PlainAmong(v, v.members.Keys))
      ensures ok ==> nested == InnerAmong(v, v.members.Keys)
    {
      nested := [];
      var rest := v.members.Keys;
      while rest != {}
        invariant rest <= v.members.Keys && size <= maxBytes
        invariant size + Cost(PlainAmong(v, rest)) == old(size) + Cost(PlainAmong(v, v.members.Keys))
        invariant lines + LinesOf(PlainAmong(v, rest)) == old(lines) + LinesOf(PlainAmong(v, v.members.Keys))
        invariant nested + InnerAmong(v, rest) == InnerAmong(v, v.members.Keys)
        invariant PlainOk(v, v.members.Keys - rest, depth)
        decreases |rest|
      {
        var k := FindLeast(rest);
        var after := rest - {k};
        if Nested(v.members[k]) {
          NestedNext(v, rest);
          Assoc(nested, [k], InnerAmong(v, after));
          nested := nested + [k];
        } else {
          var st := Assign(k, v.members[k]);
          PlainNext(v, rest);
          Assoc(lines, LinesOf([st]), LinesOf(PlainAmong(v, after)));
          ok := EmitScalar(st, depth);
          if !ok {
            return false, nested;
          }
        }
        rest := after;
      }
      NoneLeft(v);
      return true, nested;
    }

    /** Counts the members of a table and emits its header, unless it is the whole document. */
    method Open(v: Value, path: seq<string>, inArray: bool) returns (ok: bool)
      requires size <= maxBytes
      modifies this`lines, this`size, this`members
      ensures ok <==> && v.Table? && |path| <= MAX_DEPTH
                      && old(members) + |v.members| <= MAX_MEMBERS
                      && old(size) + Cost(HeaderOf(path, inArray)) <= maxBytes
      ensures ok ==> size == old(size) + Cost(HeaderOf(path, inArray)) && members == old(members) + |v.members|
      ensures ok ==> lines == old(lines) + LinesOf(HeaderOf(path, inArray))
    {
      if !v.Table? || |path| > MAX_DEPTH {
        return false;
      }
      members := members + |v.members|;
      if members > MAX_MEMBERS {
        return false;
      }
      if path == [] {
        return true;
      }
      ok := Emit(if inArray then Element(path) else Header(path));
    }

    /** Prints one table: whether it is acceptable and, with all inside it, stays within the limits. */
    method Visit(v: Value, path: seq<string>, inArray: bool) returns (ok: bool)
      requires size <= maxBytes && members <= MAX_MEMBERS
      modifies this`lines, this`size, this`members
      ensures ok <==> && Printable(v, |path|)
                      && old(members) + Entries(v) <= MAX_MEMBERS
                      && old(size) + Cost(Statements(v, path, inArray)) <= maxBytes
      ensures ok ==> size == old(size) + Cost(Statements(v, path, inArray)) && members == old(members) + Entries(v)
      ensures ok ==> lines == old(lines) + LinesOf(Statements(v, path, inArray))
      decreases v, 4
    {
      if v.Table? {
        TableCost(v, path, inArray, lines);
      }
      ok := Open(v, path, inArray);
      if !ok {
        return false;
      }
      PrintableParts(v, |path|);
      ok := VisitMembers(v, path);
    }

    /** Prints the members of a table: the plain ones first. */
    method VisitMembers(v: Value, path: seq<string>) returns (ok: bool)
      requires size <= maxBytes && members <= MAX_MEMBERS && v.Table?
      modifies this`lines, this`size, this`members
      ensures ok <==> && PlainOk(v, v.members.Keys, |path|) && NestedOk(v, Sorted(Inner(v)), |path|)
                      && old(members) + EntriesUnder(v, Sorted(Inner(v))) <= MAX_MEMBERS
                      && old(size) + PlainCost(v) + NestedCost(v, path) <= maxBytes
      ensures ok ==> size == old(size) + PlainCost(v) + NestedCost(v, path)
      ensures ok ==> members == old(members) + EntriesUnder(v, Sorted(Inner(v)))
      ensures ok ==> lines == old(lines) + LinesOf(PlainAmong(v, v.members.Keys)) +
                              LinesOf(Subtables(v, Sorted(Inner(v)), path))
      decreases v, 3
    {
      InnerIsSorted(v);
      var nested;
      ok, nested := EmitPlain(v, |path|);
      if !ok {
        return false;
      }
      ok := VisitNested(v, nested, path);
    }

    /** Prints the tables and arrays of tables among the members of a table. */
    method VisitNested(v: Value, keys: seq<string>, path: seq<string>) returns (ok: bool)
      requires size <= maxBytes && members <= MAX_MEMBERS
      requires v.Table? && AllNested(v, keys)
      modifies this`lines, this`size, this`members
      ensures ok <==> && NestedOk(v, keys, |path|)
                      && old(members) + EntriesUnder(v, keys) <= MAX_MEMBERS
                      && old(size) + Cost(Subtables(v, keys, path)) <= maxBytes
      ensures ok ==> size == old(size) + Cost(Subtables(v, keys, path))
      ensures ok ==> members == old(members) + EntriesUnder(v, keys)
      ensures ok ==> lines == old(lines) + LinesOf(Subtables(v, keys, path))
      decreases v, 2
    {
      var rest := keys;
      while rest != []
        invariant AllNested(v, rest)
        invariant size <= maxBytes && members <= MAX_MEMBERS
        invariant size + Cost(Subtables(v, rest, path)) == old(size) + Cost(Subtables(v, keys, path))
        invariant members + EntriesUnder(v, rest) == old(members) + EntriesUnder(v, keys)
        invariant lines + LinesOf(Subtables(v, rest, path)) == old(lines) + LinesOf(Subtables(v, keys, path))
        invariant NestedOk(v, keys, |path|) <==> NestedOk(v, rest, |path|)
        decreases |rest|
      {
        SubtablesNext(v, rest, path, lines);
        var x, inside := v.members[rest[0]], path + [rest[0]];
        assert |inside| == |path| + 1;
        ok := VisitMember(x, inside);
        if !ok {
          return false;
        }
        rest := rest[1..];
      }
      return true;
    }

    method VisitMember(x: Value, path: seq<string>) returns (ok: bool)
      requires size <= maxBytes && members <= MAX_MEMBERS && Nested(x) && path != []
      modifies this`lines, this`size, this`members
      ensures ok <==> && MemberOk(x, |path| - 1)
                      && old(members) + EntriesOf(x) <= MAX_MEMBERS && old(size) + Cost(Member(x, path)) <= maxBytes
      ensures ok ==> size == old(size) + Cost(Member(x, path)) && members == old(members) + EntriesOf(x)
      ensures ok ==> lines == old(lines) + LinesOf(Member(x, path))
      decreases x, 5
    {
      if x.Table? {
        ok := Visit(x, path, false);
        return;
      }
      ListIsElements(x, |path| - 1);
      var mixed := exists c <- x.items :: !c.Table?;
      if mixed {
        return false;
      }
      ok := VisitElements(x, path);
    }

    /** Prints every table of an array of tables. */
    method VisitElements(x: Value, path: seq<string>) returns (ok: bool)
      requires size <= maxBytes && members <= MAX_MEMBERS && x.List? && path != []
      modifies this`lines, this`size, this`members
      ensures ok <==> && ElementsOk(x, 0, |path|)
                      && old(members) + EntriesFrom(x, 0) <= MAX_MEMBERS
                      && old(size) + Cost(Elements(x, 0, path)) <= maxBytes
      ensures ok ==> size == old(size) + Cost(Elements(x, 0, path)) && members == old(members) + EntriesFrom(x, 0)
      ensures ok ==> lines == old(lines) + LinesOf(Elements(x, 0, path))
      decreases x, 3
    {
      ok := VisitFrom(x, 0, path);
    }

    /** The rest of the iteration over the tables, from the `i`-th on. */
    method VisitFrom(x: Value, i: nat, path: seq<string>) returns (ok: bool)
      requires size <= maxBytes && members <= MAX_MEMBERS && x.List? && i <= |x.items| && path != []
      modifies this`lines, this`size, this`members
      ensures ok <==> && ElementsOk(x, i, |path|)
                      && old(members) + EntriesFrom(x, i) <= MAX_MEMBERS
                      && old(size) + Cost(Elements(x, i, path)) <= maxBytes
      ensures ok ==> size == old(size) + Cost(Elements(x, i, path)) && members == old(members) + EntriesFrom(x, i)
      ensures ok ==> lines == old(lines) + LinesOf(Elements(x, i, path))
      decreases x, 2, |x.items| - i
    {
      if i == |x.items| {
        return true;
      }
      ElementsNext(x, i, path, lines);
      ok := Visit(x.items[i], path, true);
      if !ok {
        return false;
      }
      ok := VisitFrom(x, i + 1, path);
    }
  }

  ghost predicate ElementsOk(x: Value, i: nat, depth: nat)
    requires x.List? && i <= |x.items|
    decreases |x.items| - i
  {
    i < |x.items| ==> Printable(x.items[i], depth) && ElementsOk(x, i + 1, depth)
  }

  lemma {:induction false} ElementsOkMeaning(x: Value, i: nat, depth: nat)
    requires x.List? && i <= |x.items|
    ensures ElementsOk(x, i, depth) <==> forall c <- x.items[i..] :: Printable(c, depth)
    decreases |x.items| - i
  {
    if i < |x.items| {
      ElementsOkMeaning(x, i + 1, depth);
      assert x.items[i..] == [x.items[i]] + x.items[i + 1..];
      assert x.items[i] in x.items[i..] && forall c <- x.items[i + 1..] :: c in x.items[i..];
    } else {
      assert x.items[i..] == [];
    }
  }

  lemma ListIsElements(x: Value, depth: nat)
    requires x.List? && Nested(x)
    ensures MemberOk(x, depth) <==> ElementsOk(x, 0, depth + 1)
    ensures MemberOk(x, depth) ==> forall c <- x.items :: c.Table?
  {
    ElementsOkMeaning(x, 0, depth + 1);
    assert x.items[0..] == x.items;
  }

  ghost predicate NestedOk(v: Value, keys: seq<string>, depth: nat)
    requires v.Table? && AllNested(v, keys)
  {
    keys != [] ==> MemberOk(v.members[keys[0]], depth) && NestedOk(v, keys[1..], depth)
  }

  ghost function PlainCost(v: Value): nat
    requires v.Table?
  {
    Cost(PlainAmong(v, v.members.Keys))
  }

  ghost function NestedCost(v: Value, path: seq<string>): nat
    requires v.Table?
  {
    Cost(Subtables(v, Sorted(Inner(v)), path))
  }

  lemma InnerIsSorted(v: Value)
    requires v.Table?
    ensures InnerAmong(v, v.members.Keys) == Sorted(Inner(v)) && AllNested(v, Sorted(Inner(v)))
  {
    NoneLeft(v);
  }

  ghost predicate AllNested(v: Value, keys: seq<string>)
    requires v.Table?
  {
    forall k <- keys :: k in v.members && Nested(v.members[k])
  }

  lemma {:induction false} NestedOkMeaning(v: Value, keys: seq<string>, depth: nat)
    requires v.Table? && AllNested(v, keys)
    ensures NestedOk(v, keys, depth) <==> forall k <- keys :: MemberOk(v.members[k], depth)
  {
    if keys == [] {
    } else {
      NestedOkMeaning(v, keys[1..], depth);
      assert keys[0] in keys && forall k <- keys[1..] :: k in keys;
      assert forall k <- keys :: k == keys[0] || k in keys[1..];
    }
  }

  /** A table is acceptable if its plain members and its other members are. */
  lemma PrintableParts(v: Value, depth: nat)
    requires v.Table? && depth <= MAX_DEPTH
    ensures Printable(v, depth) <==> PlainOk(v, v.members.Keys, depth) && NestedOk(v, Sorted(Inner(v)), depth)
  {
    NestedOkMeaning(v, Sorted(Inner(v)), depth);
    forall k <- v.members
      ensures MemberOk(v.members[k], depth) <==>
                if Nested(v.members[k]) then k in Inner(v) && MemberOk(v.members[k], depth)
                else ScalarOk(v.members[k], depth)
    {}
  }

  lemma TableCost(v: Value, path: seq<string>, inArray: bool, lines: seq<string>)
    requires v.Table?
    ensures var all, head := Statements(v, path, inArray), HeaderOf(path, inArray);
            var plain, nested := PlainAmong(v, v.members.Keys), Subtables(v, Sorted(Inner(v)), path);
            && Cost(all) == Cost(head) + Cost(plain) + Cost(nested)
            && lines + LinesOf(all) == lines + LinesOf(head) + LinesOf(plain) + LinesOf(nested)
  {
    var head := HeaderOf(path, inArray);
    var plain, nested := PlainAmong(v, v.members.Keys), Subtables(v, Sorted(Inner(v)), path);
    NoneLeft(v);
    CostAppend(head, plain + nested);
    CostAppend(plain, nested);
    LinesAppend(head, plain + nested);
    LinesAppend(plain, nested);
    Assoc(lines, LinesOf(head), LinesOf(plain) + LinesOf(nested));
    Assoc(lines + LinesOf(head), LinesOf(plain), LinesOf(nested));
  }

  lemma SubtablesNext(v: Value, keys: seq<string>, path: seq<string>, lines: seq<string>)
    requires v.Table? && keys != [] && AllNested(v, keys)
    ensures keys[0] in v.members && Nested(v.members[keys[0]]) && AllNested(v, keys[1..])
    ensures var first, later := Member(v.members[keys[0]], path + [keys[0]]), Subtables(v, keys[1..], path);
            && Cost(Subtables(v, keys, path)) == Cost(first) + Cost(later)
            && lines + LinesOf(Subtables(v, keys, path)) == lines + LinesOf(first) + LinesOf(later)
  {
    var first, later := Member(v.members[keys[0]], path + [keys[0]]), Subtables(v, keys[1..], path);
    CostAppend(first, later);
    LinesAppend(first, later);
    Assoc(lines, LinesOf(first), LinesOf(later));
  }

  lemma ElementsNext(x: Value, i: nat, path: seq<string>, lines: seq<string>)
    requires x.List? && i < |x.items| && path != []
    ensures var first, later := Statements(x.items[i], path, true), Elements(x, i + 1, path);
            && Cost(Elements(x, i, path)) == Cost(first) + Cost(later)
            && lines + LinesOf(Elements(x, i, path)) == lines + LinesOf(first) + LinesOf(later)
  {
    var first, later := Statements(x.items[i], path, true), Elements(x, i + 1, path);
    CostAppend(first, later);
    LinesAppend(first, later);
    Assoc(lines, LinesOf(first), LinesOf(later));
  }

  /**
   `cargo_manifest`: exactly the tables within the limits are printed, in no more bytes than allowed;
   the text reads back as the table, unless some string or key contains U+007F.
   */
  method CargoManifest(value: Value, maxBytes: int) returns (text: Option<string>)
    ensures text.Some? <==>
              && 1 <= maxBytes <= 0x10_0000 && Printable(value, 0) && Entries(value) <= MAX_MEMBERS
              && Bytes(ManifestLines(value)) <= maxBytes
    ensures text.Some? ==> Utf8Length(text.value) <= maxBytes
    ensures text.Some? ==> Read(text.value) == if Dirty(value) then None else Some(value)
  {
    if !(1 <= maxBytes <= 0x10_0000) {
      return None;
    }
    var printer := new Printer(maxBytes);
    var ok := printer.Visit(value, [], false);
    assert value.Table? ==> Statements(value, [], false) == Body(value, []);
    if value.Table? {
      CostIsBytes(Body(value, []));
    }
    if !ok {
      return None;
    }
    assert [] + ManifestLines(value) == ManifestLines(value);
    DocumentBytes(printer.lines);
    RoundTrip(value);
    return Some(Document(printer.lines));
  }

  /** The plain members among some keys, and the keys of the others, in order. */
  ghost function PlainAmong(v: Value, keys: set<string>): seq<Statement>
    requires v.Table? && keys <= v.members.Keys
  {
    Assigns(v, Sorted(Plain(v) * keys))
  }

  ghost function InnerAmong(v: Value, keys: set<string>): seq<string>
    requires v.Table?
  {
    Sorted(Inner(v) * keys)
  }

  ghost predicate PlainOk(v: Value, keys: set<string>, depth: nat)
    requires v.Table?
  {
    forall k <- Plain(v) * keys :: ScalarOk(v.members[k], depth)
  }

  lemma NestedNext(v: Value, rest: set<string>)
    requires v.Table? && rest <= v.members.Keys && rest != {} && Nested(v.members[Least(rest)])
    ensures var after := rest - {Least(rest)};
            && PlainAmong(v, after) == PlainAmong(v, rest)
            && InnerAmong(v, rest) == [Least(rest)] + InnerAmong(v, after)
  {
    LeastFirst(rest, Inner(v) * rest);
    assert Inner(v) * rest - {Least(rest)} == Inner(v) * (rest - {Least(rest)});
    assert Plain(v) * (rest - {Least(rest)}) == Plain(v) * rest;
  }

  lemma PlainNext(v: Value, rest: set<string>)
    requires v.Table? && rest <= v.members.Keys && rest != {} && !Nested(v.members[Least(rest)])
    ensures var k := Least(rest);
            var after := rest - {k};
            var st := Assign(k, v.members[k]);
            && InnerAmong(v, after) == InnerAmong(v, rest)
            && Cost(PlainAmong(v, rest)) == Cost([st]) + Cost(PlainAmong(v, after))
            && LinesOf(PlainAmong(v, rest)) == LinesOf([st]) + LinesOf(PlainAmong(v, after))
  {
    var k := Least(rest);
    LeastFirst(rest, Plain(v) * rest);
    assert Plain(v) * rest - {k} == Plain(v) * (rest - {k});
    assert Inner(v) * (rest - {k}) == Inner(v) * rest;
    assert Sorted(Plain(v) * rest)[1..] == Sorted(Plain(v) * (rest - {k}));
    CostAppend([Assign(k, v.members[k])], PlainAmong(v, rest - {k}));
    LinesAppend([Assign(k, v.members[k])], PlainAmong(v, rest - {k}));
  }

  lemma NoneLeft(v: Value)
    requires v.Table?
    ensures PlainAmong(v, {}) == [] && InnerAmong(v, {}) == []
    ensures PlainAmong(v, v.members.Keys) == Assigns(v, Sorted(Plain(v)))
    ensures InnerAmong(v, v.members.Keys) == Sorted(Inner(v))
  {
    assert Plain(v) * {} == {} && Inner(v) * {} == {};
    assert Plain(v) * v.members.Keys == Plain(v) && Inner(v) * v.members.Keys == Inner(v);
  }
}
