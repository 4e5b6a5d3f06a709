/**
 * The part of TOML v1.0.0 that config.toml is written in, read back: tables, bare keys, and
 * one-line values (basic strings, integers, booleans, arrays of basic strings).
 */
module TomlText {
  import opened Wrappers

  datatype Value = Str(s: string) | Int(n: int) | Bool(b: bool) | Names(names: seq<string>)

  type Section = map<string, Value>

  type Doc = map<string, Section>

  /** What was read, and the text after it. */
  datatype Read<T> = Read(value: T, rest: string)

  function SkipSpace(s: string): string {
    if s != [] && (s[0] == ' ' || s[0] == '\t') then SkipSpace(s[1..]) else s
  }

  predicate IsBare(c: char) {
    'a' <= c <= 'z' || 'A' <= c <= 'Z' || '0' <= c <= '9' || c == '_' || c == '-'
  }

  /** A bare key: section Keys. */
  function ParseKey(s: string): Read<string> {
    if s != [] && IsBare(s[0]) then var r := ParseKey(s[1..]); Read([s[0]] + r.value, r.rest) else Read([], s)
  }

  function HexDigit(c: char): Option<nat> {
    if '0' <= c <= '9' then Some(c as int - '0' as int)
    else if 'a' <= c <= 'f' then Some(c as int - 'a' as int + 10)
    else if 'A' <= c <= 'F' then Some(c as int - 'A' as int + 10)
    else None
  }

  function ParseHex(s: string): Option<nat> {
    if s == [] then Some(0) else
      match (ParseHex(s[..|s| - 1]), HexDigit(s[|s| - 1]))
      case (Some(high), Some(low)) => Some(16 * high + low)
      case _ => None
  }

  predicate IsScalar(n: int) { 0 <= n < 0xD800 || 0xE000 <= n < 0x11_0000 }

  function ParseUnicode(s: string, digits: nat): Option<Read<char>> {
    if |s| < digits then None else
      match ParseHex(s[..digits])
      case Some(n) => if IsScalar(n) then Some(Read(n as char, s[digits..])) else None
      case None => None
  }

  /** An escape, after its backslash: section String. */
  function ParseEscape(s: string): Option<Read<char>> {
    if s == [] then None
    else if s[0] == '"' || s[0] == '\\' then Some(Read(s[0], s[1..]))
    else if s[0] == 'b' then Some(Read(8 as char, s[1..]))
    else if s[0] == 't' then Some(Read('\t', s[1..]))
    else if s[0] == 'n' then Some(Read('\n', s[1..]))
    else if s[0] == 'f' then Some(Read(12 as char, s[1..]))
    else if s[0] == 'r' then Some(Read('\r', s[1..]))
    else if s[0] == 'u' then ParseUnicode(s[1..], 4)
    else if s[0] == 'U' then ParseUnicode(s[1..], 8)
    else None
  }

  /** Any character may stand unescaped but the quote, the backslash, and the control characters other than tab (U+007F too). */
  predicate MayStand(c: char) {
    c != '"' && c != '\\' && (c == '\t' || c as int >= 0x20) && c as int != 0x7F
  }

  /** A basic string, after its opening quote. */
  function ParseString(s: string): (r: Option<Read<string>>)
    ensures r.Some? ==> |r.value.rest| < |s|
    decreases |s|
  {
    if s == [] then None
    else if s[0] == '"' then Some(Read([], s[1..]))
    else if s[0] == '\\' then
      match ParseEscape(s[1..])
      case Some(c) =>
        (match ParseString(c.rest)
         case Some(r) => Some(Read([c.value] + r.value, r.rest))
         case None => None)
      case None => None
    else if MayStand(s[0]) then
      match ParseString(s[1..])
      case Some(r) => Some(Read([s[0]] + r.value, r.rest))
      case None => None
    else None
  }

  /** The strings of an array, after its opening bracket and any space. */
  function ParseNames(s: string): Option<Read<seq<string>>>
    decreases |s|
  {
    if s != [] && s[0] == ']' then Some(Read([], s[1..]))
    else if s == [] || s[0] != '"' then None
    else
      match ParseString(s[1..])
      case None => None
      case Some(r) =>
        SpaceShortens(r.rest);
        var after := SkipSpace(r.rest);
        if after == [] then None
        else if after[0] == ']' then Some(Read([r.value], after[1..]))
        else if after[0] != ',' then None
        else
          SpaceShortens(after[1..]);
          match ParseNames(SkipSpace(after[1..]))
          case Some(more) => Some(Read([r.value] + more.value, more.rest))
          case None => None
  }

  lemma SpaceShortens(s: string)
    ensures |SkipSpace(s)| <= |s|
  {
  }

  predicate IsDigit(c: char) { '0' <= c <= '9' }

  /** Decimal digits: how far they go. */
  function ParseDigits(s: string): Read<string> {
    if s != [] && IsDigit(s[0]) then var r := ParseDigits(s[1..]); Read([s[0]] + r.value, r.rest) else Read([], s)
  }

  function Decimal(s: string): int {
    if s == [] then 0 else 10 * Decimal(s[..|s| - 1]) + (s[|s| - 1] as int - '0' as int)
  }

  /** An integer: an optional sign, then digits with no leading zero. */
  function ParseInt(s: string): Option<Read<int>> {
    var signed := s != [] && (s[0] == '-' || s[0] == '+');
    var r := ParseDigits(if signed then s[1..] else s);
    if r.value == [] || (|r.value| > 1 && r.value[0] == '0') then None
    else Some(Read(if signed && s[0] == '-' then -Decimal(r.value) else Decimal(r.value), r.rest))
  }

  function ParseValue(s: string): Option<Read<Value>> {
    if s == [] then None
    else if s[0] == '"' then
      match ParseString(s[1..])
      case Some(r) => Some(Read(Str(r.value), r.rest))
      case None => None
    else if s[0] == '[' then
      match ParseNames(SkipSpace(s[1..]))
      case Some(r) => Some(Read(Names(r.value), r.rest))
      case None => None
    else if "true" <= s then Some(Read(Bool(true), s[4..]))
    else if "false" <= s then Some(Read(Bool(false), s[5..]))
    else
      match ParseInt(s)
      case Some(r) => Some(Read(Int(r.value), r.rest))
      case None => None
  }

  datatype Line = Blank | Header(name: string) | Pair(key: string, value: Value)

  function ParseLine(line: string): Option<Line> {
    var s := SkipSpace(line);
    if s == [] then Some(Blank)
    else if s[0] == '[' then
      var key := ParseKey(SkipSpace(s[1..]));
      var after := SkipSpace(key.rest);
      if key.value != [] && after != [] && after[0] == ']' && SkipSpace(after[1..]) == [] then Some(Header(key.value)) else None
    else
      var key := ParseKey(s);
      var after := SkipSpace(key.rest);
      if key.value == [] || after == [] || after[0] != '=' then None else
        match ParseValue(SkipSpace(after[1..]))
        case Some(v) => if SkipSpace(v.rest) == [] then Some(Pair(key.value, v.value)) else None
        case None => None
  }

  /** The text's lines, between one line feed and the next. */
  function Lines(s: string): (r: seq<string>)
    ensures r != []
  {
    if s == [] then [[]]
    else if s[0] == '\n' then [[]] + Lines(s[1..])
    else var r := Lines(s[1..]); [[s[0]] + r[0]] + r[1..]
  }

  /** What is read so far, and the table the next keys go into (the root before any header). */
  datatype Reading = Reading(doc: Doc, table: string)

  /** A table or key may be defined once only. */
  function Take(at: Reading, line: string): Option<Reading> {
    match ParseLine(line)
    case None => None
    case Some(Blank) => Some(at)
    case Some(Header(name)) => if name in at.doc then None else Some(Reading(at.doc[name := map[]], name))
    case Some(Pair(key, value)) =>
      var table := if at.table in at.doc then at.doc[at.table] else map[];
      if key in table then None else Some(at.(doc := at.doc[at.table := table[key := value]]))
  }

  function TakeAll(at: Option<Reading>, lines: seq<string>): Option<Reading>
    decreases |lines|
  {
    if at.None? || lines == [] then at else TakeAll(Take(at.value, lines[0]), lines[1..])
  }

  function Parse(text: string): Option<Doc> {
    match TakeAll(Some(Reading(map[], [])), Lines(text))
    case Some(r) => Some(r.doc)
    case None => None
  }
}
