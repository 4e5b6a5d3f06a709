/** config.toml as it is written, and as it reads back (celerp/config.py, _write_config_unlocked). */
module ConfigText {
  import opened Wrappers
  import opened TomlText

  // ---- The writer ---------------------------------------------------------------------

  /** A bare key. */
  type Key = key: string | IsKey(key) witness ['k']

  predicate IsKey(key: string) {
    key != [] && forall i :: 0 <= i < |key| ==> IsBare(key[i])
  }

  /** How a key of a section is written, from what the caller's section holds for it. */
  datatype Field =
    | Text(key: Key, default: string)     // always
    | TextIfSet(key: Key)                 // only when not empty
    | Flag(key: Key)                      // `key = true`, only when set
    | Number(key: Key)                    // always, 0 by default
    | Switch(key: Key)                    // always, true by default
    | List(key: Key)                      // always, empty by default

  datatype Part = Part(name: Key, fields: seq<Field>)

  /** The sections and keys written, in the order they are written. */
  function Layout(): seq<Part> { StartParts() + StorageParts() + LastParts() }

  function StartParts(): seq<Part> {
    [ Part("database", [Text("url", ""), Flag("embedded")]), Part("auth", AuthFields()), Part("server", ServerFields()),
      Part("cloud", CloudFields()) ]
  }

  function StorageParts(): seq<Part> {
    [ Part("storage", StorageFields("local")), Part("database_backup", [Text("previous_url", "")]),
      Part("storage_backup", StorageFields("")) ]
  }

  function LastParts(): seq<Part> {
    [ Part("backup", [Text("pg_bin_dir", "")]), Part("updates", [Switch("auto")]), Part("modules", [List("enabled")]) ]
  }

  function AuthFields(): seq<Field> { [Text("jwt_secret", ""), TextIfSet("setup_code_hash")] }

  function ServerFields(): seq<Field> { [Number("api_port"), Number("ui_port"), Flag("headless")] }

  function CloudFields(): seq<Field> { ConnectFields() + ContextFields() + DeploymentFields() }

  function ConnectFields(): seq<Field> {
    [Text("token", ""), Text("instance_id", ""), Text("public_url", ""), Text("backup_encryption_key", ""), Text("tos_version", "")]
  }

  function ContextFields(): seq<Field> {
    [TextIfSet("activation_verifier"), Flag("disconnected"), TextIfSet("commercial_context_json")]
  }

  function DeploymentFields(): seq<Field> {
    [TextIfSet("deployment_credential"), TextIfSet("deployment_nonce"), Flag("deployment_associated"), Flag("external_db")]
  }

  function StorageFields(backend: string): seq<Field> {
    [Text("backend", backend), Text("s3_endpoint", ""), Text("s3_bucket", ""), Text("s3_access_key", ""),
     Text("s3_secret_key", "")]
  }

  function Hex(n: nat): char
    requires n < 16
  {
    if n < 10 then (n + '0' as int) as char else (n - 10 + 'a' as int) as char
  }

  /** One character as `json.dumps(..., ensure_ascii=False)` writes it. U+007F is left as it is. */
  function Escape(c: char): string {
    if c == '"' then ['\\', '"']
    else if c == '\\' then ['\\', '\\']
    else if c == '\n' then ['\\', 'n']
    else if c == '\r' then ['\\', 'r']
    else if c == '\t' then ['\\', 't']
    else if c as int == 8 then ['\\', 'b']
    else if c as int == 12 then ['\\', 'f']
    else if c as int < 0x20 then ['\\', 'u', '0', '0', Hex(c as int / 16), Hex(c as int % 16)]
    else [c]
  }

  function Escaped(s: string): string {
    if s == [] then [] else Escape(s[0]) + Escaped(s[1..])
  }

  function Quoted(s: string): string { ['"'] + Escaped(s) + ['"'] }

  function Digits(n: nat): string {
    (if n < 10 then [] else Digits(n / 10)) + [(n % 10 + '0' as int) as char]
  }

  function Shown(n: int): string { if n < 0 then ['-'] + Digits(-n) else Digits(n) }

  function Joined(names: seq<string>): string {
    if names == [] then []
    else if |names| == 1 then Quoted(names[0])
    else Quoted(names[0]) + ", " + Joined(names[1..])
  }

  function Written(v: Value): string {
    match v
    case Str(s) => Quoted(s)
    case Int(n) => Shown(n)
    case Bool(b) => if b then "true" else "false"
    case Names(names) => "[" + Joined(names) + "]"
  }

  /** What a field emits: the value its line holds, or nothing. */
  function Emits(f: Field, section: Section): Option<Value> {
    match f
    case Text(key, default) => Some(if key in section then section[key] else Str(default))
    case TextIfSet(key) => if key in section && section[key] != Str("") then Some(section[key]) else None
    case Flag(key) => if key in section && section[key] == Bool(true) then Some(Bool(true)) else None
    case Number(key) => Some(if key in section then section[key] else Int(0))
    case Switch(key) => Some(if key in section then section[key] else Bool(true))
    case List(key) => Some(if key in section then section[key] else Names([]))
  }

  predicate Fits(f: Field, v: Value) {
    match f
    case Text(_, _) => v.Str?
    case TextIfSet(_) => v.Str?
    case Flag(_) => v.Bool?
    case Number(_) => v.Int?
    case Switch(_) => v.Bool?
    case List(_) => v.Names?
  }

  /** The config's values are of the kinds its fields take. */
  ghost predicate Typed(layout: seq<Part>, cfg: Doc) {
    forall i, k :: 0 <= i < |layout| && 0 <= k < |layout[i].fields| && layout[i].name in cfg
                   && layout[i].fields[k].key in cfg[layout[i].name] ==>
      Fits(layout[i].fields[k], cfg[layout[i].name][layout[i].fields[k].key])
  }

  function FieldLine(key: string, v: Value): string { key + " = " + Written(v) }

  function FieldLines(fields: seq<Field>, section: Section): seq<string> {
    if fields == [] then []
    else (match Emits(fields[0], section)
          case Some(v) => [FieldLine(fields[0].key, v)]
          case None => []) + FieldLines(fields[1..], section)
  }

  function PartLines(part: Part, cfg: Doc): seq<string> {
    if part.name !in cfg then []
    else ["[" + part.name + "]"] + FieldLines(part.fields, cfg[part.name]) + [[]]
  }

  function AllLines(layout: seq<Part>, cfg: Doc): seq<string> {
    if layout == [] then [] else PartLines(layout[0], cfg) + AllLines(layout[1..], cfg)
  }

  /** Joined by line feeds. */
  function JoinLines(lines: seq<string>): string {
    if lines == [] then [] else if |lines| == 1 then lines[0] else lines[0] + ['\n'] + JoinLines(lines[1..])
  }

  function Print(cfg: Doc): string
    requires Typed(Layout(), cfg)
  {
    JoinLines(AllLines(Layout(), cfg))
  }

  // ---- What it emits ------------------------------------------------------------------

  function Emitted(fields: seq<Field>, section: Section): Section {
    if fields == [] then map[]
    else (match Emits(fields[0], section)
          case Some(v) => map[fields[0].key := v]
          case None => map[]) + Emitted(fields[1..], section)
  }

  function AllEmitted(layout: seq<Part>, cfg: Doc): Doc {
    if layout == [] then map[]
    else (if layout[0].name in cfg then map[layout[0].name := Emitted(layout[0].fields, cfg[layout[0].name])] else map[])
         + AllEmitted(layout[1..], cfg)
  }

  /** No character of the value is U+007F. */
  predicate Clean(s: string) { forall i :: 0 <= i < |s| ==> s[i] as int != 0x7F }

  predicate CleanValue(v: Value) {
    match v
    case Str(s) => Clean(s)
    case Names(names) => AllClean(names)
    case _ => true
  }

  // ---- Values read back ---------------------------------------------------------------

  lemma EscapeReadsBack(c: char, rest: string)
    requires Escape(c) != [c]
    ensures Escape(c)[0] == '\\' && ParseEscape(Escape(c)[1..] + rest) == Some(Read(c, rest))
  {
    var s := Escape(c)[1..] + rest;
    assert s[1..] == Escape(c)[2..] + rest;
    if Escape(c)[1] == 'u' {
      var hex := ['0', '0', Hex(c as int / 16), Hex(c as int % 16)];
      assert s[1..] == hex + rest && s[1..][..4] == hex && s[1..][4..] == rest;
      assert hex[..3] == ['0', '0', Hex(c as int / 16)] && hex[..3][..2] == ['0', '0'] && ['0', '0'][..1] == ['0'] && ['0'][..0] == [];
      assert ParseHex(['0']) == Some(0) && ParseHex(['0', '0']) == Some(0);
      assert ParseHex(hex[..3]) == Some(c as int / 16);
      assert ParseHex(hex) == Some(c as int);
    }
  }

  /** Only the quote, the backslash and the control characters are escaped: any other text is written as it is. */
  lemma EscapedExactly(c: char)
    ensures Escape(c) == [c] <==> c != '"' && c != '\\' && c as int >= 0x20
  {
  }

  /** A written character reads back as itself, and the string goes on after it. */
  lemma CharReadsBack(c: char, after: string)
    ensures ParseString(Escape(c) + after) ==
      if c as int == 0x7F || ParseString(after).None? then None
      else Some(Read([c] + ParseString(after).value.value, ParseString(after).value.rest))
  {
    var text := Escape(c) + after;
    if Escape(c) == [c] {
      assert text[0] == c && text[1..] == after;
    } else {
      EscapeReadsBack(c, after);
      assert text[0] == '\\' && text[1..] == Escape(c)[1..] + after;
    }
  }

  lemma EscapedFirst(s: string, rest: string)
    requires s != []
    ensures Escaped(s) + ['"'] + rest == Escape(s[0]) + (Escaped(s[1..]) + ['"'] + rest)
    ensures Clean(s) <==> s[0] as int != 0x7F && Clean(s[1..])
  {
    assert s == [s[0]] + s[1..];
  }

  /** A quoted string reads back as itself exactly when it holds no U+007F; otherwise it does not read at all. */
  lemma {:induction false} StringReadsBack(s: string, rest: string)
    ensures ParseString(Escaped(s) + ['"'] + rest) == if Clean(s) then Some(Read(s, rest)) else None
  {
    if s == [] {
      assert Escaped(s) + ['"'] + rest == ['"'] + rest;
    } else {
      StringReadsBack(s[1..], rest);
      EscapedFirst(s, rest);
      CharReadsBack(s[0], Escaped(s[1..]) + ['"'] + rest);
      assert s == [s[0]] + s[1..];
    }
  }

  lemma NameReadsBack(name: string, tail: string)
    requires tail != [] && (tail[0] == ']' || tail[0] == ',')
    ensures ParseNames(Quoted(name) + tail) ==
      if !Clean(name) then None
      else if tail[0] == ']' then Some(Read([name], tail[1..]))
      else match ParseNames(SkipSpace(tail[1..]))
           case Some(more) => Some(Read([name] + more.value, more.rest))
           case None => None
  {
    var text := Quoted(name) + tail;
    assert text[0] == '"' && text[1..] == Escaped(name) + ['"'] + tail;
    StringReadsBack(name, tail);
    assert SkipSpace(tail) == tail;
  }

  predicate AllClean(names: seq<string>) { forall i :: 0 <= i < |names| ==> Clean(names[i]) }

  lemma AllCleanByOne(names: seq<string>)
    requires names != []
    ensures AllClean(names) <==> Clean(names[0]) && AllClean(names[1..])
  {
    assert forall i :: 0 < i < |names| ==> names[i] == names[1..][i - 1];
  }

  lemma OneNameReadsBack(name: string, rest: string)
    ensures ParseNames(Joined([name]) + [']'] + rest) == if Clean(name) then Some(Read([name], rest)) else None
  {
    assert Joined([name]) + [']'] + rest == Quoted(name) + ([']'] + rest);
    assert ([']'] + rest)[1..] == rest;
    NameReadsBack(name, [']'] + rest);
  }

  lemma MoreNamesReadBack(names: seq<string>, rest: string)
    requires |names| > 1
    requires ParseNames(Joined(names[1..]) + [']'] + rest) == if AllClean(names[1..]) then Some(Read(names[1..], rest)) else None
    ensures ParseNames(Joined(names) + [']'] + rest) == if AllClean(names) then Some(Read(names, rest)) else None
  {
    AllCleanByOne(names);
    JoinedSplits(names, rest);
    CommaReadsBack(names[0], Joined(names[1..]) + [']'] + rest);
    assert names == [names[0]] + names[1..];
  }

  lemma {:induction false} NamesReadBack(names: seq<string>, rest: string)
    ensures ParseNames(Joined(names) + [']'] + rest) == if AllClean(names) then Some(Read(names, rest)) else None
  {
    if names == [] {
      assert Joined(names) + [']'] + rest == [']'] + rest;
    } else if |names| == 1 {
      assert names == [names[0]];
      OneNameReadsBack(names[0], rest);
    } else {
      NamesReadBack(names[1..], rest);
      MoreNamesReadBack(names, rest);
    }
  }

  lemma Regroup(a: string, b: string, c: string, d: string, e: string)
    ensures (a + b + c) + d + e == a + (b + (c + d + e))
  {
  }

  lemma JoinedSplits(names: seq<string>, rest: string)
    requires |names| > 1
    ensures var more := Joined(names[1..]) + [']'] + rest;
      more[0] == '"' && Joined(names) + [']'] + rest == Quoted(names[0]) + (", " + more)
  {
    Regroup(Quoted(names[0]), ", ", Joined(names[1..]), [']'], rest);
    assert Joined(names[1..])[0] == '"' by {
      assert Quoted(names[1..][0])[0] == '"';
    }
  }

  lemma CommaReadsBack(name: string, more: string)
    requires more != [] && more[0] == '"'
    ensures ParseNames(Quoted(name) + (", " + more)) ==
      if !Clean(name) || ParseNames(more).None? then None
      else Some(Read([name] + ParseNames(more).value.value, ParseNames(more).value.rest))
  {
    NameReadsBack(name, ", " + more);
    assert (", " + more)[1..] == [' '] + more && ([' '] + more)[1..] == more;
    assert SkipSpace([' '] + more) == SkipSpace(more) == more;
  }

  lemma {:induction false} DigitsStandFor(n: nat)
    ensures Digits(n) != [] && Decimal(Digits(n)) == n && (n == 0 || Digits(n)[0] != '0')
    ensures |Digits(n)| > 1 ==> Digits(n)[0] != '0'
  {
    if n >= 10 {
      DigitsStandFor(n / 10);
      assert Digits(n)[..|Digits(n)| - 1] == Digits(n / 10);
    } else {
      assert Digits(n) == [(n + '0' as int) as char];
      assert Digits(n)[..0] == [];
    }
  }

  lemma DigitsReadBack(n: nat)
    ensures ParseDigits(Digits(n)) == Read(Digits(n), []) && Digits(n) != [] && IsDigit(Digits(n)[0])
  {
    DigitsStandFor(n);
    DigitsAreDigits(n);
    OnlyDigitsRead(Digits(n), []);
    assert Digits(n) + [] == Digits(n);
  }

  lemma DigitsAreDigits(n: nat)
    ensures forall i :: 0 <= i < |Digits(n)| ==> IsDigit(Digits(n)[i])
  {
  }

  lemma {:induction false} OnlyDigitsRead(s: string, rest: string)
    requires (forall i :: 0 <= i < |s| ==> IsDigit(s[i])) && (rest == [] || !IsDigit(rest[0]))
    ensures ParseDigits(s + rest) == Read(s, rest)
  {
    if s == [] {
      assert s + rest == rest;
    } else {
      assert (s + rest)[1..] == s[1..] + rest;
      OnlyDigitsRead(s[1..], rest);
      assert s == [s[0]] + s[1..];
    }
  }

  lemma StrReadsBack(s: string)
    ensures ParseValue(Quoted(s)) == if Clean(s) then Some(Read(Str(s), [])) else None
  {
    assert Quoted(s)[1..] == Escaped(s) + ['"'] + [];
    StringReadsBack(s, []);
  }

  lemma ListReadsBack(names: seq<string>)
    ensures ParseValue("[" + Joined(names) + "]") == if AllClean(names) then Some(Read(Names(names), [])) else None
  {
    var text := "[" + Joined(names) + "]";
    var inner := Joined(names) + [']'] + [];
    assert text[0] == '[' && text[1..] == inner;
    assert inner[0] == (if names == [] then ']' else '"');
    assert SkipSpace(inner) == inner;
    NamesReadBack(names, []);
  }

  predicate DigitsAlone(digits: string) {
    ParseDigits(digits) == Read(digits, []) && digits != [] && IsDigit(digits[0]) && (|digits| > 1 ==> digits[0] != '0')
  }

  lemma UnsignedParses(digits: string)
    requires DigitsAlone(digits)
    ensures ParseInt(digits) == Some(Read(Decimal(digits), []))
  {
    assert digits[0] != '-' && digits[0] != '+';
  }

  lemma NegativeParses(digits: string, s: string)
    requires DigitsAlone(digits) && s != [] && s[0] == '-' && s[1..] == digits
    ensures ParseInt(s) == Some(Read(-Decimal(digits), []))
  {
  }

  lemma ShownParses(n: int)
    ensures ParseInt(Shown(n)) == Some(Read(n, [])) && Shown(n) != [] && (Shown(n)[0] == '-' || IsDigit(Shown(n)[0]))
  {
    var m := if n < 0 then -n else n;
    DigitsReadBack(m);
    DigitsStandFor(m);
    if n < 0 {
      NegativeParses(Digits(m), ['-'] + Digits(m));
    } else {
      UnsignedParses(Digits(m));
    }
  }

  lemma IntReadsBack(n: int)
    ensures ParseValue(Shown(n)) == Some(Read(Int(n), [])) && Shown(n)[0] != ' ' && Shown(n)[0] != '\t'
  {
    ShownParses(n);
    assert "true"[0] == 't' && "false"[0] == 'f';
  }

  /** A written value reads back as itself exactly when it holds no U+007F. */
  lemma ValueReadsBack(v: Value)
    ensures Written(v) != [] && Written(v)[0] != ' ' && Written(v)[0] != '\t'
    ensures ParseValue(Written(v)) == if CleanValue(v) then Some(Read(v, [])) else None
  {
    match v {
      case Str(s) => StrReadsBack(s);
      case Names(names) => ListReadsBack(names);
      case Bool(b) =>
        assert "true"[4..] == [] && "false"[5..] == [];
        assert "true"[0] != "false"[0];
      case Int(n) => IntReadsBack(n);
    }
  }

  // ---- Lines read back ----------------------------------------------------------------

  lemma {:induction false} KeyReadsBack(key: string, rest: string)
    requires (forall i :: 0 <= i < |key| ==> IsBare(key[i])) && (rest == [] || !IsBare(rest[0]))
    ensures ParseKey(key + rest) == Read(key, rest)
  {
    if key == [] {
      assert key + rest == rest;
    } else {
      assert (key + rest)[1..] == key[1..] + rest;
      KeyReadsBack(key[1..], rest);
      assert key == [key[0]] + key[1..];
    }
  }

  lemma HeaderReadsBack(name: string)
    requires IsKey(name)
    ensures ParseLine("[" + name + "]") == Some(Header(name))
  {
    var line := "[" + name + "]";
    assert line[0] == '[' && line[1..] == name + "]";
    assert SkipSpace(name + "]") == name + "]";
    KeyReadsBack(name, "]");
    assert "]"[1..] == [] && SkipSpace("]") == "]";
  }

  predicate NoSpace(s: string) { s != [] && s[0] != ' ' && s[0] != '\t' }

  lemma EqualsReadsBack(written: string)
    requires NoSpace(written)
    ensures var after := " = " + written;
            after[0] == ' ' && SkipSpace(after) == "= " + written && SkipSpace((SkipSpace(after))[1..]) == written
  {
    assert (" = " + written)[1..] == "= " + written;
    assert ("= " + written)[1..] == [' '] + written && ([' '] + written)[1..] == written;
  }

  lemma PairParses(key: string, after: string, written: string)
    requires IsKey(key) && NoSpace(written) && after == " = " + written
    ensures ParseLine(key + after) ==
      match ParseValue(written)
      case Some(v) => if SkipSpace(v.rest) == [] then Some(Pair(key, v.value)) else None
      case None => None
  {
    EqualsReadsBack(written);
    assert IsBare((key + after)[0]);
    KeyReadsBack(key, after);
  }

  lemma FieldReadsBack(key: string, v: Value)
    requires IsKey(key)
    ensures ParseLine(FieldLine(key, v)) == if CleanValue(v) then Some(Pair(key, v)) else None
  {
    ValueReadsBack(v);
    var after := " = " + Written(v);
    assert FieldLine(key, v) == key + after;
    PairParses(key, after, Written(v));
  }

  predicate OneLine(s: string) { forall i :: 0 <= i < |s| ==> s[i] != '\n' }

  lemma {:induction false} EscapedIsOneLine(s: string)
    ensures OneLine(Escaped(s))
  {
    if s != [] {
      EscapedIsOneLine(s[1..]);
      assert OneLine(Escape(s[0]));
    }
  }

  lemma {:induction false} JoinedIsOneLine(names: seq<string>)
    ensures OneLine(Joined(names))
  {
    if names != [] {
      EscapedIsOneLine(names[0]);
      JoinedIsOneLine(names[1..]);
    }
  }

  lemma WrittenIsOneLine(v: Value)
    ensures OneLine(Written(v))
  {
    match v {
      case Str(s) => EscapedIsOneLine(s);
      case Names(names) => JoinedIsOneLine(names);
      case Int(n) => DigitsAreDigits(if n < 0 then -n else n);
      case Bool(_) =>
    }
  }

  lemma {:induction false} LineReadsBack(line: string, rest: string)
    requires OneLine(line)
    ensures Lines(line + ['\n'] + rest) == [line] + Lines(rest) && Lines(line) == [line]
  {
    var text := line + ['\n'] + rest;
    if line == [] {
      assert text[1..] == rest;
    } else {
      LineReadsBack(line[1..], rest);
      assert text[1..] == line[1..] + ['\n'] + rest;
      assert line == [line[0]] + line[1..];
    }
  }

  lemma {:induction false} LinesReadBack(lines: seq<string>)
    requires lines != [] && forall i :: 0 <= i < |lines| ==> OneLine(lines[i])
    ensures Lines(JoinLines(lines)) == lines
  {
    if |lines| == 1 {
      LineReadsBack(lines[0], []);
    } else {
      LinesReadBack(lines[1..]);
      LineReadsBack(lines[0], JoinLines(lines[1..]));
      assert lines == [lines[0]] + lines[1..];
    }
  }

  // ---- Documents read back ------------------------------------------------------------

  ghost predicate FieldsFit(fields: seq<Field>) {
    forall i, j :: 0 <= i < j < |fields| ==> fields[i].key != fields[j].key
  }

  ghost predicate LayoutFits(layout: seq<Part>) {
    && (forall i :: 0 <= i < |layout| ==> FieldsFit(layout[i].fields))
    && (forall i, j :: 0 <= i < j < |layout| ==> layout[i].name != layout[j].name)
  }

  ghost predicate CleanSection(section: Section) {
    forall k :: k in section ==> CleanValue(section[k])
  }

  /** No emitted string holds U+007F. */
  ghost predicate CleanDoc(doc: Doc) {
    forall t :: t in doc ==> CleanSection(doc[t])
  }

  lemma {:induction false} TakeInTurn(at: Option<Reading>, first: seq<string>, second: seq<string>)
    ensures TakeAll(at, first + second) == TakeAll(TakeAll(at, first), second)
    decreases |first|
  {
    if first == [] {
      assert first + second == second;
    } else if at.Some? {
      assert (first + second)[1..] == first[1..] + second;
      TakeInTurn(Take(at.value, first[0]), first[1..], second);
    }
  }

  lemma EmittedKeys(fields: seq<Field>, section: Section)
    ensures forall k :: k in Emitted(fields, section) ==> exists i :: 0 <= i < |fields| && fields[i].key == k
  {
  }

  lemma TakesField(doc: Doc, name: string, done: Section, key: string, v: Value)
    requires IsKey(key) && key !in done
    ensures Take(Reading(doc[name := done], name), FieldLine(key, v)) ==
      if CleanValue(v) then Some(Reading(doc[name := done[key := v]], name)) else None
  {
    FieldReadsBack(key, v);
    assert doc[name := done][name := done[key := v]] == doc[name := done[key := v]];
  }

  lemma TakeFirst(at: Reading, line: string, rest: seq<string>)
    ensures TakeAll(Some(at), [line] + rest) == TakeAll(Take(at, line), rest)
  {
    assert ([line] + rest)[1..] == rest;
  }

  lemma EmittedFirst(fields: seq<Field>, section: Section, done: Section)
    requires fields != [] && FieldsFit(fields) && Emits(fields[0], section).Some?
    ensures var v := Emits(fields[0], section).value; var key := fields[0].key; var rest := Emitted(fields[1..], section);
      && done + Emitted(fields, section) == done[key := v] + rest
      && (CleanSection(Emitted(fields, section)) <==> CleanValue(v) && CleanSection(rest))
  {
    var rest := Emitted(fields[1..], section);
    EmittedKeys(fields[1..], section);
    FieldAdded(done, fields[0].key, Emits(fields[0], section).value, rest);
  }

  lemma FieldAdded(done: Section, key: string, v: Value, rest: Section)
    requires key !in rest
    ensures done + (map[key := v] + rest) == done[key := v] + rest
    ensures CleanSection(map[key := v] + rest) <==> CleanValue(v) && CleanSection(rest)
  {
    var all := map[key := v] + rest;
    assert all[key] == v && forall k :: k in rest ==> k in all && all[k] == rest[k];
  }

  lemma {:induction false} FieldsReadBack(doc: Doc, name: string, done: Section, fields: seq<Field>, section: Section)
    requires FieldsFit(fields) && forall i :: 0 <= i < |fields| ==> fields[i].key !in done
    ensures TakeAll(Some(Reading(doc[name := done], name)), FieldLines(fields, section)) ==
      if CleanSection(Emitted(fields, section)) then Some(Reading(doc[name := done + Emitted(fields, section)], name)) else None
    decreases |fields|
  {
    if fields == [] {
      assert done + map[] == done;
    } else {
      var at := Reading(doc[name := done], name);
      match Emits(fields[0], section) {
        case None =>
          assert FieldLines(fields, section) == FieldLines(fields[1..], section);
          assert Emitted(fields, section) == Emitted(fields[1..], section);
          FieldsReadBack(doc, name, done, fields[1..], section);
        case Some(v) =>
          var key := fields[0].key;
          TakesField(doc, name, done, key, v);
          EmittedFirst(fields, section, done);
          TakeFirst(at, FieldLine(key, v), FieldLines(fields[1..], section));
          if CleanValue(v) {
            FieldsReadBack(doc, name, done[key := v], fields[1..], section);
          }
      }
    }
  }

  lemma PartReadsBack(doc: Doc, table: string, part: Part, cfg: Doc)
    requires IsKey(part.name) && FieldsFit(part.fields) && part.name in cfg && part.name !in doc
    ensures var emitted := Emitted(part.fields, cfg[part.name]);
      TakeAll(Some(Reading(doc, table)), PartLines(part, cfg)) ==
      if CleanSection(emitted) then Some(Reading(doc[part.name := emitted], part.name)) else None
  {
    var fields := FieldLines(part.fields, cfg[part.name]);
    var emitted := Emitted(part.fields, cfg[part.name]);
    HeaderReadsBack(part.name);
    var begun := Reading(doc[part.name := map[]], part.name);
    assert Take(Reading(doc, table), "[" + part.name + "]") == Some(begun);
    assert PartLines(part, cfg) == ["[" + part.name + "]"] + (fields + [[]]);
    TakeFirst(Reading(doc, table), "[" + part.name + "]", fields + [[]]);
    TakeInTurn(Some(begun), fields, [[]]);
    FieldsReadBack(doc, part.name, map[], part.fields, cfg[part.name]);
    assert map[] + emitted == emitted;
    BlankIsSkipped(TakeAll(Some(begun), fields));
  }

  lemma BlankIsSkipped(at: Option<Reading>)
    ensures TakeAll(at, [[]]) == at
  {
    if at.Some? {
      var blank: string := [];
      TakeFirst(at.value, blank, []);
      assert [blank] + [] == [blank];
    }
  }

  lemma AllEmittedNames(layout: seq<Part>, cfg: Doc)
    ensures forall t :: t in AllEmitted(layout, cfg) ==> exists i :: 0 <= i < |layout| && layout[i].name == t
  {
  }

  lemma AllEmittedFirst(layout: seq<Part>, cfg: Doc, doc: Doc)
    requires layout != [] && LayoutFits(layout) && layout[0].name in cfg
    ensures var emitted := Emitted(layout[0].fields, cfg[layout[0].name]); var rest := AllEmitted(layout[1..], cfg);
      && doc + AllEmitted(layout, cfg) == doc[layout[0].name := emitted] + rest
      && (CleanDoc(AllEmitted(layout, cfg)) <==> CleanSection(emitted) && CleanDoc(rest))
  {
    AllEmittedNames(layout[1..], cfg);
    TableAdded(doc, layout[0].name, Emitted(layout[0].fields, cfg[layout[0].name]), AllEmitted(layout[1..], cfg));
  }

  lemma TableAdded(doc: Doc, name: string, emitted: Section, rest: Doc)
    requires name !in rest
    ensures doc + (map[name := emitted] + rest) == doc[name := emitted] + rest
    ensures CleanDoc(map[name := emitted] + rest) <==> CleanSection(emitted) && CleanDoc(rest)
  {
    var all := map[name := emitted] + rest;
    assert all[name] == emitted && forall t :: t in rest ==> all[t] == rest[t];
  }

  lemma {:induction false} PartsReadBack(doc: Doc, table: string, layout: seq<Part>, cfg: Doc)
    requires LayoutFits(layout) && forall i :: 0 <= i < |layout| ==> layout[i].name !in doc
    ensures var r := TakeAll(Some(Reading(doc, table)), AllLines(layout, cfg));
      if CleanDoc(AllEmitted(layout, cfg)) then r.Some? && r.value.doc == doc + AllEmitted(layout, cfg) else r.None?
    decreases |layout|
  {
    if layout == [] {
      assert doc + map[] == doc;
    } else if layout[0].name !in cfg {
      assert AllLines(layout, cfg) == AllLines(layout[1..], cfg);
      assert AllEmitted(layout, cfg) == AllEmitted(layout[1..], cfg);
      PartsReadBack(doc, table, layout[1..], cfg);
    } else {
      var emitted := Emitted(layout[0].fields, cfg[layout[0].name]);
      PartReadsBack(doc, table, layout[0], cfg);
      TakeInTurn(Some(Reading(doc, table)), PartLines(layout[0], cfg), AllLines(layout[1..], cfg));
      AllEmittedFirst(layout, cfg, doc);
      if CleanSection(emitted) {
        PartsReadBack(doc[layout[0].name := emitted], layout[0].name, layout[1..], cfg);
      }
    }
  }

  lemma {:induction false} FieldLinesAreLines(fields: seq<Field>, section: Section)
    requires FieldsFit(fields)
    ensures forall i :: 0 <= i < |FieldLines(fields, section)| ==> OneLine(FieldLines(fields, section)[i])
  {
    if fields != [] {
      FieldLinesAreLines(fields[1..], section);
      if Emits(fields[0], section).Some? {
        WrittenIsOneLine(Emits(fields[0], section).value);
        assert OneLine(FieldLine(fields[0].key, Emits(fields[0], section).value));
      }
    }
  }

  lemma {:induction false} AllLinesAreLines(layout: seq<Part>, cfg: Doc)
    requires LayoutFits(layout)
    ensures forall i :: 0 <= i < |AllLines(layout, cfg)| ==> OneLine(AllLines(layout, cfg)[i])
  {
    if layout != [] {
      AllLinesAreLines(layout[1..], cfg);
      if layout[0].name in cfg {
        FieldLinesAreLines(layout[0].fields, cfg[layout[0].name]);
        assert OneLine("[" + layout[0].name + "]");
      }
    }
  }

  /** Enough of a key to tell those of the layout apart. */
  ghost function Mark(key: Key): (int, char, char, char) {
    (|key|, key[0], key[|key| / 2], key[|key| - 1])
  }

  lemma MarksDiffer(fields: seq<Field>)
    requires forall i, j :: 0 <= i < j < |fields| ==> Mark(fields[i].key) != Mark(fields[j].key)
    ensures FieldsFit(fields)
  {
  }

  /** A glance at each pair of keys tells them apart: by how long they are, or how they begin. */
  ghost predicate Apart(a: seq<Field>, b: seq<Field>) {
    forall i, j :: 0 <= i < |a| && 0 <= j < |b| ==> |a[i].key| != |b[j].key| || a[i].key[0] != b[j].key[0]
  }

  lemma FitTogether(a: seq<Field>, b: seq<Field>, c: seq<Field>)
    requires FieldsFit(a) && FieldsFit(b) && FieldsFit(c) && Apart(a, b) && Apart(a, c) && Apart(b, c)
    ensures FieldsFit(a + b + c)
  {
  }

  lemma ConnectStandsApart()
    ensures Apart(ConnectFields(), ContextFields()) && Apart(ConnectFields(), DeploymentFields())
  {
    assert forall i :: 0 <= i < |ConnectFields()| ==> ConnectFields()[i].key[0] in {'t', 'i', 'p', 'b'};
    assert forall i :: 0 <= i < |ContextFields()| ==> ContextFields()[i].key[0] in {'a', 'd', 'c'};
    assert forall i :: 0 <= i < |DeploymentFields()| ==> DeploymentFields()[i].key[0] in {'d', 'e'};
  }

  lemma ContextStandsApart()
    ensures Apart(ContextFields(), DeploymentFields())
  {
    assert forall i :: 0 <= i < |ContextFields()| ==> |ContextFields()[i].key| in {12, 19, 23};
    assert forall i :: 0 <= i < |DeploymentFields()| ==> |DeploymentFields()[i].key| in {11, 16, 21};
  }

  lemma ConnectFits()
    ensures FieldsFit(ConnectFields())
  {
    MarksDiffer(ConnectFields());
  }

  lemma ContextFits()
    ensures FieldsFit(ContextFields())
  {
    MarksDiffer(ContextFields());
  }

  lemma DeploymentFits()
    ensures FieldsFit(DeploymentFields())
  {
    MarksDiffer(DeploymentFields());
  }

  lemma CloudFits()
    ensures FieldsFit(CloudFields())
  {
    ConnectFits();
    ContextFits();
    DeploymentFits();
    ConnectStandsApart();
    ContextStandsApart();
    FitTogether(ConnectFields(), ContextFields(), DeploymentFields());
  }

  lemma StorageFits(backend: string)
    ensures FieldsFit(StorageFields(backend))
  {
    MarksDiffer(StorageFields(backend));
  }

  lemma OthersFit()
    ensures FieldsFit(AuthFields()) && FieldsFit(ServerFields()) && FieldsFit([Text("url", ""), Flag("embedded")])
  {
    MarksDiffer(AuthFields());
    MarksDiffer(ServerFields());
    MarksDiffer([Text("url", ""), Flag("embedded")]);
  }

  lemma NamesFit()
    ensures forall i, j :: 0 <= i < j < |Layout()| ==> Layout()[i].name != Layout()[j].name
  {
    var layout := Layout();
    forall i, j | 0 <= i < j < |layout|
      ensures layout[i].name != layout[j].name
    {
      assert Mark(layout[i].name) != Mark(layout[j].name);
    }
  }

  lemma LayoutIsFit()
    ensures LayoutFits(Layout())
  {
    NamesFit();
    CloudFits();
    StorageFits("local");
    StorageFits("");
    OthersFit();
    assert forall i :: 0 <= i < |StartParts()| ==> FieldsFit(StartParts()[i].fields);
    assert forall i :: 0 <= i < |StorageParts()| ==> FieldsFit(StorageParts()[i].fields);
    assert forall i :: 0 <= i < |LastParts()| ==> FieldsFit(LastParts()[i].fields);
  }

  lemma LayoutReadsBack(layout: seq<Part>, cfg: Doc)
    requires LayoutFits(layout)
    ensures var emitted := AllEmitted(layout, cfg);
      Parse(JoinLines(AllLines(layout, cfg))) == if CleanDoc(emitted) then Some(emitted) else None
  {
    AllLinesAreLines(layout, cfg);
    PartsReadBack(map[], [], layout, cfg);
    assert map[] + AllEmitted(layout, cfg) == AllEmitted(layout, cfg);
    LinesTaken(AllLines(layout, cfg));
  }

  lemma LinesTaken(lines: seq<string>)
    requires forall i :: 0 <= i < |lines| ==> OneLine(lines[i])
    ensures TakeAll(Some(Reading(map[], [])), Lines(JoinLines(lines))) == TakeAll(Some(Reading(map[], [])), lines)
  {
    if lines == [] {
      BlankIsSkipped(Some(Reading(map[], [])));
    } else {
      LinesReadBack(lines);
    }
  }

  /** The written text reads back as exactly what was emitted, unless an emitted string holds U+007F: then it does not read. */
  lemma TextReadsBack(cfg: Doc)
    requires Typed(Layout(), cfg)
    ensures var emitted := AllEmitted(Layout(), cfg);
      Parse(Print(cfg)) == if CleanDoc(emitted) then Some(emitted) else None
  {
    LayoutIsFit();
    LayoutReadsBack(Layout(), cfg);
  }

  // ---- Written again ------------------------------------------------------------------

  /** What a caller's typed section holds for a key is what is emitted for it, if anything is. */
  lemma {:induction false} EmittedFor(fields: seq<Field>, section: Section, k: nat)
    requires FieldsFit(fields) && k < |fields|
    ensures (fields[k].key in Emitted(fields, section) <==> Emits(fields[k], section).Some?)
    ensures Emits(fields[k], section).Some? ==> Emitted(fields, section)[fields[k].key] == Emits(fields[k], section).value
  {
    EmittedKeys(fields[1..], section);
    if k == 0 {
      assert fields[0].key !in Emitted(fields[1..], section);
    } else {
      EmittedFor(fields[1..], section, k - 1);
      assert fields[1..][k - 1] == fields[k];
    }
  }

  /** Writing what was emitted writes the same lines: nothing is lost or changed on the second pass. */
  lemma {:induction false} SameLinesAgain(fields: seq<Field>, section: Section, again: Section)
    requires forall k :: 0 <= k < |fields| ==> Emits(fields[k], again) == Emits(fields[k], section)
    ensures FieldLines(fields, again) == FieldLines(fields, section)
  {
    if fields != [] {
      assert forall k :: 0 <= k < |fields[1..]| ==> fields[1..][k] == fields[k + 1];
      SameLinesAgain(fields[1..], section, again);
    }
  }

  lemma PartWrittenAgain(part: Part, cfg: Doc, again: Doc)
    requires FieldsFit(part.fields) && (part.name in cfg <==> part.name in again)
    requires part.name in cfg ==> again[part.name] == Emitted(part.fields, cfg[part.name])
    ensures PartLines(part, again) == PartLines(part, cfg)
  {
    if part.name in cfg {
      forall k | 0 <= k < |part.fields|
        ensures Emits(part.fields[k], again[part.name]) == Emits(part.fields[k], cfg[part.name])
      {
        EmittedFor(part.fields, cfg[part.name], k);
      }
      SameLinesAgain(part.fields, cfg[part.name], again[part.name]);
    }
  }

  lemma {:induction false} LayoutWrittenAgain(layout: seq<Part>, cfg: Doc, again: Doc)
    requires LayoutFits(layout)
    requires forall i :: 0 <= i < |layout| ==> (layout[i].name in cfg <==> layout[i].name in again)
    requires forall i :: 0 <= i < |layout| && layout[i].name in cfg ==>
      again[layout[i].name] == Emitted(layout[i].fields, cfg[layout[i].name])
    ensures AllLines(layout, again) == AllLines(layout, cfg)
  {
    if layout != [] {
      PartWrittenAgain(layout[0], cfg, again);
      assert forall i :: 0 <= i < |layout[1..]| ==> layout[1..][i] == layout[i + 1];
      LayoutWrittenAgain(layout[1..], cfg, again);
    }
  }

  lemma {:induction false} EmittedPart(layout: seq<Part>, cfg: Doc, k: nat)
    requires LayoutFits(layout) && k < |layout|
    ensures layout[k].name in AllEmitted(layout, cfg) <==> layout[k].name in cfg
    ensures layout[k].name in cfg ==> AllEmitted(layout, cfg)[layout[k].name] == Emitted(layout[k].fields, cfg[layout[k].name])
  {
    AllEmittedNames(layout[1..], cfg);
    if k == 0 {
      assert layout[0].name !in AllEmitted(layout[1..], cfg);
    } else {
      EmittedPart(layout[1..], cfg, k - 1);
      assert layout[1..][k - 1] == layout[k];
    }
  }

  lemma EmittedIsTyped(layout: seq<Part>, cfg: Doc)
    requires LayoutFits(layout) && Typed(layout, cfg)
    ensures Typed(layout, AllEmitted(layout, cfg))
  {
    forall i, k | 0 <= i < |layout| && 0 <= k < |layout[i].fields| && layout[i].name in AllEmitted(layout, cfg)
                  && layout[i].fields[k].key in AllEmitted(layout, cfg)[layout[i].name]
      ensures Fits(layout[i].fields[k], AllEmitted(layout, cfg)[layout[i].name][layout[i].fields[k].key])
    {
      EmittedPart(layout, cfg, i);
      EmittedFor(layout[i].fields, cfg[layout[i].name], k);
    }
  }

  /** Reading a written config and writing it again gives the same text. */
  lemma WrittenAgainIsTheSame(cfg: Doc)
    requires Typed(Layout(), cfg) && CleanDoc(AllEmitted(Layout(), cfg))
    ensures Parse(Print(cfg)) == Some(AllEmitted(Layout(), cfg)) && Typed(Layout(), AllEmitted(Layout(), cfg))
    ensures Print(AllEmitted(Layout(), cfg)) == Print(cfg)
  {
    TextReadsBack(cfg);
    LayoutIsFit();
    EmittedIsTyped(Layout(), cfg);
    AgainFor(Layout(), cfg);
  }

  lemma AgainFor(layout: seq<Part>, cfg: Doc)
    requires LayoutFits(layout)
    ensures AllLines(layout, AllEmitted(layout, cfg)) == AllLines(layout, cfg)
  {
    forall k | 0 <= k < |layout|
      ensures (layout[k].name in cfg <==> layout[k].name in AllEmitted(layout, cfg))
        && (layout[k].name in cfg ==> AllEmitted(layout, cfg)[layout[k].name] == Emitted(layout[k].fields, cfg[layout[k].name]))
    {
      EmittedPart(layout, cfg, k);
    }
    LayoutWrittenAgain(layout, cfg, AllEmitted(layout, cfg));
  }

  function DeletedUrl(): Doc { map["database" := map["url" := Str([0x7F as char])]] }

  lemma DeletedUrlIsTyped()
    ensures Typed(Layout(), DeletedUrl())
  {
    var layout := Layout();
    NamesFit();
    assert layout[0].name == "database" && layout[0].fields[0] == Text("url", "") && layout[0].fields[1] == Flag("embedded");
    forall i, k | 0 <= i < |layout| && 0 <= k < |layout[i].fields| && layout[i].name in DeletedUrl()
                  && layout[i].fields[k].key in DeletedUrl()[layout[i].name]
      ensures Fits(layout[i].fields[k], DeletedUrl()[layout[i].name][layout[i].fields[k].key])
    {
      assert layout[i].name == layout[0].name;
      assert |layout[0].fields[1].key| != |"url"|;
    }
  }

  /** What is emitted of it: the one section, and the value in it. */
  lemma DeletedUrlIsEmitted()
    ensures !CleanDoc(AllEmitted(Layout(), DeletedUrl()))
  {
    var layout, cfg := Layout(), DeletedUrl();
    assert layout[0].name == "database" && layout[0].fields == [Text("url", ""), Flag("embedded")];
    LayoutIsFit();
    AllEmittedFirst(layout, cfg, map[]);
    EmittedFirst(layout[0].fields, cfg["database"], map[]);
    assert Emits(Text("url", ""), cfg["database"]) == Some(Str([0x7F as char]));
    assert !Clean([0x7F as char]) by {
      assert [0x7F as char][0] as int == 0x7F;
    }
  }

  /** A database URL of the one character JSON leaves raw and TOML does not allow: the file does not read at all. */
  lemma DeletedUrlIsUnreadable()
    ensures Typed(Layout(), DeletedUrl()) && Parse(Print(DeletedUrl())).None?
  {
    DeletedUrlIsTyped();
    DeletedUrlIsEmitted();
    TextReadsBack(DeletedUrl());
  }

  // ---- What the caller's config comes back as -----------------------------------------------

  /** A key's value when the caller's section has none, where one is written all the same. */
  function Default(f: Field): Option<Value> {
    match f
    case Text(_, default) => Some(Str(default))
    case Number(_) => Some(Int(0))
    case Switch(_) => Some(Bool(true))
    case List(_) => Some(Names([]))
    case TextIfSet(_) => None
    case Flag(_) => None
  }

  /** What need not be written to read back alike: an empty text and a flag that is off. */
  predicate ReadsAsAbsent(f: Field, v: Value) {
    (f.TextIfSet? && v == Str("")) || (f.Flag? && v != Bool(true))
  }

  /**
   * Of every config of the emitted sections, each key of the layout comes back with the caller's value; a key
   * the caller has no value for with its default, or not at all; and no section comes back that was not there.
   */
  lemma EmittedIsTheCallers(cfg: Doc, i: nat, k: nat)
    requires i < |Layout()| && k < |Layout()[i].fields|
    ensures var name, f := Layout()[i].name, Layout()[i].fields[k]; var emitted := AllEmitted(Layout(), cfg);
      && (name in emitted <==> name in cfg)
      && (name in cfg && f.key in cfg[name] && !ReadsAsAbsent(f, cfg[name][f.key]) ==>
            f.key in emitted[name] && emitted[name][f.key] == cfg[name][f.key])
      && (name in cfg && f.key in cfg[name] && ReadsAsAbsent(f, cfg[name][f.key]) ==> f.key !in emitted[name])
      && (name in cfg && f.key !in cfg[name] ==>
            (f.key in emitted[name] <==> Default(f).Some?) && (Default(f).Some? ==> emitted[name][f.key] == Default(f).value))
  {
    LayoutIsFit();
    EmittedPart(Layout(), cfg, i);
    if Layout()[i].name in cfg {
      EmittedFor(Layout()[i].fields, cfg[Layout()[i].name], k);
    }
  }

  // ---- As it is written ---------------------------------------------------------------------

  lemma {:induction false} OnlyPart(layout: seq<Part>, cfg: Doc, i: nat)
    requires i < |layout| && layout[i].name in cfg
    requires forall j :: 0 <= j < |layout| && j != i ==> layout[j].name !in cfg
    ensures AllLines(layout, cfg) == PartLines(layout[i], cfg)
  {
    if i == 0 {
      NoPart(layout[1..], cfg);
    } else {
      OnlyPart(layout[1..], cfg, i - 1);
    }
  }

  lemma {:induction false} NoPart(layout: seq<Part>, cfg: Doc)
    requires forall j :: 0 <= j < |layout| ==> layout[j].name !in cfg
    ensures AllLines(layout, cfg) == []
  {
    if layout != [] {
      assert forall j :: 0 <= j < |layout[1..]| ==> layout[1..][j] == layout[j + 1];
      NoPart(layout[1..], cfg);
    }
  }

  function Updates(section: Section): Doc { map["updates" := section] }

  lemma UpdatesHasItsPlace()
    ensures |Layout()| == 10 && Layout()[8] == Part("updates", [Switch("auto")])
  {
  }

  lemma UpdatesOnly(section: Section)
    ensures AllLines(Layout(), Updates(section)) == PartLines(Part("updates", [Switch("auto")]), Updates(section))
  {
    UpdatesHasItsPlace();
    NamesFit();
    var layout := Layout();
    forall j | 0 <= j < |layout| && j != 8
      ensures layout[j].name !in Updates(section)
    {
      assert layout[j].name != layout[8].name;
    }
    OnlyPart(layout, Updates(section), 8);
  }

  lemma UpdatesLines(section: Section, line: string)
    requires FieldLines([Switch("auto")], section) == [line]
    ensures PartLines(Part("updates", [Switch("auto")]), Updates(section)) == ["[updates]", line, ""]
  {
    assert "[" + "updates" + "]" == "[updates]";
  }

  /** A first config with one section, letter by letter. */
  lemma UpdatesAsWritten()
    ensures AllLines(Layout(), Updates(map[])) == ["[updates]", "auto = true", ""]
    ensures AllLines(Layout(), Updates(map["auto" := Bool(false)])) == ["[updates]", "auto = false", ""]
  {
    SwitchLines();
    UpdatesOnly(map[]);
    UpdatesLines(map[], "auto = true");
    UpdatesOnly(map["auto" := Bool(false)]);
    UpdatesLines(map["auto" := Bool(false)], "auto = false");
  }

  lemma JoinedByLineFeeds(a: string, b: string)
    ensures JoinLines([a, b, ""]) == a + "\n" + b + "\n"
  {
    assert [a, b, ""][1..] == [b, ""] && [b, ""][1..] == [""];
    assert JoinLines([""]) == "";
    assert JoinLines([b, ""]) == b + ['\n'] + "" == b + "\n";
    assert a + ['\n'] + (b + "\n") == a + "\n" + b + "\n";
  }

  lemma SwitchLines()
    ensures FieldLines([Switch("auto")], map[]) == ["auto = true"]
    ensures FieldLines([Switch("auto")], map["auto" := Bool(false)]) == ["auto = false"]
  {
    assert [Switch("auto")][1..] == [];
    assert FieldLine("auto", Bool(true)) == "auto = true" && FieldLine("auto", Bool(false)) == "auto = false";
  }
}
