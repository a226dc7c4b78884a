/** One line of the host library file, written and read: codec.rs. */
module HostLines {
  import opened Wrappers
  import opened Text

  datatype Kind = HostTable | ChainTable | HopTable

  /** The keys of the format; any other key is rejected in the end, whatever table it stands in. */
  datatype Key =
    | KAlias | KRole | KAddress | KPort | KUser | KIdentityFile | KGroups | KTags | KNote | KPolicy | KOs | KJumpChain
    | KLastConnected | KCount | KLastAuth | KVersion | KFolders | KJumpFolders | KName | KChain | KIndex | KKind | KHost
    | Unknown(text: string)

  datatype Value = Text(s: string) | Integer(n: U64) | Texts(items: seq<string>)

  datatype Entry = Blank | Header(kind: Kind) | Assign(key: Key, value: Value)

  function KeyName(k: Key): string {
    match k
    case KAlias => "alias"
    case KRole => "role"
    case KAddress => "address"
    case KPort => "port"
    case KUser => "user"
    case KIdentityFile => "identity_file"
    case KGroups => "groups"
    case KTags => "tags"
    case KNote => "note"
    case KPolicy => "host_key_policy"
    case KOs => "os_type"
    case KJumpChain => "jump_chain"
    case KLastConnected => "last_connected_unix"
    case KCount => "connection_count"
    case KLastAuth => "last_auth_method"
    case KVersion => "version"
    case KFolders => "folders"
    case KJumpFolders => "jump_folders"
    case KName => "name"
    case KChain => "chain"
    case KIndex => "index"
    case KKind => "kind"
    case KHost => "host"
    case Unknown(text) => text
  }

  /** The keys of four letters. */
  function ShortKey(s: string): (k: Key)
    requires |s| == 4
    ensures KeyName(k) == s
  {
    if s == "role" then KRole
    else if s == "port" then KPort
    else if s == "user" then KUser
    else if s == "tags" then KTags
    else if s == "note" then KNote
    else if s == "name" then KName
    else if s == "kind" then KKind
    else if s == "host" then KHost
    else Unknown(s)
  }

  /** The keys of five to seven letters. */
  function MiddleKey(s: string): (k: Key)
    requires 5 <= |s| <= 7
    ensures KeyName(k) == s
  {
    if |s| == 5 then
      if s == "alias" then KAlias else if s == "chain" then KChain else if s == "index" then KIndex else Unknown(s)
    else if |s| == 6 then
      if s == "groups" then KGroups else Unknown(s)
    else if s == "address" then KAddress
    else if s == "os_type" then KOs
    else if s == "version" then KVersion
    else if s == "folders" then KFolders
    else Unknown(s)
  }

  /** The longer keys differ in length, except for two. */
  function LongKey(s: string): (k: Key)
    requires |s| >= 10
    ensures KeyName(k) == s
  {
    if |s| == 10 && s == "jump_chain" then KJumpChain
    else if |s| == 12 && s == "jump_folders" then KJumpFolders
    else if |s| == 13 && s == "identity_file" then KIdentityFile
    else if |s| == 15 && s == "host_key_policy" then KPolicy
    else if |s| == 16 && s == "connection_count" then KCount
    else if |s| == 16 && s == "last_auth_method" then KLastAuth
    else if |s| == 19 && s == "last_connected_unix" then KLastConnected
    else Unknown(s)
  }

  function KeyNamed(s: string): (k: Key)
    ensures KeyName(k) == s
  {
    if |s| == 4 then ShortKey(s)
    else if 5 <= |s| <= 7 then MiddleKey(s)
    else if |s| >= 10 then LongKey(s)
    else Unknown(s)
  }

  /** The length and the first letter tell the keys apart. */
  lemma KeyNamesDiffer(k: Key)
    requires !k.Unknown?
    ensures KeyNamed(KeyName(k)) == k
  {
    var s := KeyName(k);
    assert s != [] && s[0] == s[0];
  }

  predicate KeyChar(c: char) {
    IsAsciiAlnum(c) || c == '_'
  }

  predicate KeyText(s: string) {
    s != [] && forall i :: 0 <= i < |s| ==> KeyChar(s[i])
  }

  predicate HostKey(k: Key) {
    || k.KAlias? || k.KRole? || k.KAddress? || k.KPort? || k.KUser? || k.KIdentityFile?
    || k.KGroups? || k.KTags? || k.KNote?
  }

  predicate SettingKey(k: Key) {
    k.KPolicy? || k.KOs? || k.KJumpChain? || k.KLastConnected? || k.KCount? || k.KLastAuth?
  }

  lemma HostKeysAreKeys(k: Key)
    requires HostKey(k)
    ensures KeyText(KeyName(k))
  {
  }

  lemma SettingKeysAreKeys(k: Key)
    requires SettingKey(k)
    ensures KeyText(KeyName(k))
  {
  }

  lemma KeyNamesAreKeys(k: Key)
    requires !k.Unknown?
    ensures KeyText(KeyName(k))
  {
    if HostKey(k) {
      HostKeysAreKeys(k);
    } else if SettingKey(k) {
      SettingKeysAreKeys(k);
    }
  }

  // ---------- Writing ----------

  function EscapeChar(c: char): string {
    if c == '"' then "\\\""
    else if c == '\\' then "\\\\"
    else if c == '\n' then "\\n"
    else if c == '\r' then "\\r"
    else if c == '\t' then "\\t"
    else [c]
  }

  function Escape(s: string): string {
    if s == [] then [] else EscapeChar(s[0]) + Escape(s[1..])
  }

  function Quote(s: string): string {
    "\"" + (Escape(s) + "\"")
  }

  function Join(items: seq<string>): string {
    if items == [] then []
    else if |items| == 1 then Quote(items[0])
    else Quote(items[0]) + (", " + Join(items[1..]))
  }

  function ShowValue(v: Value): string {
    match v
    case Text(s) => Quote(s)
    case Integer(n) => Decimal(n)
    case Texts(items) => "[" + (Join(items) + "]")
  }

  function ShowKind(kind: Kind): string {
    match kind
    case HostTable => "[[host]]"
    case ChainTable => "[[chain]]"
    case HopTable => "[[hop]]"
  }

  function Show(e: Entry): string {
    match e
    case Blank => ""
    case Header(kind) => ShowKind(kind)
    case Assign(key, value) => KeyName(key) + (" = " + ShowValue(value))
  }

  // ---------- Scanning around string literals ----------

  datatype Mode = Outside | Inside | Escaped

  function Next(m: Mode, c: char): Mode {
    match m
    case Escaped => Inside
    case Inside => if c == '\\' then Escaped else if c == '"' then Outside else Inside
    case Outside => if c == '"' then Inside else Outside
  }

  function After(s: string, m: Mode): Mode {
    if s == [] then m else After(s[1..], Next(m, s[0]))
  }

  /** The first `target` outside string literals, or the length. */
  function Seek(s: string, m: Mode, target: char): (i: nat)
    ensures i <= |s| && (i < |s| ==> s[i] == target)
  {
    if s == [] then 0
    else if m == Outside && s[0] == target && target != '"' then 0
    else 1 + Seek(s[1..], Next(m, s[0]), target)
  }

  // ---------- Reading ----------

  function StripComment(line: string): Result<string> {
    var i := Seek(line, Outside, '#');
    if i < |line| then Ok(line[..i]) else if After(line, Outside) == Outside then Ok(line) else Err
  }

  function UnescapeChar(c: char): Result<char> {
    if c == '"' then Ok('"')
    else if c == '\\' then Ok('\\')
    else if c == 'n' then Ok('\n')
    else if c == 'r' then Ok('\r')
    else if c == 't' then Ok('\t')
    else Err
  }

  function Unescape(s: string): Result<string> {
    if s == [] then Ok([])
    else if s[0] != '\\' then
      if IsControl(s[0]) then Err
      else
        var more :- Unescape(s[1..]);
        Ok([s[0]] + more)
    else if |s| == 1 then Err
    else
      var c :- UnescapeChar(s[1]);
      var more :- Unescape(s[2..]);
      Ok([c] + more)
  }

  function ParseString(v: string): Result<string> {
    if |v| < 2 || v[|v| - 1] != '"' || v[0] != '"' then Err else Unescape(v[1..|v| - 1])
  }

  function ParseItems(s: string): Result<seq<string>>
    decreases |s|
  {
    var i := Seek(s, Outside, ',');
    if i < |s| then
      var first :- ParseString(Trim(s[..i]));
      var more :- ParseItems(s[i + 1..]);
      Ok([first] + more)
    else if After(s, Outside) != Outside then Err
    else
      var last :- ParseString(Trim(s));
      Ok([last])
  }

  function ParseArray(v: string): Result<seq<string>> {
    if |v| < 2 || v[|v| - 1] != ']' then Err
    else
      var inner := Trim(v[1..|v| - 1]);
      if inner == [] then Ok([]) else ParseItems(inner)
  }

  predicate AllDigits(s: string) {
    forall i :: 0 <= i < |s| ==> IsDigit(s[i])
  }

  function ParseValue(v: string): Result<Value>
    requires v != []
  {
    if v[0] == '"' then
      var s :- ParseString(v);
      Ok(Text(s))
    else if v[0] == '[' then
      var items :- ParseArray(v);
      Ok(Texts(items))
    else if AllDigits(v) && NumberOf(v) < 0x1_0000_0000_0000_0000 then Ok(Integer(NumberOf(v)))
    else Err
  }

  function ParseAssignment(line: string): Result<Entry> {
    var i := Seek(line, Outside, '=');
    if i == |line| then Err
    else
      var key, value := Trim(line[..i]), Trim(line[i + 1..]);
      if !KeyText(key) || value == [] then Err
      else
        var v :- ParseValue(value);
        Ok(Assign(KeyNamed(key), v))
  }

  function ParseHeader(line: string): Result<Entry> {
    if line == "[[host]]" then Ok(Header(HostTable))
    else if line == "[[chain]]" then Ok(Header(ChainTable))
    else if line == "[[hop]]" then Ok(Header(HopTable))
    else Err
  }

  function ParseLine(raw: string): Result<Entry> {
    var stripped :- StripComment(raw);
    var line := Trim(stripped);
    if line == [] then Ok(Blank)
    else if line[0] == '[' then ParseHeader(line)
    else ParseAssignment(line)
  }

  // ---------- What can be read back ----------

  /** No control character except those with an escape. */
  predicate Clean(s: string) {
    forall i :: 0 <= i < |s| ==> IsControl(s[i]) ==> s[i] in {'\n', '\r', '\t'}
  }

  predicate AllClean(items: seq<string>) {
    forall i :: 0 <= i < |items| ==> Clean(items[i])
  }

  predicate CleanValue(v: Value) {
    match v
    case Text(s) => Clean(s)
    case Integer(_) => true
    case Texts(items) => AllClean(items)
  }

  predicate CleanEntry(e: Entry) {
    e.Assign? ==> CleanValue(e.value)
  }

  lemma {:induction false} AfterConcat(a: string, b: string, m: Mode)
    ensures After(a + b, m) == After(b, After(a, m))
  {
    if a == [] {
      assert a + b == b;
    } else {
      AfterConcat(a[1..], b, Next(m, a[0]));
      assert (a + b)[1..] == a[1..] + b;
    }
  }

  /** Scanning `a` finds no target and leaves the scanner in mode `to`. */
  ghost predicate Passes(a: string, from: Mode, target: char, to: Mode) {
    Seek(a, from, target) == |a| && After(a, from) == to
  }

  lemma {:induction false} SeekConcat(a: string, b: string, m: Mode, target: char)
    requires Seek(a, m, target) == |a|
    ensures Seek(a + b, m, target) == |a| + Seek(b, After(a, m), target)
  {
    if a == [] {
      assert a + b == b;
    } else {
      SeekConcat(a[1..], b, Next(m, a[0]), target);
      assert (a + b)[1..] == a[1..] + b;
    }
  }

  lemma PassesConcat(a: string, b: string, m1: Mode, m2: Mode, m3: Mode, target: char)
    requires Passes(a, m1, target, m2) && Passes(b, m2, target, m3)
    ensures Passes(a + b, m1, target, m3)
  {
    SeekConcat(a, b, m1, target);
    AfterConcat(a, b, m1);
  }

  lemma {:induction false} PlainPasses(s: string, target: char)
    requires forall i :: 0 <= i < |s| ==> s[i] != '"' && s[i] != target
    ensures Passes(s, Outside, target, Outside)
  {
    if s != [] {
      PlainPasses(s[1..], target);
    }
  }

  lemma EscapeCharPasses(c: char, target: char)
    ensures Passes(EscapeChar(c), Inside, target, Inside)
  {
    var e := EscapeChar(c);
    if |e| == 2 {
      assert e[0] == '\\' && e[1..][1..] == [];
      assert After(e[1..], Escaped) == After([], Inside);
    }
  }

  lemma {:induction false} EscapePasses(s: string, target: char)
    ensures Passes(Escape(s), Inside, target, Inside)
  {
    if s != [] {
      EscapeCharPasses(s[0], target);
      EscapePasses(s[1..], target);
      PassesConcat(EscapeChar(s[0]), Escape(s[1..]), Inside, Inside, Inside, target);
    }
  }

  lemma QuotePasses(s: string, target: char)
    requires target != '"'
    ensures Passes(Quote(s), Outside, target, Outside)
  {
    EscapePasses(s, target);
    PassesConcat(Escape(s), "\"", Inside, Inside, Outside, target);
    PassesConcat("\"", Escape(s) + "\"", Outside, Inside, Outside, target);
  }

  lemma {:induction false} JoinPasses(items: seq<string>, target: char)
    requires target !in {'"', ',', ' '}
    ensures Passes(Join(items), Outside, target, Outside)
  {
    if |items| == 1 {
      QuotePasses(items[0], target);
    } else if items != [] {
      QuotePasses(items[0], target);
      JoinPasses(items[1..], target);
      PlainPasses(", ", target);
      PassesConcat(", ", Join(items[1..]), Outside, Outside, Outside, target);
      PassesConcat(Quote(items[0]), ", " + Join(items[1..]), Outside, Outside, Outside, target);
    }
  }

  lemma ValuePasses(v: Value, target: char)
    requires target in {'#', '='}
    ensures Passes(ShowValue(v), Outside, target, Outside)
  {
    match v
    case Text(s) => QuotePasses(s, target);
    case Integer(n) => PlainPasses(Decimal(n), target);
    case Texts(items) =>
      JoinPasses(items, target);
      PlainPasses("]", target);
      PlainPasses("[", target);
      PassesConcat(Join(items), "]", Outside, Outside, Outside, target);
      PassesConcat("[", Join(items) + "]", Outside, Outside, Outside, target);
  }

  // ---------- Strings ----------

  lemma UnescapeStep(c: char, rest: string)
    ensures Unescape(EscapeChar(c) + rest) ==
            if !IsControl(c) || c in {'\n', '\r', '\t'} then
              (if Unescape(rest).Ok? then Ok([c] + Unescape(rest).value) else Err)
            else Err
  {
    var s := EscapeChar(c) + rest;
    if |EscapeChar(c)| == 2 {
      assert s[2..] == rest;
    } else {
      assert s[1..] == rest;
    }
  }

  lemma {:induction false} UnescapeOfEscape(s: string)
    ensures Unescape(Escape(s)) == if Clean(s) then Ok(s) else Err
  {
    if s != [] {
      UnescapeOfEscape(s[1..]);
      UnescapeStep(s[0], Escape(s[1..]));
      assert s == [s[0]] + s[1..];
      assert Clean(s) ==> Clean(s[1..]);
    }
  }

  lemma ParseStringOfQuote(s: string)
    ensures ParseString(Quote(s)) == if Clean(s) then Ok(s) else Err
  {
    var q := Quote(s);
    assert q[1..|q| - 1] == Escape(s);
    UnescapeOfEscape(s);
  }

  lemma {:induction false} UnescapedIsClean(s: string)
    requires Unescape(s).Ok?
    ensures Clean(Unescape(s).value)
    decreases |s|
  {
    if s != [] {
      if s[0] != '\\' {
        UnescapedIsClean(s[1..]);
      } else {
        UnescapedIsClean(s[2..]);
      }
    }
  }

  lemma ParsedStringIsClean(v: string)
    requires ParseString(v).Ok?
    ensures Clean(ParseString(v).value)
  {
    UnescapedIsClean(v[1..|v| - 1]);
  }

  lemma CleanOneMore(x: string, more: seq<string>)
    requires Clean(x) && AllClean(more)
    ensures AllClean([x] + more)
  {
  }

  lemma {:induction false} ParsedItemsAreClean(s: string)
    requires ParseItems(s).Ok?
    ensures AllClean(ParseItems(s).value)
    decreases |s|
  {
    var i := Seek(s, Outside, ',');
    if i < |s| {
      ParsedStringIsClean(Trim(s[..i]));
      ParsedItemsAreClean(s[i + 1..]);
      CleanOneMore(ParseString(Trim(s[..i])).value, ParseItems(s[i + 1..]).value);
    } else {
      ParsedStringIsClean(Trim(s));
    }
  }

  // ---------- Arrays ----------

  lemma QuoteIsTrimmed(s: string)
    ensures Quote(s) != [] && Trimmed(Quote(s))
  {
  }

  lemma {:induction false} JoinIsTrimmed(items: seq<string>)
    requires items != []
    ensures Join(items) != [] && Trimmed(Join(items))
  {
    if |items| > 1 {
      JoinIsTrimmed(items[1..]);
    }
  }

  function Appended(first: Result<string>, more: Result<seq<string>>): Result<seq<string>> {
    if first.Ok? && more.Ok? then Ok([first.value] + more.value) else Err
  }

  /** The items before and after a comma are read separately. */
  lemma ItemsSplit(piece: string, rest: string)
    requires Passes(piece, Outside, ',', Outside)
    ensures ParseItems(piece + ("," + rest)) == Appended(ParseString(Trim(piece)), ParseItems(rest))
  {
    var s := piece + ("," + rest);
    SeekConcat(piece, "," + rest, Outside, ',');
    assert s[..|piece|] == piece && s[|piece| + 1..] == rest;
  }

  lemma LastItem(piece: string)
    requires Passes(piece, Outside, ',', Outside)
    ensures ParseItems(piece) == Appended(ParseString(Trim(piece)), Ok([]))
  {
    var last := ParseString(Trim(piece));
    assert last.Ok? ==> [last.value] + [] == [last.value];
  }

  lemma PaddedQuote(pad: string, s: string)
    requires pad == "" || pad == " "
    ensures Trim(pad + Quote(s)) == Quote(s) && Passes(pad + Quote(s), Outside, ',', Outside)
  {
    QuoteIsTrimmed(s);
    TrimBlanks(Quote(s));
    QuotePasses(s, ',');
    PlainPasses(pad, ',');
    PassesConcat(pad, Quote(s), Outside, Outside, Outside, ',');
    assert "" + Quote(s) == Quote(s);
  }

  lemma JoinSplits(items: seq<string>, pad: string)
    requires |items| > 1
    ensures pad + Join(items) == (pad + Quote(items[0])) + ("," + (" " + Join(items[1..])))
  {
    Reassociate(",", " ", Join(items[1..]));
    Reassociate(pad, Quote(items[0]), ", " + Join(items[1..]));
  }

  /** All the items, when each of them can be read. */
  function IfClean(items: seq<string>): Result<seq<string>> {
    if AllClean(items) then Ok(items) else Err
  }

  lemma IfCleanSplits(items: seq<string>)
    requires items != []
    ensures IfClean(items) == Appended(ParseString(Quote(items[0])), IfClean(items[1..]))
  {
    ParseStringOfQuote(items[0]);
    assert items == [items[0]] + items[1..];
    assert AllClean(items) <==> Clean(items[0]) && AllClean(items[1..]);
  }

  lemma {:induction false} ItemsOfJoin(items: seq<string>, pad: string)
    requires items != [] && (pad == "" || pad == " ")
    ensures ParseItems(pad + Join(items)) == IfClean(items)
  {
    var q := pad + Quote(items[0]);
    PaddedQuote(pad, items[0]);
    IfCleanSplits(items);
    if |items| == 1 {
      LastItem(q);
      assert items[1..] == [];
    } else {
      JoinSplits(items, pad);
      ItemsSplit(q, " " + Join(items[1..]));
      ItemsOfJoin(items[1..], " ");
    }
  }

  lemma ArrayOfJoin(items: seq<string>)
    ensures ParseArray("[" + (Join(items) + "]")) == if AllClean(items) then Ok(items) else Err
  {
    var v := "[" + (Join(items) + "]");
    assert v[1..|v| - 1] == Join(items);
    if items != [] {
      JoinIsTrimmed(items);
      TrimBlanks(Join(items));
      ItemsOfJoin(items, "");
      assert "" + Join(items) == Join(items);
    }
  }

  // ---------- Lines ----------

  lemma ShownValue(v: Value)
    ensures ShowValue(v) != [] && Trimmed(ShowValue(v))
    ensures ParseValue(ShowValue(v)) == if CleanValue(v) then Ok(v) else Err
  {
    match v
    case Text(s) => ParseStringOfQuote(s);
    case Integer(n) =>
      ValueOfDecimal(n);
      assert IsDigit(Decimal(n)[0]);
    case Texts(items) => ArrayOfJoin(items);
  }

  lemma KeyPasses(key: string, target: char)
    requires KeyText(key) && target in {'#', '='}
    ensures Trimmed(key) && key[0] != '[' && Passes(key, Outside, target, Outside)
    ensures Passes(key + " ", Outside, target, Outside)
  {
    PlainPasses(key, target);
    PlainPasses(" ", target);
    PassesConcat(key, " ", Outside, Outside, Outside, target);
  }

  lemma AssignmentSplits(key: string, shown: string)
    requires KeyText(key) && shown != [] && Trimmed(shown)
    ensures var line := key + (" = " + shown); var i := Seek(line, Outside, '=');
            i < |line| && Trim(line[..i]) == key && Trim(line[i + 1..]) == shown
  {
    var line := key + (" = " + shown);
    assert line == (key + " ") + ("= " + shown);
    KeyPasses(key, '=');
    SeekConcat(key + " ", "= " + shown, Outside, '=');
    var i := |key| + 1;
    assert line[..i] == key + " " && line[i + 1..] == " " + shown;
    TrimBlanks(key);
    TrimBlanks(shown);
  }

  lemma AssignmentIsReadBack(key: string, v: Value)
    requires KeyText(key)
    ensures ParseAssignment(key + (" = " + ShowValue(v))) == if CleanValue(v) then Ok(Assign(KeyNamed(key), v)) else Err
  {
    ShownValue(v);
    AssignmentSplits(key, ShowValue(v));
  }

  lemma AssignmentHasNoComment(key: string, v: Value)
    requires KeyText(key)
    ensures var line := key + (" = " + ShowValue(v));
            StripComment(line) == Ok(line) && Trim(line) == line && line[0] != '['
  {
    var line := key + (" = " + ShowValue(v));
    KeyPasses(key, '#');
    ValuePasses(v, '#');
    PlainPasses(" = ", '#');
    PassesConcat(" = ", ShowValue(v), Outside, Outside, Outside, '#');
    PassesConcat(key, " = " + ShowValue(v), Outside, Outside, Outside, '#');
    ShownValue(v);
    assert line[|line| - 1] == ShowValue(v)[|ShowValue(v)| - 1];
    TrimBlanks(line);
  }

  lemma BracketLine(line: string)
    requires line != [] && Trimmed(line) && line[0] == '['
    requires forall i :: 0 <= i < |line| ==> line[i] != '"' && line[i] != '#'
    ensures ParseLine(line) == ParseHeader(line)
  {
    PlainPasses(line, '#');
    TrimBlanks(line);
  }

  lemma HeaderIsReadBack(kind: Kind)
    ensures ParseLine(ShowKind(kind)) == Ok(Header(kind))
  {
    BracketLine(ShowKind(kind));
    assert |"[[host]]"| == 8 && |"[[chain]]"| == 9 && |"[[hop]]"| == 7;
  }

  /** A written line is read back as it was meant, or refused when a text in it has an inexpressible character. */
  lemma ShownLineIsReadBack(e: Entry)
    requires e.Assign? ==> !e.key.Unknown?
    ensures ParseLine(Show(e)) == if CleanEntry(e) then Ok(e) else Err
  {
    match e
    case Blank =>
    case Header(kind) => HeaderIsReadBack(kind);
    case Assign(key, value) =>
      KeyNamesAreKeys(key);
      KeyNamesDiffer(key);
      AssignmentHasNoComment(KeyName(key), value);
      AssignmentIsReadBack(KeyName(key), value);
  }

  /** Whatever a line is read as can be written again. */
  lemma ParsedLineIsClean(raw: string)
    requires ParseLine(raw).Ok?
    ensures CleanEntry(ParseLine(raw).value)
  {
    var line := Trim(StripComment(raw).value);
    if line != [] && line[0] != '[' {
      var i := Seek(line, Outside, '=');
      var v := Trim(line[i + 1..]);
      if v[0] == '"' {
        UnescapedIsClean(v[1..|v| - 1]);
      } else if v[0] == '[' {
        var inner := Trim(v[1..|v| - 1]);
        if inner != [] {
          ParsedItemsAreClean(inner);
        }
      }
    }
  }

  // ---------- Line breaks ----------

  lemma {:induction false} EscapeHasNoBreak(s: string)
    ensures '\n' !in Escape(s)
  {
    if s != [] {
      EscapeHasNoBreak(s[1..]);
      assert '\n' !in EscapeChar(s[0]);
    }
  }

  lemma {:induction false} JoinHasNoBreak(items: seq<string>)
    ensures '\n' !in Join(items)
  {
    if items != [] {
      EscapeHasNoBreak(items[0]);
      JoinHasNoBreak(items[1..]);
    }
  }

  lemma ShownValueIsPlain(v: Value)
    ensures '\n' !in ShowValue(v)
  {
    match v
    case Text(s) => EscapeHasNoBreak(s);
    case Integer(n) =>
    case Texts(items) => JoinHasNoBreak(items);
  }

  lemma PlainAssignment(key: string, shown: string)
    requires KeyText(key) && shown != [] && Trimmed(shown) && '\n' !in shown
    ensures PlainLine(key + (" = " + shown))
  {
    var line := key + (" = " + shown);
    assert '\n' !in key && '\n' !in " = ";
    assert line[|line| - 1] == shown[|shown| - 1];
  }

  /** A written entry is one line. */
  lemma ShownLineIsPlain(e: Entry)
    requires e.Assign? ==> !e.key.Unknown?
    ensures PlainLine(Show(e))
  {
    if e.Assign? {
      KeyNamesAreKeys(e.key);
      ShownValueIsPlain(e.value);
      ShownValue(e.value);
      PlainAssignment(KeyName(e.key), ShowValue(e.value));
    }
  }
}
