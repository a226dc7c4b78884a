/** Which texts are accepted as which host library, line by line and table by table. */
module HostAccepted {
  import opened Wrappers
  import opened Text
  import opened HostModel
  import opened HostLines
  import opened HostTables
  import opened HostItems
  import opened HostBuild
  import opened HostCodec
  import opened HostMeaning
  import opened HostSections

  // ---------- Strings ----------

  /** The escape sequences of the format. */
  predicate EscapeOf(letter: char, c: char) {
    || (letter == '"' && c == '"') || (letter == '\\' && c == '\\')
    || (letter == 'n' && c == '\n') || (letter == 'r' && c == '\r') || (letter == 't' && c == '\t')
  }

  /** `v` spells `s`: every character stands for itself or is escaped, control characters always are. */
  ghost predicate Spells(v: string, s: string)
    decreases |s|
  {
    if s == [] then v == []
    else
      || (v != [] && v[0] != '\\' && !IsControl(v[0]) && v[0] == s[0] && Spells(v[1..], s[1..]))
      || (|v| >= 2 && v[0] == '\\' && EscapeOf(v[1], s[0]) && Spells(v[2..], s[1..]))
  }

  lemma {:induction false} UnescapeExactly(v: string, s: string)
    ensures Unescape(v) == Ok(s) <==> Spells(v, s)
    decreases |v|
  {
    if v != [] && v[0] != '\\' {
      if s != [] {
        UnescapeExactly(v[1..], s[1..]);
        assert s == [s[0]] + s[1..];
      }
    } else if |v| >= 2 {
      if s != [] {
        UnescapeExactly(v[2..], s[1..]);
        assert s == [s[0]] + s[1..];
      }
    }
  }

  ghost predicate QuotedSays(text: string, s: string) {
    |text| >= 2 && text[0] == '"' && text[|text| - 1] == '"' && Spells(text[1..|text| - 1], s)
  }

  lemma StringExactly(text: string, s: string)
    ensures ParseString(text) == Ok(s) <==> QuotedSays(text, s)
  {
    if |text| >= 2 {
      UnescapeExactly(text[1..|text| - 1], s);
    }
  }

  // ---------- Outside of strings ----------

  /** Position `i` is not inside a string literal of the line. */
  ghost predicate Bare(line: string, i: nat)
    requires i <= |line|
  {
    After(line[..i], Outside) == Outside
  }

  /** `i` is the first place of `c` outside of strings. */
  ghost predicate FirstBare(line: string, c: char, i: nat) {
    && i < |line| && line[i] == c && Bare(line, i)
    && forall j :: 0 <= j < i && line[j] == c ==> !Bare(line, j)
  }

  ghost predicate NoneBare(line: string, c: char) {
    forall j :: 0 <= j < |line| && line[j] == c ==> !Bare(line, j)
  }

  lemma {:induction false} SeekIs(s: string, m: Mode, c: char)
    requires c != '"'
    ensures var i := Seek(s, m, c); i < |s| ==> After(s[..i], m) == Outside
    ensures forall j :: 0 <= j < Seek(s, m, c) && s[j] == c ==> After(s[..j], m) != Outside
  {
    if s != [] && !(m == Outside && s[0] == c) {
      var rest, next := s[1..], Next(m, s[0]);
      SeekIs(rest, next, c);
      forall j | 0 < j <= |s|
        ensures After(s[..j], m) == After(rest[..j - 1], next)
      {
        assert s[..j][1..] == rest[..j - 1];
      }
      forall j | 0 <= j < Seek(s, m, c) && s[j] == c
        ensures After(s[..j], m) != Outside
      {
        if j > 0 {
          assert rest[j - 1] == c;
        }
      }
    }
  }

  lemma SeekExactly(line: string, c: char, i: nat)
    requires c != '"'
    ensures FirstBare(line, c, i) <==> i < |line| && Seek(line, Outside, c) == i
    ensures NoneBare(line, c) <==> Seek(line, Outside, c) == |line|
  {
    SeekIs(line, Outside, c);
    var k := Seek(line, Outside, c);
    if FirstBare(line, c, i) && k < |line| {
      assert Bare(line, k) && line[k] == c;
    }
  }

  // ---------- Lines ----------

  /** `code` is what the line says besides its comment. */
  ghost predicate CodeOf(raw: string, code: string) {
    || (NoneBare(raw, '#') && Bare(raw, |raw|) && code == raw)
    || exists i: nat :: FirstBare(raw, '#', i) && code == raw[..i]
  }

  lemma CodeExactly(raw: string, code: string)
    ensures StripComment(raw) == Ok(code) <==> CodeOf(raw, code)
  {
    var k := Seek(raw, Outside, '#');
    SeekExactly(raw, '#', k);
    assert raw[..|raw|] == raw;
    if i: nat :| FirstBare(raw, '#', i) && code == raw[..i] {
      SeekExactly(raw, '#', i);
    }
  }

  ghost predicate NumberSays(text: string, n: nat) {
    (forall i :: 0 <= i < |text| ==> '0' <= text[i] <= '9') && NumberOf(text) == n
  }

  /** The items of an array, separated by commas. */
  ghost predicate ItemsSay(s: string, items: seq<string>)
    decreases |s|
  {
    || (|items| == 1 && NoneBare(s, ',') && Bare(s, |s|) && QuotedSays(Trim(s), items[0]))
    || (|items| >= 1 &&
        exists i: nat :: FirstBare(s, ',', i) && QuotedSays(Trim(s[..i]), items[0]) && ItemsSay(s[i + 1..], items[1..]))
  }

  lemma {:induction false} ItemsExactly(s: string, items: seq<string>)
    ensures ParseItems(s) == Ok(items) <==> ItemsSay(s, items)
    decreases |s|
  {
    var k := Seek(s, Outside, ',');
    assert s[..|s|] == s;
    forall i: nat
      ensures FirstBare(s, ',', i) <==> i < |s| && k == i
      ensures NoneBare(s, ',') <==> k == |s|
    {
      SeekExactly(s, ',', i);
    }
    if items != [] {
      if k < |s| {
        StringExactly(Trim(s[..k]), items[0]);
        ItemsExactly(s[k + 1..], items[1..]);
        assert items == [items[0]] + items[1..];
        assert FirstBare(s, ',', k);
      } else {
        StringExactly(Trim(s), items[0]);
        assert |items| == 1 ==> items == [items[0]];
      }
    }
  }

  ghost predicate ArraySays(text: string, items: seq<string>) {
    && |text| >= 2 && text[0] == '[' && text[|text| - 1] == ']'
    && (var inner := Trim(text[1..|text| - 1]); if inner == "" then items == [] else ItemsSay(inner, items))
  }

  ghost predicate ValueSays(text: string, v: Value) {
    match v
    case Text(s) => QuotedSays(text, s)
    case Integer(n) => text != "" && NumberSays(text, n)
    case Texts(items) => ArraySays(text, items)
  }

  lemma ValueExactly(text: string, v: Value)
    requires text != ""
    ensures ParseValue(text) == Ok(v) <==> ValueSays(text, v)
  {
    match v
    case Text(s) => StringExactly(text, s);
    case Integer(n) =>
    case Texts(items) =>
      if |text| >= 2 {
        ItemsExactly(Trim(text[1..|text| - 1]), items);
      }
  }

  /** A key is made of ASCII letters, digits and underscores. */
  ghost predicate KeySays(name: string, k: Key) {
    && name != "" && KeyNamed(name) == k
    && forall i :: 0 <= i < |name| ==>
         '0' <= name[i] <= '9' || 'a' <= name[i] <= 'z' || 'A' <= name[i] <= 'Z' || name[i] == '_'
  }

  ghost predicate AssignmentSays(line: string, k: Key, v: Value) {
    exists i: nat :: FirstBare(line, '=', i) && KeySays(Trim(line[..i]), k) && ValueSays(Trim(line[i + 1..]), v)
  }

  lemma AssignmentExactly(line: string, e: Entry)
    ensures ParseAssignment(line) == Ok(e) <==> e.Assign? && AssignmentSays(line, e.key, e.value)
  {
    var k := Seek(line, Outside, '=');
    forall i: nat
      ensures FirstBare(line, '=', i) <==> i < |line| && k == i
    {
      SeekExactly(line, '=', i);
    }
    if k < |line| && e.Assign? {
      assert FirstBare(line, '=', k);
      if Trim(line[k + 1..]) != "" {
        ValueExactly(Trim(line[k + 1..]), e.value);
      }
    }
  }

  ghost predicate HeaderSays(line: string, kind: Kind) {
    match kind
    case HostTable => line == "[[host]]"
    case ChainTable => line == "[[chain]]"
    case HopTable => line == "[[hop]]"
  }

  lemma HeaderExactly(line: string, e: Entry)
    ensures ParseHeader(line) == Ok(e) <==> e.Header? && HeaderSays(line, e.kind)
  {
    assert |"[[host]]"| == 8 && |"[[chain]]"| == 9 && |"[[hop]]"| == 7;
  }

  /** What a line says: nothing, the start of a table, or a value for a key. */
  ghost predicate LineSays(raw: string, e: Entry) {
    exists code :: CodeOf(raw, code) && CodeSays(Trim(code), e)
  }

  ghost predicate CodeSays(line: string, e: Entry) {
    match e
    case Blank => line == ""
    case Header(kind) => HeaderSays(line, kind)
    case Assign(k, v) => line != "" && line[0] != '[' && AssignmentSays(line, k, v)
  }

  lemma LineExactly(raw: string, e: Entry)
    ensures ParseLine(raw) == Ok(e) <==> LineSays(raw, e)
  {
    forall code
      ensures StripComment(raw) == Ok(code) <==> CodeOf(raw, code)
    {
      CodeExactly(raw, code);
    }
    if StripComment(raw).Ok? {
      var code := StripComment(raw).value;
      assert CodeOf(raw, code);
      HeaderExactly(Trim(code), e);
      AssignmentExactly(Trim(code), e);
      if e.Header? && HeaderSays(Trim(code), e.kind) {
        assert Trim(code)[0] == '[';
      }
    }
  }

  // ---------- Whole files ----------

  ghost predicate LinesSay(lines: seq<string>, entries: seq<Entry>) {
    |lines| == |entries| && forall i :: 0 <= i < |lines| ==> LineSays(lines[i], entries[i])
  }

  ghost predicate TablesSay(tables: seq<Table>, items: seq<Item>) {
    |tables| == |items| && forall i :: 0 <= i < |tables| ==> TableSays(tables[i], items[i])
  }

  /** The head of the file: version 1 and two lists of folders that may be left out. */
  ghost predicate RootSays(root: Values, folders: seq<string>, jumpFolders: seq<string>) {
    && Field(root, "version") == Some(Integer(1))
    && MaybeTexts(Field(root, "folders"), folders) && MaybeTexts(Field(root, "jump_folders"), jumpFolders)
    && OnlyNamed(root, ["version", "folders", "jump_folders"])
  }

  lemma {:induction false} LinesExactly(lines: seq<string>, entries: seq<Entry>)
    ensures ParseLines(lines) == Ok(entries) <==> LinesSay(lines, entries)
  {
    if lines != [] && entries != [] {
      LineExactly(lines[0], entries[0]);
      LinesExactly(lines[1..], entries[1..]);
      assert lines == [lines[0]] + lines[1..] && entries == [entries[0]] + entries[1..];
    }
  }

  lemma {:induction false} TablesExactly(tables: seq<Table>, items: seq<Item>)
    ensures ItemsFrom(tables) == Ok(items) <==> TablesSay(tables, items)
  {
    if tables != [] && items != [] {
      TableExactly(tables[0], items[0]);
      TablesExactly(tables[1..], items[1..]);
      assert tables == [tables[0]] + tables[1..] && items == [items[0]] + items[1..];
    }
  }

  lemma RootExactly(root: Values, folders: seq<string>, jumpFolders: seq<string>)
    ensures RootSays(root, folders, jumpFolders) <==>
              && GetInteger(root, KVersion) == Ok(Some(DATABASE_VERSION)) && Only(root, ROOT_KEYS)
              && GetTexts(root, KFolders) == Ok(folders) && GetTexts(root, KJumpFolders) == Ok(jumpFolders)
  {
    RootNames();
    OnlyIsOnlyNamed(root, ROOT_KEYS, ["version", "folders", "jump_folders"]);
  }

  /** The document describes the database: its tables list each host, chain and hop once. */
  ghost predicate DocumentDescribes(doc: Document, db: Database) {
    && RootSays(doc.root, db.folders, db.jumpFolders) && ValidDatabase(db)
    && exists items :: TablesSay(doc.tables, items) && Lists(multiset(items), db)
  }

  ghost predicate TextSays(text: string, doc: Document) {
    exists entries :: LinesSay(Lines(text), entries) && NoKeyTwice(entries) && DocumentSays(doc, entries)
  }

  ghost predicate Describes(text: string, db: Database) {
    |Utf8(text)| <= 4194304 && exists doc :: TextSays(text, doc) && DocumentDescribes(doc, db)
  }

  /** What `Interpret` needs, with the folders it reads. */
  ghost predicate Reads(doc: Document, folders: seq<string>, jumpFolders: seq<string>, items: seq<Item>) {
    && GetInteger(doc.root, KVersion) == Ok(Some(DATABASE_VERSION)) && Only(doc.root, ROOT_KEYS)
    && GetTexts(doc.root, KFolders) == Ok(folders) && GetTexts(doc.root, KJumpFolders) == Ok(jumpFolders)
    && ItemsFrom(doc.tables) == Ok(items)
  }

  lemma InterpretReads(doc: Document, db: Database)
    requires Interpret(doc) == Ok(db)
    ensures exists folders, jumpFolders, items ::
              Reads(doc, folders, jumpFolders, items) && Build(folders, jumpFolders, items) == Ok(db)
  {
    var folders, jumpFolders := GetTexts(doc.root, KFolders).value, GetTexts(doc.root, KJumpFolders).value;
    var items := ItemsFrom(doc.tables).value;
    assert Reads(doc, folders, jumpFolders, items) && Build(folders, jumpFolders, items) == Ok(db);
  }

  lemma ReadsInterprets(doc: Document, folders: seq<string>, jumpFolders: seq<string>, items: seq<Item>)
    requires Reads(doc, folders, jumpFolders, items)
    ensures Interpret(doc) == Build(folders, jumpFolders, items)
  {
  }

  lemma ReadsExactly(doc: Document, folders: seq<string>, jumpFolders: seq<string>, items: seq<Item>)
    ensures Reads(doc, folders, jumpFolders, items) <==>
              RootSays(doc.root, folders, jumpFolders) && TablesSay(doc.tables, items)
  {
    RootExactly(doc.root, folders, jumpFolders);
    TablesExactly(doc.tables, items);
  }

  lemma InterpretExactly(doc: Document, db: Database)
    ensures Interpret(doc) == Ok(db) <==> DocumentDescribes(doc, db)
  {
    if Interpret(doc) == Ok(db) {
      InterpretReads(doc, db);
      var folders, jumpFolders, items :|
        Reads(doc, folders, jumpFolders, items) && Build(folders, jumpFolders, items) == Ok(db);
      ReadsExactly(doc, folders, jumpFolders, items);
      BuildExactly(folders, jumpFolders, items, db);
    }
    if DocumentDescribes(doc, db) {
      var items :| TablesSay(doc.tables, items) && Lists(multiset(items), db);
      ReadsExactly(doc, db.folders, db.jumpFolders, items);
      ReadsInterprets(doc, db.folders, db.jumpFolders, items);
      BuildExactly(db.folders, db.jumpFolders, items, db);
    }
  }

  lemma TextExactly(text: string, doc: Document)
    ensures (ParseLines(Lines(text)).Ok? && Gather(NOTHING, ParseLines(Lines(text)).value) == Ok(doc)) <==>
              TextSays(text, doc)
  {
    if ParseLines(Lines(text)).Ok? && Gather(NOTHING, ParseLines(Lines(text)).value) == Ok(doc) {
      var entries := ParseLines(Lines(text)).value;
      LinesExactly(Lines(text), entries);
      GatherExactly(entries, doc);
    }
    if TextSays(text, doc) {
      var entries :| LinesSay(Lines(text), entries) && NoKeyTwice(entries) && DocumentSays(doc, entries);
      LinesExactly(Lines(text), entries);
      GatherExactly(entries, doc);
    }
  }

  /** A text is accepted as a library exactly if its lines and tables describe that library. */
  lemma DecodeExactly(text: string, db: Database)
    ensures Decode(text) == Ok(db) <==> Describes(text, db)
  {
    if Decode(text) == Ok(db) {
      var doc := Gather(NOTHING, ParseLines(Lines(text)).value).value;
      TextExactly(text, doc);
      InterpretExactly(doc, db);
    }
    if Describes(text, db) {
      var doc :| TextSays(text, doc) && DocumentDescribes(doc, db);
      TextExactly(text, doc);
      InterpretExactly(doc, db);
    }
  }

  /** What decoding answers, accepted or not. */
  lemma DecodeDecides(text: string)
    ensures Decode(text).Ok? ==> Describes(text, Decode(text).value)
    ensures Decode(text).Err? ==> forall db :: !Describes(text, db)
  {
    if Decode(text).Ok? {
      DecodeExactly(text, Decode(text).value);
    } else {
      forall db
        ensures !Describes(text, db)
      {
        DecodeExactly(text, db);
      }
    }
  }
}
