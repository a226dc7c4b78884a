/** The host library file as a whole: `encode` and `decode` in codec.rs. */
module HostCodec {
  import opened Wrappers
  import opened Text
  import opened HostModel
  import opened HostLines
  import opened HostTables
  import opened HostItems
  import opened HostBuild

  const REMARK := "# Kaduox-SSH host library." + (" Secrets are intentionally" + " not stored here.")
  const MAX_BYTES := 4 * 1024 * 1024
  const ROOT_KEYS := [KVersion, KFolders, KJumpFolders]

  function ListField(names: seq<string>): Option<Value> {
    if names == [] then None else Some(Texts(names))
  }

  function RootField(db: Database, k: Key): Option<Value> {
    match k
    case KVersion => Some(Integer(db.version))
    case KFolders => ListField(db.folders)
    case KJumpFolders => ListField(db.jumpFolders)
    case _ => None
  }

  function RootFields(db: Database): Key -> Option<Value> {
    k => RootField(db, k)
  }

  function EntriesOf(items: seq<Item>): seq<Entry> {
    if items == [] then [] else ItemEntries(items[0]) + EntriesOf(items[1..])
  }

  function DatabaseEntries(db: Database): seq<Entry>
    requires ValidDatabase(db)
  {
    Assignments(ROOT_KEYS, RootFields(db)) + EntriesOf(ItemsOf(db))
  }

  function ShowAll(entries: seq<Entry>): seq<string> {
    if entries == [] then [] else [Show(entries[0])] + ShowAll(entries[1..])
  }

  function Encode(db: Database): Result<string> {
    if ValidDatabase(db) then Ok(Unlines([REMARK] + ShowAll(DatabaseEntries(db)))) else Err
  }

  function ParseLines(lines: seq<string>): Result<seq<Entry>> {
    if lines == [] then Ok([])
    else
      var e :- ParseLine(lines[0]);
      var more :- ParseLines(lines[1..]);
      Ok([e] + more)
  }

  function ItemsFrom(tables: seq<Table>): Result<seq<Item>> {
    if tables == [] then Ok([])
    else
      var x :- FromTable(tables[0]);
      var more :- ItemsFrom(tables[1..]);
      Ok([x] + more)
  }

  function Interpret(doc: Document): Result<Database> {
    var version :- GetInteger(doc.root, KVersion);
    var folders :- GetTexts(doc.root, KFolders);
    var jumpFolders :- GetTexts(doc.root, KJumpFolders);
    var items :- ItemsFrom(doc.tables);
    if version == Some(DATABASE_VERSION) && Only(doc.root, ROOT_KEYS) then Build(folders, jumpFolders, items) else Err
  }

  function Decode(text: string): Result<Database> {
    if |Utf8(text)| > MAX_BYTES then Err
    else
      var entries :- ParseLines(Lines(text));
      var doc :- Gather(NOTHING, entries);
      Interpret(doc)
  }

  // ---------- Lines ----------

  ghost predicate Known(entries: seq<Entry>) {
    forall e <- entries :: e.Assign? ==> !e.key.Unknown?
  }

  ghost predicate CleanEntries(entries: seq<Entry>) {
    forall e <- entries :: CleanEntry(e)
  }

  lemma CleanConcat(a: seq<Entry>, b: seq<Entry>)
    ensures CleanEntries(a + b) <==> CleanEntries(a) && CleanEntries(b)
    ensures Known(a + b) <==> Known(a) && Known(b)
  {
    assert forall e <- a :: e in a + b;
    assert forall e <- b :: e in a + b;
  }

  lemma {:induction false} ShownLines(entries: seq<Entry>)
    requires Known(entries)
    ensures |ShowAll(entries)| == |entries|
    ensures forall i :: 0 <= i < |entries| ==> PlainLine(ShowAll(entries)[i])
    ensures ParseLines(ShowAll(entries)) == if CleanEntries(entries) then Ok(entries) else Err
  {
    if entries != [] {
      var e, rest := entries[0], entries[1..];
      assert entries == [e] + rest;
      CleanConcat([e], rest);
      ShownLines(rest);
      ShownLineIsPlain(e);
      ShownLineIsReadBack(e);
      assert ShowAll(entries)[1..] == ShowAll(rest);
    }
  }

  lemma CommentIsBlank(line: string)
    requires line != [] && line[0] == '#'
    ensures ParseLine(line) == Ok(Blank)
  {
    assert Seek(line, Outside, '#') == 0 && line[..0] == [];
  }

  predicate NoBreak(s: string) {
    forall i :: 0 <= i < |s| ==> s[i] != '\n' && s[i] != '\r'
  }

  lemma RemarkHead()
    ensures NoBreak("# Kaduox-SSH host library.") && "# Kaduox-SSH host library."[0] == '#'
  {
  }

  lemma RemarkMiddle()
    ensures NoBreak(" Secrets are intentionally")
  {
  }

  lemma RemarkEnd()
    ensures NoBreak(" not stored here.")
  {
  }

  lemma NoBreakConcat(a: string, b: string)
    requires NoBreak(a) && NoBreak(b)
    ensures NoBreak(a + b)
  {
  }

  lemma RemarkIsBlank()
    ensures PlainLine(REMARK) && ParseLine(REMARK) == Ok(Blank)
  {
    RemarkHead();
    RemarkMiddle();
    RemarkEnd();
    NoBreakConcat(" Secrets are intentionally", " not stored here.");
    NoBreakConcat("# Kaduox-SSH host library.", " Secrets are intentionally" + " not stored here.");
    CommentIsBlank(REMARK);
  }

  lemma EncodedLines(entries: seq<Entry>)
    requires Known(entries)
    ensures var lines := [REMARK] + ShowAll(entries);
            ParseLines(Lines(Unlines(lines))) == if CleanEntries(entries) then Ok([Blank] + entries) else Err
  {
    var lines := [REMARK] + ShowAll(entries);
    ShownLines(entries);
    RemarkIsBlank();
    LinesOfUnlines(lines);
    assert lines[1..] == ShowAll(entries);
  }

  // ---------- Tables ----------

  ghost function TablesOf(items: seq<Item>): seq<Table> {
    if items == [] then [] else [ItemTable(items[0])] + TablesOf(items[1..])
  }

  lemma HostKeysAreDistinct()
    ensures Distinct(HOST_KEYS)
  {
    assert forall i :: 0 <= i < |HOST_KEYS| ==> HostPlace(HOST_KEYS[i]) == i;
  }

  lemma HopKeysAreDistinct()
    ensures Distinct(INLINE_KEYS) && Distinct(NAMED_KEYS)
  {
    assert forall i :: 0 <= i < |INLINE_KEYS| ==> HopPlace(INLINE_KEYS[i]) == i;
    assert forall i :: 0 <= i < |NAMED_KEYS| ==> HopPlace(NAMED_KEYS[i]) == i;
  }

  lemma ItemKeysAreDistinct(item: Item)
    ensures Distinct(ItemKeys(item))
  {
    HostKeysAreDistinct();
    HopKeysAreDistinct();
  }

  lemma GatherItem(doc: Document, item: Item)
    ensures Gather(doc, ItemEntries(item)) == Ok(AddTables(doc, [ItemTable(item)]))
  {
    ItemKeysAreDistinct(item);
    GatherTable(doc, ItemKind(item), ItemKeys(item), ItemFields(item));
  }

  function AddTables(doc: Document, tables: seq<Table>): Document {
    doc.(tables := doc.tables + tables)
  }

  lemma GatherStep(doc: Document, entries: seq<Entry>, t: Table, more: seq<Entry>, tables: seq<Table>)
    requires Gather(doc, entries) == Ok(AddTables(doc, [t]))
    requires Gather(AddTables(doc, [t]), more) == Ok(AddTables(AddTables(doc, [t]), tables))
    ensures Gather(doc, entries + more) == Ok(AddTables(doc, [t] + tables))
  {
    GatherConcat(doc, entries, more);
    assert (doc.tables + [t]) + tables == doc.tables + ([t] + tables);
  }

  lemma {:induction false} GatherItems(doc: Document, items: seq<Item>)
    ensures Gather(doc, EntriesOf(items)) == Ok(AddTables(doc, TablesOf(items)))
    decreases |items|
  {
    if items == [] {
      assert doc.tables + [] == doc.tables;
    } else {
      var t := ItemTable(items[0]);
      GatherItem(doc, items[0]);
      GatherItems(AddTables(doc, [t]), items[1..]);
      GatherStep(doc, ItemEntries(items[0]), t, EntriesOf(items[1..]), TablesOf(items[1..]));
    }
  }

  ghost predicate ValidItems(items: seq<Item>) {
    forall x <- items :: ValidItem(x)
  }

  lemma {:induction false} TablesAreReadBack(items: seq<Item>)
    requires ValidItems(items)
    ensures ItemsFrom(TablesOf(items)) == Ok(items)
  {
    if items != [] {
      TableIsReadBack(items[0]);
      TablesAreReadBack(items[1..]);
      assert TablesOf(items)[1..] == TablesOf(items[1..]);
      assert items == [items[0]] + items[1..];
    }
  }

  function RootValues(db: Database): Values {
    ValuesOf(ROOT_KEYS, RootFields(db))
  }

  lemma RootKeysAreDistinct()
    ensures Distinct(ROOT_KEYS)
  {
  }

  lemma GatherWritten(db: Database, items: seq<Item>)
    ensures Gather(NOTHING, [Blank] + (Assignments(ROOT_KEYS, RootFields(db)) + EntriesOf(items)))
         == Ok(Document(RootValues(db), TablesOf(items)))
  {
    var root, tables := Assignments(ROOT_KEYS, RootFields(db)), EntriesOf(items);
    assert ([Blank] + (root + tables))[1..] == root + tables;
    RootKeysAreDistinct();
    GatherRoot(map[], ROOT_KEYS, RootFields(db));
    assert map[] + RootValues(db) == RootValues(db);
    GatherConcat(NOTHING, root, tables);
    GatherItems(Document(RootValues(db), []), items);
    assert [] + TablesOf(items) == TablesOf(items);
  }

  lemma RootIsReadBack(db: Database)
    ensures GetInteger(RootValues(db), KVersion) == Ok(Some(db.version))
    ensures GetTexts(RootValues(db), KFolders) == Ok(db.folders)
    ensures GetTexts(RootValues(db), KJumpFolders) == Ok(db.jumpFolders)
    ensures Only(RootValues(db), ROOT_KEYS)
  {
    var v := RootValues(db);
    assert ROOT_KEYS[0] == KVersion && ROOT_KEYS[1] == KFolders && ROOT_KEYS[2] == KJumpFolders;
    assert Lookup(v, KVersion) == RootField(db, KVersion);
    assert Lookup(v, KFolders) == RootField(db, KFolders);
    assert Lookup(v, KJumpFolders) == RootField(db, KJumpFolders);
  }

  lemma ListedIsValid(db: Database, x: Item)
    requires ValidDatabase(db) && DatabaseCount(db, x) > 0
    ensures ValidItem(x)
  {
    match x
    case HostItem(h) => assert HostFits(db, h.alias);
    case ChainItem(_) =>
    case HopItem(c, i, hop) => assert ChainFits(db, c);
  }

  lemma ItemsAreValid(db: Database)
    requires ValidDatabase(db)
    ensures ValidItems(ItemsOf(db))
  {
    WrittenIsListed(db);
    forall x | x in ItemsOf(db) ensures ValidItem(x) {
      assert x in multiset(ItemsOf(db));
      ListedIsValid(db, x);
    }
  }

  lemma InterpretedIsWritten(db: Database)
    requires ValidDatabase(db)
    ensures Interpret(Document(RootValues(db), TablesOf(ItemsOf(db)))) == Ok(db)
  {
    RootIsReadBack(db);
    ItemsAreValid(db);
    TablesAreReadBack(ItemsOf(db));
    WrittenIsListed(db);
    ListedIsBuilt(ItemsOf(db), db);
  }

  // ---------- Which texts can be written ----------

  predicate CleanNote(h: Host) {
    h.note.Some? ==> Clean(h.note.value)
  }

  /** No note has a control character other than line feed, carriage return and tab. */
  predicate CleanNotes(db: Database) {
    forall a <- db.hosts :: CleanNote(db.hosts[a])
  }

  ghost predicate CleanFields(keys: seq<Key>, f: Key -> Option<Value>) {
    forall k <- keys :: f(k).Some? ==> CleanValue(f(k).value)
  }

  lemma {:induction false} FieldsHaveKeys(keys: seq<Key>, f: Key -> Option<Value>, e: Entry)
    requires e in Assignments(keys, f)
    ensures e.Assign? && e.key in keys
  {
    if e in Assignments(keys[1..], f) {
      FieldsHaveKeys(keys[1..], f, e);
    }
  }

  lemma HeadIsClean(k: Key, v: Option<Value>)
    ensures CleanEntries(if v.Some? then [Assign(k, v.value)] else []) <==> CleanOption(v)
  {
    if v.Some? {
      assert Assign(k, v.value) in [Assign(k, v.value)];
    }
  }

  lemma {:induction false} FieldsAreClean(keys: seq<Key>, f: Key -> Option<Value>)
    ensures CleanEntries(Assignments(keys, f)) <==> CleanFields(keys, f)
  {
    if keys != [] {
      FieldsAreClean(keys[1..], f);
      HeadIsClean(keys[0], f(keys[0]));
      CleanConcat(if f(keys[0]).Some? then [Assign(keys[0], f(keys[0]).value)] else [], Assignments(keys[1..], f));
      CleanFieldsSplit(keys, f);
    }
  }

  lemma FieldsAreKnown(keys: seq<Key>, f: Key -> Option<Value>)
    requires forall k <- keys :: !k.Unknown?
    ensures Known(Assignments(keys, f))
  {
    forall e | e in Assignments(keys, f) ensures e.Assign? ==> !e.key.Unknown? {
      FieldsHaveKeys(keys, f, e);
    }
  }

  lemma CleanFieldsSplit(keys: seq<Key>, f: Key -> Option<Value>)
    requires keys != []
    ensures CleanFields(keys, f) <==> CleanOption(f(keys[0])) && CleanFields(keys[1..], f)
  {
    assert keys == [keys[0]] + keys[1..];
  }

  lemma LabelsAreClean(s: string)
    requires ValidLabel(s) || ValidName(s) || NoControl(s)
    ensures Clean(s)
  {
    forall i | 0 <= i < |s| ensures !IsControl(s[i]) {
      if ValidLabel(s) {
        assert LabelChar(s[i]);
      }
    }
  }

  lemma RoleNamesAreClean(r: HostRole, p: HostKeyPolicy)
    ensures Clean(RoleName(r)) && Clean(PolicyName(p))
  {
  }

  lemma OsNamesAreClean(os: OsType, hop: Hop)
    ensures Clean(OsName(os)) && Clean(HopKind(hop))
  {
  }

  lemma MethodNamesAreClean(m: AuthMethod)
    ensures Clean(MethodName(m))
  {
  }

  lemma AllLabelsAreClean(names: seq<string>)
    requires AllLabels(names)
    ensures AllClean(names)
  {
    forall i | 0 <= i < |names| ensures Clean(names[i]) {
      LabelsAreClean(names[i]);
    }
  }

  lemma OptionIsClean(s: Option<string>)
    requires s.Some? ==> ValidLabel(s.value) || NoControl(s.value)
    ensures OptionalText(s).Some? ==> CleanValue(OptionalText(s).value)
  {
    if s.Some? {
      LabelsAreClean(s.value);
    }
  }

  ghost predicate CleanOption(v: Option<Value>) {
    v.Some? ==> CleanValue(v.value)
  }

  lemma HostFieldsAreClean(h: Host, k: Key)
    requires ValidHost(h) && k != KNote
    ensures CleanOption(HostField(h, k))
  {
    match k
    case KAlias => LabelsAreClean(h.alias);
    case KAddress => LabelsAreClean(h.address);
    case KUser => LabelsAreClean(h.user);
    case KIdentityFile => OptionIsClean(h.identityFile);
    case KJumpChain => OptionIsClean(h.jumpChain);
    case KGroups => AllLabelsAreClean(h.groups);
    case KTags => AllLabelsAreClean(h.tags);
    case KRole => RoleNamesAreClean(h.role, h.policy);
    case KPolicy => RoleNamesAreClean(h.role, h.policy);
    case KOs => OsNamesAreClean(h.os, HostHop(""));
    case KLastAuth =>
      if h.stats.lastAuth.Some? {
        MethodNamesAreClean(h.stats.lastAuth.value);
      }
    case _ =>
  }

  lemma InlineFieldsAreClean(chain: string, index: U64, hop: Hop, k: Key)
    requires ValidHop(hop) && hop.InlineHop? && Clean(chain) && Clean(HopKind(hop))
    ensures CleanOption(HopField(chain, index, hop, k))
  {
    match k
    case KAlias => LabelsAreClean(hop.name);
    case KHost => LabelsAreClean(hop.host);
    case KUser => LabelsAreClean(hop.user);
    case KIdentityFile => OptionIsClean(hop.identityFile);
    case KPolicy => RoleNamesAreClean(Both, hop.policy);
    case _ =>
  }

  lemma HopFieldsAreClean(chain: string, index: U64, hop: Hop, k: Key)
    requires ValidHop(hop) && ValidLabel(chain)
    ensures CleanOption(HopField(chain, index, hop, k))
  {
    OsNamesAreClean(AutoOs, hop);
    LabelsAreClean(chain);
    if hop.InlineHop? {
      InlineFieldsAreClean(chain, index, hop, k);
    } else {
      LabelsAreClean(hop.name);
    }
  }

  /** A listed table can be written, except for what its note may hold. */
  lemma ItemFieldsAreClean(db: Database, x: Item, k: Key)
    requires ValidDatabase(db) && DatabaseCount(db, x) > 0 && (x.HostItem? ==> k != KNote)
    ensures CleanOption(ItemField(x, k))
  {
    ListedIsValid(db, x);
    match x
    case HostItem(h) => HostFieldsAreClean(h, k);
    case ChainItem(name) =>
      assert ChainFits(db, name);
      LabelsAreClean(name);
    case HopItem(c, i, hop) =>
      assert ChainFits(db, c);
      HopFieldsAreClean(c, i, hop, k);
  }

  ghost predicate CleanItem(x: Item) {
    x.HostItem? ==> CleanNote(x.host)
  }

  lemma TableEntriesAreClean(kind: Kind, keys: seq<Key>, f: Key -> Option<Value>)
    ensures CleanEntries(TableEntries(kind, keys, f)) <==> CleanFields(keys, f)
    ensures (forall k <- keys :: !k.Unknown?) ==> Known(TableEntries(kind, keys, f))
  {
    FieldsAreClean(keys, f);
    if forall k <- keys :: !k.Unknown? {
      FieldsAreKnown(keys, f);
    }
    CleanConcat([Blank, Header(kind)], Assignments(keys, f));
  }

  lemma ItemKeysAreKnown(x: Item)
    ensures forall k <- ItemKeys(x) :: !k.Unknown?
  {
  }

  lemma CleanExceptOne(keys: seq<Key>, f: Key -> Option<Value>, special: Key)
    requires special in keys && forall k :: k != special ==> CleanOption(f(k))
    ensures CleanFields(keys, f) <==> CleanOption(f(special))
  {
  }

  /** All fields but the note can be written. */
  ghost predicate CleanButNote(x: Item) {
    forall k :: !(x.HostItem? && k == KNote) ==> CleanOption(ItemField(x, k))
  }

  lemma ListedIsCleanButNote(db: Database, x: Item)
    requires ValidDatabase(db) && DatabaseCount(db, x) > 0
    ensures CleanButNote(x)
  {
    forall k | !(x.HostItem? && k == KNote) ensures CleanOption(ItemField(x, k)) {
      ItemFieldsAreClean(db, x, k);
    }
  }

  lemma HostIsClean(h: Host)
    requires CleanButNote(HostItem(h))
    ensures CleanFields(HOST_KEYS, ItemFields(HostItem(h))) <==> CleanNote(h)
  {
    var f := ItemFields(HostItem(h));
    HostKeysInPlace(KNote);
    assert forall k :: f(k) == ItemField(HostItem(h), k);
    CleanExceptOne(HOST_KEYS, f, KNote);
  }

  lemma ItemIsClean(x: Item)
    requires CleanButNote(x)
    ensures CleanFields(ItemKeys(x), ItemFields(x)) <==> CleanItem(x)
  {
    if x.HostItem? {
      HostIsClean(x.host);
    } else {
      assert forall k :: ItemFields(x)(k) == ItemField(x, k);
    }
  }

  lemma ItemEntriesAreClean(db: Database, x: Item)
    requires ValidDatabase(db) && DatabaseCount(db, x) > 0
    ensures CleanEntries(ItemEntries(x)) <==> CleanItem(x)
    ensures Known(ItemEntries(x))
  {
    TableEntriesAreClean(ItemKind(x), ItemKeys(x), ItemFields(x));
    ItemKeysAreKnown(x);
    ListedIsCleanButNote(db, x);
    ItemIsClean(x);
  }

  lemma {:induction false} EntriesAreClean(db: Database, items: seq<Item>)
    requires ValidDatabase(db) && forall x <- items :: DatabaseCount(db, x) > 0
    ensures CleanEntries(EntriesOf(items)) <==> forall x <- items :: CleanItem(x)
    ensures Known(EntriesOf(items))
  {
    if items != [] {
      ItemEntriesAreClean(db, items[0]);
      EntriesAreClean(db, items[1..]);
      CleanConcat(ItemEntries(items[0]), EntriesOf(items[1..]));
      assert forall x :: x in items <==> x == items[0] || x in items[1..];
    }
  }

  lemma FoldersAreClean(db: Database)
    requires ValidFolders(db)
    ensures AllClean(db.folders) && AllClean(db.jumpFolders)
  {
    var names := db.folders + db.jumpFolders;
    AllLabelsAreClean(names);
    assert forall i :: 0 <= i < |db.folders| ==> db.folders[i] == names[i];
    assert forall i :: 0 <= i < |db.jumpFolders| ==> db.jumpFolders[i] == names[|db.folders| + i];
  }

  lemma RootIsClean(db: Database)
    requires ValidFolders(db)
    ensures CleanEntries(Assignments(ROOT_KEYS, RootFields(db))) && Known(Assignments(ROOT_KEYS, RootFields(db)))
  {
    FoldersAreClean(db);
    FieldsAreClean(ROOT_KEYS, RootFields(db));
    FieldsAreKnown(ROOT_KEYS, RootFields(db));
    forall k ensures CleanOption(RootFields(db)(k)) {
      assert CleanOption(RootField(db, k));
    }
  }

  ghost predicate WellKeyed(hosts: map<string, Host>) {
    forall a <- hosts :: hosts[a].alias == a
  }

  lemma CleanItemsAreCleanNotes(db: Database, items: seq<Item>)
    requires WellKeyed(db.hosts) && Lists(multiset(items), db)
    ensures (forall x <- items :: CleanItem(x)) <==> CleanNotes(db)
  {
    forall a | a in db.hosts ensures HostItem(db.hosts[a]) in items {
      assert multiset(items)[HostItem(db.hosts[a])] == DatabaseCount(db, HostItem(db.hosts[a]));
    }
    forall x | x in items && x.HostItem? ensures x.host.alias in db.hosts && db.hosts[x.host.alias] == x.host {
      assert x in multiset(items);
      assert multiset(items)[x] == DatabaseCount(db, x);
    }
    forall a | a in db.hosts ensures CleanItem(HostItem(db.hosts[a])) <==> CleanNote(db.hosts[a]) {
    }
  }

  lemma DatabaseEntriesAreClean(db: Database)
    requires ValidDatabase(db)
    ensures CleanEntries(DatabaseEntries(db)) <==> CleanNotes(db)
    ensures Known(DatabaseEntries(db))
  {
    var items := ItemsOf(db);
    WrittenIsListed(db);
    ValidIsKeyed(db);
    forall x | x in items ensures DatabaseCount(db, x) > 0 {
      assert x in multiset(items);
    }
    EntriesAreClean(db, items);
    RootIsClean(db);
    CleanItemsAreCleanNotes(db, items);
    CleanConcat(Assignments(ROOT_KEYS, RootFields(db)), EntriesOf(items));
  }

  // ---------- The round trip ----------

  lemma TextDecodes(entries: seq<Entry>, doc: Document, db: Database)
    requires Known(entries) && Gather(NOTHING, [Blank] + entries) == Ok(doc) && Interpret(doc) == Ok(db)
    ensures var text := Unlines([REMARK] + ShowAll(entries));
            Decode(text) == if |Utf8(text)| <= 4194304 && CleanEntries(entries) then Ok(db) else Err
  {
    EncodedLines(entries);
  }

  /** A valid database is read back unchanged exactly when its notes are clean and the text is not too long. */
  lemma RoundTripExactly(db: Database)
    requires ValidDatabase(db)
    ensures Encode(db).Ok?
    ensures Decode(Encode(db).value) ==
            if |Utf8(Encode(db).value)| <= 4194304 && CleanNotes(db) then Ok(db) else Err
  {
    var entries := DatabaseEntries(db);
    DatabaseEntriesAreClean(db);
    GatherWritten(db, ItemsOf(db));
    InterpretedIsWritten(db);
    TextDecodes(entries, Document(RootValues(db), TablesOf(ItemsOf(db))), db);
  }

  // ---------- Accepted texts ----------

  lemma {:induction false} ParsedLinesAreClean(lines: seq<string>)
    requires ParseLines(lines).Ok?
    ensures CleanEntries(ParseLines(lines).value)
  {
    if lines != [] {
      ParsedLineIsClean(lines[0]);
      ParsedLinesAreClean(lines[1..]);
    }
  }

  ghost predicate CleanTable(t: Table) {
    forall k <- t.values :: CleanValue(t.values[k])
  }

  ghost predicate CleanTables(tables: seq<Table>) {
    forall t <- tables :: CleanTable(t)
  }

  lemma AddCleanEntry(doc: Document, e: Entry)
    requires CleanTables(doc.tables) && CleanEntry(e) && AddEntry(doc, e).Ok?
    ensures CleanTables(AddEntry(doc, e).value.tables)
  {
    if e.Assign? && doc.tables != [] {
      var n := |doc.tables| - 1;
      assert CleanTable(doc.tables[n]);
      assert forall t <- doc.tables[..n] :: t in doc.tables;
    }
  }

  lemma {:induction false} GatheredIsClean(doc: Document, entries: seq<Entry>)
    requires CleanTables(doc.tables) && CleanEntries(entries) && Gather(doc, entries).Ok?
    ensures CleanTables(Gather(doc, entries).value.tables)
    decreases |entries|
  {
    if entries != [] {
      AddCleanEntry(doc, entries[0]);
      GatheredIsClean(AddEntry(doc, entries[0]).value, entries[1..]);
    }
  }

  lemma CleanValuesCleanNote(values: Values)
    requires GetHost(values).Ok? && (KNote in values ==> CleanValue(values[KNote]))
    ensures CleanNote(GetHost(values).value)
  {
    NoteIsRead(values);
  }

  lemma CleanTableCleanItem(t: Table)
    requires CleanTable(t) && FromTable(t).Ok?
    ensures CleanItem(FromTable(t).value)
  {
    if t.kind == HostTable {
      CleanValuesCleanNote(t.values);
    }
  }

  lemma {:induction false} CleanTablesCleanItems(tables: seq<Table>)
    requires CleanTables(tables) && ItemsFrom(tables).Ok?
    ensures forall x <- ItemsFrom(tables).value :: CleanItem(x)
  {
    if tables != [] {
      CleanTableCleanItem(tables[0]);
      CleanTablesCleanItems(tables[1..]);
    }
  }

  lemma BuiltFromClean(folders: seq<string>, jumpFolders: seq<string>, items: seq<Item>, db: Database)
    requires Build(folders, jumpFolders, items) == Ok(db) && forall x <- items :: CleanItem(x)
    ensures ValidDatabase(db) && CleanNotes(db)
  {
    BuildExactly(folders, jumpFolders, items, db);
    ValidIsKeyed(db);
    CleanItemsAreCleanNotes(db, items);
  }

  lemma InterpretedIsClean(doc: Document, db: Database)
    requires Interpret(doc) == Ok(db) && CleanTables(doc.tables)
    ensures ValidDatabase(db) && CleanNotes(db)
  {
    CleanTablesCleanItems(doc.tables);
    BuiltFromClean(GetTexts(doc.root, KFolders).value, GetTexts(doc.root, KJumpFolders).value,
        ItemsFrom(doc.tables).value, db);
  }

  /** Every accepted text yields a valid database that can be written and read back. */
  lemma AcceptedSurvives(text: string)
    requires Decode(text).Ok?
    ensures var db := Decode(text).value;
            && ValidDatabase(db) && CleanNotes(db) && Encode(db).Ok?
            && (|Utf8(Encode(db).value)| <= 4194304 ==> Decode(Encode(db).value) == Ok(db))
  {
    var entries := ParseLines(Lines(text)).value;
    ParsedLinesAreClean(Lines(text));
    GatheredIsClean(NOTHING, entries);
    InterpretedIsClean(Gather(NOTHING, entries).value, Decode(text).value);
    RoundTripExactly(Decode(text).value);
  }
}
