/** The loops of `decode` and its helpers in codec.rs, tied to the functions of the other host modules. */
module HostReader {
  import opened Wrappers
  import opened Text
  import opened HostModel
  import opened HostLines
  import opened HostTables
  import opened HostItems
  import opened HostCodec
  import opened HostOrder

  // ---------- Character loops ----------

  /** The flags `in_string` and `escaped` of the scanning loops. */
  function ModeOf(inString: bool, escaped: bool): Mode {
    if !inString then Outside else if escaped then Escaped else Inside
  }

  /** Having read `i` characters, the scanner of `s` is in mode `m` and has not met the target. */
  ghost predicate Scanned(s: string, i: nat, m: Mode, target: char)
    requires i <= |s|
  {
    && Seek(s, Outside, target) == i + Seek(s[i..], m, target)
    && After(s, Outside) == After(s[i..], m)
  }

  method StepFlags(c: char, inString: bool, escaped: bool) returns (inString': bool, escaped': bool)
    requires escaped ==> inString
    ensures escaped' ==> inString'
    ensures ModeOf(inString', escaped') == Next(ModeOf(inString, escaped), c)
  {
    inString', escaped' := inString, escaped;
    if inString {
      if escaped {
        escaped' := false;
      } else if c == '\\' {
        escaped' := true;
      } else if c == '"' {
        inString' := false;
      }
    } else if c == '"' {
      inString' := true;
    }
  }

  lemma ScanStep(s: string, i: nat, m: Mode, target: char)
    requires i < |s| && Scanned(s, i, m, target) && target != '"' && !(m == Outside && s[i] == target)
    ensures Scanned(s, i + 1, Next(m, s[i]), target)
  {
    assert s[i..][1..] == s[i + 1..];
  }

  /** The loop of `parse_assignment`, which also stands in `strip_comment`. */
  method Find(s: string, target: char) returns (i: nat, closed: bool)
    requires target != '"'
    ensures i == Seek(s, Outside, target)
    ensures i == |s| ==> (closed <==> After(s, Outside) == Outside)
  {
    var inString, escaped := false, false;
    i := 0;
    assert s[0..] == s;
    while i < |s|
      invariant i <= |s| && (escaped ==> inString)
      invariant Scanned(s, i, ModeOf(inString, escaped), target)
    {
      if !inString && s[i] == target {
        return i, true;
      }
      ScanStep(s, i, ModeOf(inString, escaped), target);
      inString, escaped := StepFlags(s[i], inString, escaped);
      i := i + 1;
    }
    closed := !inString;
  }

  method StripCommentLoop(line: string) returns (r: Result<string>)
    ensures r == StripComment(line)
  {
    var i, closed := Find(line, '#');
    if i < |line| {
      r := Ok(line[..i]);
    } else {
      r := if closed then Ok(line) else Err;
    }
  }

  function Prefixed<T>(head: seq<T>, r: Result<seq<T>>): Result<seq<T>> {
    if r.Ok? then Ok(head + r.value) else Err
  }

  lemma PrefixedMore<T>(head: seq<T>, x: T, r: Result<seq<T>>)
    ensures Prefixed(head + [x], r) == Prefixed(head, Prefixed([x], r))
  {
    if r.Ok? {
      assert (head + [x]) + r.value == head + ([x] + r.value);
    }
  }

  method UnescapeLoop(s: string) returns (r: Result<string>)
    ensures r == Unescape(s)
  {
    var output, i := "", 0;
    assert s[0..] == s;
    assert Unescape(s).Ok? ==> "" + Unescape(s).value == Unescape(s).value;
    while i < |s|
      invariant 0 <= i <= |s|
      invariant Unescape(s) == Prefixed(output, Unescape(s[i..]))
    {
      if s[i] != '\\' {
        if IsControl(s[i]) {
          return Err;
        }
        assert s[i..][1..] == s[i + 1..];
        PrefixedMore(output, s[i], Unescape(s[i + 1..]));
        output := output + [s[i]];
        i := i + 1;
      } else {
        if i + 1 == |s| {
          return Err;
        }
        var c :- UnescapeChar(s[i + 1]);
        assert s[i..][2..] == s[i + 2..];
        PrefixedMore(output, c, Unescape(s[i + 2..]));
        output := output + [c];
        i := i + 2;
      }
    }
    assert output + "" == output;
    r := Ok(output);
  }

  method ParseStringLoop(v: string) returns (r: Result<string>)
    ensures r == ParseString(v)
  {
    if |v| < 2 || v[|v| - 1] != '"' || v[0] != '"' {
      return Err;
    }
    r := UnescapeLoop(v[1..|v| - 1]);
  }

  lemma ItemsStep(s: string, start: nat, i: nat)
    requires start <= i < |s| && s[i] == ',' && Seek(s[start..], Outside, ',') == i - start
    ensures ParseItems(s[start..]) == Appended(ParseString(Trim(s[start..i])), ParseItems(s[i + 1..]))
  {
    var t := s[start..];
    assert t[..i - start] == s[start..i] && t[i - start + 1..] == s[i + 1..];
  }

  lemma ItemsEnd(s: string, start: nat, m: Mode)
    requires start <= |s| && Scanned(s[start..], |s| - start, m, ',')
    ensures ParseItems(s[start..]) == if m == Outside then Appended(ParseString(Trim(s[start..])), Ok([])) else Err
  {
    var t := s[start..];
    assert t[|t|..] == [];
    if m == Outside {
      LastItem(t);
    }
  }

  lemma ScanStart(s: string, target: char)
    ensures Scanned(s, 0, Outside, target)
  {
    assert s[0..] == s;
  }

  /** Where the comma loop stands: the finished values, and the scanner within the current one. */
  ghost predicate Splitting(s: string, values: seq<string>, start: nat, i: nat, m: Mode)
    requires start <= i <= |s|
  {
    ParseItems(s) == Prefixed(values, ParseItems(s[start..])) && Scanned(s[start..], i - start, m, ',')
  }

  lemma SplitStart(s: string)
    ensures Splitting(s, [], 0, 0, Outside)
  {
    assert s[0..] == s;
    ScanStart(s, ',');
    assert ParseItems(s).Ok? ==> [] + ParseItems(s).value == ParseItems(s).value;
  }

  lemma SplitOn(s: string, values: seq<string>, start: nat, i: nat, m: Mode)
    requires start <= i < |s| && Splitting(s, values, start, i, m) && !(m == Outside && s[i] == ',')
    ensures Splitting(s, values, start, i + 1, Next(m, s[i]))
  {
    assert s[start..][i - start] == s[i];
    ScanStep(s[start..], i - start, m, ',');
  }

  lemma SplitAt(s: string, values: seq<string>, start: nat, i: nat)
    requires start <= i < |s| && Splitting(s, values, start, i, Outside) && s[i] == ','
    ensures var item := ParseString(Trim(s[start..i]));
            if item.Ok? then Splitting(s, values + [item.value], i + 1, i + 1, Outside) else ParseItems(s).Err?
  {
    var t := s[start..];
    assert t[i - start..][0] == s[i];
    ItemsStep(s, start, i);
    var item := ParseString(Trim(s[start..i]));
    if item.Ok? {
      PrefixedMore(values, item.value, ParseItems(s[i + 1..]));
      ScanStart(s[i + 1..], ',');
    }
  }

  lemma SplitEnd(s: string, values: seq<string>, start: nat, m: Mode)
    requires start <= |s| && Splitting(s, values, start, |s|, m)
    ensures var item := ParseString(Trim(s[start..]));
            ParseItems(s) == if m == Outside && item.Ok? then Ok(values + [item.value]) else Err
  {
    ItemsEnd(s, start, m);
    var item := ParseString(Trim(s[start..]));
    if item.Ok? {
      assert [item.value] + [] == [item.value];
    }
  }

  /** What the comma loop still computes from a given point. */
  function CommaLoop(s: string, values: seq<string>, start: nat, i: nat, m: Mode): Result<seq<string>>
    requires start <= i <= |s|
    decreases |s| - i
  {
    if i == |s| then
      var item :- if m == Outside then ParseString(Trim(s[start..])) else Err;
      Ok(values + [item])
    else if m == Outside && s[i] == ',' then
      var item :- ParseString(Trim(s[start..i]));
      CommaLoop(s, values + [item], i + 1, i + 1, Outside)
    else CommaLoop(s, values, start, i + 1, Next(m, s[i]))
  }

  lemma {:induction false} CommaLoopParses(s: string, values: seq<string>, start: nat, i: nat, m: Mode)
    requires start <= i <= |s| && Splitting(s, values, start, i, m)
    ensures CommaLoop(s, values, start, i, m) == ParseItems(s)
    decreases |s| - i
  {
    if i == |s| {
      SplitEnd(s, values, start, m);
    } else if m == Outside && s[i] == ',' {
      SplitAt(s, values, start, i);
      var item := ParseString(Trim(s[start..i]));
      if item.Ok? {
        CommaLoopParses(s, values + [item.value], i + 1, i + 1, Outside);
      }
    } else {
      SplitOn(s, values, start, i, m);
      CommaLoopParses(s, values, start, i + 1, Next(m, s[i]));
    }
  }

  /** The comma loop of `parse_string_array`. */
  method ParseItemsLoop(s: string) returns (r: Result<seq<string>>)
    ensures r == ParseItems(s)
  {
    SplitStart(s);
    CommaLoopParses(s, [], 0, 0, Outside);
    r := CommaLoopRun(s);
  }

  method CommaLoopRun(s: string) returns (r: Result<seq<string>>)
    ensures r == CommaLoop(s, [], 0, 0, Outside)
  {
    var values: seq<string> := [];
    var start, i := 0, 0;
    var inString, escaped := false, false;
    while i < |s|
      invariant 0 <= start <= i <= |s| && (escaped ==> inString)
      invariant CommaLoop(s, [], 0, 0, Outside) == CommaLoop(s, values, start, i, ModeOf(inString, escaped))
    {
      if !inString && s[i] == ',' {
        var item :- ParseStringLoop(Trim(s[start..i]));
        values := values + [item];
        start := i + 1;
      } else {
        inString, escaped := StepFlags(s[i], inString, escaped);
      }
      i := i + 1;
    }
    if inString || escaped {
      return Err;
    }
    var item :- ParseStringLoop(Trim(s[start..]));
    r := Ok(values + [item]);
  }

  method ParseValueLoop(v: string) returns (r: Result<Value>)
    requires v != []
    ensures r == ParseValue(v)
  {
    if v[0] == '"' {
      var s :- ParseStringLoop(v);
      return Ok(Text(s));
    }
    if v[0] == '[' {
      if |v| < 2 || v[|v| - 1] != ']' {
        return Err;
      }
      var inner := Trim(v[1..|v| - 1]);
      if inner == [] {
        return Ok(Texts([]));
      }
      var items :- ParseItemsLoop(inner);
      return Ok(Texts(items));
    }
    r := ParseValue(v);
  }

  /** One turn of the line loop of `decode`, up to the entry it adds. */
  method ParseLineLoop(raw: string) returns (r: Result<Entry>)
    ensures r == ParseLine(raw)
  {
    var stripped :- StripCommentLoop(raw);
    var line := Trim(stripped);
    if line == [] {
      return Ok(Blank);
    }
    if line[0] == '[' {
      return ParseHeader(line);
    }
    var i, _ := Find(line, '=');
    if i == |line| {
      return Err;
    }
    var key, value := Trim(line[..i]), Trim(line[i + 1..]);
    if !KeyText(key) || value == [] {
      return Err;
    }
    var v :- ParseValueLoop(value);
    r := Ok(Assign(KeyNamed(key), v));
  }

  // ---------- Tables consumed key by key ----------

  const IDENTITY_SET := {} + {KAlias} + {KRole} + {KAddress} + {KUser} + {KPort} + {KIdentityFile}
  const SETTINGS_SET := {KGroups, KTags, KNote, KPolicy, KJumpChain, KOs}
  const STATS_SET := {KLastConnected, KCount, KLastAuth}
  const HOST_SET := IDENTITY_SET + SETTINGS_SET + STATS_SET
  const HOP_SET := {KChain, KIndex, KKind}
  const NAMED_SET := HOP_SET + {KName}
  const INLINE_SET := HOP_SET + {KAlias} + {KHost} + {KUser} + {KPort} + {KIdentityFile} + {KPolicy}

  lemma KeySetsAreDisjoint()
    ensures IDENTITY_SET !! SETTINGS_SET && (IDENTITY_SET + SETTINGS_SET) !! STATS_SET
  {
  }

  lemma HostIsThreeParts(values: Values)
    ensures GetHost(values) ==
            var i, s, t := GetIdentity(values), GetSettings(values), GetStats(values);
            if i.Ok? && s.Ok? && t.Ok? then
              Ok(Host(i.value.0, i.value.1, i.value.2, i.value.4, i.value.3, i.value.5,
                      s.value.0, s.value.1, s.value.2, s.value.3, s.value.4, s.value.5, t.value))
            else Err
  {
  }

  /** A table's values while they are taken out one by one. */
  class TableReader {
    var values: Values
    ghost const original: Values
    ghost var taken: set<Key>

    ghost predicate Valid()
      reads this
    {
      values == original - taken
    }

    constructor (values: Values)
      ensures Valid() && original == values && taken == {}
    {
      this.values := values;
      this.original := values;
      this.taken := {};
    }

    method TakeText(key: Key) returns (r: Result<Option<string>>)
      requires Valid() && key !in taken
      modifies this
      ensures Valid() && taken == old(taken) + {key}
      ensures r == GetText(original, key)
    {
      r := GetText(values, key);
      values := values - {key};
      taken := taken + {key};
    }

    method TakeInteger(key: Key) returns (r: Result<Option<U64>>)
      requires Valid() && key !in taken
      modifies this
      ensures Valid() && taken == old(taken) + {key}
      ensures r == GetInteger(original, key)
    {
      r := GetInteger(values, key);
      values := values - {key};
      taken := taken + {key};
    }

    method TakeTexts(key: Key) returns (r: Result<seq<string>>)
      requires Valid() && key !in taken
      modifies this
      ensures Valid() && taken == old(taken) + {key}
      ensures r == GetTexts(original, key)
    {
      r := GetTexts(values, key);
      values := values - {key};
      taken := taken + {key};
    }

    method TakeRequired(key: Key) returns (r: Result<string>)
      requires Valid() && key !in taken
      modifies this
      ensures Valid() && taken == old(taken) + {key}
      ensures r == Required(original, key)
    {
      var s :- TakeText(key);
      r := if s.Some? then Ok(s.value) else Err;
    }

    /** `reject_unknown`. */
    method Exhausted() returns (ok: bool)
      requires Valid()
      ensures ok <==> forall k <- original :: k in taken
    {
      ok := values == map[];
      if ok {
        forall k | k in original ensures k in taken {
          assert k !in values;
        }
      } else {
        assert values.Keys != {};
        var k :| k in values;
        assert k in original && k !in taken;
      }
    }

    method ReadPort() returns (r: Result<U16>)
      requires Valid() && KPort !in taken
      modifies this
      ensures Valid() && taken == old(taken) + {KPort}
      ensures r == GetPort(original)
    {
      var n :- TakeInteger(KPort);
      r := if n.None? then Ok(22) else if 1 <= n.value < 0x1_0000 then Ok(n.value) else Err;
    }

    method ReadPolicy() returns (r: Result<HostKeyPolicy>)
      requires Valid() && KPolicy !in taken
      modifies this
      ensures Valid() && taken == old(taken) + {KPolicy}
      ensures r == GetPolicy(original)
    {
      var s :- TakeText(KPolicy);
      r := if s.None? then Ok(AcceptNew) else PolicyNamed(s.value);
    }

    method ReadStats() returns (r: Result<Stats>)
      requires Valid() && taken !! STATS_SET
      modifies this
      ensures Valid()
      ensures r.Ok? ==> taken == old(taken) + STATS_SET
      ensures r == GetStats(original)
    {
      var last :- TakeInteger(KLastConnected);
      var count :- TakeInteger(KCount);
      var name :- TakeText(KLastAuth);
      var method_: Option<AuthMethod> := None;
      if name.Some? {
        var m :- MethodNamed(name.value);
        method_ := Some(m);
      }
      r := Ok(Stats(last, if count.Some? then count.value else 0, method_));
    }

    method ReadIdentity() returns (r: Result<(string, HostRole, string, string, U16, Option<string>)>)
      requires Valid() && taken == {}
      modifies this
      ensures Valid()
      ensures r.Ok? ==> taken == IDENTITY_SET
      ensures r == GetIdentity(original)
    {
      var alias :- TakeRequired(KAlias);
      var roleName :- TakeText(KRole);
      var role :- if roleName.None? then Ok(Both) else RoleNamed(roleName.value);
      var address :- TakeRequired(KAddress);
      var user :- TakeRequired(KUser);
      var port :- ReadPort();
      var identityFile :- TakeText(KIdentityFile);
      r := Ok((alias, role, address, user, port, identityFile));
    }

    method ReadSettings() returns (r: Result<Settings>)
      requires Valid() && taken !! SETTINGS_SET
      modifies this
      ensures Valid()
      ensures r.Ok? ==> taken == old(taken) + SETTINGS_SET
      ensures r == GetSettings(original)
    {
      var groups :- TakeTexts(KGroups);
      var tags :- TakeTexts(KTags);
      var note :- TakeText(KNote);
      var policy :- ReadPolicy();
      var jumpChain :- TakeText(KJumpChain);
      var osName :- TakeText(KOs);
      var os :- if osName.None? then Ok(AutoOs) else OsNamed(osName.value);
      r := Ok((groups, tags, note, policy, jumpChain, os));
    }

    method ReadHost() returns (r: Result<Host>)
      requires Valid() && taken == {}
      modifies this
      ensures Valid()
      ensures r.Ok? ==> taken == HOST_SET
      ensures r == GetHost(original)
    {
      KeySetsAreDisjoint();
      HostIsThreeParts(original);
      var identity :- ReadIdentity();
      var (alias, role, address, user, port, identityFile) := identity;
      var settings :- ReadSettings();
      var (groups, tags, note, policy, jumpChain, os) := settings;
      var stats :- ReadStats();
      r := Ok(Host(alias, role, address, port, user, identityFile, groups, tags, note, policy, jumpChain, os, stats));
    }

    method ReadInline() returns (r: Result<Hop>)
      requires Valid() && taken == HOP_SET
      modifies this
      ensures Valid()
      ensures r.Ok? ==> taken == INLINE_SET
      ensures r == GetInline(original)
    {
      var alias :- TakeRequired(KAlias);
      var host :- TakeRequired(KHost);
      var user :- TakeRequired(KUser);
      var port :- ReadPort();
      var identityFile :- TakeText(KIdentityFile);
      var policy :- ReadPolicy();
      r := Ok(InlineHop(alias, host, port, user, identityFile, policy));
    }

    method ReadHop(kind: string) returns (r: Result<Hop>)
      requires Valid() && taken == HOP_SET
      modifies this
      ensures Valid()
      ensures r.Ok? ==> taken == if r.value.InlineHop? then INLINE_SET else NAMED_SET
      ensures r == GetHopOf(original, kind)
    {
      if kind == "host" {
        var name :- TakeRequired(KName);
        r := Ok(HostHop(name));
      } else if kind == "openssh" {
        var name :- TakeRequired(KName);
        r := Ok(OpenSshHop(name));
      } else if kind == "inline" {
        r := ReadInline();
      } else {
        r := Err;
      }
    }
  }

  lemma HostKeySet(k: Key)
    ensures k in HOST_KEYS <==> k in HOST_SET
  {
    if k in HOST_SET {
      HostKeysInPlace(k);
    }
  }

  lemma HopKeySet(k: Key)
    ensures k in INLINE_KEYS <==> k in INLINE_SET
    ensures k in NAMED_KEYS <==> k in NAMED_SET
  {
    if k in INLINE_SET {
      InlineKeysInPlace(k);
    }
    if k in NAMED_SET {
      NamedKeysInPlace(k);
    }
  }

  method ReadHostTable(values: Values) returns (r: Result<Item>)
    ensures r == FromTable(Table(HostTable, values))
  {
    var reader := new TableReader(values);
    var h :- reader.ReadHost();
    var done := reader.Exhausted();
    var fine := CheckHost(h);
    forall k ensures k in HOST_KEYS <==> k in HOST_SET {
      HostKeySet(k);
    }
    r := if done && fine then Ok(HostItem(h)) else Err;
  }

  method ReadHopTable(values: Values) returns (r: Result<Item>)
    ensures r == FromTable(Table(HopTable, values))
  {
    var reader := new TableReader(values);
    var chain :- reader.TakeRequired(KChain);
    var index :- reader.TakeInteger(KIndex);
    if index.None? {
      return Err;
    }
    var kind :- reader.TakeRequired(KKind);
    var hop :- reader.ReadHop(kind);
    var done := reader.Exhausted();
    ghost var keys := if hop.InlineHop? then INLINE_KEYS else NAMED_KEYS;
    forall k ensures k in keys <==> k in reader.taken {
      HopKeySet(k);
    }
    r := if done && ValidHop(hop) then Ok(HopItem(chain, index.value, hop)) else Err;
  }

  /** One turn of the table loop of `decode`. */
  method ReadTable(t: Table) returns (r: Result<Item>)
    ensures r == FromTable(t)
  {
    match t.kind
    case HostTable => r := ReadHostTable(t.values);
    case ChainTable =>
      var reader := new TableReader(t.values);
      var name :- reader.TakeRequired(KName);
      var done := reader.Exhausted();
      r := if done then Ok(ChainItem(name)) else Err;
    case HopTable => r := ReadHopTable(t.values);
  }

  // ---------- The whole file ----------

  /** The document that the lines describe. */
  function GatherLines(lines: seq<string>): Result<Document> {
    if ParseLines(lines).Ok? then Gather(NOTHING, ParseLines(lines).value) else Err
  }

  lemma ParseOne(line: string)
    ensures ParseLines([line]) == if ParseLine(line).Ok? then Ok([ParseLine(line).value]) else Err
  {
    assert [line][1..] == [];
    if ParseLine(line).Ok? {
      assert [ParseLine(line).value] + [] == [ParseLine(line).value];
    }
  }

  lemma GatherOne(doc: Document, e: Entry)
    ensures Gather(doc, [e]) == AddEntry(doc, e)
  {
    assert [e][1..] == [];
  }

  lemma LinesStep(before: seq<string>, line: string, doc: Document)
    requires GatherLines(before) == Ok(doc)
    ensures GatherLines(before + [line]) == if ParseLine(line).Ok? then AddEntry(doc, ParseLine(line).value) else Err
  {
    ParseLinesConcat(before, [line]);
    ParseOne(line);
    if ParseLine(line).Ok? {
      GatherConcat(NOTHING, ParseLines(before).value, [ParseLine(line).value]);
      GatherOne(doc, ParseLine(line).value);
    }
  }

  lemma LinesStop(before: seq<string>, more: seq<string>)
    requires GatherLines(before).Err?
    ensures GatherLines(before + more).Err?
  {
    ParseLinesConcat(before, more);
    if ParseLines(before).Ok? && ParseLines(more).Ok? {
      GatherConcat(NOTHING, ParseLines(before).value, ParseLines(more).value);
    }
  }

  /** The document while its last table is still open. */
  function Opened(root: Values, tables: seq<Table>, current: Option<Table>): Document {
    Document(root, if current.Some? then tables + [current.value] else tables)
  }

  /** What the line loop does with one entry. */
  method TakeEntry(root: Values, tables: seq<Table>, current: Option<Table>, e: Entry)
    returns (ok: bool, newRoot: Values, newTables: seq<Table>, newCurrent: Option<Table>)
    requires current.None? ==> tables == []
    ensures ok <==> AddEntry(Opened(root, tables, current), e).Ok?
    ensures ok ==> Ok(Opened(newRoot, newTables, newCurrent)) == AddEntry(Opened(root, tables, current), e)
    ensures newCurrent.None? ==> newTables == []
  {
    newRoot, newTables, newCurrent := root, tables, current;
    match e
    case Blank => ok := true;
    case Header(kind) =>
      if current.Some? {
        newTables := tables + [current.value];
      }
      newCurrent := Some(Table(kind, map[]));
      ok := true;
    case Assign(key, value) =>
      ok := key !in (if current.Some? then current.value.values else root);
      if ok {
        if current.Some? {
          newCurrent := Some(current.value.(values := current.value.values[key := value]));
          assert (tables + [current.value])[..|tables|] == tables;
        } else {
          newRoot := root[key := value];
        }
      }
  }

  /** The line loop of `decode`. */
  method ReadTables(lines: seq<string>) returns (r: Result<Document>)
    ensures r == GatherLines(lines)
  {
    var root: Values := map[];
    var tables: seq<Table> := [];
    var current: Option<Table> := None;
    for i := 0 to |lines|
      invariant GatherLines(lines[..i]) == Ok(Opened(root, tables, current))
      invariant current.None? ==> tables == []
    {
      Uncut(lines, i);
      Reassociate(lines[..i], [lines[i]], lines[i + 1..]);
      LinesStep(lines[..i], lines[i], Opened(root, tables, current));
      assert lines[..i + 1] == lines[..i] + [lines[i]];
      var parsed := ParseLineLoop(lines[i]);
      var ok := parsed.Ok?;
      if ok {
        ok, root, tables, current := TakeEntry(root, tables, current, parsed.value);
      }
      if !ok {
        LinesStop(lines[..i] + [lines[i]], lines[i + 1..]);
        return Err;
      }
    }
    assert lines[..|lines|] == lines;
    if current.Some? {
      tables := tables + [current.value];
    }
    r := Ok(Document(root, tables));
  }
}
