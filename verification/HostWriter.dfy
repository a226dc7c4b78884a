/** `encode` in codec.rs, which grows one string line by line. */
module HostWriter {
  import opened Wrappers
  import opened Text
  import opened HostModel
  import opened HostLines
  import opened HostTables
  import opened HostItems
  import opened HostBuild
  import opened HostCodec
  import opened SortedKeys

  lemma {:induction false} ShowAllConcat(a: seq<Entry>, b: seq<Entry>)
    ensures ShowAll(a + b) == ShowAll(a) + ShowAll(b)
  {
    if a == [] {
      assert a + b == b;
    } else {
      assert (a + b)[0] == a[0] && (a + b)[1..] == a[1..] + b;
      ShowAllConcat(a[1..], b);
    }
  }

  /** The text with the given entries behind the opening remark. */
  function File(entries: seq<Entry>): string {
    Unlines([REMARK] + ShowAll(entries))
  }

  lemma OneLine(s: string)
    ensures Unlines([s]) == s + "\n"
  {
    assert [s][1..] == [] && "\n" + [] == "\n";
  }

  lemma FileGrows(entries: seq<Entry>, e: Entry)
    ensures File(entries + [e]) == File(entries) + (Show(e) + "\n")
  {
    ShowAllConcat(entries, [e]);
    assert [e][1..] == [];
    assert ShowAll([e]) == [Show(e)];
    assert [REMARK] + (ShowAll(entries) + [Show(e)]) == ([REMARK] + ShowAll(entries)) + [Show(e)];
    UnlinesConcat([REMARK] + ShowAll(entries), [Show(e)]);
    OneLine(Show(e));
  }

  /** The character loop of `write_string` and `write_strings`, which appends to `output`. */
  method PushEscaped(output: string, value: string) returns (r: string)
    ensures r == output + Escape(value)
  {
    r := output;
    assert value[0..] == value;
    for i := 0 to |value|
      invariant r + Escape(value[i..]) == output + Escape(value)
    {
      assert value[i..][1..] == value[i + 1..];
      Reassociate(r, EscapeChar(value[i]), Escape(value[i + 1..]));
      r := r + EscapeChar(value[i]);
    }
    assert r + Escape(value[|value|..]) == r;
  }

  /** What the item loop still writes from item `i` on. */
  function JoinFrom(items: seq<string>, i: nat): string
    requires i <= |items|
    decreases |items| - i
  {
    if i == |items| then [] else (if i > 0 then ", " else "") + (Quote(items[i]) + JoinFrom(items, i + 1))
  }

  lemma {:induction false} JoinFromIsJoin(items: seq<string>, i: nat)
    requires i < |items|
    ensures JoinFrom(items, i) == (if i > 0 then ", " else "") + Join(items[i..])
    decreases |items| - i
  {
    var q := Quote(items[i]);
    if i + 1 == |items| {
      assert q + JoinFrom(items, i + 1) == q;
    } else {
      JoinFromIsJoin(items, i + 1);
      assert items[i..][1..] == items[i + 1..];
    }
  }

  method PushQuoted(output: string, value: string) returns (r: string)
    ensures r == output + Quote(value)
  {
    r := PushEscaped(output + "\"", value);
    Reassociate(output, "\"", Escape(value));
    Reassociate(output, "\"" + Escape(value), "\"");
    Reassociate("\"", Escape(value), "\"");
    r := r + "\"";
  }

  method PushItems(output: string, items: seq<string>) returns (r: string)
    ensures r == output + Join(items)
  {
    r := output;
    if items != [] {
      JoinFromIsJoin(items, 0);
      assert items[0..] == items && "" + Join(items) == Join(items);
    }
    for i := 0 to |items|
      invariant r + JoinFrom(items, i) == output + Join(items)
    {
      ghost var rest := JoinFrom(items, i + 1);
      Reassociate(r, if i > 0 then ", " else "", Quote(items[i]) + rest);
      if i != 0 {
        r := r + ", ";
      } else {
        assert r + "" == r;
      }
      Reassociate(r, Quote(items[i]), rest);
      r := PushQuoted(r, items[i]);
    }
    assert r + JoinFrom(items, |items|) == r;
  }

  function Optional(k: Key, v: Option<Value>): seq<Entry> {
    if v.Some? then [Assign(k, v.value)] else []
  }

  /** What remains of a table when `i` of its keys are done. */
  ghost function Remainders(keys: seq<Key>, f: Key -> Option<Value>): (rests: seq<seq<Entry>>)
    ensures |rests| == |keys| + 1 && rests[0] == Assignments(keys, f) && rests[|keys|] == []
    ensures forall i :: 0 <= i < |keys| ==> rests[i] == Optional(keys[i], f(keys[i])) + rests[i + 1]
  {
    if keys == [] then [[]] else [Assignments(keys, f)] + Remainders(keys[1..], f)
  }

  ghost predicate HostLinks(h: Host, rests: seq<seq<Entry>>) {
    && |rests| == 16
    && forall k :: HostPlace(k) < 15 ==> rests[HostPlace(k)] == Optional(k, HostField(h, k)) + rests[HostPlace(k) + 1]
  }

  lemma HostLink(h: Host, rests: seq<seq<Entry>>, k: Key)
    requires HostLinks(h, rests) && HostPlace(k) < 15
    ensures rests[HostPlace(k)] == Optional(k, HostField(h, k)) + rests[HostPlace(k) + 1]
  {
  }

  lemma HostRemainders(h: Host) returns (rests: seq<seq<Entry>>)
    ensures HostLinks(h, rests) && rests[15] == []
    ensures ItemEntries(HostItem(h)) == [Blank, Header(HostTable)] + rests[0]
  {
    var f := ItemFields(HostItem(h));
    rests := Remainders(HOST_KEYS, f);
    forall k | HostPlace(k) < 15
      ensures rests[HostPlace(k)] == Optional(k, HostField(h, k)) + rests[HostPlace(k) + 1]
    {
      HostKeysInPlace(k);
      assert f(k) == HostField(h, k);
    }
  }

  predicate HopHas(hop: Hop, k: Key) {
    if hop.InlineHop? then HopPlace(k) < 9 && k != KName else HopPlace(k) < 4 && k != KAlias
  }

  ghost predicate HopLinks(c: string, n: U64, hop: Hop, rests: seq<seq<Entry>>) {
    && |rests| == (if hop.InlineHop? then 10 else 5)
    && forall k :: HopHas(hop, k) ==> rests[HopPlace(k)] == Optional(k, HopField(c, n, hop, k)) + rests[HopPlace(k) + 1]
  }

  lemma HopLink(c: string, n: U64, hop: Hop, rests: seq<seq<Entry>>, k: Key)
    requires HopLinks(c, n, hop, rests) && HopHas(hop, k)
    ensures rests[HopPlace(k)] == Optional(k, HopField(c, n, hop, k)) + rests[HopPlace(k) + 1]
  {
  }

  lemma HopHeadLinks(c: string, n: U64, hop: Hop, rests: seq<seq<Entry>>)
    requires HopLinks(c, n, hop, rests)
    ensures |rests| > 3 && rests[0] == Optional(KChain, Some(Text(c))) + rests[1]
    ensures rests[1] == Optional(KIndex, Some(Integer(n))) + rests[2]
    ensures rests[2] == Optional(KKind, Some(Text(HopKind(hop)))) + rests[3]
  {
    HopLink(c, n, hop, rests, KChain);
    HopLink(c, n, hop, rests, KIndex);
    HopLink(c, n, hop, rests, KKind);
  }

  lemma HopRemainders(c: string, n: U64, hop: Hop) returns (rests: seq<seq<Entry>>)
    ensures HopLinks(c, n, hop, rests) && rests[|rests| - 1] == []
    ensures ItemEntries(HopItem(c, n, hop)) == [Blank, Header(HopTable)] + rests[0]
  {
    var x := HopItem(c, n, hop);
    var keys, f := ItemKeys(x), ItemFields(x);
    rests := Remainders(keys, f);
    forall k | HopHas(hop, k)
      ensures rests[HopPlace(k)] == Optional(k, HopField(c, n, hop, k)) + rests[HopPlace(k) + 1]
    {
      if hop.InlineHop? {
        InlineKeysInPlace(k);
      } else {
        NamedKeysInPlace(k);
      }
      assert f(k) == HopField(c, n, hop, k);
    }
  }

  class Writer {
    var output: string
    ghost var entries: seq<Entry>

    ghost predicate Valid()
      reads this
    {
      output == File(entries)
    }

    constructor ()
      ensures Valid() && entries == []
    {
      output := REMARK + "\n";
      entries := [];
      new;
      OneLine(REMARK);
      assert [REMARK] + [] == [REMARK];
    }

    /** Appends the pieces of one line; `e` is what they spell. */
    method Line(line: string, ghost e: Entry)
      requires Valid() && line == Show(e)
      modifies this
      ensures Valid() && entries == old(entries) + [e]
    {
      FileGrows(entries, e);
      output := output + (line + "\n");
      entries := entries + [e];
    }

    method WriteText(key: Key, value: string)
      requires Valid()
      modifies this
      ensures Valid() && entries == old(entries) + [Assign(key, Text(value))]
    {
      var quoted := PushEscaped("", value);
      assert "" + Escape(value) == Escape(value);
      Line(KeyName(key) + (" = " + ("\"" + (quoted + "\""))), Assign(key, Text(value)));
    }

    method WriteInteger(key: Key, value: U64)
      requires Valid()
      modifies this
      ensures Valid() && entries == old(entries) + [Assign(key, Integer(value))]
    {
      Line(KeyName(key) + (" = " + Decimal(value)), Assign(key, Integer(value)));
    }

    method WriteTexts(key: Key, values: seq<string>)
      requires Valid()
      modifies this
      ensures Valid() && entries == old(entries) + [Assign(key, Texts(values))]
    {
      var joined := PushItems("", values);
      assert "" + Join(values) == Join(values);
      Line(KeyName(key) + (" = " + ("[" + (joined + "]"))), Assign(key, Texts(values)));
    }

    method WriteHeader(kind: Kind)
      requires Valid()
      modifies this
      ensures Valid() && entries == old(entries) + [Blank, Header(kind)]
    {
      Line("", Blank);
      Line(ShowKind(kind), Header(kind));
    }

    /** Writes the field if it is present; `rest` is what follows it in the table. */
    method Field(key: Key, v: Option<Value>, ghost rest: seq<Entry>)
      requires Valid()
      modifies this
      ensures Valid() && entries + rest == old(entries) + (Optional(key, v) + rest)
    {
      if v.Some? {
        assert (entries + [Assign(key, v.value)]) + rest == entries + ([Assign(key, v.value)] + rest);
        match v.value
        case Text(s) => WriteText(key, s);
        case Integer(n) => WriteInteger(key, n);
        case Texts(items) => WriteTexts(key, items);
      } else {
        assert entries + rest == entries + ([] + rest);
      }
    }

    method WriteIdentity(h: Host, ghost rests: seq<seq<Entry>>)
      requires Valid() && HostLinks(h, rests)
      modifies this
      ensures Valid() && entries + rests[6] == old(entries) + rests[0]
    {
      HostLink(h, rests, KAlias);
      Field(KAlias, Some(Text(h.alias)), rests[1]);
      HostLink(h, rests, KRole);
      Field(KRole, if h.role == Both then None else Some(Text(RoleName(h.role))), rests[2]);
      HostLink(h, rests, KAddress);
      Field(KAddress, Some(Text(h.address)), rests[3]);
      HostLink(h, rests, KPort);
      Field(KPort, Some(Integer(h.port)), rests[4]);
      HostLink(h, rests, KUser);
      Field(KUser, Some(Text(h.user)), rests[5]);
      HostLink(h, rests, KIdentityFile);
      Field(KIdentityFile, OptionalText(h.identityFile), rests[6]);
    }

    method WriteSettings(h: Host, ghost rests: seq<seq<Entry>>)
      requires Valid() && HostLinks(h, rests)
      modifies this
      ensures Valid() && entries + rests[12] == old(entries) + rests[6]
    {
      HostLink(h, rests, KGroups);
      Field(KGroups, Some(Texts(h.groups)), rests[7]);
      HostLink(h, rests, KTags);
      Field(KTags, Some(Texts(h.tags)), rests[8]);
      HostLink(h, rests, KNote);
      Field(KNote, OptionalText(h.note), rests[9]);
      HostLink(h, rests, KPolicy);
      Field(KPolicy, Some(Text(PolicyName(h.policy))), rests[10]);
      HostLink(h, rests, KOs);
      Field(KOs, if h.os == AutoOs then None else Some(Text(OsName(h.os))), rests[11]);
      HostLink(h, rests, KJumpChain);
      Field(KJumpChain, OptionalText(h.jumpChain), rests[12]);
    }

    method WriteStats(h: Host, ghost rests: seq<seq<Entry>>)
      requires Valid() && HostLinks(h, rests)
      modifies this
      ensures Valid() && entries + rests[15] == old(entries) + rests[12]
    {
      HostLink(h, rests, KLastConnected);
      Field(KLastConnected, if h.stats.lastConnected.Some? then Some(Integer(h.stats.lastConnected.value))
          else None, rests[13]);
      HostLink(h, rests, KCount);
      Field(KCount, Some(Integer(h.stats.count)), rests[14]);
      HostLink(h, rests, KLastAuth);
      Field(KLastAuth, if h.stats.lastAuth.Some? then Some(Text(MethodName(h.stats.lastAuth.value)))
          else None, rests[15]);
    }

    method WriteHostFields(h: Host, ghost rests: seq<seq<Entry>>)
      requires Valid() && HostLinks(h, rests)
      modifies this
      ensures Valid() && entries + rests[15] == old(entries) + ([Blank, Header(HostTable)] + rests[0])
    {
      assert (entries + [Blank, Header(HostTable)]) + rests[0] == entries + ([Blank, Header(HostTable)] + rests[0]);
      WriteHeader(HostTable);
      WriteIdentity(h, rests);
      WriteSettings(h, rests);
      WriteStats(h, rests);
    }

    method WriteHost(h: Host)
      requires Valid()
      modifies this
      ensures Valid() && entries == old(entries) + ItemEntries(HostItem(h))
    {
      ghost var rests := HostRemainders(h);
      WriteHostFields(h, rests);
      assert entries + [] == entries;
    }

    method WriteNextHost(h: Host, ghost base: seq<Entry>, ghost now: seq<Entry>, ghost next: seq<Entry>)
      requires Valid() && entries == base + now && Grows(now, HostItem(h), next)
      modifies this
      ensures Valid() && entries == base + next
    {
      Reassociate(base, now, ItemEntries(HostItem(h)));
      WriteHost(h);
    }

    method WriteHopHead(c: string, n: U64, kind: string, ghost rests: seq<seq<Entry>>)
      requires Valid() && |rests| > 3 && rests[0] == Optional(KChain, Some(Text(c))) + rests[1]
      requires rests[1] == Optional(KIndex, Some(Integer(n))) + rests[2]
      requires rests[2] == Optional(KKind, Some(Text(kind))) + rests[3]
      modifies this
      ensures Valid() && entries + rests[3] == old(entries) + rests[0]
    {
      Field(KChain, Some(Text(c)), rests[1]);
      Field(KIndex, Some(Integer(n)), rests[2]);
      Field(KKind, Some(Text(kind)), rests[3]);
    }

    method WriteNamed(c: string, n: U64, hop: Hop, ghost rests: seq<seq<Entry>>)
      requires Valid() && HopLinks(c, n, hop, rests) && !hop.InlineHop?
      modifies this
      ensures Valid() && entries + rests[4] == old(entries) + rests[3]
    {
      HopLink(c, n, hop, rests, KName);
      Field(KName, Some(Text(hop.name)), rests[4]);
    }

    method WriteInline(c: string, n: U64, hop: Hop, ghost rests: seq<seq<Entry>>)
      requires Valid() && HopLinks(c, n, hop, rests) && hop.InlineHop?
      modifies this
      ensures Valid() && entries + rests[9] == old(entries) + rests[3]
    {
      HopLink(c, n, hop, rests, KAlias);
      Field(KAlias, Some(Text(hop.name)), rests[4]);
      HopLink(c, n, hop, rests, KHost);
      Field(KHost, Some(Text(hop.host)), rests[5]);
      HopLink(c, n, hop, rests, KPort);
      Field(KPort, Some(Integer(hop.port)), rests[6]);
      HopLink(c, n, hop, rests, KUser);
      Field(KUser, Some(Text(hop.user)), rests[7]);
      HopLink(c, n, hop, rests, KIdentityFile);
      Field(KIdentityFile, OptionalText(hop.identityFile), rests[8]);
      HopLink(c, n, hop, rests, KPolicy);
      Field(KPolicy, Some(Text(PolicyName(hop.policy))), rests[9]);
    }

    method WriteHop(c: string, n: U64, hop: Hop)
      requires Valid()
      modifies this
      ensures Valid() && entries == old(entries) + ItemEntries(HopItem(c, n, hop))
    {
      ghost var rests := HopRemainders(c, n, hop);
      assert (entries + [Blank, Header(HopTable)]) + rests[0] == entries + ([Blank, Header(HopTable)] + rests[0]);
      WriteHeader(HopTable);
      HopHeadLinks(c, n, hop, rests);
      WriteHopHead(c, n, HopKind(hop), rests);
      if hop.InlineHop? {
        WriteInline(c, n, hop, rests);
      } else {
        WriteNamed(c, n, hop, rests);
      }
      assert entries + [] == entries;
    }

    /** The hop loop; `upTo[i]` are the lines of the first `i` tables of the chain, after `base`. */
    method WriteHops(c: Chain, ghost base: seq<Entry>, ghost upTo: seq<seq<Entry>>)
      requires Valid() && |c.hops| <= MAX_CHAIN_HOPS && |upTo| == |c.hops| + 2 && entries == base + upTo[1]
      requires forall i :: 0 <= i < |c.hops| ==> Grows(upTo[i + 1], HopItem(c.name, i, c.hops[i]), upTo[i + 2])
      modifies this
      ensures Valid() && entries == base + upTo[|c.hops| + 1]
    {
      for i := 0 to |c.hops|
        invariant Valid() && entries == base + upTo[i + 1]
      {
        Reassociate(base, upTo[i + 1], ItemEntries(HopItem(c.name, i, c.hops[i])));
        assert Grows(upTo[i + 1], HopItem(c.name, i, c.hops[i]), upTo[i + 2]);
        WriteHop(c.name, i, c.hops[i]);
      }
    }

    method WriteChainTable(name: string)
      requires Valid()
      modifies this
      ensures Valid() && entries == old(entries) + ItemEntries(ChainItem(name))
    {
      WriteHeader(ChainTable);
      WriteText(KName, name);
      ChainEntries(name);
    }

    method WriteChain(c: Chain)
      requires Valid() && |c.hops| <= MAX_CHAIN_HOPS
      modifies this
      ensures Valid() && entries == old(entries) + EntriesOf(OneChain(c))
    {
      ghost var upTo := Growing(OneChain(c));
      ghost var base := entries;
      OneChainAt(c);
      assert Grows(upTo[0], OneChain(c)[0], upTo[1]);
      WriteChainTable(c.name);
      assert [] + ItemEntries(ChainItem(c.name)) == ItemEntries(ChainItem(c.name));
      WriteHops(c, base, upTo);
    }
  }

  ghost predicate Grows(a: seq<Entry>, x: Item, b: seq<Entry>) {
    b == a + ItemEntries(x)
  }

  function Flat<A, B>(s: seq<A>, g: A -> seq<B>): seq<B> {
    if s == [] then [] else g(s[0]) + Flat(s[1..], g)
  }

  lemma {:induction false} FlatConcat<A, B>(a: seq<A>, b: seq<A>, g: A -> seq<B>)
    ensures Flat(a + b, g) == Flat(a, g) + Flat(b, g)
  {
    if a == [] {
      assert a + b == b;
    } else {
      assert (a + b)[0] == a[0] && (a + b)[1..] == a[1..] + b;
      FlatConcat(a[1..], b, g);
    }
  }

  lemma {:induction false} EntriesAreFlat(items: seq<Item>)
    ensures EntriesOf(items) == Flat(items, ItemEntries)
  {
    if items != [] {
      EntriesAreFlat(items[1..]);
    }
  }

  lemma EntriesConcat(a: seq<Item>, b: seq<Item>)
    ensures EntriesOf(a + b) == EntriesOf(a) + EntriesOf(b)
  {
    EntriesAreFlat(a);
    EntriesAreFlat(b);
    EntriesAreFlat(a + b);
    FlatConcat(a, b, ItemEntries);
  }

  lemma EntriesOfOne(x: Item)
    ensures EntriesOf([x]) == ItemEntries(x)
  {
    assert [x][1..] == [] && ItemEntries(x) + [] == ItemEntries(x);
  }

  lemma EntriesGrow(items: seq<Item>, i: nat)
    requires i < |items|
    ensures Grows(EntriesOf(items[..i]), items[i], EntriesOf(items[..i + 1]))
  {
    EntriesConcat(items[..i], [items[i]]);
    EntriesOfOne(items[i]);
    assert items[..i + 1] == items[..i] + [items[i]];
  }

  lemma Growing(items: seq<Item>) returns (upTo: seq<seq<Entry>>)
    ensures |upTo| == |items| + 1 && upTo[0] == [] && upTo[|items|] == EntriesOf(items)
    ensures forall i :: 0 <= i < |items| ==> Grows(upTo[i], items[i], upTo[i + 1])
  {
    upTo := seq(|items| + 1, i requires 0 <= i <= |items| => EntriesOf(items[..i]));
    forall i | 0 <= i < |items| ensures Grows(upTo[i], items[i], upTo[i + 1]) {
      EntriesGrow(items, i);
    }
    assert items[..|items|] == items;
  }

  lemma ChainEntries(name: string)
    ensures ItemEntries(ChainItem(name)) == [Blank, Header(ChainTable)] + [Assign(KName, Text(name))]
  {
    assert [KName][1..] == [];
    assert Assignments([KName], ItemFields(ChainItem(name))) == [Assign(KName, Text(name))];
  }

  lemma {:induction false} HopItemsAt(c: Chain, n: nat)
    requires n <= |c.hops| <= MAX_CHAIN_HOPS
    ensures |HopItemsOf(c, n)| == n && forall i :: 0 <= i < n ==> HopItemsOf(c, n)[i] == HopItem(c.name, i, c.hops[i])
  {
    if n > 0 {
      HopItemsAt(c, n - 1);
    }
  }

  lemma OneChainAt(c: Chain)
    requires |c.hops| <= MAX_CHAIN_HOPS
    ensures |OneChain(c)| == |c.hops| + 1 && OneChain(c)[0] == ChainItem(c.name)
    ensures forall i :: 0 <= i < |c.hops| ==> OneChain(c)[i + 1] == HopItem(c.name, i, c.hops[i])
  {
    HopItemsAt(c, |c.hops|);
  }

  lemma RootEntries(db: Database)
    ensures Assignments(ROOT_KEYS, RootFields(db)) ==
            [Assign(KVersion, Integer(db.version))] + Optional(KFolders, ListField(db.folders))
                + Optional(KJumpFolders, ListField(db.jumpFolders))
  {
    var f := RootFields(db);
    assert ROOT_KEYS[1..] == [KFolders, KJumpFolders] && [KFolders, KJumpFolders][1..] == [KJumpFolders]
        && [KJumpFolders][1..] == [];
    assert f(KVersion) == RootField(db, KVersion) && f(KFolders) == RootField(db, KFolders)
        && f(KJumpFolders) == RootField(db, KJumpFolders);
    assert Assignments([KJumpFolders], f) == Optional(KJumpFolders, ListField(db.jumpFolders));
    assert Assignments([KFolders, KJumpFolders], f) == Optional(KFolders, ListField(db.folders))
        + Assignments([KJumpFolders], f);
  }

  lemma {:induction false} HostItemsAt(db: Database, keys: seq<string>)
    requires forall k <- keys :: k in db.hosts
    ensures |HostItemsOf(db, keys)| == |keys|
        && forall i :: 0 <= i < |keys| ==> HostItemsOf(db, keys)[i] == HostItem(db.hosts[keys[i]])
  {
    if keys != [] {
      HostItemsAt(db, keys[1..]);
    }
  }

  ghost predicate ShortChains(db: Database, keys: seq<string>) {
    forall k <- keys :: k in db.chains && |db.chains[k].hops| <= MAX_CHAIN_HOPS
  }

  lemma {:induction false} ChainItemsGrow(db: Database, keys: seq<string>, key: string)
    requires ShortChains(db, keys) && ShortChains(db, [key]) && ShortChains(db, keys + [key])
    ensures key in db.chains && ChainItemsOf(db, keys + [key]) == ChainItemsOf(db, keys) + OneChain(db.chains[key])
  {
    assert key in [key];
    if keys != [] {
      assert (keys + [key])[1..] == keys[1..] + [key];
      assert forall k <- keys[1..] + [key] :: k in keys + [key];
      ChainItemsGrow(db, keys[1..], key);
    }
  }

  ghost predicate GrowsByChain(a: seq<Entry>, c: Chain, b: seq<Entry>)
    requires |c.hops| <= MAX_CHAIN_HOPS
  {
    b == a + EntriesOf(OneChain(c))
  }

  lemma ChainEntriesGrow(db: Database, keys: seq<string>, i: nat)
    requires ShortChains(db, keys) && i < |keys|
    ensures ShortChains(db, keys[..i]) && ShortChains(db, keys[..i + 1])
    ensures GrowsByChain(EntriesOf(ChainItemsOf(db, keys[..i])), db.chains[keys[i]],
        EntriesOf(ChainItemsOf(db, keys[..i + 1])))
  {
    assert keys[..i + 1] == keys[..i] + [keys[i]];
    ChainItemsGrow(db, keys[..i], keys[i]);
    EntriesConcat(ChainItemsOf(db, keys[..i]), OneChain(db.chains[keys[i]]));
  }

  method WriteRoot(w: Writer, db: Database)
    requires w.Valid() && w.entries == []
    modifies w
    ensures w.Valid() && w.entries == Assignments(ROOT_KEYS, RootFields(db))
  {
    w.WriteInteger(KVersion, db.version);
    if db.folders != [] {
      w.WriteTexts(KFolders, db.folders);
    }
    if db.jumpFolders != [] {
      w.WriteTexts(KJumpFolders, db.jumpFolders);
    }
    RootEntries(db);
  }

  method WriteHosts(w: Writer, db: Database, keys: seq<string>, ghost upTo: seq<seq<Entry>>)
    requires w.Valid() && |upTo| == |keys| + 1 && upTo[0] == [] && forall k <- keys :: k in db.hosts
    requires forall i :: 0 <= i < |keys| ==> Grows(upTo[i], HostItem(db.hosts[keys[i]]), upTo[i + 1])
    modifies w
    ensures w.Valid() && w.entries == old(w.entries) + upTo[|keys|]
  {
    assert w.entries + [] == w.entries;
    for i := 0 to |keys|
      invariant w.Valid() && w.entries == old(w.entries) + upTo[i]
    {
      w.WriteNextHost(db.hosts[keys[i]], old(w.entries), upTo[i], upTo[i + 1]);
    }
  }

  method WriteChains(w: Writer, db: Database, keys: seq<string>, ghost upTo: seq<seq<Entry>>)
    requires w.Valid() && |upTo| == |keys| + 1 && upTo[0] == [] && ShortChains(db, keys)
    requires forall i :: 0 <= i < |keys| ==> GrowsByChain(upTo[i], db.chains[keys[i]], upTo[i + 1])
    modifies w
    ensures w.Valid() && w.entries == old(w.entries) + upTo[|keys|]
  {
    assert w.entries + [] == w.entries;
    for i := 0 to |keys|
      invariant w.Valid() && w.entries == old(w.entries) + upTo[i]
    {
      Reassociate(old(w.entries), upTo[i], EntriesOf(OneChain(db.chains[keys[i]])));
      assert GrowsByChain(upTo[i], db.chains[keys[i]], upTo[i + 1]);
      w.WriteChain(db.chains[keys[i]]);
    }
  }

  method WriteAllHosts(w: Writer, db: Database)
    requires w.Valid()
    modifies w
    ensures w.Valid() && w.entries == old(w.entries) + EntriesOf(HostItemsOf(db, InOrder(db.hosts.Keys)))
  {
    var keys := InOrder(db.hosts.Keys);
    ghost var upTo := Growing(HostItemsOf(db, keys));
    HostItemsAt(db, keys);
    WriteHosts(w, db, keys, upTo);
  }

  lemma GrowingChains(db: Database, keys: seq<string>) returns (upTo: seq<seq<Entry>>)
    requires ShortChains(db, keys)
    ensures |upTo| == |keys| + 1 && upTo[0] == [] && upTo[|keys|] == EntriesOf(ChainItemsOf(db, keys))
    ensures forall i :: 0 <= i < |keys| ==> GrowsByChain(upTo[i], db.chains[keys[i]], upTo[i + 1])
  {
    assert forall i :: 0 <= i <= |keys| ==> ShortChains(db, keys[..i]);
    upTo := seq(|keys| + 1, i requires 0 <= i <= |keys| => EntriesOf(ChainItemsOf(db, keys[..i])));
    forall i | 0 <= i < |keys| ensures GrowsByChain(upTo[i], db.chains[keys[i]], upTo[i + 1]) {
      ChainEntriesGrow(db, keys, i);
    }
    assert keys[..|keys|] == keys;
  }

  method WriteAllChains(w: Writer, db: Database)
    requires w.Valid() && forall k <- db.chains :: |db.chains[k].hops| <= MAX_CHAIN_HOPS
    modifies w
    ensures w.Valid() && w.entries == old(w.entries) + EntriesOf(ChainItemsOf(db, InOrder(db.chains.Keys)))
  {
    var keys := InOrder(db.chains.Keys);
    ghost var upTo := GrowingChains(db, keys);
    WriteChains(w, db, keys, upTo);
  }

  lemma HostsThenChains(db: Database)
    requires ValidDatabase(db)
    ensures forall k <- db.chains :: |db.chains[k].hops| <= MAX_CHAIN_HOPS
    ensures EntriesOf(ItemsOf(db)) ==
            EntriesOf(HostItemsOf(db, InOrder(db.hosts.Keys))) + EntriesOf(ChainItemsOf(db, InOrder(db.chains.Keys)))
  {
    ValidIsKeyed(db);
    EntriesConcat(HostItemsOf(db, InOrder(db.hosts.Keys)), ChainItemsOf(db, InOrder(db.chains.Keys)));
  }

  method EncodeFile(db: Database) returns (r: Result<string>)
    ensures r == Encode(db)
  {
    var ok := CheckDatabase(db);
    if !ok {
      return Err;
    }
    HostsThenChains(db);
    var w := new Writer();
    WriteRoot(w, db);
    WriteAllHosts(w, db);
    WriteAllChains(w, db);
    Reassociate(Assignments(ROOT_KEYS, RootFields(db)), EntriesOf(HostItemsOf(db, InOrder(db.hosts.Keys))),
          EntriesOf(ChainItemsOf(db, InOrder(db.chains.Keys))));
    r := Ok(w.output);
  }
}
