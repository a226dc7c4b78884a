/**
 What a host library file says, in the words of the format: every key, every choice and every default is
 written out here, so that the reading functions are measured against them.
 */
module HostMeaning {
  import opened Wrappers
  import opened HostModel
  import opened HostLines
  import opened HostTables
  import opened HostItems

  // ---------- Fields by name ----------

  /** What the table gives for a key, if it gives anything. */
  ghost function Field(values: Values, name: string): Option<Value> {
    if KeyNamed(name) in values then Some(values[KeyNamed(name)]) else None
  }

  ghost predicate OnlyNamed(values: Values, names: seq<string>) {
    forall k <- values :: exists i :: 0 <= i < |names| && k == KeyNamed(names[i])
  }

  /** The key is left out and the text is missing, or the key gives the text. */
  ghost predicate MaybeText(field: Option<Value>, s: Option<string>) {
    if s.None? then field == None else field == Some(Text(s.value))
  }

  /** The key is left out and the list is empty, or the key gives the list. */
  ghost predicate MaybeTexts(field: Option<Value>, items: seq<string>) {
    (field == None && items == []) || field == Some(Texts(items))
  }

  ghost predicate MaybeInteger(field: Option<Value>, n: Option<U64>) {
    if n.None? then field == None else field == Some(Integer(n.value))
  }

  ghost predicate PortIs(field: Option<Value>, port: U16) {
    port != 0 && ((field == None && port == 22) || field == Some(Integer(port)))
  }

  ghost predicate CountIs(field: Option<Value>, n: U64) {
    (field == None && n == 0) || field == Some(Integer(n))
  }

  ghost predicate RoleIs(field: Option<Value>, role: HostRole) {
    match role
    case Target => field == Some(Text("target"))
    case Jump => field == Some(Text("jump"))
    case Both => field == None || field == Some(Text("both"))
  }

  ghost predicate PolicyIs(field: Option<Value>, policy: HostKeyPolicy) {
    match policy
    case Strict => field == Some(Text("strict"))
    case AcceptNew => field == None || field == Some(Text("accept-new"))
    case Insecure => field == Some(Text("insecure"))
  }

  ghost predicate OsIs(field: Option<Value>, os: OsType) {
    match os
    case AutoOs => field == None || field == Some(Text("auto"))
    case Linux => field == Some(Text("linux"))
    case Windows => field == Some(Text("windows"))
  }

  ghost predicate MethodIs(field: Option<Value>, m: Option<AuthMethod>) {
    match m
    case None => field == None
    case Some(AgentAuth) => field == Some(Text("agent"))
    case Some(PrivateKeyAuth) => field == Some(Text("private-key"))
    case Some(PasswordAuth) => field == Some(Text("password"))
    case Some(KeyboardInteractiveAuth) => field == Some(Text("keyboard-interactive"))
    case Some(AutoAuth) => field == Some(Text("auto"))
  }

  // ---------- What the tables say ----------

  const HOST_NAMES := ["alias", "role", "address", "port", "user", "identity_file", "groups", "tags", "note",
                       "host_key_policy", "os_type", "jump_chain", "last_connected_unix", "connection_count",
                       "last_auth_method"]
  const NAMED_NAMES := ["chain", "index", "kind", "name"]
  const INLINE_NAMES := ["chain", "index", "kind", "alias", "host", "port", "user", "identity_file",
                         "host_key_policy"]

  type Given = Option<Value>

  ghost predicate IdentityIs(alias: Given, role: Given, address: Given, user: Given, port: Given, identityFile: Given,
                             h: Host)
  {
    && alias == Some(Text(h.alias)) && RoleIs(role, h.role) && address == Some(Text(h.address))
    && user == Some(Text(h.user)) && PortIs(port, h.port) && MaybeText(identityFile, h.identityFile)
  }

  ghost predicate SettingsAre(groups: Given, tags: Given, note: Given, policy: Given, jumpChain: Given, os: Given,
                              h: Host)
  {
    && MaybeTexts(groups, h.groups) && MaybeTexts(tags, h.tags) && MaybeText(note, h.note)
    && PolicyIs(policy, h.policy) && MaybeText(jumpChain, h.jumpChain) && OsIs(os, h.os)
  }

  ghost predicate StatsAre(last: Given, count: Given, lastAuth: Given, stats: Stats) {
    && MaybeInteger(last, stats.lastConnected) && CountIs(count, stats.count) && MethodIs(lastAuth, stats.lastAuth)
  }

  ghost predicate IdentitySays(values: Values, h: Host) {
    IdentityIs(Field(values, "alias"), Field(values, "role"), Field(values, "address"), Field(values, "user"),
               Field(values, "port"), Field(values, "identity_file"), h)
  }

  ghost predicate SettingsSay(values: Values, h: Host) {
    SettingsAre(Field(values, "groups"), Field(values, "tags"), Field(values, "note"),
                Field(values, "host_key_policy"), Field(values, "jump_chain"), Field(values, "os_type"), h)
  }

  ghost predicate StatsSay(values: Values, stats: Stats) {
    StatsAre(Field(values, "last_connected_unix"), Field(values, "connection_count"),
             Field(values, "last_auth_method"), stats)
  }

  /** A `[[host]]` table says that there is the host `h`. */
  ghost predicate HostSays(values: Values, h: Host) {
    && IdentitySays(values, h) && SettingsSay(values, h) && StatsSay(values, h.stats)
    && OnlyNamed(values, HOST_NAMES)
  }

  /** A `[[chain]]` table has nothing but a name. */
  ghost predicate ChainSays(values: Values, name: string) {
    Field(values, "name") == Some(Text(name)) && OnlyNamed(values, ["name"])
  }

  ghost predicate InlineIs(alias: Given, host: Given, port: Given, user: Given, identityFile: Given, policy: Given,
                           hop: Hop)
  {
    && hop.InlineHop? && alias == Some(Text(hop.name)) && host == Some(Text(hop.host)) && PortIs(port, hop.port)
    && user == Some(Text(hop.user)) && MaybeText(identityFile, hop.identityFile) && PolicyIs(policy, hop.policy)
  }

  ghost predicate KindIs(kind: Given, hop: Hop) {
    match hop
    case HostHop(_) => kind == Some(Text("host"))
    case OpenSshHop(_) => kind == Some(Text("openssh"))
    case InlineHop(_, _, _, _, _, _) => kind == Some(Text("inline"))
  }

  ghost predicate HopIs(chainKey: Given, indexKey: Given, kind: Given, name: Given, chain: string, index: U64, hop: Hop)
  {
    && chainKey == Some(Text(chain)) && indexKey == Some(Integer(index)) && KindIs(kind, hop)
    && (!hop.InlineHop? ==> name == Some(Text(hop.name)))
  }

  ghost predicate InlineSays(values: Values, hop: Hop) {
    InlineIs(Field(values, "alias"), Field(values, "host"), Field(values, "port"), Field(values, "user"),
             Field(values, "identity_file"), Field(values, "host_key_policy"), hop)
  }

  /** A `[[hop]]` table says that `hop` stands at `index` of `chain`. */
  ghost predicate HopSays(values: Values, chain: string, index: U64, hop: Hop) {
    && HopIs(Field(values, "chain"), Field(values, "index"), Field(values, "kind"), Field(values, "name"),
             chain, index, hop)
    && (if hop.InlineHop? then InlineSays(values, hop) && OnlyNamed(values, INLINE_NAMES)
        else OnlyNamed(values, NAMED_NAMES))
  }

  // ---------- The reading functions read just that ----------

  lemma NameIs(k: Key, name: string)
    requires !k.Unknown? && KeyName(k) == name
    ensures KeyNamed(name) == k
  {
    KeyNamesDiffer(k);
  }

  lemma IdentityNames()
    ensures KeyNamed("alias") == KAlias && KeyNamed("role") == KRole && KeyNamed("address") == KAddress
    ensures KeyNamed("port") == KPort && KeyNamed("user") == KUser && KeyNamed("identity_file") == KIdentityFile
  {
    NameIs(KAlias, "alias");
    NameIs(KRole, "role");
    NameIs(KAddress, "address");
    NameIs(KPort, "port");
    NameIs(KUser, "user");
    NameIs(KIdentityFile, "identity_file");
  }

  lemma SettingNames()
    ensures KeyNamed("groups") == KGroups && KeyNamed("tags") == KTags && KeyNamed("note") == KNote
    ensures KeyNamed("host_key_policy") == KPolicy && KeyNamed("jump_chain") == KJumpChain
    ensures KeyNamed("os_type") == KOs
  {
    NameIs(KGroups, "groups");
    NameIs(KTags, "tags");
    NameIs(KNote, "note");
    NameIs(KPolicy, "host_key_policy");
    NameIs(KJumpChain, "jump_chain");
    NameIs(KOs, "os_type");
  }

  lemma StatNames()
    ensures KeyNamed("last_connected_unix") == KLastConnected && KeyNamed("connection_count") == KCount
    ensures KeyNamed("last_auth_method") == KLastAuth
  {
    NameIs(KLastConnected, "last_connected_unix");
    NameIs(KCount, "connection_count");
    NameIs(KLastAuth, "last_auth_method");
  }

  lemma HopNames()
    ensures KeyNamed("chain") == KChain && KeyNamed("index") == KIndex && KeyNamed("kind") == KKind
    ensures KeyNamed("name") == KName && KeyNamed("host") == KHost
  {
    NameIs(KChain, "chain");
    NameIs(KIndex, "index");
    NameIs(KKind, "kind");
    NameIs(KName, "name");
    NameIs(KHost, "host");
  }

  lemma RootNames()
    ensures KeyNamed("version") == KVersion && KeyNamed("folders") == KFolders
    ensures KeyNamed("jump_folders") == KJumpFolders
  {
    NameIs(KVersion, "version");
    NameIs(KFolders, "folders");
    NameIs(KJumpFolders, "jump_folders");
  }

  lemma OnlyIsOnlyNamed(values: Values, keys: seq<Key>, names: seq<string>)
    requires |keys| == |names| && forall i :: 0 <= i < |keys| ==> keys[i] == KeyNamed(names[i])
    ensures Only(values, keys) <==> OnlyNamed(values, names)
  {
    if Only(values, keys) {
      forall k | k in values
        ensures exists i :: 0 <= i < |names| && k == KeyNamed(names[i])
      {
        var i :| 0 <= i < |keys| && keys[i] == k;
        assert k == KeyNamed(names[i]);
      }
    }
  }

  lemma RoleMeans(values: Values, r: HostRole)
    ensures GetRole(values) == Ok(r) <==> RoleIs(Lookup(values, KRole), r)
  {
    assert "target"[0] == 't' && "jump"[0] == 'j' && "both"[0] == 'b';
  }

  lemma PolicyMeans(values: Values, p: HostKeyPolicy)
    ensures GetPolicy(values) == Ok(p) <==> PolicyIs(Lookup(values, KPolicy), p)
  {
    assert "strict"[0] == 's' && "accept-new"[0] == 'a' && "insecure"[0] == 'i';
  }

  lemma OsMeans(values: Values, os: OsType)
    ensures GetOs(values) == Ok(os) <==> OsIs(Lookup(values, KOs), os)
  {
    assert "auto"[0] == 'a' && "linux"[0] == 'l' && "windows"[0] == 'w';
  }

  lemma MethodMeans(values: Values, m: Option<AuthMethod>)
    ensures GetMethod(values) == Ok(m) <==> MethodIs(Lookup(values, KLastAuth), m)
  {
    assert |"agent"| == 5 && |"private-key"| == 11 && |"password"| == 8 && |"auto"| == 4;
    assert |"keyboard-interactive"| == 20;
  }

  lemma PortMeans(values: Values, port: U16)
    ensures GetPort(values) == Ok(port) <==> PortIs(Lookup(values, KPort), port)
  {
  }

  lemma IdentityIsRead(values: Values, h: Host)
    ensures GetIdentity(values) == Ok((h.alias, h.role, h.address, h.user, h.port, h.identityFile)) <==>
              IdentityIs(Lookup(values, KAlias), Lookup(values, KRole), Lookup(values, KAddress), Lookup(values, KUser),
                         Lookup(values, KPort), Lookup(values, KIdentityFile), h)
  {
    RoleMeans(values, h.role);
    PortMeans(values, h.port);
  }

  lemma SettingsAreRead(values: Values, h: Host)
    ensures GetSettings(values) == Ok((h.groups, h.tags, h.note, h.policy, h.jumpChain, h.os)) <==>
              SettingsAre(Lookup(values, KGroups), Lookup(values, KTags), Lookup(values, KNote),
                          Lookup(values, KPolicy), Lookup(values, KJumpChain), Lookup(values, KOs), h)
  {
    PolicyMeans(values, h.policy);
    OsMeans(values, h.os);
  }

  lemma StatsAreRead(values: Values, stats: Stats)
    ensures GetStats(values) == Ok(stats) <==>
              StatsAre(Lookup(values, KLastConnected), Lookup(values, KCount), Lookup(values, KLastAuth), stats)
  {
    MethodMeans(values, stats.lastAuth);
  }

  lemma HostParts(values: Values, h: Host)
    ensures GetHost(values) == Ok(h) <==>
              && GetIdentity(values) == Ok((h.alias, h.role, h.address, h.user, h.port, h.identityFile))
              && GetSettings(values) == Ok((h.groups, h.tags, h.note, h.policy, h.jumpChain, h.os))
              && GetStats(values) == Ok(h.stats)
  {
  }

  lemma IdentityMeans(values: Values, h: Host)
    ensures GetIdentity(values) == Ok((h.alias, h.role, h.address, h.user, h.port, h.identityFile)) <==>
              IdentitySays(values, h)
  {
    IdentityIsRead(values, h);
    IdentityNames();
  }

  lemma SettingsMean(values: Values, h: Host)
    ensures GetSettings(values) == Ok((h.groups, h.tags, h.note, h.policy, h.jumpChain, h.os)) <==>
              SettingsSay(values, h)
  {
    SettingsAreRead(values, h);
    SettingNames();
  }

  lemma StatsMean(values: Values, stats: Stats)
    ensures GetStats(values) == Ok(stats) <==> StatsSay(values, stats)
  {
    StatsAreRead(values, stats);
    StatNames();
  }

  lemma HostKeysMean(values: Values)
    ensures Only(values, HOST_KEYS) <==> OnlyNamed(values, HOST_NAMES)
  {
    IdentityNames();
    SettingNames();
    StatNames();
    OnlyIsOnlyNamed(values, HOST_KEYS, HOST_NAMES);
  }

  lemma InlineKeysMean(values: Values)
    ensures Only(values, INLINE_KEYS) <==> OnlyNamed(values, INLINE_NAMES)
  {
    IdentityNames();
    HopNames();
    NameIs(KPolicy, "host_key_policy");
    OnlyIsOnlyNamed(values, INLINE_KEYS, INLINE_NAMES);
  }

  lemma NamedKeysMean(values: Values)
    ensures Only(values, NAMED_KEYS) <==> OnlyNamed(values, NAMED_NAMES)
  {
    HopNames();
    OnlyIsOnlyNamed(values, NAMED_KEYS, NAMED_NAMES);
  }

  lemma HostMeans(values: Values, h: Host)
    ensures GetHost(values) == Ok(h) <==> IdentitySays(values, h) && SettingsSay(values, h) && StatsSay(values, h.stats)
  {
    HostParts(values, h);
    IdentityMeans(values, h);
    SettingsMean(values, h);
    StatsMean(values, h.stats);
  }

  lemma InlineIsRead(values: Values, hop: Hop)
    ensures GetInline(values) == Ok(hop) <==>
              InlineIs(Lookup(values, KAlias), Lookup(values, KHost), Lookup(values, KPort), Lookup(values, KUser),
                       Lookup(values, KIdentityFile), Lookup(values, KPolicy), hop)
  {
    if hop.InlineHop? {
      PortMeans(values, hop.port);
      PolicyMeans(values, hop.policy);
    }
  }

  lemma InlineMeans(values: Values, hop: Hop)
    ensures GetInline(values) == Ok(hop) <==> InlineSays(values, hop)
  {
    InlineIsRead(values, hop);
    IdentityNames();
    NameIs(KHost, "host");
    NameIs(KPolicy, "host_key_policy");
  }

  lemma KindDecides(values: Values, kind: string, hop: Hop)
    ensures GetHopOf(values, kind) == Ok(hop) <==>
              && kind == HopKind(hop)
              && (if hop.InlineHop? then GetInline(values) == Ok(hop) else Required(values, KName) == Ok(hop.name))
  {
    assert |"host"| == 4 && |"openssh"| == 7 && |"inline"| == 6;
  }

  lemma HopParts(values: Values, chain: string, index: U64, hop: Hop)
    ensures GetHop(values) == Ok(HopItem(chain, index, hop)) <==>
              && HopIs(Lookup(values, KChain), Lookup(values, KIndex), Lookup(values, KKind), Lookup(values, KName),
                       chain, index, hop)
              && (hop.InlineHop? ==> GetInline(values) == Ok(hop))
              && Only(values, if hop.InlineHop? then INLINE_KEYS else NAMED_KEYS) && ValidHop(hop)
  {
    if Required(values, KKind).Ok? {
      KindDecides(values, Required(values, KKind).value, hop);
    }
  }

  lemma HopHeadMeans(values: Values, chain: string, index: U64, hop: Hop)
    ensures HopIs(Lookup(values, KChain), Lookup(values, KIndex), Lookup(values, KKind), Lookup(values, KName),
                  chain, index, hop) <==>
            HopIs(Field(values, "chain"), Field(values, "index"), Field(values, "kind"), Field(values, "name"),
                  chain, index, hop)
  {
    HopNames();
  }

  lemma HopMeans(values: Values, chain: string, index: U64, hop: Hop)
    ensures GetHop(values) == Ok(HopItem(chain, index, hop)) <==> HopSays(values, chain, index, hop) && ValidHop(hop)
  {
    HopParts(values, chain, index, hop);
    HopHeadMeans(values, chain, index, hop);
    if hop.InlineHop? {
      InlineMeans(values, hop);
      InlineKeysMean(values);
    } else {
      NamedKeysMean(values);
    }
  }

  /** The table says that there is this host, chain or hop, and the record is valid. */
  ghost predicate TableSays(t: Table, item: Item) {
    match item
    case HostItem(h) => t.kind == HostTable && HostSays(t.values, h) && ValidHost(h)
    case ChainItem(name) => t.kind == ChainTable && ChainSays(t.values, name)
    case HopItem(chain, index, hop) => t.kind == HopTable && HopSays(t.values, chain, index, hop) && ValidHop(hop)
  }

  lemma HostTableParts(values: Values, h: Host)
    ensures FromTable(Table(HostTable, values)) == Ok(HostItem(h)) <==>
              GetHost(values) == Ok(h) && Only(values, HOST_KEYS) && ValidHost(h)
  {
  }

  lemma HostTableMeans(values: Values, h: Host)
    ensures FromTable(Table(HostTable, values)) == Ok(HostItem(h)) <==> HostSays(values, h) && ValidHost(h)
  {
    HostTableParts(values, h);
    HostMeans(values, h);
    HostKeysMean(values);
  }

  lemma ChainTableMeans(values: Values, name: string)
    ensures FromTable(Table(ChainTable, values)) == Ok(ChainItem(name)) <==> ChainSays(values, name)
  {
    NameIs(KName, "name");
    OnlyIsOnlyNamed(values, [KName], ["name"]);
  }

  lemma KindIsKept(t: Table)
    requires FromTable(t).Ok?
    ensures t.kind == ItemKind(FromTable(t).value)
  {
  }

  /** A table is accepted as a record exactly if it says so, every omitted key standing for its default. */
  lemma TableExactly(t: Table, item: Item)
    ensures FromTable(t) == Ok(item) <==> TableSays(t, item)
  {
    if FromTable(t).Ok? {
      KindIsKept(t);
    }
    assert t == Table(t.kind, t.values);
    match item
    case HostItem(h) => HostTableMeans(t.values, h);
    case ChainItem(name) => ChainTableMeans(t.values, name);
    case HopItem(chain, index, hop) => HopMeans(t.values, chain, index, hop);
  }

  lemma IdentityWithoutPolicy(values: Values)
    ensures GetIdentity(values - {KPolicy}) == GetIdentity(values)
  {
  }

  lemma StatsWithoutPolicy(values: Values)
    ensures GetStats(values - {KPolicy}) == GetStats(values)
  {
  }

  lemma SettingsWithoutPolicy(values: Values)
    requires GetSettings(values).Ok?
    ensures var s := GetSettings(values).value;
            GetSettings(values - {KPolicy}) == Ok((s.0, s.1, s.2, AcceptNew, s.4, s.5))
  {
  }

  lemma HostWithoutPolicy(values: Values, h: Host)
    requires GetHost(values) == Ok(h)
    ensures GetHost(values - {KPolicy}) == Ok(h.(policy := AcceptNew))
  {
    IdentityWithoutPolicy(values);
    SettingsWithoutPolicy(values);
    StatsWithoutPolicy(values);
  }

  lemma PolicyDoesNotMatter(h: Host, policy: HostKeyPolicy)
    ensures ValidHost(h.(policy := policy)) <==> ValidHost(h)
  {
  }

  lemma OnlyFewer(values: Values, keys: seq<Key>, key: Key)
    requires Only(values, keys)
    ensures Only(values - {key}, keys)
  {
  }

  /** A host table without `host_key_policy` is the host with that policy accepting new keys. */
  lemma PolicyMayBeLeftOut(values: Values, h: Host)
    requires FromTable(Table(HostTable, values)) == Ok(HostItem(h))
    ensures FromTable(Table(HostTable, values - {KeyNamed("host_key_policy")})) ==
            Ok(HostItem(h.(policy := AcceptNew)))
  {
    NameIs(KPolicy, "host_key_policy");
    var fewer, eased := values - {KPolicy}, h.(policy := AcceptNew);
    HostTableParts(values, h);
    HostTableParts(fewer, eased);
    HostWithoutPolicy(values, h);
    PolicyDoesNotMatter(h, AcceptNew);
    OnlyFewer(values, HOST_KEYS, KPolicy);
  }
}
