/** What one table of the host library file says: codec.rs. */
module HostItems {
  import opened Wrappers
  import opened HostModel
  import opened HostLines
  import opened HostTables

  datatype Item =
    | HostItem(host: Host)
    | ChainItem(name: string)
    | HopItem(chain: string, index: U64, hop: Hop)

  // ---------- Names of the choices ----------

  function RoleName(r: HostRole): string {
    match r
    case Target => "target"
    case Jump => "jump"
    case Both => "both"
  }

  function RoleNamed(s: string): Result<HostRole> {
    if s == "target" then Ok(Target) else if s == "jump" then Ok(Jump) else if s == "both" then Ok(Both) else Err
  }

  function PolicyName(p: HostKeyPolicy): string {
    match p
    case Strict => "strict"
    case AcceptNew => "accept-new"
    case Insecure => "insecure"
  }

  function PolicyNamed(s: string): Result<HostKeyPolicy> {
    if s == "strict" then Ok(Strict)
    else if s == "accept-new" then Ok(AcceptNew)
    else if s == "insecure" then Ok(Insecure)
    else Err
  }

  function OsName(os: OsType): string {
    match os
    case AutoOs => "auto"
    case Linux => "linux"
    case Windows => "windows"
  }

  function OsNamed(s: string): Result<OsType> {
    if s == "auto" then Ok(AutoOs) else if s == "linux" then Ok(Linux) else if s == "windows" then Ok(Windows) else Err
  }

  function MethodName(m: AuthMethod): string {
    match m
    case AgentAuth => "agent"
    case PrivateKeyAuth => "private-key"
    case PasswordAuth => "password"
    case KeyboardInteractiveAuth => "keyboard-interactive"
    case AutoAuth => "auto"
  }

  function MethodNamed(s: string): Result<AuthMethod> {
    if s == "agent" then Ok(AgentAuth)
    else if s == "private-key" then Ok(PrivateKeyAuth)
    else if s == "password" then Ok(PasswordAuth)
    else if s == "keyboard-interactive" then Ok(KeyboardInteractiveAuth)
    else if s == "auto" then Ok(AutoAuth)
    else Err
  }

  lemma RoleNamesDiffer(r: HostRole)
    ensures RoleNamed(RoleName(r)) == Ok(r)
  {
    assert RoleName(r)[0] in {'t', 'j', 'b'};
  }

  lemma PolicyNamesDiffer(p: HostKeyPolicy)
    ensures PolicyNamed(PolicyName(p)) == Ok(p)
  {
    assert PolicyName(p)[0] in {'s', 'a', 'i'};
  }

  lemma OsNamesDiffer(os: OsType)
    ensures OsNamed(OsName(os)) == Ok(os)
  {
    assert OsName(os)[0] in {'a', 'l', 'w'};
  }

  lemma MethodNamesDiffer(m: AuthMethod)
    ensures MethodNamed(MethodName(m)) == Ok(m)
  {
    assert |MethodName(m)| in {5, 11, 8, 20, 4};
  }

  // ---------- Fields of a table ----------

  function Lookup(values: Values, key: Key): Option<Value> {
    if key in values then Some(values[key]) else None
  }

  function GetText(values: Values, key: Key): Result<Option<string>> {
    match Lookup(values, key)
    case None => Ok(None)
    case Some(v) => if v.Text? then Ok(Some(v.s)) else Err
  }

  function GetInteger(values: Values, key: Key): Result<Option<U64>> {
    match Lookup(values, key)
    case None => Ok(None)
    case Some(v) => if v.Integer? then Ok(Some(v.n)) else Err
  }

  function GetTexts(values: Values, key: Key): Result<seq<string>> {
    match Lookup(values, key)
    case None => Ok([])
    case Some(v) => if v.Texts? then Ok(v.items) else Err
  }

  function Required(values: Values, key: Key): Result<string> {
    var s :- GetText(values, key);
    if s.Some? then Ok(s.value) else Err
  }

  function GetPort(values: Values): Result<U16> {
    var n :- GetInteger(values, KPort);
    if n.None? then Ok(22) else if 1 <= n.value < 0x1_0000 then Ok(n.value) else Err
  }

  function GetRole(values: Values): Result<HostRole> {
    var s :- GetText(values, KRole);
    if s.None? then Ok(Both) else RoleNamed(s.value)
  }

  function GetPolicy(values: Values): Result<HostKeyPolicy> {
    var s :- GetText(values, KPolicy);
    if s.None? then Ok(AcceptNew) else PolicyNamed(s.value)
  }

  function GetOs(values: Values): Result<OsType> {
    var s :- GetText(values, KOs);
    if s.None? then Ok(AutoOs) else OsNamed(s.value)
  }

  function GetMethod(values: Values): Result<Option<AuthMethod>> {
    var s :- GetText(values, KLastAuth);
    if s.None? then Ok(None)
    else
      var m :- MethodNamed(s.value);
      Ok(Some(m))
  }

  function GetStats(values: Values): Result<Stats> {
    var last :- GetInteger(values, KLastConnected);
    var count :- GetInteger(values, KCount);
    var method_ :- GetMethod(values);
    Ok(Stats(last, if count.Some? then count.value else 0, method_))
  }

  const HOST_KEYS := [KAlias, KRole, KAddress, KPort, KUser, KIdentityFile, KGroups, KTags, KNote, KPolicy, KOs,
                      KJumpChain, KLastConnected, KCount, KLastAuth]

  function GetIdentity(values: Values): Result<(string, HostRole, string, string, U16, Option<string>)> {
    var alias :- Required(values, KAlias);
    var role :- GetRole(values);
    var address :- Required(values, KAddress);
    var user :- Required(values, KUser);
    var port :- GetPort(values);
    var identityFile :- GetText(values, KIdentityFile);
    Ok((alias, role, address, user, port, identityFile))
  }

  type Settings = (seq<string>, seq<string>, Option<string>, HostKeyPolicy, Option<string>, OsType)

  function GetSettings(values: Values): Result<Settings> {
    var groups :- GetTexts(values, KGroups);
    var tags :- GetTexts(values, KTags);
    var note :- GetText(values, KNote);
    var policy :- GetPolicy(values);
    var jumpChain :- GetText(values, KJumpChain);
    var os :- GetOs(values);
    Ok((groups, tags, note, policy, jumpChain, os))
  }

  function GetHost(values: Values): Result<Host> {
    var (alias, role, address, user, port, identityFile) :- GetIdentity(values);
    var (groups, tags, note, policy, jumpChain, os) :- GetSettings(values);
    var stats :- GetStats(values);
    Ok(Host(alias, role, address, port, user, identityFile, groups, tags, note, policy, jumpChain, os, stats))
  }

  predicate Only(values: Values, keys: seq<Key>) {
    forall k <- values :: k in keys
  }

  const HOP_KEYS := [KChain, KIndex, KKind]
  const NAMED_KEYS := HOP_KEYS + [KName]
  const INLINE_KEYS := HOP_KEYS + [KAlias, KHost, KPort, KUser, KIdentityFile, KPolicy]

  function GetInline(values: Values): Result<Hop> {
    var alias :- Required(values, KAlias);
    var host :- Required(values, KHost);
    var user :- Required(values, KUser);
    var port :- GetPort(values);
    var identityFile :- GetText(values, KIdentityFile);
    var policy :- GetPolicy(values);
    Ok(InlineHop(alias, host, port, user, identityFile, policy))
  }

  function GetNamed(values: Values, openssh: bool): Result<Hop> {
    var name :- Required(values, KName);
    Ok(if openssh then OpenSshHop(name) else HostHop(name))
  }

  function GetHopOf(values: Values, kind: string): Result<Hop> {
    if kind == "host" then GetNamed(values, false)
    else if kind == "openssh" then GetNamed(values, true)
    else if kind == "inline" then GetInline(values)
    else Err
  }

  function GetHop(values: Values): Result<Item> {
    var chain :- Required(values, KChain);
    var index :- GetInteger(values, KIndex);
    var kind :- Required(values, KKind);
    if index.None? then Err
    else
      var hop :- GetHopOf(values, kind);
      if Only(values, if hop.InlineHop? then INLINE_KEYS else NAMED_KEYS) && ValidHop(hop) then
        Ok(HopItem(chain, index.value, hop))
      else Err
  }

  /** One turn of the table loop of `decode`, without the duplicate tests. */
  function FromTable(t: Table): Result<Item> {
    match t.kind
    case HostTable =>
      var h :- GetHost(t.values);
      if Only(t.values, HOST_KEYS) && ValidHost(h) then Ok(HostItem(h)) else Err
    case ChainTable =>
      var name :- Required(t.values, KName);
      if Only(t.values, [KName]) then Ok(ChainItem(name)) else Err
    case HopTable => GetHop(t.values)
  }

  // ---------- The table written for a record ----------

  function OptionalText(s: Option<string>): Option<Value> {
    if s.Some? then Some(Text(s.value)) else None
  }

  function HostField(h: Host, k: Key): Option<Value> {
    match k
    case KAlias => Some(Text(h.alias))
    case KRole => if h.role == Both then None else Some(Text(RoleName(h.role)))
    case KAddress => Some(Text(h.address))
    case KPort => Some(Integer(h.port))
    case KUser => Some(Text(h.user))
    case KIdentityFile => OptionalText(h.identityFile)
    case KGroups => Some(Texts(h.groups))
    case KTags => Some(Texts(h.tags))
    case KNote => OptionalText(h.note)
    case KPolicy => Some(Text(PolicyName(h.policy)))
    case KOs => if h.os == AutoOs then None else Some(Text(OsName(h.os)))
    case KJumpChain => OptionalText(h.jumpChain)
    case KLastConnected => if h.stats.lastConnected.Some? then Some(Integer(h.stats.lastConnected.value)) else None
    case KCount => Some(Integer(h.stats.count))
    case KLastAuth => if h.stats.lastAuth.Some? then Some(Text(MethodName(h.stats.lastAuth.value))) else None
    case _ => None
  }

  function HopKind(hop: Hop): string {
    match hop
    case HostHop(_) => "host"
    case OpenSshHop(_) => "openssh"
    case InlineHop(_, _, _, _, _, _) => "inline"
  }

  function HopField(chain: string, index: U64, hop: Hop, k: Key): Option<Value> {
    match k
    case KChain => Some(Text(chain))
    case KIndex => Some(Integer(index))
    case KKind => Some(Text(HopKind(hop)))
    case KName => if hop.InlineHop? then None else Some(Text(hop.name))
    case KAlias => if hop.InlineHop? then Some(Text(hop.name)) else None
    case KHost => if hop.InlineHop? then Some(Text(hop.host)) else None
    case KPort => if hop.InlineHop? then Some(Integer(hop.port)) else None
    case KUser => if hop.InlineHop? then Some(Text(hop.user)) else None
    case KIdentityFile => if hop.InlineHop? then OptionalText(hop.identityFile) else None
    case KPolicy => if hop.InlineHop? then Some(Text(PolicyName(hop.policy))) else None
    case _ => None
  }

  function ItemField(item: Item, k: Key): Option<Value> {
    match item
    case HostItem(h) => HostField(h, k)
    case ChainItem(name) => if k == KName then Some(Text(name)) else None
    case HopItem(chain, index, hop) => HopField(chain, index, hop, k)
  }

  function ItemKind(item: Item): Kind {
    match item
    case HostItem(_) => HostTable
    case ChainItem(_) => ChainTable
    case HopItem(_, _, _) => HopTable
  }

  function ItemKeys(item: Item): seq<Key> {
    match item
    case HostItem(_) => HOST_KEYS
    case ChainItem(_) => [KName]
    case HopItem(_, _, hop) => if hop.InlineHop? then INLINE_KEYS else NAMED_KEYS
  }

  function ItemFields(item: Item): Key -> Option<Value> {
    k => ItemField(item, k)
  }

  function ItemTable(item: Item): Table {
    Table(ItemKind(item), ValuesOf(ItemKeys(item), ItemFields(item)))
  }

  function ItemEntries(item: Item): seq<Entry> {
    TableEntries(ItemKind(item), ItemKeys(item), ItemFields(item))
  }

  predicate ValidItem(item: Item) {
    match item
    case HostItem(h) => ValidHost(h)
    case ChainItem(_) => true
    case HopItem(_, _, hop) => ValidHop(hop)
  }

  // ---------- Reading back the table of a record ----------

  /** The place of a key in the table it is written to. */
  function HostPlace(k: Key): nat {
    match k
    case KAlias => 0 case KRole => 1 case KAddress => 2 case KPort => 3 case KUser => 4 case KIdentityFile => 5
    case KGroups => 6 case KTags => 7 case KNote => 8 case KPolicy => 9 case KOs => 10 case KJumpChain => 11
    case KLastConnected => 12 case KCount => 13 case KLastAuth => 14
    case _ => 15
  }

  function HopPlace(k: Key): nat {
    match k
    case KChain => 0 case KIndex => 1 case KKind => 2 case KName => 3
    case KAlias => 3 case KHost => 4 case KPort => 5 case KUser => 6 case KIdentityFile => 7 case KPolicy => 8
    case _ => 9
  }

  lemma HostKeysInPlace(k: Key)
    requires HostPlace(k) < 15
    ensures |HOST_KEYS| == 15 && HOST_KEYS[HostPlace(k)] == k
  {
  }

  lemma InlineKeysInPlace(k: Key)
    requires HopPlace(k) < 9 && k != KName
    ensures |INLINE_KEYS| == 9 && INLINE_KEYS[HopPlace(k)] == k
  {
  }

  lemma NamedKeysInPlace(k: Key)
    requires HopPlace(k) < 4 && k != KAlias
    ensures |NAMED_KEYS| == 4 && NAMED_KEYS[HopPlace(k)] == k
  {
  }

  lemma ItemKeysInPlace(item: Item, k: Key)
    requires ItemField(item, k).Some?
    ensures k in ItemKeys(item)
  {
    match item
    case HostItem(_) => HostKeysInPlace(k);
    case ChainItem(_) =>
    case HopItem(_, _, hop) =>
      if hop.InlineHop? {
        InlineKeysInPlace(k);
      } else {
        NamedKeysInPlace(k);
      }
  }

  /** A record's table holds exactly its fields. */
  lemma ItemLookup(item: Item, k: Key)
    ensures Lookup(ItemTable(item).values, k) == ItemField(item, k)
  {
    if ItemField(item, k).Some? {
      ItemKeysInPlace(item, k);
    }
  }

  ghost predicate Holds(values: Values, item: Item) {
    forall k :: Lookup(values, k) == ItemField(item, k)
  }

  lemma HostIdentityIsReadBack(h: Host, values: Values)
    requires h.port != 0 && Holds(values, HostItem(h))
    ensures GetIdentity(values) == Ok((h.alias, h.role, h.address, h.user, h.port, h.identityFile))
  {
    RoleNamesDiffer(h.role);
  }

  lemma HostSettingsAreReadBack(h: Host, values: Values)
    requires Holds(values, HostItem(h))
    ensures GetSettings(values) == Ok((h.groups, h.tags, h.note, h.policy, h.jumpChain, h.os))
  {
    PolicyNamesDiffer(h.policy);
    OsNamesDiffer(h.os);
  }

  lemma HostStatsAreReadBack(h: Host, values: Values)
    requires Holds(values, HostItem(h))
    ensures GetStats(values) == Ok(h.stats)
  {
    if h.stats.lastAuth.Some? {
      MethodNamesDiffer(h.stats.lastAuth.value);
    }
  }

  lemma HostIsReadBack(h: Host, values: Values)
    requires h.port != 0 && Holds(values, HostItem(h))
    ensures GetHost(values) == Ok(h)
  {
    HostIdentityIsReadBack(h, values);
    HostSettingsAreReadBack(h, values);
    HostStatsAreReadBack(h, values);
  }

  lemma InlineIsReadBack(chain: string, index: U64, hop: Hop, values: Values)
    requires hop.InlineHop? && hop.port != 0 && Holds(values, HopItem(chain, index, hop))
    ensures GetInline(values) == Ok(hop)
  {
    PolicyNamesDiffer(hop.policy);
  }

  lemma NamedIsReadBack(chain: string, index: U64, hop: Hop, values: Values)
    requires !hop.InlineHop? && Holds(values, HopItem(chain, index, hop))
    ensures GetNamed(values, hop.OpenSshHop?) == Ok(hop)
  {
  }

  lemma HopKindsDiffer(values: Values, hop: Hop)
    ensures GetHopOf(values, HopKind(hop)) ==
            if hop.InlineHop? then GetInline(values) else GetNamed(values, hop.OpenSshHop?)
  {
    assert |"host"| == 4 && |"openssh"| == 7 && |"inline"| == 6;
  }

  lemma HopHeadIsReadBack(chain: string, index: U64, hop: Hop, values: Values)
    requires Holds(values, HopItem(chain, index, hop))
    ensures Required(values, KChain) == Ok(chain) && GetInteger(values, KIndex) == Ok(Some(index))
    ensures Required(values, KKind) == Ok(HopKind(hop))
  {
  }

  lemma HopIsReadBack(chain: string, index: U64, hop: Hop, values: Values)
    requires ValidHop(hop) && Holds(values, HopItem(chain, index, hop))
    requires Only(values, if hop.InlineHop? then INLINE_KEYS else NAMED_KEYS)
    ensures GetHop(values) == Ok(HopItem(chain, index, hop))
  {
    HopHeadIsReadBack(chain, index, hop, values);
    HopKindsDiffer(values, hop);
    if hop.InlineHop? {
      InlineIsReadBack(chain, index, hop, values);
    } else {
      NamedIsReadBack(chain, index, hop, values);
    }
  }

  /** A record's table describes that record. */
  lemma TableIsReadBack(item: Item)
    requires ValidItem(item)
    ensures FromTable(ItemTable(item)) == Ok(item)
  {
    var values := ItemTable(item).values;
    forall k ensures Lookup(values, k) == ItemField(item, k) {
      ItemLookup(item, k);
    }
    assert Only(values, ItemKeys(item));
    match item
    case HostItem(h) => HostIsReadBack(h, values);
    case ChainItem(name) =>
    case HopItem(chain, index, hop) => HopIsReadBack(chain, index, hop, values);
  }

  lemma NoteIsRead(values: Values)
    requires GetHost(values).Ok?
    ensures GetText(values, KNote) == Ok(GetHost(values).value.note)
  {
  }
}
