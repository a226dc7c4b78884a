/** The host library's records and what makes them valid: model.rs. */
module HostModel {
  import opened Wrappers
  import opened Text

  const DATABASE_VERSION := 1
  const MAX_HOSTS := 4096
  const MAX_CHAINS := 512
  const MAX_CHAIN_HOPS := 8
  const MAX_LABELS_PER_HOST := 64
  const MAX_TEXT_BYTES := 4096

  datatype HostKeyPolicy = Strict | AcceptNew | Insecure
  datatype AuthMethod = AgentAuth | PrivateKeyAuth | PasswordAuth | KeyboardInteractiveAuth | AutoAuth
  datatype OsType = AutoOs | Linux | Windows
  datatype HostRole = Target | Jump | Both

  datatype Stats = Stats(lastConnected: Option<U64>, count: U64, lastAuth: Option<AuthMethod>)

  /** Paths are valid UTF-8 here. */
  datatype Host = Host(
    alias: string, role: HostRole, address: string, port: U16, user: string, identityFile: Option<string>,
    groups: seq<string>, tags: seq<string>, note: Option<string>, policy: HostKeyPolicy,
    jumpChain: Option<string>, os: OsType, stats: Stats)

  datatype Hop =
    | HostHop(name: string)
    | OpenSshHop(name: string)
    | InlineHop(name: string, host: string, port: U16, user: string, identityFile: Option<string>,
        policy: HostKeyPolicy)

  datatype Chain = Chain(name: string, hops: seq<Hop>)

  datatype Database = Database(
    folders: seq<string>, jumpFolders: seq<string>, version: U32, hosts: map<string, Host>, chains: map<string, Chain>)

  // ---------- Fields ----------

  /** What `char::is_alphanumeric` may be: any class of characters without control characters. */
  type Alphabet = f: char -> bool | forall c :: f(c) ==> !IsControl(c) witness c => IsAsciiAlnum(c)

  /** Left open, since the Unicode tables are not modelled: every proof holds for any such class. */
  const isAlphanumeric: Alphabet

  predicate LabelChar(c: char) {
    isAlphanumeric(c) || c in {' ', '.', '_', '-', ':', '(', ')', '\U{FF08}', '\U{FF09}'}
  }

  predicate ValidLabel(s: string) {
    s != [] && |s| <= 128 && Trim(s) == s && forall i :: 0 <= i < |s| ==> LabelChar(s[i])
  }

  predicate ValidName(s: string) {
    1 <= |Utf8(s)| <= 128 && forall i :: 0 <= i < |s| ==> IsAsciiAlnum(s[i]) || s[i] in {'.', '_', '-', ':'}
  }

  predicate NoControl(s: string) {
    forall i :: 0 <= i < |s| ==> !IsControl(s[i])
  }

  predicate ValidToken(s: string) {
    1 <= |Utf8(s)| <= 512 && NoControl(s)
  }

  predicate ValidPath(path: Option<string>) {
    path.Some? ==> path.value != [] && |Utf8(path.value)| <= 4096 && NoControl(path.value)
  }

  predicate ValidText(s: string) {
    |Utf8(s)| <= MAX_TEXT_BYTES && '\0' !in s
  }

  predicate AllLabels(values: seq<string>) {
    forall i :: 0 <= i < |values| ==> ValidLabel(values[i])
  }

  predicate ValidLabels(values: seq<string>) {
    |values| <= MAX_LABELS_PER_HOST && AllLabels(values) && Distinct(values)
  }

  // ---------- Records ----------

  predicate ValidHost(h: Host) {
    && ValidLabel(h.alias) && ValidToken(h.address) && h.port != 0 && ValidToken(h.user) && ValidPath(h.identityFile)
    && ValidLabels(h.groups) && ValidLabels(h.tags)
    && (h.note.Some? ==> ValidText(h.note.value))
    && (h.jumpChain.Some? ==> ValidLabel(h.jumpChain.value))
  }

  predicate ValidHop(hop: Hop) {
    match hop
    case HostHop(name) => ValidLabel(name)
    case OpenSshHop(name) => ValidName(name)
    case InlineHop(name, host, port, user, identityFile, _) =>
      ValidLabel(name) && ValidToken(host) && port != 0 && ValidToken(user) && ValidPath(identityFile)
  }

  predicate DistinctNames(hops: seq<Hop>) {
    forall i, j :: 0 <= i < j < |hops| ==> hops[i].name != hops[j].name
  }

  predicate AllHops(hops: seq<Hop>) {
    forall i :: 0 <= i < |hops| ==> ValidHop(hops[i])
  }

  predicate ValidChain(c: Chain) {
    ValidLabel(c.name) && 1 <= |c.hops| <= MAX_CHAIN_HOPS && AllHops(c.hops) && DistinctNames(c.hops)
  }

  predicate HostFits(db: Database, alias: string)
    requires alias in db.hosts
  {
    var h := db.hosts[alias];
    h.alias == alias && ValidHost(h) && (h.jumpChain.Some? ==> h.jumpChain.value in db.chains)
  }

  predicate HopFits(db: Database, hop: Hop) {
    hop.HostHop? ==> hop.name in db.hosts && db.hosts[hop.name].role != Target
  }

  predicate ChainFits(db: Database, name: string)
    requires name in db.chains
  {
    var c := db.chains[name];
    c.name == name && ValidChain(c) && forall i :: 0 <= i < |c.hops| ==> HopFits(db, c.hops[i])
  }

  /** The host does not appear under any form in the chain it is reached through. */
  predicate NoLoop(db: Database, alias: string)
    requires alias in db.hosts
  {
    var h := db.hosts[alias];
    h.jumpChain.Some? && h.jumpChain.value in db.chains ==>
      var hops := db.chains[h.jumpChain.value].hops;
      forall i :: 0 <= i < |hops| ==> hops[i].name != h.alias
  }

  predicate ValidFolders(db: Database) {
    |db.folders| <= MAX_HOSTS && AllLabels(db.folders + db.jumpFolders) && Distinct(db.folders + db.jumpFolders)
  }

  /** `HostDatabase::validate` succeeds. */
  predicate ValidDatabase(db: Database) {
    && ValidFolders(db)
    && db.version == DATABASE_VERSION && |db.hosts| <= MAX_HOSTS && |db.chains| <= MAX_CHAINS
    && (forall alias <- db.hosts :: HostFits(db, alias))
    && (forall name <- db.chains :: ChainFits(db, name))
    && (forall alias <- db.hosts :: NoLoop(db, alias))
  }

  /** The database if it is valid. */
  function Checked(db: Database): Result<Database> {
    if ValidDatabase(db) then Ok(db) else Err
  }

  const EMPTY := Database([], [], DATABASE_VERSION, map[], map[])

  // ---------- The validating loops ----------

  /** `validate_labels`, and the folder loop of `HostDatabase::validate` without the length test. */
  method CheckLabels(values: seq<string>) returns (ok: bool)
    ensures ok <==> AllLabels(values) && Distinct(values)
  {
    var seen: set<string> := {};
    for i := 0 to |values|
      invariant AllLabels(values[..i]) && Distinct(values[..i])
      invariant seen == set v | v in values[..i]
    {
      if !ValidLabel(values[i]) || values[i] in seen {
        if values[i] in seen {
          assert values[i] in values[..i];
        }
        return false;
      }
      seen := seen + {values[i]};
      assert values[..i + 1] == values[..i] + [values[i]];
    }
    assert values[..|values|] == values;
    ok := true;
  }

  predicate GoodHops(hops: seq<Hop>) {
    AllHops(hops) && DistinctNames(hops)
  }

  lemma OneMoreHop(hops: seq<Hop>, hop: Hop)
    ensures GoodHops(hops + [hop]) <==>
              GoodHops(hops) && ValidHop(hop) && forall k :: 0 <= k < |hops| ==> hops[k].name != hop.name
  {
    var all := hops + [hop];
    if GoodHops(all) {
      forall i, j | 0 <= i < j < |hops| ensures hops[i].name != hops[j].name {
        assert all[i].name != all[j].name;
      }
      assert forall i :: 0 <= i < |hops| ==> all[i] == hops[i];
      assert all[|hops|] == hop;
    }
  }

  lemma SomeHopsAreGood(hops: seq<Hop>, n: nat)
    requires n <= |hops|
    ensures GoodHops(hops) ==> GoodHops(hops[..n])
  {
  }

  /** The loop of `JumpChain::validate`. */
  method CheckHopList(hops: seq<Hop>) returns (ok: bool)
    ensures ok <==> GoodHops(hops)
  {
    var seen: set<string> := {};
    for i := 0 to |hops|
      invariant GoodHops(hops[..i])
      invariant seen == set k | 0 <= k < i :: hops[k].name
    {
      OneMoreHop(hops[..i], hops[i]);
      assert hops[..i + 1] == hops[..i] + [hops[i]];
      if !ValidHop(hops[i]) || hops[i].name in seen {
        SomeHopsAreGood(hops, i + 1);
        return false;
      }
      seen := seen + {hops[i].name};
    }
    assert hops[..|hops|] == hops;
    ok := true;
  }

  /** `JumpChain::validate`. */
  method CheckChain(c: Chain) returns (ok: bool)
    ensures ok <==> ValidChain(c)
  {
    if !ValidLabel(c.name) || |c.hops| == 0 || |c.hops| > MAX_CHAIN_HOPS {
      return false;
    }
    ok := CheckHopList(c.hops);
  }

  method CheckHost(h: Host) returns (ok: bool)
    ensures ok <==> ValidHost(h)
  {
    var groups := CheckLabels(h.groups);
    var tags := CheckLabels(h.tags);
    ok := ValidLabel(h.alias) && ValidToken(h.address) && h.port != 0 && ValidToken(h.user) && ValidPath(h.identityFile)
      && |h.groups| <= MAX_LABELS_PER_HOST && groups && |h.tags| <= MAX_LABELS_PER_HOST && tags
      && (h.note.Some? ==> ValidText(h.note.value)) && (h.jumpChain.Some? ==> ValidLabel(h.jumpChain.value));
  }

  method CheckHops(db: Database, c: Chain) returns (ok: bool)
    ensures ok <==> forall i :: 0 <= i < |c.hops| ==> HopFits(db, c.hops[i])
  {
    for i := 0 to |c.hops|
      invariant forall k :: 0 <= k < i ==> HopFits(db, c.hops[k])
    {
      if !HopFits(db, c.hops[i]) {
        return false;
      }
    }
    ok := true;
  }

  method CheckHosts(db: Database) returns (ok: bool)
    ensures ok <==> forall alias <- db.hosts :: HostFits(db, alias)
  {
    var todo := db.hosts.Keys;
    while todo != {}
      invariant todo <= db.hosts.Keys
      invariant forall a <- db.hosts :: a !in todo ==> HostFits(db, a)
      decreases |todo|
    {
      var a :| a in todo;
      var fine := CheckHost(db.hosts[a]);
      if db.hosts[a].alias != a || !fine || (db.hosts[a].jumpChain.Some? && db.hosts[a].jumpChain.value !in db.chains) {
        assert !HostFits(db, a);
        return false;
      }
      todo := todo - {a};
    }
    ok := true;
  }

  method CheckChains(db: Database) returns (ok: bool)
    ensures ok <==> forall name <- db.chains :: ChainFits(db, name)
  {
    var todo := db.chains.Keys;
    while todo != {}
      invariant todo <= db.chains.Keys
      invariant forall n <- db.chains :: n !in todo ==> ChainFits(db, n)
      decreases |todo|
    {
      var n :| n in todo;
      var fine := CheckChain(db.chains[n]);
      var known := CheckHops(db, db.chains[n]);
      if db.chains[n].name != n || !fine || !known {
        assert !ChainFits(db, n);
        return false;
      }
      todo := todo - {n};
    }
    ok := true;
  }

  /** `HostDatabase::validate`; the maps are walked in any order, since only the verdict is kept. */
  method CheckDatabase(db: Database) returns (ok: bool)
    ensures ok <==> ValidDatabase(db)
  {
    if |db.folders| > MAX_HOSTS {
      return false;
    }
    var folders := CheckLabels(db.folders + db.jumpFolders);
    if !folders || db.version != DATABASE_VERSION || |db.hosts| > MAX_HOSTS || |db.chains| > MAX_CHAINS {
      return false;
    }
    var hosts := CheckHosts(db);
    var chains := CheckChains(db);
    ok := hosts && chains && forall a <- db.hosts :: NoLoop(db, a);
  }
}
