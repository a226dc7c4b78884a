/** The mutable host library: store.rs. */
module HostStore {
  import opened Wrappers
  import opened HostModel

  // ---------- What the operations do ----------

  function WithHost(db: Database, h: Host): Database {
    db.(hosts := db.hosts[h.alias := h])
  }

  function WithChain(db: Database, c: Chain): Database {
    db.(chains := db.chains[c.name := c])
  }

  predicate Uses(c: Chain, alias: string) {
    exists i :: 0 <= i < |c.hops| && c.hops[i] == HostHop(alias)
  }

  /** Some chain goes through the host. */
  predicate Referenced(db: Database, alias: string) {
    exists n <- db.chains :: Uses(db.chains[n], alias)
  }

  predicate Bound(db: Database, name: string) {
    exists a <- db.hosts :: db.hosts[a].jumpChain == Some(name)
  }

  function HostRemoved(db: Database, alias: string): Result<Database> {
    if Referenced(db, alias) || alias !in db.hosts then Err else Ok(db.(hosts := db.hosts - {alias}))
  }

  function ChainRemoved(db: Database, name: string): Result<Database> {
    if Bound(db, name) || name !in db.chains then Err else Ok(db.(chains := db.chains - {name}))
  }

  function Counted(h: Host, clock: U64, m: AuthMethod): Host
    requires h.stats.count + 1 < 0x1_0000_0000_0000_0000
  {
    h.(stats := Stamp(h.stats, clock, m))
  }

  function Stamp(stats: Stats, clock: U64, m: AuthMethod): Stats
    requires stats.count + 1 < 0x1_0000_0000_0000_0000
  {
    Stats(Some(clock), stats.count + 1, Some(m))
  }

  // ---------- Folders ----------

  /** All folder names: those declared and those some host is grouped under. */
  function AllFolders(db: Database): set<string> {
    (set f | f in db.folders) + (set f | f in db.jumpFolders)
        + (set a, f | a in db.hosts && f in db.hosts[a].groups :: f)
  }

  predicate Declared(db: Database, name: string) {
    name in db.folders || name in db.jumpFolders
  }

  function Renamed(groups: seq<string>, from: string, to: string): (r: seq<string>)
    ensures |r| == |groups| && forall i :: 0 <= i < |r| ==> r[i] == if groups[i] == from then to else groups[i]
  {
    if groups == [] then [] else [if groups[0] == from then to else groups[0]] + Renamed(groups[1..], from, to)
  }

  function RegroupedHost(h: Host, from: string, to: string): Host {
    h.(groups := Renamed(h.groups, from, to))
  }

  function Regrouped(hosts: map<string, Host>, from: string, to: string): map<string, Host> {
    map a | a in hosts :: RegroupedHost(hosts[a], from, to)
  }

  /** `retain(|folder| folder != name)`. */
  function Without(names: seq<string>, name: string): (r: seq<string>)
    ensures forall x :: x in r <==> x in names && x != name
  {
    if names == [] then [] else (if names[0] == name then [] else [names[0]]) + Without(names[1..], name)
  }

  predicate MayBeSaved(db: Database, name: string, original: Option<string>) {
    && ValidLabel(name)
    && (original.Some? ==> original.value in AllFolders(db))
    && (if original.Some? then original == Some(name) || name !in AllFolders(db) else !Declared(db, name))
  }

  function FolderSaved(db: Database, name: string, original: Option<string>, jump: bool): Database {
    var from := if original.Some? then original.value else name;
    var folders := Without(Without(db.folders, name), from);
    var jumpFolders := Without(Without(db.jumpFolders, name), from);
    db.(hosts := if from == name then db.hosts else Regrouped(db.hosts, from, name),
        folders := if jump then folders else folders + [name],
        jumpFolders := if jump then jumpFolders + [name] else jumpFolders)
  }

  predicate Inside(db: Database, alias: string, name: string)
    requires alias in db.hosts
  {
    var groups := db.hosts[alias].groups;
    groups != [] && groups[0] == name
  }

  function Contained(db: Database, name: string): set<string> {
    set a | a in db.hosts && Inside(db, a, name)
  }

  function FolderRemoved(db: Database, name: string): Database {
    db.(folders := Without(db.folders, name), jumpFolders := Without(db.jumpFolders, name),
        hosts := db.hosts - Contained(db, name))
  }

  predicate MayBeRemoved(db: Database, name: string) {
    name in AllFolders(db) && forall a <- Contained(db, name) :: !Referenced(db, a)
  }

  // ---------- What they keep ----------

  /** Hosts leave a valid database without harm as long as no chain uses them. */
  lemma RemovingHostsKeepsValid(db: Database, gone: set<string>)
    requires ValidDatabase(db) && forall a <- gone :: !Referenced(db, a)
    ensures ValidDatabase(db.(hosts := db.hosts - gone))
  {
    var after := db.(hosts := db.hosts - gone);
    assert after.folders == db.folders && after.jumpFolders == db.jumpFolders;
    forall a | a in after.hosts ensures HostFits(after, a) && NoLoop(after, a) {
      assert HostFits(db, a) && NoLoop(db, a);
    }
    forall n | n in after.chains ensures ChainFits(after, n) {
      assert ChainFits(db, n);
      var hops := db.chains[n].hops;
      forall i | 0 <= i < |hops| ensures HopFits(after, hops[i]) {
        assert HopFits(db, hops[i]);
        if hops[i].HostHop? {
          assert hops[i] == HostHop(hops[i].name);
          assert Uses(db.chains[n], hops[i].name);
        }
      }
    }
    SmallerMap(db.hosts, gone);
  }

  lemma SmallerMap<V>(m: map<string, V>, gone: set<string>)
    ensures |m - gone| <= |m|
  {
    SubsetSize((m - gone).Keys, m.Keys);
    assert |(m - gone).Keys| == |m - gone| && |m.Keys| == |m|;
  }

  lemma {:induction false} SubsetSize(a: set<string>, b: set<string>)
    requires a <= b
    ensures |a| <= |b|
  {
    if a != {} {
      var x :| x in a;
      SubsetSize(a - {x}, b - {x});
    }
  }

  lemma UnboundHostFits(db: Database, after: Database, name: string, a: string)
    requires a in db.hosts && HostFits(db, a) && NoLoop(db, a) && db.hosts[a].jumpChain != Some(name)
    requires after.hosts == db.hosts && after.chains == db.chains - {name}
    ensures HostFits(after, a) && NoLoop(after, a)
  {
  }

  lemma SameHostsChainFits(db: Database, after: Database, n: string)
    requires after.hosts == db.hosts && n in db.chains && n in after.chains && after.chains[n] == db.chains[n]
    requires ChainFits(db, n)
    ensures ChainFits(after, n)
  {
    var hops := db.chains[n].hops;
    forall i | 0 <= i < |hops| ensures HopFits(after, hops[i]) {
      assert HopFits(db, hops[i]);
    }
  }

  lemma RemovingChainKeepsValid(db: Database, name: string)
    requires ValidDatabase(db) && !Bound(db, name)
    ensures ValidDatabase(db.(chains := db.chains - {name}))
  {
    var after := db.(chains := db.chains - {name});
    forall a | a in after.hosts ensures HostFits(after, a) && NoLoop(after, a) {
      UnboundHostFits(db, after, name, a);
    }
    forall n | n in after.chains ensures ChainFits(after, n) {
      SameHostsChainFits(db, after, n);
    }
    SmallerMap(db.chains, {name});
  }

  lemma CountedHostIsValid(h: Host, stats: Stats)
    ensures ValidHost(h.(stats := stats)) <==> ValidHost(h)
  {
  }

  /** Changing a host's statistics does not touch what validity looks at. */
  lemma CountingKeepsValid(db: Database, alias: string, stats: Stats)
    requires ValidDatabase(db) && alias in db.hosts
    ensures ValidDatabase(db.(hosts := db.hosts[alias := db.hosts[alias].(stats := stats)]))
  {
    HostsAreValid(db);
    CountedHostsAreValid(db.hosts, alias, stats);
    ReplacingHostsKeepsValid(db, db.hosts[alias := db.hosts[alias].(stats := stats)]);
  }

  lemma CountedHostsAreValid(hosts: map<string, Host>, alias: string, stats: Stats)
    requires AllValidHosts(hosts) && alias in hosts
    ensures var after := hosts[alias := hosts[alias].(stats := stats)];
            AllValidHosts(after) && after.Keys == hosts.Keys && forall a <- hosts :: SameShape(hosts[a], after[a])
  {
    CountedHostIsValid(hosts[alias], stats);
  }

  lemma ReplacingHostsKeepsValid(db: Database, hosts: map<string, Host>)
    requires ValidDatabase(db) && hosts.Keys == db.hosts.Keys && AllValidHosts(hosts)
    requires forall a <- db.hosts :: SameShape(db.hosts[a], hosts[a])
    ensures ValidDatabase(db.(hosts := hosts))
  {
    SameKeysSameSize(db.hosts, hosts);
    SameShapeKeepsValid(db, db.(hosts := hosts));
  }

  predicate AllValidHosts(hosts: map<string, Host>) {
    forall a <- hosts :: ValidHost(hosts[a])
  }

  lemma HostsAreValid(db: Database)
    requires ValidDatabase(db)
    ensures AllValidHosts(db.hosts)
  {
    forall a | a in db.hosts ensures ValidHost(db.hosts[a]) {
      assert HostFits(db, a);
    }
  }

  lemma SameKeysSameSize(a: map<string, Host>, b: map<string, Host>)
    requires a.Keys == b.Keys
    ensures |a| == |b|
  {
    assert |a| == |a.Keys| && |b| == |b.Keys|;
  }

  /** Two hosts that differ in nothing that other records look at. */
  predicate SameShape(h: Host, g: Host) {
    h.alias == g.alias && h.role == g.role && h.jumpChain == g.jumpChain
  }

  lemma SameShapeKeepsValid(db: Database, after: Database)
    requires ValidDatabase(db) && ValidFolders(after) && after.version == db.version && after.chains == db.chains
    requires after.hosts.Keys == db.hosts.Keys && |after.hosts| == |db.hosts|
    requires AllValidHosts(after.hosts) && forall a <- db.hosts :: SameShape(db.hosts[a], after.hosts[a])
    ensures ValidDatabase(after)
  {
    forall a | a in after.hosts ensures HostFits(after, a) && NoLoop(after, a) {
      assert ValidHost(after.hosts[a]);
      assert SameShape(db.hosts[a], after.hosts[a]);
      assert HostFits(db, a) && NoLoop(db, a);
    }
    forall n | n in after.chains ensures ChainFits(after, n) {
      assert ChainFits(db, n);
      var hops := db.chains[n].hops;
      forall i | 0 <= i < |hops| ensures HopFits(after, hops[i]) {
        assert HopFits(db, hops[i]);
        if hops[i].HostHop? {
          assert SameShape(db.hosts[hops[i].name], after.hosts[hops[i].name]);
        }
      }
    }
  }

  // ---------- Saving a folder ----------

  lemma {:induction false} WithoutIsDistinct(names: seq<string>, name: string)
    requires Distinct(names)
    ensures Distinct(Without(names, name)) && |Without(names, name)| <= |names|
  {
    if names != [] {
      WithoutIsDistinct(names[1..], name);
      var rest := Without(names[1..], name);
      assert names[0] !in names[1..];
      assert names[0] !in rest;
    }
  }

  lemma {:induction false} WithoutConcat(a: seq<string>, b: seq<string>, name: string)
    ensures Without(a + b, name) == Without(a, name) + Without(b, name)
  {
    if a == [] {
      assert a + b == b;
    } else {
      assert (a + b)[0] == a[0] && (a + b)[1..] == a[1..] + b;
      WithoutConcat(a[1..], b, name);
    }
  }

  lemma DistinctConcat(a: seq<string>, x: string, b: seq<string>)
    requires Distinct(a + b) && x !in a + b
    ensures Distinct((a + [x]) + b) && Distinct(a + (b + [x]))
  {
    var ab := a + b;
    forall i, j | 0 <= i < j < |ab| + 1 ensures ((a + [x]) + b)[i] != ((a + [x]) + b)[j] {
      var u, v := if i < |a| then i else i - 1, if j < |a| then j else j - 1;
      if i != |a| && j != |a| {
        assert ab[u] != ab[v];
      } else if i == |a| {
        assert ab[v] in ab;
      } else {
        assert ab[u] in ab;
      }
    }
    assert a + (b + [x]) == ab + [x];
  }

  lemma FolderListsStayDistinct(db: Database, name: string, from: string)
    requires Distinct(db.folders + db.jumpFolders)
    ensures var a, b := Without(Without(db.folders, name), from), Without(Without(db.jumpFolders, name), from);
            Distinct((a + [name]) + b) && Distinct(a + (b + [name]))
  {
    var a, b := Without(Without(db.folders, name), from), Without(Without(db.jumpFolders, name), from);
    WithoutConcat(db.folders, db.jumpFolders, name);
    WithoutConcat(Without(db.folders, name), Without(db.jumpFolders, name), from);
    WithoutIsDistinct(db.folders + db.jumpFolders, name);
    WithoutIsDistinct(Without(db.folders + db.jumpFolders, name), from);
    assert a + b == Without(Without(db.folders + db.jumpFolders, name), from);
    DistinctConcat(a, name, b);
  }

  lemma SavedFoldersAreLabels(db: Database, name: string, original: Option<string>, jump: bool)
    requires AllLabels(db.folders + db.jumpFolders) && ValidLabel(name)
    ensures var after := FolderSaved(db, name, original, jump); AllLabels(after.folders + after.jumpFolders)
  {
    var after := FolderSaved(db, name, original, jump);
    var was, now := db.folders + db.jumpFolders, after.folders + after.jumpFolders;
    assert forall x <- was :: ValidLabel(x);
    forall x | x in now ensures ValidLabel(x) {
      assert x == name || x in was;
    }
  }

  lemma RegroupedLabels(groups: seq<string>, from: string, to: string)
    requires ValidLabels(groups) && ValidLabel(to) && to !in groups
    ensures ValidLabels(Renamed(groups, from, to))
  {
    var r := Renamed(groups, from, to);
    forall i, j | 0 <= i < j < |r| ensures r[i] != r[j] {
      assert groups[i] != groups[j] && groups[i] in groups && groups[j] in groups;
    }
  }

  lemma RegroupedHostIsValid(h: Host, from: string, to: string)
    requires ValidHost(h) && ValidLabel(to) && to !in h.groups
    ensures ValidHost(RegroupedHost(h, from, to))
  {
    RegroupedLabels(h.groups, from, to);
  }

  lemma RegroupKeepsHosts(hosts: map<string, Host>, from: string, to: string)
    requires AllValidHosts(hosts) && ValidLabel(to) && !Grouped(hosts, to)
    ensures var after := Regrouped(hosts, from, to);
            && after.Keys == hosts.Keys && |after| == |hosts| && AllValidHosts(after)
            && forall a <- hosts :: SameShape(hosts[a], after[a])
  {
    var after := Regrouped(hosts, from, to);
    SameKeysSameSize(hosts, after);
    forall a | a in hosts ensures ValidHost(after[a]) {
      RegroupedHostIsValid(hosts[a], from, to);
    }
  }

  /** After its own tests, saving a folder can only fail for too many folders. */
  lemma SavingFailsOnlyOnTheLimit(db: Database, name: string, original: Option<string>, jump: bool)
    requires ValidDatabase(db) && MayBeSaved(db, name, original)
    ensures var after := FolderSaved(db, name, original, jump);
            ValidDatabase(after) <==> |after.folders| <= MAX_HOSTS
  {
    var after := FolderSaved(db, name, original, jump);
    if |after.folders| <= MAX_HOSTS {
      FolderListsStayDistinct(db, name, if original.Some? then original.value else name);
      SavedFoldersAreLabels(db, name, original, jump);
      HostsAreValid(db);
      if original.Some? && original.value != name {
        FolderIsSomewhere(db, name);
        RegroupKeepsHosts(db.hosts, original.value, name);
      }
      SameShapeKeepsValid(db, after);
    }
  }

  predicate Grouped(hosts: map<string, Host>, f: string) {
    exists a <- hosts :: f in hosts[a].groups
  }

  lemma FolderIsSomewhere(db: Database, f: string)
    ensures f in AllFolders(db) <==> Declared(db, f) || Grouped(db.hosts, f)
  {
  }

  lemma RenamedHas(groups: seq<string>, from: string, to: string, f: string)
    requires from != to && to !in groups
    ensures f in Renamed(groups, from, to) <==> if f == to then from in groups else f in groups && f != from
  {
    var r := Renamed(groups, from, to);
    forall i | 0 <= i < |groups| ensures r[i] in r && groups[i] in groups {
    }
  }

  lemma RegroupedHas(hosts: map<string, Host>, from: string, to: string, f: string)
    requires from != to && !Grouped(hosts, to)
    ensures Grouped(Regrouped(hosts, from, to), f) <==>
              if f == to then Grouped(hosts, from) else Grouped(hosts, f) && f != from
  {
    var after := Regrouped(hosts, from, to);
    forall a | a in hosts
      ensures f in after[a].groups <==>
                if f == to then from in hosts[a].groups else f in hosts[a].groups && f != from
    {
      RenamedHas(hosts[a].groups, from, to, f);
    }
  }

  lemma {:induction false} WithoutAbsent(names: seq<string>, name: string)
    requires name !in names
    ensures Without(names, name) == names
  {
    if names != [] {
      WithoutAbsent(names[1..], name);
      assert names == [names[0]] + names[1..];
    }
  }

  /** The list without the two names a renaming is about. */
  function Others(names: seq<string>, name: string, from: string): seq<string> {
    Without(Without(names, name), from)
  }

  lemma OthersStay(names: seq<string>, name: string, from: string)
    ensures var kept := Others(names, name, from);
            Others(kept, name, from) == kept && Others(kept + [name], name, from) == kept
  {
    var kept := Others(names, name, from);
    WithoutAbsent(kept, name);
    WithoutAbsent(kept, from);
    WithoutConcat(kept, [name], name);
    assert [name][1..] == [] && Without([name], name) == [] && kept + [] == kept;
  }

  lemma RenamedToItself(groups: seq<string>, name: string)
    ensures Renamed(groups, name, name) == groups
  {
  }

  /** The old name of a folder that is saved; a new folder has none. */
  function OldName(name: string, original: Option<string>): string {
    if original.Some? then original.value else name
  }

  lemma SavedNames(db: Database, name: string, original: Option<string>, jump: bool)
    requires MayBeSaved(db, name, original)
    ensures AllFolders(FolderSaved(db, name, original, jump))
         == (AllFolders(db) - (if original.Some? then {original.value} else {})) + {name}
  {
    var after, from := FolderSaved(db, name, original, jump), OldName(name, original);
    forall f ensures f in AllFolders(after) <==> f == name || (f in AllFolders(db) && f != from) {
      FolderIsSomewhere(db, f);
      FolderIsSomewhere(db, name);
      FolderIsSomewhere(after, f);
      if from != name {
        RegroupedHas(db.hosts, from, name, f);
      }
    }
  }

  /** All other folders keep their list and their order. */
  lemma SavedLists(db: Database, name: string, original: Option<string>, jump: bool)
    ensures var after, from := FolderSaved(db, name, original, jump), OldName(name, original);
            && (name in after.jumpFolders <==> jump) && (name in after.folders <==> !jump)
            && (forall f :: f != name && f != from ==>
                  (f in after.folders <==> f in db.folders) && (f in after.jumpFolders <==> f in db.jumpFolders))
            && Others(after.folders, name, from) == Others(db.folders, name, from)
            && Others(after.jumpFolders, name, from) == Others(db.jumpFolders, name, from)
  {
    OthersStay(db.folders, name, OldName(name, original));
    OthersStay(db.jumpFolders, name, OldName(name, original));
  }

  /** Hosts change in their groups only, and there only by the renaming. */
  lemma SavedHosts(db: Database, name: string, original: Option<string>, jump: bool)
    ensures FolderSaved(db, name, original, jump).hosts == Regrouped(db.hosts, OldName(name, original), name)
  {
    if OldName(name, original) == name {
      forall a | a in db.hosts ensures RegroupedHost(db.hosts[a], name, name) == db.hosts[a] {
        RenamedToItself(db.hosts[a].groups, name);
      }
    }
  }

  /**
   Saving moves the folder from its old name to the new one, into the asked list and in the groups of
   every host; all other folders keep their list and their order, and nothing else changes.
   */
  lemma SavingMovesOneFolder(db: Database, name: string, original: Option<string>, jump: bool)
    requires MayBeSaved(db, name, original)
    ensures var after, from := FolderSaved(db, name, original, jump), OldName(name, original);
            && AllFolders(after) == (AllFolders(db) - (if original.Some? then {original.value} else {})) + {name}
            && (name in after.jumpFolders <==> jump) && (name in after.folders <==> !jump)
            && (forall f :: f != name && f != from ==>
                  (f in after.folders <==> f in db.folders) && (f in after.jumpFolders <==> f in db.jumpFolders))
            && Others(after.folders, name, from) == Others(db.folders, name, from)
            && Others(after.jumpFolders, name, from) == Others(db.jumpFolders, name, from)
            && after.hosts == Regrouped(db.hosts, from, name)
            && after.chains == db.chains && after.version == db.version
  {
    SavedNames(db, name, original, jump);
    SavedLists(db, name, original, jump);
    SavedHosts(db, name, original, jump);
  }

  // ---------- Removing a folder ----------

  lemma WithoutKeepsFolders(db: Database, name: string)
    requires ValidFolders(db)
    ensures ValidFolders(db.(folders := Without(db.folders, name), jumpFolders := Without(db.jumpFolders, name)))
  {
    var was := db.folders + db.jumpFolders;
    WithoutConcat(db.folders, db.jumpFolders, name);
    WithoutIsDistinct(was, name);
    var now := Without(was, name);
    assert forall x <- was :: ValidLabel(x);
    assert forall x <- now :: ValidLabel(x);
    WithoutIsShorter(db.folders, name);
  }

  lemma {:induction false} WithoutIsShorter(names: seq<string>, name: string)
    ensures |Without(names, name)| <= |names|
  {
    if names != [] {
      WithoutIsShorter(names[1..], name);
    }
  }

  lemma OtherFoldersKeepValid(db: Database, folders: seq<string>, jumpFolders: seq<string>)
    requires ValidDatabase(db) && ValidFolders(db.(folders := folders, jumpFolders := jumpFolders))
    ensures ValidDatabase(db.(folders := folders, jumpFolders := jumpFolders))
  {
    HostsAreValid(db);
    SameShapeKeepsValid(db, db.(folders := folders, jumpFolders := jumpFolders));
  }

  /** Removing a folder that passes its own tests always leaves a valid database. */
  lemma RemovingFolderKeepsValid(db: Database, name: string)
    requires ValidDatabase(db) && MayBeRemoved(db, name)
    ensures ValidDatabase(FolderRemoved(db, name))
  {
    var fewer := db.(hosts := db.hosts - Contained(db, name));
    RemovingHostsKeepsValid(db, Contained(db, name));
    WithoutKeepsFolders(fewer, name);
    OtherFoldersKeepValid(fewer, Without(db.folders, name), Without(db.jumpFolders, name));
  }

  // ---------- Runs of operations ----------

  datatype Op =
    | UpsertHost(host: Host)
    | InsertHost(host: Host)
    | RemoveHost(alias: string)
    | UpsertChain(chain: Chain)
    | InsertChain(chain: Chain)
    | RemoveChain(name: string)
    | SaveFolder(name: string, original: Option<string>, role: string)
    | RemoveFolder(name: string)
    | RecordSuccess(alias: string, method_: AuthMethod, clock: Result<U64>)

  predicate Incrementable(db: Database, alias: string) {
    alias in db.hosts && db.hosts[alias].stats.count + 1 < 0x1_0000_0000_0000_0000
  }

  function HostInserted(db: Database, h: Host): Result<Database> {
    if h.alias in db.hosts then Err else Checked(WithHost(db, h))
  }

  function ChainInserted(db: Database, c: Chain): Result<Database> {
    if c.name in db.chains then Err else Checked(WithChain(db, c))
  }

  function FolderSaving(db: Database, name: string, original: Option<string>, role: string): Result<Database> {
    if MayBeSaved(db, name, original) && role in {"target", "jump"}
    then Checked(FolderSaved(db, name, original, role == "jump"))
    else Err
  }

  function FolderRemoving(db: Database, name: string): Result<Database> {
    if MayBeRemoved(db, name) then Ok(FolderRemoved(db, name)) else Err
  }

  /** The new database, or the old one if there is none. */
  function Kept(db: Database, outcome: Result<Database>): Database {
    if outcome.Ok? then outcome.value else db
  }

  function HalfCounted(db: Database, alias: string): Database
    requires Incrementable(db, alias)
  {
    WithHost(db, db.hosts[alias].(stats := OneMore(db.hosts[alias].stats)))
  }

  function OneMore(stats: Stats): Stats
    requires stats.count + 1 < 0x1_0000_0000_0000_0000
  {
    Stats(stats.lastConnected, stats.count + 1, stats.lastAuth)
  }

  /** What a successful operation leaves. */
  function Outcome(db: Database, op: Op): Result<Database> {
    match op
    case UpsertHost(h) => Checked(WithHost(db, h))
    case InsertHost(h) => HostInserted(db, h)
    case RemoveHost(alias) => HostRemoved(db, alias)
    case UpsertChain(c) => Checked(WithChain(db, c))
    case InsertChain(c) => ChainInserted(db, c)
    case RemoveChain(name) => ChainRemoved(db, name)
    case SaveFolder(name, original, role) => FolderSaving(db, name, original, role)
    case RemoveFolder(name) => FolderRemoving(db, name)
    case RecordSuccess(alias, m, clock) =>
      if Incrementable(db, alias) && clock.Ok? then Ok(WithHost(db, Counted(db.hosts[alias], clock.value, m))) else Err
  }

  /** `record_success` has already counted when the clock fails. */
  predicate HalfDone(db: Database, op: Op) {
    op.RecordSuccess? && Incrementable(db, op.alias) && op.clock.Err?
  }

  function Following(db: Database, op: Op): Database {
    if HalfDone(db, op) then HalfCounted(db, op.alias) else Kept(db, Outcome(db, op))
  }

  /** A failed operation changes nothing, with the one exception. */
  lemma FailureChangesNothing(db: Database, op: Op)
    requires ValidDatabase(db) && Outcome(db, op).Err?
    ensures Following(db, op) == db <==> !HalfDone(db, op)
  {
    if HalfDone(db, op) {
      assert HostFits(db, op.alias);
      assert Following(db, op).hosts[op.alias].stats.count != db.hosts[op.alias].stats.count;
    }
  }

  lemma StatsStepKeepsValid(db: Database, alias: string, stats: Stats)
    requires ValidDatabase(db) && alias in db.hosts
    ensures ValidDatabase(WithHost(db, db.hosts[alias].(stats := stats)))
  {
    CountingKeepsValid(db, alias, stats);
    assert HostFits(db, alias);
  }

  lemma RemovalIsValid(db: Database, op: Op)
    requires ValidDatabase(db) && Outcome(db, op).Ok? && (op.RemoveHost? || op.RemoveChain? || op.RemoveFolder?)
    ensures ValidDatabase(Outcome(db, op).value)
  {
    if op.RemoveHost? {
      RemovingHostsKeepsValid(db, {op.alias});
    } else if op.RemoveChain? {
      RemovingChainKeepsValid(db, op.name);
    } else {
      RemovingFolderKeepsValid(db, op.name);
    }
  }

  lemma HalfCountedIsValid(db: Database, alias: string)
    requires ValidDatabase(db) && Incrementable(db, alias)
    ensures ValidDatabase(HalfCounted(db, alias))
  {
    StatsStepKeepsValid(db, alias, OneMore(db.hosts[alias].stats));
  }

  lemma CountedIsValid(db: Database, alias: string, now: U64, m: AuthMethod)
    requires ValidDatabase(db) && Incrementable(db, alias)
    ensures ValidDatabase(WithHost(db, Counted(db.hosts[alias], now, m)))
  {
    StatsStepKeepsValid(db, alias, Stamp(db.hosts[alias].stats, now, m));
  }

  lemma CountFollows(db: Database, op: Op)
    requires op.RecordSuccess?
    ensures Following(db, op) ==
            if !Incrementable(db, op.alias) then db
            else if op.clock.Ok? then WithHost(db, Counted(db.hosts[op.alias], op.clock.value, op.method_))
            else HalfCounted(db, op.alias)
  {
  }

  lemma CountIsValid(db: Database, op: Op)
    requires ValidDatabase(db) && op.RecordSuccess?
    ensures ValidDatabase(Following(db, op))
  {
    CountFollows(db, op);
    if Incrementable(db, op.alias) {
      if op.clock.Ok? {
        CountedIsValid(db, op.alias, op.clock.value, op.method_);
      } else {
        HalfCountedIsValid(db, op.alias);
      }
    }
  }

  lemma CheckedIsValid(db: Database, op: Op)
    requires ValidDatabase(db) && Outcome(db, op).Ok?
    requires !(op.RemoveHost? || op.RemoveChain? || op.RemoveFolder? || op.RecordSuccess?)
    ensures ValidDatabase(Outcome(db, op).value)
  {
  }

  /** Every operation keeps the database valid, also those that do not validate again. */
  lemma StepKeepsValid(db: Database, op: Op)
    requires ValidDatabase(db)
    ensures ValidDatabase(Following(db, op))
  {
    if op.RecordSuccess? {
      CountIsValid(db, op);
    } else if Outcome(db, op).Ok? {
      if op.RemoveHost? || op.RemoveChain? || op.RemoveFolder? {
        RemovalIsValid(db, op);
      } else {
        CheckedIsValid(db, op);
      }
    }
  }

  function Run(db: Database, ops: seq<Op>): Database
    decreases |ops|
  {
    if ops == [] then db else Run(Following(db, ops[0]), ops[1..])
  }

  lemma {:induction false} EveryRunStaysValid(db: Database, ops: seq<Op>)
    requires ValidDatabase(db)
    ensures ValidDatabase(Run(db, ops))
    decreases |ops|
  {
    if ops != [] {
      StepKeepsValid(db, ops[0]);
      EveryRunStaysValid(Following(db, ops[0]), ops[1..]);
    }
  }

  lemma EmptyIsValid()
    ensures ValidDatabase(EMPTY)
  {
  }
}
