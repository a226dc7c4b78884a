/** The database that a list of tables describes: the second half of `decode` in codec.rs. */
module HostBuild {
  import opened Wrappers
  import opened Text
  import opened HostModel
  import opened HostItems
  import opened SortedKeys

  type Numbered = (U64, Hop)

  datatype Draft = Draft(hosts: map<string, Host>, names: set<string>, hops: map<string, seq<Numbered>>)

  const BLANK := Draft(map[], {}, map[])

  function HopsAt(d: Draft, chain: string): seq<Numbered> {
    if chain in d.hops then d.hops[chain] else []
  }

  function AddItem(d: Draft, item: Item): Result<Draft> {
    match item
    case HostItem(h) => if h.alias in d.hosts then Err else Ok(d.(hosts := d.hosts[h.alias := h]))
    case ChainItem(name) => if name in d.names then Err else Ok(d.(names := d.names + {name}))
    case HopItem(chain, index, hop) => Ok(d.(hops := d.hops[chain := HopsAt(d, chain) + [(index, hop)]]))
  }

  /** The table loop. */
  function Draw(items: seq<Item>): Result<Draft> {
    if items == [] then Ok(BLANK)
    else
      var d :- Draw(items[..|items| - 1]);
      AddItem(d, items[|items| - 1])
  }

  // ---------- Hops into their order ----------

  function Insert(x: Numbered, s: seq<Numbered>): (r: seq<Numbered>)
    ensures multiset(r) == multiset{x} + multiset(s)
  {
    if s == [] || x.0 <= s[0].0 then [x] + s
    else
      assert s == [s[0]] + s[1..];
      [s[0]] + Insert(x, s[1..])
  }

  /** `sort_by_key` on the index. */
  function SortByIndex(s: seq<Numbered>): (r: seq<Numbered>)
    ensures multiset(r) == multiset(s)
  {
    if s == [] then []
    else
      assert s == [s[0]] + s[1..];
      Insert(s[0], SortByIndex(s[1..]))
  }

  ghost predicate AscendingByIndex(s: seq<Numbered>) {
    forall i, j :: 0 <= i < j < |s| ==> s[i].0 <= s[j].0
  }

  lemma {:induction false} InsertIsAscending(x: Numbered, s: seq<Numbered>)
    requires AscendingByIndex(s)
    ensures AscendingByIndex(Insert(x, s))
  {
    if s != [] && x.0 > s[0].0 {
      InsertIsAscending(x, s[1..]);
      var rest := Insert(x, s[1..]);
      forall j | 0 <= j < |rest| ensures s[0].0 <= rest[j].0 {
        assert rest[j] in multiset(rest);
        if rest[j] != x {
          assert rest[j] in s[1..];
        }
      }
    }
  }

  lemma {:induction false} SortIsAscending(s: seq<Numbered>)
    ensures AscendingByIndex(SortByIndex(s))
  {
    if s != [] {
      SortIsAscending(s[1..]);
      InsertIsAscending(s[0], SortByIndex(s[1..]));
    }
  }

  /** The hops of a chain, when their indices are exactly 0, 1, 2, … */
  function Assemble(s: seq<Numbered>): Result<seq<Hop>> {
    var t := SortByIndex(s);
    if forall i :: 0 <= i < |t| ==> t[i].0 == i then Ok(seq(|t|, i requires 0 <= i < |t| => t[i].1)) else Err
  }

  ghost predicate Countable(hops: seq<Hop>) {
    |hops| <= 0x1_0000_0000_0000_0000
  }

  ghost function Number(hops: seq<Hop>): (r: seq<Numbered>)
    requires Countable(hops)
    ensures |r| == |hops|
  {
    if hops == [] then [] else Number(hops[..|hops| - 1]) + [(|hops| - 1, hops[|hops| - 1])]
  }

  lemma {:induction false} NumberAt(hops: seq<Hop>, i: nat)
    requires Countable(hops) && i < |hops|
    ensures Number(hops)[i] == (i, hops[i])
  {
    if i < |hops| - 1 {
      NumberAt(hops[..|hops| - 1], i);
    }
  }

  lemma {:induction false} NumberCount(hops: seq<Hop>, i: U64, hop: Hop)
    requires Countable(hops)
    ensures multiset(Number(hops))[(i, hop)] == if i < |hops| && hops[i] == hop then 1 else 0
  {
    if hops != [] {
      NumberCount(hops[..|hops| - 1], i, hop);
    }
  }

  lemma NumberHas(hops: seq<Hop>, x: Numbered)
    requires Countable(hops)
    ensures x in multiset(Number(hops)) <==> x.0 < |hops| && x.1 == hops[x.0]
  {
    NumberCount(hops, x.0, x.1);
  }

  lemma BiggestComesLast(t: seq<Numbered>, x: Numbered)
    requires AscendingByIndex(t) && x in t
    ensures x.0 <= t[|t| - 1].0
  {
  }

  lemma SameLength(t: seq<Numbered>, hops: seq<Hop>)
    requires Countable(hops) && multiset(t) == multiset(Number(hops))
    ensures |t| == |hops|
  {
    assert |multiset(t)| == |t| && |multiset(Number(hops))| == |Number(hops)|;
  }

  lemma LastIsNumbered(t: seq<Numbered>, hops: seq<Hop>)
    requires Countable(hops) && multiset(t) == multiset(Number(hops)) && t != []
    ensures var last := t[|t| - 1]; last.0 < |hops| && last.1 == hops[last.0]
  {
    assert t[|t| - 1] in multiset(t);
    NumberHas(hops, t[|t| - 1]);
  }

  lemma EndIsThere(t: seq<Numbered>, hops: seq<Hop>)
    requires Countable(hops) && multiset(t) == multiset(Number(hops)) && hops != []
    ensures (|hops| - 1, hops[|hops| - 1]) in t
  {
    var end: Numbered := (|hops| - 1, hops[|hops| - 1]);
    NumberHas(hops, end);
    assert end in multiset(t);
  }

  lemma GreatestIsLast(t: seq<Numbered>, hops: seq<Hop>)
    requires Countable(hops) && AscendingByIndex(t) && multiset(t) == multiset(Number(hops)) && hops != []
    ensures |t| == |hops| && t[|t| - 1] == (|hops| - 1, hops[|hops| - 1])
  {
    SameLength(t, hops);
    LastIsNumbered(t, hops);
    EndIsThere(t, hops);
    BiggestComesLast(t, (|hops| - 1, hops[|hops| - 1]));
    var last := t[|t| - 1];
    assert last.0 == |hops| - 1;
    assert last == (last.0, last.1);
  }

  /** Only one ascending list has the right elements. */
  lemma {:induction false} AscendingIsNumbered(t: seq<Numbered>, hops: seq<Hop>)
    requires Countable(hops) && AscendingByIndex(t) && multiset(t) == multiset(Number(hops))
    ensures t == Number(hops)
  {
    var n := |hops|;
    SameLength(t, hops);
    if n > 0 {
      GreatestIsLast(t, hops);
      var front, last := t[..n - 1], t[n - 1];
      assert t == front + [last];
      assert multiset(t) == multiset(front) + multiset{last};
      assert multiset(Number(hops)) == multiset(Number(hops[..n - 1])) + multiset{last};
      Cancel(multiset(front), multiset(Number(hops[..n - 1])), last);
      AscendingIsNumbered(front, hops[..n - 1]);
    }
  }

  lemma AssembledIsNumbered(s: seq<Numbered>)
    requires Assemble(s).Ok?
    ensures Countable(Assemble(s).value) && multiset(s) == multiset(Number(Assemble(s).value))
  {
    var t, hops := SortByIndex(s), Assemble(s).value;
    if |t| > 0 {
      assert t[|t| - 1].0 == |t| - 1;
    }
    forall i | 0 <= i < |t| ensures t[i] == Number(hops)[i] {
      NumberAt(hops, i);
    }
    assert t == Number(hops);
  }

  lemma NumberedIsAssembled(s: seq<Numbered>, hops: seq<Hop>)
    requires Countable(hops) && multiset(s) == multiset(Number(hops))
    ensures Assemble(s) == Ok(hops)
  {
    var t := SortByIndex(s);
    SortIsAscending(s);
    AscendingIsNumbered(t, hops);
    forall i | 0 <= i < |t| ensures t[i].0 == i && t[i].1 == hops[i] {
      NumberAt(hops, i);
    }
    assert |t| == |hops|;
    assert Assemble(s).Ok?;
    assert Assemble(s).value == hops;
  }

  // ---------- The database ----------

  predicate Complete(d: Draft) {
    && (forall c <- d.hops :: c in d.names)
    && (forall c <- d.names :: Assemble(HopsAt(d, c)).Ok?)
  }

  function ChainsOf(d: Draft): map<string, Chain>
    requires Complete(d)
  {
    map c | c in d.names :: Chain(c, Assemble(HopsAt(d, c)).value)
  }

  function Finished(d: Draft, folders: seq<string>, jumpFolders: seq<string>): Database
    requires Complete(d)
  {
    Database(folders, jumpFolders, DATABASE_VERSION, d.hosts, ChainsOf(d))
  }

  function Build(folders: seq<string>, jumpFolders: seq<string>, items: seq<Item>): Result<Database> {
    var d :- Draw(items);
    if Complete(d) then Checked(Finished(d, folders, jumpFolders)) else Err
  }

  // ---------- What is in a list of tables ----------

  ghost predicate HasHost(hosts: map<string, Host>, h: Host) {
    h.alias in hosts && hosts[h.alias] == h
  }

  ghost predicate HasHop(chains: map<string, Chain>, c: string, i: nat, hop: Hop) {
    c in chains && i < |chains[c].hops| && chains[c].hops[i] == hop
  }

  /** How often a table of the database must be listed. */
  ghost function DatabaseCount(db: Database, x: Item): nat {
    match x
    case HostItem(h) => if HasHost(db.hosts, h) then 1 else 0
    case ChainItem(c) => if c in db.chains then 1 else 0
    case HopItem(c, i, hop) => if HasHop(db.chains, c, i, hop) then 1 else 0
  }

  /** The tables are those of the database, each exactly once, in any order. */
  ghost predicate Lists(items: multiset<Item>, db: Database) {
    forall x :: items[x] == DatabaseCount(db, x)
  }

  ghost function DraftCount(d: Draft, x: Item): nat {
    match x
    case HostItem(h) => if HasHost(d.hosts, h) then 1 else 0
    case ChainItem(c) => if c in d.names then 1 else 0
    case HopItem(c, i, hop) => multiset(HopsAt(d, c))[(i, hop)]
  }

  ghost predicate Keyed(d: Draft) {
    && (forall a <- d.hosts :: d.hosts[a].alias == a)
    && (forall c <- d.hops :: HopsAt(d, c) != [])
  }

  lemma AddItemCounts(d: Draft, x: Item, y: Item)
    requires AddItem(d, x).Ok?
    ensures DraftCount(AddItem(d, x).value, y) == DraftCount(d, y) + if x == y then 1 else 0
  {
  }

  lemma {:induction false} DrawCounts(items: seq<Item>, y: Item)
    requires Draw(items).Ok?
    ensures multiset(items)[y] == DraftCount(Draw(items).value, y)
  {
    if items != [] {
      var n := |items| - 1;
      DrawCounts(items[..n], y);
      AddItemCounts(Draw(items[..n]).value, items[n], y);
      assert items == items[..n] + [items[n]];
    }
  }

  lemma {:induction false} DrawIsKeyed(items: seq<Item>)
    requires Draw(items).Ok?
    ensures Keyed(Draw(items).value)
  {
    if items != [] {
      DrawIsKeyed(items[..|items| - 1]);
    }
  }

  lemma NotTaken(before: multiset<Item>, x: Item, all: multiset<Item>, d: Draft, db: Database)
    requires Keyed(d) && (forall y :: before[y] == DraftCount(d, y))
    requires before + multiset{x} <= all && Lists(all, db)
    ensures AddItem(d, x).Ok?
  {
    var y := if x.HostItem? && x.host.alias in d.hosts then HostItem(d.hosts[x.host.alias]) else x;
    assert before[y] == DraftCount(d, y);
    assert all[y] == DatabaseCount(db, y) && all[x] == DatabaseCount(db, x);
    assert before[y] <= all[y] && before[x] + 1 <= all[x];
  }

  /** The table loop does not fail on tables that a database lists once each. */
  lemma {:induction false} ListedDraws(items: seq<Item>, more: multiset<Item>, db: Database)
    requires Lists(multiset(items) + more, db)
    ensures Draw(items).Ok?
  {
    if items != [] {
      var n := |items| - 1;
      var x := items[n];
      assert items == items[..n] + [x];
      assert multiset(items) + more == multiset(items[..n]) + (multiset{x} + more);
      ListedDraws(items[..n], multiset{x} + more, db);
      DrawIsKeyed(items[..n]);
      var d := Draw(items[..n]).value;
      forall y ensures multiset(items[..n])[y] == DraftCount(d, y) {
        DrawCounts(items[..n], y);
      }
      NotTaken(multiset(items[..n]), x, multiset(items) + more, d, db);
    }
  }

  lemma FinishedCount(d: Draft, folders: seq<string>, jumpFolders: seq<string>, x: Item)
    requires Complete(d)
    ensures DatabaseCount(Finished(d, folders, jumpFolders), x) == DraftCount(d, x)
  {
    if x.HopItem? && x.chain in d.names {
      AssembledIsNumbered(HopsAt(d, x.chain));
      NumberCount(Assemble(HopsAt(d, x.chain)).value, x.index, x.hop);
    }
  }

  lemma BuiltIsListed(folders: seq<string>, jumpFolders: seq<string>, items: seq<Item>)
    requires Build(folders, jumpFolders, items).Ok?
    ensures Lists(multiset(items), Build(folders, jumpFolders, items).value)
  {
    var d := Draw(items).value;
    forall x ensures multiset(items)[x] == DatabaseCount(Finished(d, folders, jumpFolders), x) {
      DrawCounts(items, x);
      FinishedCount(d, folders, jumpFolders, x);
    }
  }

  ghost predicate SameCounts(d: Draft, db: Database) {
    forall x :: DraftCount(d, x) == DatabaseCount(db, x)
  }

  lemma SameChain(d: Draft, db: Database, c: string)
    requires SameCounts(d, db) && c in db.chains && Countable(db.chains[c].hops)
    ensures Assemble(HopsAt(d, c)) == Ok(db.chains[c].hops)
  {
    var hops := db.chains[c].hops;
    forall x: Numbered ensures multiset(HopsAt(d, c))[x] == multiset(Number(hops))[x] {
      NumberCount(hops, x.0, x.1);
      assert DraftCount(d, HopItem(c, x.0, x.1)) == multiset(HopsAt(d, c))[(x.0, x.1)];
    }
    NumberedIsAssembled(HopsAt(d, c), hops);
  }

  lemma SameHosts(d: Draft, db: Database)
    requires SameCounts(d, db) && Keyed(d) && forall a <- db.hosts :: db.hosts[a].alias == a
    ensures d.hosts == db.hosts
  {
    forall a | a in d.hosts ensures a in db.hosts && d.hosts[a] == db.hosts[a] {
      assert DraftCount(d, HostItem(d.hosts[a])) == 1;
    }
    forall a | a in db.hosts ensures a in d.hosts {
      assert DraftCount(d, HostItem(db.hosts[a])) == 1;
    }
  }

  lemma SameNames(d: Draft, db: Database)
    requires SameCounts(d, db) && Keyed(d)
    ensures d.names == db.chains.Keys
    ensures forall c <- d.hops :: c in d.names
  {
    forall c ensures c in d.names <==> c in db.chains {
      assert DraftCount(d, ChainItem(c)) == DatabaseCount(db, ChainItem(c));
    }
    forall c | c in d.hops ensures c in d.names {
      var x := HopsAt(d, c)[0];
      assert x in multiset(HopsAt(d, c));
      assert DraftCount(d, HopItem(c, x.0, x.1)) > 0;
      assert HasHop(db.chains, c, x.0, x.1);
    }
  }

  lemma SameDatabase(d: Draft, db: Database)
    requires SameCounts(d, db) && Keyed(d) && db.version == DATABASE_VERSION
    requires forall a <- db.hosts :: db.hosts[a].alias == a
    requires forall c <- db.chains :: db.chains[c].name == c && Countable(db.chains[c].hops)
    ensures Complete(d) && Finished(d, db.folders, db.jumpFolders) == db
  {
    SameHosts(d, db);
    SameNames(d, db);
    forall c | c in d.names ensures Assemble(HopsAt(d, c)) == Ok(db.chains[c].hops) {
      SameChain(d, db, c);
    }
    var built := Finished(d, db.folders, db.jumpFolders);
    forall c | c in d.names ensures built.chains[c] == db.chains[c] {
      assert built.chains[c] == Chain(c, db.chains[c].hops);
    }
    assert built.chains == db.chains;
  }

  lemma ValidIsKeyed(db: Database)
    requires ValidDatabase(db)
    ensures forall a <- db.hosts :: db.hosts[a].alias == a
    ensures forall c <- db.chains :: db.chains[c].name == c && |db.chains[c].hops| <= MAX_CHAIN_HOPS
  {
    assert forall a <- db.hosts :: HostFits(db, a);
    assert forall c <- db.chains :: ChainFits(db, c);
  }

  lemma ListedIsBuilt(items: seq<Item>, db: Database)
    requires ValidDatabase(db) && Lists(multiset(items), db)
    ensures Build(db.folders, db.jumpFolders, items) == Ok(db)
  {
    assert multiset(items) + multiset{} == multiset(items);
    ListedDraws(items, multiset{}, db);
    DrawIsKeyed(items);
    ValidIsKeyed(db);
    var d := Draw(items).value;
    forall x ensures DraftCount(d, x) == DatabaseCount(db, x) {
      DrawCounts(items, x);
    }
    SameDatabase(d, db);
  }

  /** The tables accepted as a database are exactly those that list it, in whatever order. */
  lemma BuildExactly(folders: seq<string>, jumpFolders: seq<string>, items: seq<Item>, db: Database)
    ensures Build(folders, jumpFolders, items) == Ok(db) <==>
            ValidDatabase(db) && db.folders == folders && db.jumpFolders == jumpFolders && Lists(multiset(items), db)
  {
    if Build(folders, jumpFolders, items) == Ok(db) {
      BuiltIsListed(folders, jumpFolders, items);
    }
    if ValidDatabase(db) && db.folders == folders && db.jumpFolders == jumpFolders && Lists(multiset(items), db) {
      ListedIsBuilt(items, db);
    }
  }

  /** The order of the tables does not matter. */
  lemma OrderDoesNotMatter(folders: seq<string>, jumpFolders: seq<string>, a: seq<Item>, b: seq<Item>)
    requires multiset(a) == multiset(b)
    ensures Build(folders, jumpFolders, a) == Build(folders, jumpFolders, b)
  {
    var ra, rb := Build(folders, jumpFolders, a), Build(folders, jumpFolders, b);
    if ra.Ok? {
      BuildExactly(folders, jumpFolders, a, ra.value);
      BuildExactly(folders, jumpFolders, b, ra.value);
    } else if rb.Ok? {
      BuildExactly(folders, jumpFolders, a, rb.value);
      BuildExactly(folders, jumpFolders, b, rb.value);
    }
  }

  // ---------- The tables that are written ----------

  function HostItemsOf(db: Database, keys: seq<string>): seq<Item>
    requires forall k <- keys :: k in db.hosts
  {
    if keys == [] then [] else [HostItem(db.hosts[keys[0]])] + HostItemsOf(db, keys[1..])
  }

  function HopItemsOf(c: Chain, n: nat): seq<Item>
    requires n <= |c.hops| <= MAX_CHAIN_HOPS
  {
    if n == 0 then [] else HopItemsOf(c, n - 1) + [HopItem(c.name, n - 1, c.hops[n - 1])]
  }

  function OneChain(c: Chain): seq<Item>
    requires |c.hops| <= MAX_CHAIN_HOPS
  {
    [ChainItem(c.name)] + HopItemsOf(c, |c.hops|)
  }

  function ChainItemsOf(db: Database, keys: seq<string>): seq<Item>
    requires forall k <- keys :: k in db.chains && |db.chains[k].hops| <= MAX_CHAIN_HOPS
  {
    if keys == [] then [] else OneChain(db.chains[keys[0]]) + ChainItemsOf(db, keys[1..])
  }

  /** The tables in the order `encode` writes them: hosts, then each chain before its hops. */
  function ItemsOf(db: Database): seq<Item>
    requires ValidDatabase(db)
  {
    ValidIsKeyed(db);
    HostItemsOf(db, InOrder(db.hosts.Keys)) + ChainItemsOf(db, InOrder(db.chains.Keys))
  }

  lemma {:induction false} HostItemsCount(db: Database, keys: seq<string>, x: Item)
    requires Distinct(keys) && forall k <- keys :: k in db.hosts && db.hosts[k].alias == k
    ensures multiset(HostItemsOf(db, keys))[x] ==
            if x.HostItem? && x.host.alias in keys && HasHost(db.hosts, x.host) then 1 else 0
  {
    if keys != [] {
      HostItemsCount(db, keys[1..], x);
      assert keys == [keys[0]] + keys[1..];
      assert keys[0] !in keys[1..];
    }
  }

  lemma {:induction false} HopItemsCount(c: Chain, n: nat, x: Item)
    requires n <= |c.hops| <= MAX_CHAIN_HOPS
    ensures multiset(HopItemsOf(c, n))[x] ==
            if x.HopItem? && x.chain == c.name && x.index < n && c.hops[x.index] == x.hop then 1 else 0
  {
    if n > 0 {
      HopItemsCount(c, n - 1, x);
    }
  }

  ghost function ChainCount(db: Database, keys: seq<string>, x: Item): nat {
    match x
    case HostItem(_) => 0
    case ChainItem(name) => if name in keys then 1 else 0
    case HopItem(chain, i, hop) => if chain in keys && HasHop(db.chains, chain, i, hop) then 1 else 0
  }

  lemma OneChainCount(db: Database, key: string, x: Item)
    requires key in db.chains && db.chains[key].name == key && |db.chains[key].hops| <= MAX_CHAIN_HOPS
    ensures multiset(OneChain(db.chains[key]))[x] == ChainCount(db, [key], x)
  {
    var c := db.chains[key];
    HopItemsCount(c, |c.hops|, x);
  }

  lemma {:induction false} ChainItemsCount(db: Database, keys: seq<string>, x: Item)
    requires Distinct(keys)
    requires forall k <- keys :: k in db.chains && db.chains[k].name == k && |db.chains[k].hops| <= MAX_CHAIN_HOPS
    ensures multiset(ChainItemsOf(db, keys))[x] == ChainCount(db, keys, x)
  {
    if keys != [] {
      OneChainCount(db, keys[0], x);
      ChainItemsCount(db, keys[1..], x);
      assert keys == [keys[0]] + keys[1..];
      assert keys[0] !in keys[1..];
    }
  }

  lemma WrittenCount(db: Database, hosts: seq<string>, chains: seq<string>, x: Item)
    requires Distinct(hosts) && forall k :: k in hosts <==> k in db.hosts
    requires Distinct(chains) && forall k :: k in chains <==> k in db.chains
    requires forall k <- hosts :: db.hosts[k].alias == k
    requires forall k <- chains :: db.chains[k].name == k && |db.chains[k].hops| <= MAX_CHAIN_HOPS
    ensures multiset(HostItemsOf(db, hosts) + ChainItemsOf(db, chains))[x] == DatabaseCount(db, x)
  {
    HostItemsCount(db, hosts, x);
    ChainItemsCount(db, chains, x);
  }

  /** What `encode` writes lists the database. */
  lemma WrittenIsListed(db: Database)
    requires ValidDatabase(db)
    ensures Lists(multiset(ItemsOf(db)), db)
  {
    ValidIsKeyed(db);
    forall x ensures multiset(ItemsOf(db))[x] == DatabaseCount(db, x) {
      WrittenCount(db, InOrder(db.hosts.Keys), InOrder(db.chains.Keys), x);
    }
  }
}
