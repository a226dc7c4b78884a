/** The `HostStore` object: every method changes `database` in place. */
module HostLibrary {
  import opened Wrappers
  import opened Text
  import opened HostModel
  import opened HostCodec
  import opened HostDecoder
  import opened HostWriter
  import opened HostStore
  import opened HostEffects
  import opened SortedKeys

  method RenameGroups(groups: seq<string>, from: string, to: string) returns (r: seq<string>)
    ensures r == Renamed(groups, from, to)
  {
    r := groups;
    for i := 0 to |groups|
      invariant |r| == |groups|
      invariant forall k :: 0 <= k < |r| ==> r[k] == if k < i && groups[k] == from then to else groups[k]
    {
      if r[i] == from {
        r := r[i := to];
      }
    }
  }

  /** The loop over `hosts.values_mut()`. */
  method RenameInHosts(hosts: map<string, Host>, from: string, to: string) returns (r: map<string, Host>)
    ensures r == Regrouped(hosts, from, to)
  {
    r := hosts;
    var todo := hosts.Keys;
    while todo != {}
      invariant todo <= hosts.Keys && r.Keys == hosts.Keys
      invariant forall a <- hosts :: r[a] == if a in todo then hosts[a] else RegroupedHost(hosts[a], from, to)
      decreases |todo|
    {
      var a :| a in todo;
      var groups := RenameGroups(r[a].groups, from, to);
      r := r[a := r[a].(groups := groups)];
      todo := todo - {a};
    }
  }

  /** The aliases of the hosts inside the folder, collected in key order. */
  method CollectInside(db: Database, name: string) returns (aliases: seq<string>)
    ensures aliases == InOrder(Contained(db, name))
  {
    var keys := InOrder(db.hosts.Keys);
    aliases := [];
    for i := 0 to |keys|
      invariant Ascending(aliases) && forall k :: k in aliases <==> k in keys[..i] && Inside(db, k, name)
    {
      NextKey(keys, i);
      if Inside(db, keys[i], name) {
        AscendingGrows(keys, i, aliases);
        aliases := aliases + [keys[i]];
      }
    }
    assert keys[..|keys|] == keys;
    OrderIsDetermined(aliases, InOrder(Contained(db, name)));
  }

  predicate AnyReferenced(db: Database, aliases: seq<string>) {
    exists a <- aliases :: Referenced(db, a)
  }

  function Dropped(db: Database, name: string, aliases: seq<string>): Database {
    db.(folders := Without(db.folders, name), jumpFolders := Without(db.jumpFolders, name),
        hosts := db.hosts - (set a | a in aliases))
  }

  lemma DroppedIsRemoved(db: Database, name: string, aliases: seq<string>)
    requires aliases == InOrder(Contained(db, name)) && name in AllFolders(db)
    ensures MayBeRemoved(db, name) <==> !AnyReferenced(db, aliases)
    ensures Dropped(db, name, aliases) == FolderRemoved(db, name)
  {
    assert (set a | a in aliases) == Contained(db, name);
  }

  lemma RemovingSucceeds(db: Database, name: string)
    requires ValidDatabase(db) && MayBeRemoved(db, name)
    ensures FolderRemoving(db, name) == Ok(FolderRemoved(db, name)) && ValidDatabase(FolderRemoved(db, name))
  {
    RemovingFolderKeepsValid(db, name);
  }

  lemma BadHostIsRefused(db: Database, h: Host)
    requires !ValidHost(h) || (h.jumpChain.Some? && h.jumpChain.value !in db.chains)
    ensures !ValidDatabase(WithHost(db, h))
  {
    assert !HostFits(WithHost(db, h), h.alias);
  }

  lemma BadChainIsRefused(db: Database, c: Chain)
    requires !ValidChain(c)
    ensures !ValidDatabase(WithChain(db, c))
  {
    assert !ChainFits(WithChain(db, c), c.name);
  }

  /** Putting back what an insertion replaced restores the database. */
  lemma HostPutBack(db: Database, h: Host)
    ensures var after := WithHost(db, h);
            after.(hosts := if h.alias in db.hosts
                            then after.hosts[h.alias := db.hosts[h.alias]]
                            else after.hosts - {h.alias}) == db
  {
    var after := WithHost(db, h);
    if h.alias in db.hosts {
      assert after.hosts[h.alias := db.hosts[h.alias]] == db.hosts;
    } else {
      assert after.hosts - {h.alias} == db.hosts;
    }
  }

  lemma ChainPutBack(db: Database, c: Chain)
    ensures var after := WithChain(db, c);
            after.(chains := if c.name in db.chains
                             then after.chains[c.name := db.chains[c.name]]
                             else after.chains - {c.name}) == db
  {
    var after := WithChain(db, c);
    if c.name in db.chains {
      assert after.chains[c.name := db.chains[c.name]] == db.chains;
    } else {
      assert after.chains - {c.name} == db.chains;
    }
  }

  lemma RecordingKeepsValid(db: Database, alias: string, m: AuthMethod, clock: Result<U64>)
    requires ValidDatabase(db)
    ensures ValidDatabase(Following(db, Op.RecordSuccess(alias, m, clock)))
    ensures !Incrementable(db, alias) ==> Following(db, Op.RecordSuccess(alias, m, clock)) == db
  {
    StepKeepsValid(db, Op.RecordSuccess(alias, m, clock));
    CountFollows(db, Op.RecordSuccess(alias, m, clock));
  }

  /** Time and method are entered after the counter. */
  lemma StampAfterCount(hosts: map<string, Host>, alias: string, now: U64, m: AuthMethod)
    requires alias in hosts && hosts[alias].stats.count + 1 < 0x1_0000_0000_0000_0000
    ensures var h := hosts[alias].(stats := OneMore(hosts[alias].stats));
            hosts[alias := h][alias := Stamped(h, now, m)] == hosts[alias := Counted(hosts[alias], now, m)]
  {
  }

  lemma RecordingInSteps(db: Database, alias: string, m: AuthMethod, clock: Result<U64>)
    requires Incrementable(db, alias) && db.hosts[alias].alias == alias
    ensures var h := db.hosts[alias].(stats := OneMore(db.hosts[alias].stats));
            var half := db.(hosts := db.hosts[alias := h]);
            Following(db, Op.RecordSuccess(alias, m, clock)) ==
            if clock.Err? then half else half.(hosts := half.hosts[alias := Stamped(h, clock.value, m)])
  {
    CountFollows(db, Op.RecordSuccess(alias, m, clock));
    if clock.Ok? {
      StampAfterCount(db.hosts, alias, clock.value, m);
    }
  }

  lemma AliasIsKey(db: Database, alias: string)
    requires ValidDatabase(db) && alias in db.hosts
    ensures db.hosts[alias].alias == alias
  {
    assert HostFits(db, alias);
  }

  function Stamped(h: Host, now: U64, m: AuthMethod): Host {
    h.(stats := h.stats.(lastConnected := Some(now), lastAuth := Some(m)))
  }

  class Store {
    var database: Database

    ghost predicate Valid()
      reads this
    {
      ValidDatabase(database)
    }

    /** `open`: a missing file is an empty library. */
    constructor (db: Database)
      requires ValidDatabase(db)
      ensures Valid() && database == db
    {
      database := db;
    }

    method UpsertHost(h: Host) returns (r: Result<Option<Host>>)
      requires Valid()
      modifies this
      ensures Valid() && database == Kept(old(database), Checked(WithHost(old(database), h)))
      ensures r.Ok? <==> Checked(WithHost(old(database), h)).Ok?
      ensures var changed := old(database).(hosts := old(database).hosts[h.alias := h]);
              (r.Ok? <==> ValidDatabase(changed)) && database == if r.Ok? then changed else old(database)
      ensures r.Ok? ==> r.value == if h.alias in old(database).hosts then Some(old(database).hosts[h.alias]) else None
    {
      var fine := CheckHost(h);
      if !fine || (h.jumpChain.Some? && h.jumpChain.value !in database.chains) {
        BadHostIsRefused(database, h);
        return Err;
      }
      var previous := if h.alias in database.hosts then Some(database.hosts[h.alias]) else None;
      database := database.(hosts := database.hosts[h.alias := h]);
      assert database == WithHost(old(database), h);
      var ok := CheckDatabase(database);
      if !ok {
        if previous.Some? {
          database := database.(hosts := database.hosts[h.alias := previous.value]);
        } else {
          database := database.(hosts := database.hosts - {h.alias});
        }
        HostPutBack(old(database), h);
        assert database == old(database);
        return Err;
      }
      r := Ok(previous);
    }

    method InsertHost(h: Host) returns (r: Result<()>)
      requires Valid()
      modifies this
      ensures Valid() && database == Kept(old(database), HostInserted(old(database), h))
      ensures r.Ok? <==> HostInserted(old(database), h).Ok?
      ensures var changed := old(database).(hosts := old(database).hosts[h.alias := h]);
              && (r.Ok? <==> h.alias !in old(database).hosts && ValidDatabase(changed))
              && database == if r.Ok? then changed else old(database)
    {
      if h.alias in database.hosts {
        return Err;
      }
      var fine := CheckHost(h);
      if !fine {
        BadHostIsRefused(database, h);
        return Err;
      }
      database := database.(hosts := database.hosts[h.alias := h]);
      assert database == WithHost(old(database), h);
      var ok := CheckDatabase(database);
      if !ok {
        database := database.(hosts := database.hosts - {h.alias});
        HostPutBack(old(database), h);
        assert database == old(database);
        return Err;
      }
      r := Ok(());
    }

    method RemoveHost(alias: string) returns (r: Result<Host>)
      requires Valid()
      modifies this
      ensures Valid() && database == Kept(old(database), HostRemoved(old(database), alias))
      ensures r.Ok? <==> HostRemoved(old(database), alias).Ok?
      ensures r.Ok? <==> alias in old(database).hosts && !OnAChain(old(database), alias)
      ensures r.Ok? ==> r.value == old(database).hosts[alias]
      ensures database == if r.Ok? then old(database).(hosts := old(database).hosts - {alias}) else old(database)
    {
      ReferencedMeans(database, alias);
      if Referenced(database, alias) || alias !in database.hosts {
        return Err;
      }
      RemovingHostsKeepsValid(database, {alias});
      r := Ok(database.hosts[alias]);
      database := database.(hosts := database.hosts - {alias});
    }

    method UpsertChain(c: Chain) returns (r: Result<Option<Chain>>)
      requires Valid()
      modifies this
      ensures Valid() && database == Kept(old(database), Checked(WithChain(old(database), c)))
      ensures r.Ok? <==> Checked(WithChain(old(database), c)).Ok?
      ensures var changed := old(database).(chains := old(database).chains[c.name := c]);
              (r.Ok? <==> ValidDatabase(changed)) && database == if r.Ok? then changed else old(database)
      ensures r.Ok? ==> r.value == if c.name in old(database).chains then Some(old(database).chains[c.name]) else None
    {
      var fine := CheckChain(c);
      if !fine {
        BadChainIsRefused(database, c);
        return Err;
      }
      var previous := if c.name in database.chains then Some(database.chains[c.name]) else None;
      database := database.(chains := database.chains[c.name := c]);
      assert database == WithChain(old(database), c);
      var ok := CheckDatabase(database);
      if !ok {
        if previous.Some? {
          database := database.(chains := database.chains[c.name := previous.value]);
        } else {
          database := database.(chains := database.chains - {c.name});
        }
        ChainPutBack(old(database), c);
        assert database == old(database);
        return Err;
      }
      r := Ok(previous);
    }

    method InsertChain(c: Chain) returns (r: Result<()>)
      requires Valid()
      modifies this
      ensures Valid() && database == Kept(old(database), ChainInserted(old(database), c))
      ensures r.Ok? <==> ChainInserted(old(database), c).Ok?
      ensures var changed := old(database).(chains := old(database).chains[c.name := c]);
              && (r.Ok? <==> c.name !in old(database).chains && ValidDatabase(changed))
              && database == if r.Ok? then changed else old(database)
    {
      if c.name in database.chains {
        return Err;
      }
      database := database.(chains := database.chains[c.name := c]);
      assert database == WithChain(old(database), c);
      var ok := CheckDatabase(database);
      if !ok {
        database := database.(chains := database.chains - {c.name});
        ChainPutBack(old(database), c);
        assert database == old(database);
        return Err;
      }
      r := Ok(());
    }

    method RemoveChain(name: string) returns (r: Result<Chain>)
      requires Valid()
      modifies this
      ensures Valid() && database == Kept(old(database), ChainRemoved(old(database), name))
      ensures r.Ok? <==> ChainRemoved(old(database), name).Ok?
      ensures r.Ok? <==>
                && name in old(database).chains
                && forall a :: a in old(database).hosts ==> old(database).hosts[a].jumpChain != Some(name)
      ensures r.Ok? ==> r.value == old(database).chains[name]
      ensures database == if r.Ok? then old(database).(chains := old(database).chains - {name}) else old(database)
    {
      if Bound(database, name) || name !in database.chains {
        return Err;
      }
      RemovingChainKeepsValid(database, name);
      r := Ok(database.chains[name]);
      database := database.(chains := database.chains - {name});
    }

    method SaveFolder(name: string, original: Option<string>, role: string) returns (r: Result<()>)
      requires Valid()
      modifies this
      ensures Valid() && database == Kept(old(database), FolderSaving(old(database), name, original, role))
      ensures r.Ok? <==> FolderSaving(old(database), name, original, role).Ok?
      ensures r.Ok? <==> MayArrive(old(database), name, original, role)
      ensures r.Ok? ==> FolderArrived(old(database), database, name, original, role == "jump")
      ensures r.Err? ==> database == old(database)
    {
      SavingFolder(database, name, original, role);
      if !ValidLabel(name) || role !in {"target", "jump"} {
        return Err;
      }
      var all := AllFolders(database);
      if original.Some? && original.value !in all {
        return Err;
      }
      var duplicate := if original.Some? then original != Some(name) && name in all else Declared(database, name);
      if duplicate {
        return Err;
      }
      var updated := database;
      var renaming := original.Some? && original.value != name;
      if renaming {
        var hosts := RenameInHosts(updated.hosts, original.value, name);
        updated := updated.(hosts := hosts);
      }
      updated := updated.(folders := Without(updated.folders, name), jumpFolders := Without(updated.jumpFolders, name));
      if renaming {
        updated := updated.(folders := Without(updated.folders, original.value),
            jumpFolders := Without(updated.jumpFolders, original.value));
      } else {
        WithoutAbsent(updated.folders, name);
        WithoutAbsent(updated.jumpFolders, name);
      }
      if role == "jump" {
        updated := updated.(jumpFolders := updated.jumpFolders + [name]);
      } else {
        updated := updated.(folders := updated.folders + [name]);
      }
      assert updated == FolderSaved(database, name, original, role == "jump");
      var ok := CheckDatabase(updated);
      if !ok {
        return Err;
      }
      database := updated;
      r := Ok(());
    }

    /** Also returns the aliases of the hosts that went with the folder, in key order. */
    method RemoveFolder(name: string) returns (r: Result<seq<string>>)
      requires Valid()
      modifies this
      ensures Valid() && database == Kept(old(database), FolderRemoving(old(database), name))
      ensures r.Ok? <==> FolderRemoving(old(database), name).Ok?
      ensures r.Ok? <==> MayLeave(old(database), name)
      ensures r.Ok? ==> FolderLeft(old(database), database, name, r.value)
      ensures r.Err? ==> database == old(database)
    {
      RemovingFolder(database, name);
      if name !in AllFolders(database) {
        return Err;
      }
      var aliases := CollectInside(database, name);
      DroppedIsRemoved(database, name, aliases);
      if AnyReferenced(database, aliases) {
        return Err;
      }
      RemovingSucceeds(database, name);
      var updated := Dropped(database, name, aliases);
      var ok := CheckDatabase(updated);
      if !ok {
        return Err;
      }
      database := updated;
      r := Ok(aliases);
    }

    /** `clock` is what the system clock answers. */
    method RecordSuccess(alias: string, m: AuthMethod, clock: Result<U64>) returns (r: Result<()>)
      requires Valid()
      modifies this
      ensures Valid()
      ensures r.Ok? <==> Incrementable(old(database), alias) && clock.Ok?
      ensures database == Following(old(database), Op.RecordSuccess(alias, m, clock))
      ensures Recorded(old(database), database, alias, m, clock, r.Ok?)
    {
      RecordingSuccess(database, alias, m, clock);
      RecordingKeepsValid(database, alias, m, clock);
      if !Incrementable(database, alias) {
        return Err;
      }
      AliasIsKey(database, alias);
      RecordingInSteps(database, alias, m, clock);
      CountOne(alias);
      var now :- clock;
      EnterSuccess(alias, now, m);
      r := Ok(());
    }

    method CountOne(alias: string)
      requires Incrementable(database, alias)
      modifies this
      ensures var h := old(database).hosts[alias];
              database == old(database).(hosts := old(database).hosts[alias := h.(stats := OneMore(h.stats))])
    {
      var h := database.hosts[alias];
      h := h.(stats := h.stats.(count := h.stats.count + 1));
      database := database.(hosts := database.hosts[alias := h]);
    }

    method EnterSuccess(alias: string, now: U64, m: AuthMethod)
      requires alias in database.hosts
      modifies this
      ensures var h := old(database).hosts[alias];
              database == old(database).(hosts := old(database).hosts[alias := Stamped(h, now, m)])
    {
      var h := database.hosts[alias];
      h := h.(stats := h.stats.(lastConnected := Some(now)));
      h := h.(stats := h.stats.(lastAuth := Some(m)));
      database := database.(hosts := database.hosts[alias := h]);
    }

    /** Any operation: it succeeds or fails, and leaves the library, as the specification says. */
    method Perform(op: Op) returns (ok: bool)
      requires Valid()
      modifies this
      ensures Valid() && database == Following(old(database), op)
      ensures ok <==> Outcome(old(database), op).Ok?
      ensures !ok ==> (database == old(database) <==> !HalfDone(old(database), op))
    {
      ghost var before := database;
      if op.UpsertHost? || op.InsertHost? || op.RemoveHost? {
        ok := PerformHost(op);
      } else if op.RecordSuccess? {
        CountFollows(before, op);
        var r := RecordSuccess(op.alias, op.method_, op.clock);
        ok := r.Ok?;
      } else {
        ok := PerformOther(op);
      }
      if !ok {
        FailureChangesNothing(before, op);
      }
    }

    method PerformHost(op: Op) returns (ok: bool)
      requires Valid() && (op.UpsertHost? || op.InsertHost? || op.RemoveHost?)
      modifies this
      ensures Valid() && database == Following(old(database), op) && (ok <==> Outcome(old(database), op).Ok?)
    {
      match op
      case UpsertHost(h) =>
        var r := UpsertHost(h);
        ok := r.Ok?;
      case InsertHost(h) =>
        var r := InsertHost(h);
        ok := r.Ok?;
      case RemoveHost(alias) =>
        var r := RemoveHost(alias);
        ok := r.Ok?;
    }

    method PerformOther(op: Op) returns (ok: bool)
      requires Valid() && !(op.UpsertHost? || op.InsertHost? || op.RemoveHost? || op.RecordSuccess?)
      modifies this
      ensures Valid() && database == Following(old(database), op) && (ok <==> Outcome(old(database), op).Ok?)
    {
      match op
      case UpsertChain(c) =>
        var r := UpsertChain(c);
        ok := r.Ok?;
      case InsertChain(c) =>
        var r := InsertChain(c);
        ok := r.Ok?;
      case RemoveChain(name) =>
        var r := RemoveChain(name);
        ok := r.Ok?;
      case SaveFolder(name, original, role) =>
        var r := SaveFolder(name, original, role);
        ok := r.Ok?;
      case RemoveFolder(name) =>
        var r := RemoveFolder(name);
        ok := r.Ok?;
    }

    /** Any sequence of operations, some of which may fail. */
    method PerformAll(ops: seq<Op>)
      requires Valid()
      modifies this
      ensures Valid() && database == Run(old(database), ops)
    {
      assert ops[0..] == ops;
      for i := 0 to |ops|
        invariant Valid() && Run(database, ops[i..]) == Run(old(database), ops)
      {
        assert ops[i..][0] == ops[i] && ops[i..][1..] == ops[i + 1..];
        var _ := Perform(ops[i]);
      }
    }

    /** `save`: the text that is written to the file. */
    method Save() returns (r: Result<string>)
      requires Valid()
      ensures r.Ok? <==> |Utf8(Encode(database).value)| <= 4194304
      ensures r.Ok? ==> r == Encode(database)
    {
      r := EncodeFile(database);
      if r.Ok? && |Utf8(r.value)| > MAX_BYTES {
        r := Err;
      }
    }
  }

  method Open(file: Option<string>) returns (r: Result<Database>)
    ensures file.None? ==> r == Ok(EMPTY)
    ensures file.Some? ==> r == Decode(file.value)
    ensures r.Ok? ==> ValidDatabase(r.value)
  {
    if file.None? {
      EmptyIsValid();
      return Ok(EMPTY);
    }
    r := DecodeFile(file.value);
    if r.Ok? {
      AcceptedSurvives(file.value);
    }
  }

  /** What was saved is opened again unchanged exactly when every note is clean. */
  lemma SaveThenOpen(db: Database)
    requires ValidDatabase(db) && |Utf8(Encode(db).value)| <= 4194304
    ensures Decode(Encode(db).value) == Ok(db) <==> CleanNotes(db)
  {
    RoundTripExactly(db);
  }

  /** A library whose note holds a bell character. */
  function Belled(): Database {
    Database([], [], DATABASE_VERSION, map["_" := BelledHost()], map[])
  }

  function BelledHost(): Host {
    Host("_", Both, ".", 22, ".", None, [], [], Some("\U{7}"), AcceptNew, None, AutoOs, Stats(None, 0, None))
  }

  lemma BelledHostIsValid()
    ensures ValidHost(BelledHost()) && !CleanNote(BelledHost())
  {
    assert Trim("_") == "_";
    assert Utf8(".") == Utf8Char('.') + Utf8([]);
    assert Utf8("\U{7}") == Utf8Char('\U{7}') + Utf8([]);
    assert IsControl("\U{7}"[0]);
  }

  lemma BelledIsValid()
    ensures ValidDatabase(Belled())
  {
    BelledHostIsValid();
    assert HostFits(Belled(), "_");
  }

  /** It is valid and can be written, but the text is refused. */
  lemma BelledIsLost()
    ensures ValidDatabase(Belled()) && Encode(Belled()).Ok? && Decode(Encode(Belled()).value).Err?
  {
    BelledHostIsValid();
    BelledIsValid();
    RoundTripExactly(Belled());
  }

  /** With a failing clock the operation fails on this library, and yet it has counted. */
  lemma FailedCountIsKept(m: AuthMethod)
    ensures ValidDatabase(Belled())
    ensures var op := Op.RecordSuccess("_", m, Err);
            && Outcome(Belled(), op).Err?
            && "_" in Following(Belled(), op).hosts && Following(Belled(), op).hosts["_"].stats.count == 1
            && Belled().hosts["_"].stats.count == 0
  {
    BelledIsValid();
    CountFollows(Belled(), Op.RecordSuccess("_", m, Err));
  }
}
