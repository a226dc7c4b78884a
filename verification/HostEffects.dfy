/** What the operations of the store need and do, spelled out on the records: store.rs. */
module HostEffects {
  import opened Wrappers
  import opened HostModel
  import opened HostStore
  import opened SortedKeys

  /** Some hop of some chain is this host. */
  ghost predicate OnAChain(db: Database, alias: string) {
    exists n, i :: n in db.chains && 0 <= i < |db.chains[n].hops| && db.chains[n].hops[i] == HostHop(alias)
  }

  ghost predicate KnownFolder(db: Database, name: string) {
    name in db.folders || name in db.jumpFolders || exists a :: a in db.hosts && name in db.hosts[a].groups
  }

  /** A host lives in the first of its groups. */
  ghost predicate LivesIn(h: Host, name: string) {
    |h.groups| > 0 && h.groups[0] == name
  }

  /** The one place of the name is cut out; everything else stays in order. */
  ghost predicate CutsOut(before: seq<string>, after: seq<string>, name: string) {
    if name in before then exists i :: 0 <= i < |before| && before[i] == name && after == before[..i] + before[i + 1..]
    else after == before
  }

  lemma ReferencedMeans(db: Database, alias: string)
    ensures Referenced(db, alias) <==> OnAChain(db, alias)
  {
    if Referenced(db, alias) {
      var n :| n in db.chains && Uses(db.chains[n], alias);
      var i :| 0 <= i < |db.chains[n].hops| && db.chains[n].hops[i] == HostHop(alias);
    }
    if n, i :| n in db.chains && 0 <= i < |db.chains[n].hops| && db.chains[n].hops[i] == HostHop(alias) {
      assert Uses(db.chains[n], alias);
    }
  }

  lemma FolderMeans(db: Database, name: string)
    ensures name in AllFolders(db) <==> KnownFolder(db, name)
  {
    FolderIsSomewhere(db, name);
  }

  lemma {:induction false} WithoutCutsOut(names: seq<string>, name: string)
    requires Distinct(names)
    ensures CutsOut(names, Without(names, name), name)
  {
    if name !in names {
      WithoutAbsent(names, name);
    } else if names[0] == name {
      assert name !in names[1..];
      WithoutAbsent(names[1..], name);
      assert names[..0] + names[1..] == names[1..];
      assert Without(names, name) == names[..0] + names[0 + 1..];
    } else {
      WithoutCutsOut(names[1..], name);
      var rest := names[1..];
      var i :| 0 <= i < |rest| && rest[i] == name && Without(rest, name) == rest[..i] + rest[i + 1..];
      assert names[i + 1] == name;
      assert Without(names, name) == names[..i + 1] + names[i + 1 + 1..];
    }
  }

  lemma HalvesAreDistinct(a: seq<string>, b: seq<string>)
    requires Distinct(a + b)
    ensures Distinct(a) && Distinct(b)
  {
    assert forall i :: 0 <= i < |a| ==> (a + b)[i] == a[i];
    assert forall i :: 0 <= i < |b| ==> (a + b)[|a| + i] == b[i];
  }

  lemma FolderListsAreDistinct(db: Database)
    requires ValidDatabase(db)
    ensures Distinct(db.folders) && Distinct(db.jumpFolders) && |db.folders| <= 4096
  {
    HalvesAreDistinct(db.folders, db.jumpFolders);
  }

  // ---------- Removing a folder ----------

  ghost predicate MayLeave(db: Database, name: string) {
    KnownFolder(db, name) && forall a :: a in db.hosts && LivesIn(db.hosts[a], name) ==> !OnAChain(db, a)
  }

  /** The folder and the hosts that live in it are gone, and nothing else has changed. */
  ghost predicate FolderLeft(before: Database, after: Database, name: string, aliases: seq<string>) {
    && (forall a :: a in after.hosts <==> a in before.hosts && !LivesIn(before.hosts[a], name))
    && (forall a :: a in after.hosts ==> after.hosts[a] == before.hosts[a])
    && Ascending(aliases) && (forall a :: a in aliases <==> a in before.hosts && LivesIn(before.hosts[a], name))
    && CutsOut(before.folders, after.folders, name) && CutsOut(before.jumpFolders, after.jumpFolders, name)
    && after.chains == before.chains && after.version == before.version
  }

  lemma LeavingMeans(db: Database, name: string)
    ensures MayBeRemoved(db, name) <==> MayLeave(db, name)
  {
    FolderMeans(db, name);
    forall a
      ensures Referenced(db, a) <==> OnAChain(db, a)
    {
      ReferencedMeans(db, a);
    }
    assert forall a :: a in Contained(db, name) <==> a in db.hosts && LivesIn(db.hosts[a], name);
  }

  lemma FolderIsLeft(db: Database, name: string)
    requires Distinct(db.folders) && Distinct(db.jumpFolders)
    ensures FolderLeft(db, FolderRemoved(db, name), name, InOrder(Contained(db, name)))
  {
    WithoutCutsOut(db.folders, name);
    WithoutCutsOut(db.jumpFolders, name);
    assert forall a :: a in Contained(db, name) <==> a in db.hosts && LivesIn(db.hosts[a], name);
  }

  lemma RemovingFolder(db: Database, name: string)
    requires ValidDatabase(db)
    ensures FolderRemoving(db, name).Ok? <==> MayLeave(db, name)
    ensures FolderRemoving(db, name).Ok? ==>
              FolderLeft(db, FolderRemoving(db, name).value, name, InOrder(Contained(db, name)))
  {
    LeavingMeans(db, name);
    FolderListsAreDistinct(db);
    FolderIsLeft(db, name);
  }

  // ---------- Saving a folder ----------

  /** The request itself is in order. */
  ghost predicate Proper(db: Database, name: string, original: Option<string>) {
    && ValidLabel(name)
    && (original.None? ==> name !in db.folders && name !in db.jumpFolders)
    && (original.Some? ==> KnownFolder(db, original.value) && (original.value == name || !KnownFolder(db, name)))
  }

  /** What a caller can check before: only a full list of target folders can still refuse a proper request. */
  ghost predicate MayArrive(db: Database, name: string, original: Option<string>, role: string) {
    && Proper(db, name, original) && (role == "target" || role == "jump")
    && (role == "target" ==> |db.folders| < 4096 || (original.Some? && original.value in db.folders))
  }

  /** The groups of a host, the old name replaced by the new one. */
  ghost predicate GroupsMoved(before: seq<string>, after: seq<string>, name: string, original: Option<string>) {
    && |after| == |before|
    && forall i :: 0 <= i < |before| ==> after[i] == if original == Some(before[i]) then name else before[i]
  }

  /** The old name is cut out of the list, and the new one ends the list it was asked for. */
  ghost predicate ListMoved(before: seq<string>, after: seq<string>, name: string, original: Option<string>, here: bool)
  {
    var from := if original.Some? then original.value else name;
    if here then after != [] && after[|after| - 1] == name && CutsOut(before, after[..|after| - 1], from)
    else CutsOut(before, after, from)
  }

  ghost predicate FolderArrived(before: Database, after: Database, name: string, original: Option<string>, jump: bool)
  {
    && after.hosts.Keys == before.hosts.Keys
    && (forall a :: a in before.hosts ==>
          && after.hosts[a] == before.hosts[a].(groups := after.hosts[a].groups)
          && GroupsMoved(before.hosts[a].groups, after.hosts[a].groups, name, original))
    && ListMoved(before.folders, after.folders, name, original, !jump)
    && ListMoved(before.jumpFolders, after.jumpFolders, name, original, jump)
    && after.chains == before.chains && after.version == before.version
  }

  lemma GroupsAreMoved(db: Database, name: string, original: Option<string>, jump: bool, a: string)
    requires a in db.hosts
    ensures var after := FolderSaved(db, name, original, jump);
            && a in after.hosts && after.hosts[a] == db.hosts[a].(groups := after.hosts[a].groups)
            && GroupsMoved(db.hosts[a].groups, after.hosts[a].groups, name, original)
  {
    SavedHosts(db, name, original, jump);
  }

  /** Only the old name is really taken out: the new one is either the same or not there. */
  lemma OthersCutsOut(names: seq<string>, name: string, from: string)
    requires Distinct(names) && (name == from || name !in names)
    ensures CutsOut(names, Without(Without(names, name), from), from)
  {
    if name == from {
      WithoutAbsent(Without(names, name), from);
    } else {
      WithoutAbsent(names, name);
    }
    WithoutCutsOut(names, from);
  }

  lemma ListsAreMoved(db: Database, name: string, original: Option<string>, jump: bool)
    requires Distinct(db.folders) && Distinct(db.jumpFolders)
    requires original.Some? && original.value != name ==> name !in db.folders && name !in db.jumpFolders
    ensures var after := FolderSaved(db, name, original, jump);
            && ListMoved(db.folders, after.folders, name, original, !jump)
            && ListMoved(db.jumpFolders, after.jumpFolders, name, original, jump)
  {
    var after := FolderSaved(db, name, original, jump);
    var from := if original.Some? then original.value else name;
    OthersCutsOut(db.folders, name, from);
    OthersCutsOut(db.jumpFolders, name, from);
    var kept, jumpKept := Without(Without(db.folders, name), from), Without(Without(db.jumpFolders, name), from);
    assert (kept + [name])[..|kept|] == kept && (jumpKept + [name])[..|jumpKept|] == jumpKept;
  }

  lemma CutSize(before: seq<string>, after: seq<string>, name: string)
    requires CutsOut(before, after, name)
    ensures |after| == |before| - if name in before then 1 else 0
  {
  }

  lemma SavedSize(db: Database, name: string, original: Option<string>, jump: bool)
    requires Distinct(db.folders) && (original.Some? && original.value != name ==> name !in db.folders)
    requires original.None? ==> name !in db.folders
    requires |db.folders| <= 4096
    ensures |FolderSaved(db, name, original, jump).folders| <= 4096 <==>
              jump || |db.folders| < 4096 || (original.Some? && original.value in db.folders)
  {
    var from := if original.Some? then original.value else name;
    OthersCutsOut(db.folders, name, from);
    CutSize(db.folders, Without(Without(db.folders, name), from), from);
  }

  lemma SavingMeans(db: Database, name: string, original: Option<string>)
    ensures MayBeSaved(db, name, original) <==> Proper(db, name, original)
  {
    FolderMeans(db, name);
    if original.Some? {
      FolderMeans(db, original.value);
    }
  }

  lemma FolderHasArrived(db: Database, name: string, original: Option<string>, jump: bool)
    requires Distinct(db.folders) && Distinct(db.jumpFolders) && Proper(db, name, original)
    ensures FolderArrived(db, FolderSaved(db, name, original, jump), name, original, jump)
  {
    ListsAreMoved(db, name, original, jump);
    SavedHosts(db, name, original, jump);
    var after := FolderSaved(db, name, original, jump);
    forall a | a in db.hosts
      ensures after.hosts[a] == db.hosts[a].(groups := after.hosts[a].groups)
      ensures GroupsMoved(db.hosts[a].groups, after.hosts[a].groups, name, original)
    {
      GroupsAreMoved(db, name, original, jump, a);
    }
  }

  lemma SavingFolder(db: Database, name: string, original: Option<string>, role: string)
    requires ValidDatabase(db)
    ensures FolderSaving(db, name, original, role).Ok? <==> MayArrive(db, name, original, role)
    ensures FolderSaving(db, name, original, role).Ok? ==>
              FolderArrived(db, FolderSaving(db, name, original, role).value, name, original, role == "jump")
  {
    var jump := role == "jump";
    SavingMeans(db, name, original);
    FolderListsAreDistinct(db);
    assert "target"[0] != "jump"[0];
    if Proper(db, name, original) {
      SavingFailsOnlyOnTheLimit(db, name, original, jump);
      SavedSize(db, name, original, jump);
      FolderHasArrived(db, name, original, jump);
    }
  }

  // ---------- Counting a success ----------

  /** The counter goes up by one unless it is full; time and method follow if the clock answers. */
  ghost predicate Recorded(before: Database, after: Database, alias: string, m: AuthMethod, clock: Result<U64>,
                           ok: bool)
  {
    var counts := alias in before.hosts && before.hosts[alias].stats.count < 0xFFFF_FFFF_FFFF_FFFF;
    && (ok <==> counts && clock.Ok?)
    && (!counts ==> after == before)
    && (counts ==>
          var h := before.hosts[alias];
          var stats := if ok then Stats(Some(clock.value), h.stats.count + 1, Some(m))
                       else Stats(h.stats.lastConnected, h.stats.count + 1, h.stats.lastAuth);
          after == before.(hosts := before.hosts[alias := h.(stats := stats)]))
  }

  lemma RecordingSuccess(db: Database, alias: string, m: AuthMethod, clock: Result<U64>)
    requires ValidDatabase(db)
    ensures Recorded(db, Following(db, Op.RecordSuccess(alias, m, clock)), alias, m, clock,
                     Incrementable(db, alias) && clock.Ok?)
  {
    if alias in db.hosts {
      assert HostFits(db, alias);
    }
    RecordingMeans(db, alias, m, clock);
  }

  lemma RecordingMeans(db: Database, alias: string, m: AuthMethod, clock: Result<U64>)
    requires alias in db.hosts ==> db.hosts[alias].alias == alias
    ensures Recorded(db, Following(db, Op.RecordSuccess(alias, m, clock)), alias, m, clock,
                     Incrementable(db, alias) && clock.Ok?)
  {
    CountFollows(db, Op.RecordSuccess(alias, m, clock));
  }
}
