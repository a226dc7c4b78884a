/** What the validation of model.rs promises about an accepted library, with every limit written out. */
module HostValidity {
  import opened Wrappers
  import opened Text
  import opened HostModel

  // ---------- Fields ----------

  /** A display name: 1 to 128 characters, no white space at either end. */
  ghost predicate LabelOk(s: string) {
    && 1 <= |s| <= 128 && !IsWhite(s[0]) && !IsWhite(s[|s| - 1])
    && forall i :: 0 <= i < |s| ==>
         isAlphanumeric(s[i]) || s[i] in {' ', '.', '_', '-', ':', '(', ')', '\U{FF08}', '\U{FF09}'}
  }

  /** An OpenSSH alias: 1 to 128 bytes. */
  ghost predicate AliasOk(s: string) {
    && 1 <= |Utf8(s)| <= 128
    && forall i :: 0 <= i < |s| ==>
         || 'a' <= s[i] <= 'z' || 'A' <= s[i] <= 'Z' || '0' <= s[i] <= '9'
         || s[i] == '.' || s[i] == '_' || s[i] == '-' || s[i] == ':'
  }

  ghost predicate Uncontrolled(s: string) {
    forall i :: 0 <= i < |s| ==> !(s[i] as int < 32 || 127 <= s[i] as int < 160)
  }

  /** An address or a user: 1 to 512 bytes. */
  ghost predicate TokenOk(s: string) {
    1 <= |Utf8(s)| <= 512 && Uncontrolled(s)
  }

  ghost predicate PathOk(path: Option<string>) {
    path.Some? ==> path.value != "" && |Utf8(path.value)| <= 4096 && Uncontrolled(path.value)
  }

  ghost predicate LabelsOk(values: seq<string>) {
    && |values| <= 64 && (forall v :: v in values ==> LabelOk(v))
    && forall i, j :: 0 <= i < j < |values| ==> values[i] != values[j]
  }

  ghost predicate HostOk(h: Host) {
    && LabelOk(h.alias) && TokenOk(h.address) && TokenOk(h.user) && 1 <= h.port <= 65535 && PathOk(h.identityFile)
    && LabelsOk(h.groups) && LabelsOk(h.tags)
    && (h.note.Some? ==> |Utf8(h.note.value)| <= 4096 && '\0' !in h.note.value)
    && (h.jumpChain.Some? ==> LabelOk(h.jumpChain.value))
  }

  ghost predicate HopOk(hop: Hop) {
    match hop
    case HostHop(name) => LabelOk(name)
    case OpenSshHop(name) => AliasOk(name)
    case InlineHop(name, host, port, user, identityFile, _) =>
      LabelOk(name) && TokenOk(host) && TokenOk(user) && 1 <= port <= 65535 && PathOk(identityFile)
  }

  /** One to eight hops, none of them twice. */
  ghost predicate ChainOk(c: Chain) {
    && LabelOk(c.name) && 1 <= |c.hops| <= 8
    && (forall i :: 0 <= i < |c.hops| ==> HopOk(c.hops[i]))
    && forall i, j :: 0 <= i < j < |c.hops| ==> c.hops[i].name != c.hops[j].name
  }

  // ---------- The library ----------

  /** Target and jump folders share one space of names. */
  ghost predicate FoldersOk(folders: seq<string>, jumpFolders: seq<string>) {
    && |folders| <= 4096
    && (forall f :: f in folders || f in jumpFolders ==> LabelOk(f))
    && Distinct(folders) && Distinct(jumpFolders) && forall f :: f in folders ==> f !in jumpFolders
  }

  /** The host is reached through a known chain that does not contain it. */
  ghost predicate RouteOk(db: Database, a: string)
    requires a in db.hosts
  {
    db.hosts[a].jumpChain.Some? ==>
      var name := db.hosts[a].jumpChain.value;
      name in db.chains && forall i :: 0 <= i < |db.chains[name].hops| ==> db.chains[name].hops[i].name != a
  }

  /** Hosts on the chain exist and may be jumped through. */
  ghost predicate StopsOk(db: Database, n: string)
    requires n in db.chains
  {
    forall i :: 0 <= i < |db.chains[n].hops| && db.chains[n].hops[i].HostHop? ==>
      var alias := db.chains[n].hops[i].name;
      alias in db.hosts && (db.hosts[alias].role == Jump || db.hosts[alias].role == Both)
  }

  ghost predicate Sound(db: Database) {
    && db.version == 1 && |db.hosts| <= 4096 && |db.chains| <= 512 && FoldersOk(db.folders, db.jumpFolders)
    && (forall a :: a in db.hosts ==> db.hosts[a].alias == a && HostOk(db.hosts[a]) && RouteOk(db, a))
    && (forall n :: n in db.chains ==> db.chains[n].name == n && ChainOk(db.chains[n]) && StopsOk(db, n))
  }

  // ---------- The validation accepts just that ----------

  lemma LabelMeans(s: string)
    ensures ValidLabel(s) <==> LabelOk(s)
  {
    var i, j := TrimIs(s);
    if s != [] && Trimmed(s) {
      TrimBlanks(s);
    }
  }

  lemma AliasMeans(s: string)
    ensures ValidName(s) <==> AliasOk(s)
  {
  }

  lemma LabelsMean(values: seq<string>)
    ensures AllLabels(values) <==> forall v :: v in values ==> LabelOk(v)
    ensures ValidLabels(values) <==> LabelsOk(values)
  {
    forall i | 0 <= i < |values|
      ensures ValidLabel(values[i]) <==> LabelOk(values[i])
    {
      LabelMeans(values[i]);
    }
  }

  lemma HostMeansOk(h: Host)
    ensures ValidHost(h) <==> HostOk(h)
  {
    LabelMeans(h.alias);
    LabelsMean(h.groups);
    LabelsMean(h.tags);
    if h.jumpChain.Some? {
      LabelMeans(h.jumpChain.value);
    }
  }

  lemma HopMeansOk(hop: Hop)
    ensures ValidHop(hop) <==> HopOk(hop)
  {
    LabelMeans(hop.name);
    AliasMeans(hop.name);
  }

  lemma ChainMeansOk(c: Chain)
    ensures ValidChain(c) <==> ChainOk(c)
  {
    LabelMeans(c.name);
    forall i | 0 <= i < |c.hops|
      ensures ValidHop(c.hops[i]) <==> HopOk(c.hops[i])
    {
      HopMeansOk(c.hops[i]);
    }
  }

  lemma DistinctParts(a: seq<string>, b: seq<string>)
    ensures Distinct(a + b) <==> Distinct(a) && Distinct(b) && forall f :: f in a ==> f !in b
  {
    var ab := a + b;
    if Distinct(ab) {
      assert forall i :: 0 <= i < |a| ==> ab[i] == a[i];
      assert forall i :: 0 <= i < |b| ==> ab[|a| + i] == b[i];
    }
    if Distinct(a) && Distinct(b) && forall f :: f in a ==> f !in b {
      forall i, j | 0 <= i < j < |ab|
        ensures ab[i] != ab[j]
      {
        if i < |a| {
          assert ab[i] in a;
          assert j >= |a| ==> ab[j] in b;
        } else {
          assert b[i - |a|] != b[j - |a|];
        }
      }
    }
  }

  lemma FoldersMean(db: Database)
    ensures ValidFolders(db) <==> FoldersOk(db.folders, db.jumpFolders)
  {
    LabelsMean(db.folders + db.jumpFolders);
    DistinctParts(db.folders, db.jumpFolders);
  }

  lemma HostEntryMeans(db: Database, a: string)
    requires a in db.hosts
    ensures HostFits(db, a) && NoLoop(db, a) <==> db.hosts[a].alias == a && HostOk(db.hosts[a]) && RouteOk(db, a)
  {
    HostMeansOk(db.hosts[a]);
  }

  lemma ChainEntryMeans(db: Database, n: string)
    requires n in db.chains
    ensures ChainFits(db, n) <==> db.chains[n].name == n && ChainOk(db.chains[n]) && StopsOk(db, n)
  {
    ChainMeansOk(db.chains[n]);
  }

  /** A library is valid exactly if it is sound in every record and in all their references. */
  lemma ValidityExactly(db: Database)
    ensures ValidDatabase(db) <==> Sound(db)
  {
    FoldersMean(db);
    forall a | a in db.hosts
      ensures HostFits(db, a) && NoLoop(db, a) <==> db.hosts[a].alias == a && HostOk(db.hosts[a]) && RouteOk(db, a)
    {
      HostEntryMeans(db, a);
    }
    forall n | n in db.chains
      ensures ChainFits(db, n) <==> db.chains[n].name == n && ChainOk(db.chains[n]) && StopsOk(db, n)
    {
      ChainEntryMeans(db, n);
    }
  }
}
