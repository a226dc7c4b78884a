/** Which table a line of the host library file belongs to, told by counting headers. */
module HostSections {
  import opened Wrappers
  import opened HostLines
  import opened HostTables

  /** How many table headers there are. */
  ghost function Headers(entries: seq<Entry>): nat {
    if entries == [] then 0
    else Headers(entries[..|entries| - 1]) + (if entries[|entries| - 1].Header? then 1 else 0)
  }

  /** How many headers stand before line `i`. */
  ghost function Section(entries: seq<Entry>, i: nat): nat
    requires i <= |entries|
  {
    Headers(entries[..i])
  }

  /** Line `i` assigns the value to the key, after exactly `section` headers. */
  ghost predicate GivenAt(entries: seq<Entry>, i: nat, section: nat, k: Key, v: Value) {
    i < |entries| && entries[i] == Assign(k, v) && Section(entries, i) == section
  }

  ghost predicate Given(entries: seq<Entry>, section: nat, k: Key, v: Value) {
    exists i: nat :: GivenAt(entries, i, section, k, v)
  }

  ghost predicate Assigned(entries: seq<Entry>, section: nat, k: Key) {
    exists v :: Given(entries, section, k, v)
  }

  /** Lines `i` and `j` assign to the same key between the same headers. */
  ghost predicate Clash(entries: seq<Entry>, i: nat, j: nat)
    requires i < j < |entries|
  {
    && entries[i].Assign? && entries[j].Assign? && entries[i].key == entries[j].key
    && Section(entries, i) == Section(entries, j)
  }

  /** No key is assigned twice between the same headers. */
  ghost predicate NoKeyTwice(entries: seq<Entry>) {
    forall i, j :: 0 <= i < j < |entries| ==> !Clash(entries, i, j)
  }

  ghost predicate ValuesSay(values: Values, entries: seq<Entry>, section: nat) {
    forall k, v :: (k in values && values[k] == v) <==> Given(entries, section, k, v)
  }

  /** The kinds of the headers, one after the other. */
  ghost function Kinds(entries: seq<Entry>): seq<Kind> {
    if entries == [] then []
    else
      var last := entries[|entries| - 1];
      Kinds(entries[..|entries| - 1]) + (if last.Header? then [last.kind] else [])
  }

  /** One table per header; what stands before the first header belongs to the root. */
  ghost predicate DocumentSays(doc: Document, entries: seq<Entry>) {
    && |doc.tables| == |Kinds(entries)| && ValuesSay(doc.root, entries, 0)
    && forall j :: 0 <= j < |doc.tables| ==>
         doc.tables[j].kind == Kinds(entries)[j] && ValuesSay(doc.tables[j].values, entries, j + 1)
  }

  lemma {:induction false} HeadersAreKinds(entries: seq<Entry>)
    ensures Headers(entries) == |Kinds(entries)|
  {
    if entries != [] {
      HeadersAreKinds(entries[..|entries| - 1]);
    }
  }

  lemma Prefixes(entries: seq<Entry>, e: Entry)
    ensures (entries + [e])[..|entries|] == entries
    ensures Section(entries + [e], |entries|) == Headers(entries)
    ensures forall i :: 0 <= i < |entries| ==> Section(entries + [e], i) == Section(entries, i)
  {
    assert forall i :: 0 <= i <= |entries| ==> (entries + [e])[..i] == entries[..i];
    assert entries[..|entries|] == entries;
  }

  lemma GivenAtGrows(entries: seq<Entry>, e: Entry, i: nat, section: nat, k: Key, v: Value)
    ensures GivenAt(entries + [e], i, section, k, v) <==>
              || GivenAt(entries, i, section, k, v)
              || (i == |entries| && e == Assign(k, v) && section == Headers(entries))
  {
    Prefixes(entries, e);
    assert i < |entries| ==> (entries + [e])[i] == entries[i];
  }

  lemma GivenGrows(entries: seq<Entry>, e: Entry, section: nat, k: Key, v: Value)
    ensures Given(entries + [e], section, k, v) <==>
              Given(entries, section, k, v) || (e == Assign(k, v) && section == Headers(entries))
  {
    if i: nat :| GivenAt(entries, i, section, k, v) {
      GivenAtGrows(entries, e, i, section, k, v);
    }
    if i: nat :| GivenAt(entries + [e], i, section, k, v) {
      GivenAtGrows(entries, e, i, section, k, v);
    }
    GivenAtGrows(entries, e, |entries|, section, k, v);
  }

  lemma ClashStays(entries: seq<Entry>, e: Entry, i: nat, j: nat)
    requires i < j < |entries|
    ensures Clash(entries + [e], i, j) <==> Clash(entries, i, j)
  {
    Prefixes(entries, e);
  }

  lemma ClashWithLast(entries: seq<Entry>, e: Entry, i: nat)
    requires i < |entries|
    ensures Clash(entries + [e], i, |entries|) <==>
              e.Assign? && entries[i].Assign? && entries[i].key == e.key && Section(entries, i) == Headers(entries)
  {
    Prefixes(entries, e);
  }

  lemma ClashGrows(entries: seq<Entry>, e: Entry)
    requires e.Assign?
    ensures (exists i :: 0 <= i < |entries| && Clash(entries + [e], i, |entries|)) <==>
              Assigned(entries, Headers(entries), e.key)
  {
    var all, n := entries + [e], |entries|;
    if i :| 0 <= i < n && Clash(all, i, n) {
      ClashWithLast(entries, e, i);
      assert GivenAt(entries, i, Headers(entries), e.key, entries[i].value);
      assert Given(entries, Headers(entries), e.key, entries[i].value);
    }
    if Assigned(entries, Headers(entries), e.key) {
      var v :| Given(entries, Headers(entries), e.key, v);
      var i: nat :| GivenAt(entries, i, Headers(entries), e.key, v);
      ClashWithLast(entries, e, i);
      assert Clash(all, i, n);
    }
  }

  lemma TwiceGrows(entries: seq<Entry>, e: Entry)
    ensures NoKeyTwice(entries + [e]) <==>
              NoKeyTwice(entries) && (e.Assign? ==> !Assigned(entries, Headers(entries), e.key))
  {
    var all, n := entries + [e], |entries|;
    forall i, j | 0 <= i < j < n
      ensures Clash(all, i, j) <==> Clash(entries, i, j)
    {
      ClashStays(entries, e, i, j);
    }
    assert NoKeyTwice(all) <==> NoKeyTwice(entries) && forall i :: 0 <= i < n ==> !Clash(all, i, n);
    if e.Assign? {
      ClashGrows(entries, e);
    } else {
      assert !all[n].Assign?;
    }
  }

  /** A section that the entry does not assign to keeps its values. */
  lemma ValuesStay(values: Values, entries: seq<Entry>, e: Entry, section: nat)
    requires ValuesSay(values, entries, section) && (e.Assign? ==> section != Headers(entries))
    ensures ValuesSay(values, entries + [e], section)
  {
    forall k, v
      ensures (k in values && values[k] == v) <==> Given(entries + [e], section, k, v)
    {
      GivenGrows(entries, e, section, k, v);
    }
  }

  /** The open section takes the assignment if its key is new. */
  lemma ValuesGrow(values: Values, entries: seq<Entry>, e: Entry)
    requires ValuesSay(values, entries, Headers(entries)) && e.Assign?
    ensures e.key in values <==> Assigned(entries, Headers(entries), e.key)
    ensures e.key !in values ==> ValuesSay(values[e.key := e.value], entries + [e], Headers(entries))
  {
    if e.key in values {
      assert Given(entries, Headers(entries), e.key, values[e.key]);
    } else {
      var more := values[e.key := e.value];
      forall k, v
        ensures (k in more && more[k] == v) <==> Given(entries + [e], Headers(entries), k, v)
      {
        GivenGrows(entries, e, Headers(entries), k, v);
      }
    }
  }

  /** Nothing is assigned after more headers than there are. */
  lemma {:induction false} NothingBeyond(entries: seq<Entry>, section: nat)
    requires section > Headers(entries)
    ensures ValuesSay(map[], entries, section)
  {
    if entries != [] {
      var n := |entries| - 1;
      assert entries == entries[..n] + [entries[n]];
      NothingBeyond(entries[..n], section);
      ValuesStay(map[], entries[..n], entries[n], section);
    }
  }

  lemma KindsGrow(entries: seq<Entry>, e: Entry)
    ensures Kinds(entries + [e]) == Kinds(entries) + (if e.Header? then [e.kind] else [])
    ensures Headers(entries + [e]) == Headers(entries) + (if e.Header? then 1 else 0)
  {
    Prefixes(entries, e);
  }

  lemma HeaderStep(doc: Document, entries: seq<Entry>, e: Entry)
    requires DocumentSays(doc, entries) && !e.Assign?
    ensures AddEntry(doc, e).Ok? && DocumentSays(AddEntry(doc, e).value, entries + [e])
  {
    var next := AddEntry(doc, e).value;
    KindsGrow(entries, e);
    HeadersAreKinds(entries);
    HeadersAreKinds(entries + [e]);
    ValuesStay(doc.root, entries, e, 0);
    forall j | 0 <= j < |next.tables|
      ensures next.tables[j].kind == Kinds(entries + [e])[j] && ValuesSay(next.tables[j].values, entries + [e], j + 1)
    {
      if j < |doc.tables| {
        ValuesStay(doc.tables[j].values, entries, e, j + 1);
      } else {
        NothingBeyond(entries, j + 1);
        ValuesStay(map[], entries, e, j + 1);
      }
    }
  }

  lemma AssignStep(doc: Document, entries: seq<Entry>, e: Entry)
    requires DocumentSays(doc, entries) && e.Assign?
    ensures AddEntry(doc, e).Ok? <==> !Assigned(entries, Headers(entries), e.key)
    ensures AddEntry(doc, e).Ok? ==> DocumentSays(AddEntry(doc, e).value, entries + [e])
  {
    KindsGrow(entries, e);
    HeadersAreKinds(entries);
    var n := |doc.tables|;
    ValuesGrow(if n == 0 then doc.root else doc.tables[n - 1].values, entries, e);
    if AddEntry(doc, e).Ok? {
      var next := AddEntry(doc, e).value;
      if n > 0 {
        ValuesStay(doc.root, entries, e, 0);
      }
      forall j | 0 <= j < |next.tables|
        ensures next.tables[j].kind == Kinds(entries + [e])[j] && ValuesSay(next.tables[j].values, entries + [e], j + 1)
      {
        if j < n - 1 {
          assert next.tables[j] == doc.tables[j];
          ValuesStay(doc.tables[j].values, entries, e, j + 1);
        }
      }
    }
  }

  lemma {:induction false} GatherMeans(entries: seq<Entry>)
    ensures Gather(NOTHING, entries).Ok? <==> NoKeyTwice(entries)
    ensures Gather(NOTHING, entries).Ok? ==> DocumentSays(Gather(NOTHING, entries).value, entries)
  {
    if entries != [] {
      var n := |entries| - 1;
      var before, e := entries[..n], entries[n];
      assert entries == before + [e];
      GatherMeans(before);
      GatherConcat(NOTHING, before, [e]);
      TwiceGrows(before, e);
      var doc := Gather(NOTHING, before);
      if doc.Ok? {
        assert [e][1..] == [];
        assert Gather(doc.value, [e]) == AddEntry(doc.value, e);
        if e.Assign? {
          AssignStep(doc.value, before, e);
        } else {
          HeaderStep(doc.value, before, e);
        }
      }
    }
  }

  lemma SameValues(a: Values, b: Values, entries: seq<Entry>, section: nat)
    requires ValuesSay(a, entries, section) && ValuesSay(b, entries, section)
    ensures a == b
  {
    forall k
      ensures k in a <==> k in b
      ensures k in a ==> a[k] == b[k]
    {
      if k in a {
        assert Given(entries, section, k, a[k]);
      }
      if k in b {
        assert Given(entries, section, k, b[k]);
      }
    }
  }

  /** The lines are gathered into a document exactly if it holds what they say and no key is given twice. */
  lemma GatherExactly(entries: seq<Entry>, doc: Document)
    ensures Gather(NOTHING, entries) == Ok(doc) <==> NoKeyTwice(entries) && DocumentSays(doc, entries)
  {
    GatherMeans(entries);
    if NoKeyTwice(entries) && DocumentSays(doc, entries) {
      var got := Gather(NOTHING, entries).value;
      SameValues(got.root, doc.root, entries, 0);
      forall j | 0 <= j < |doc.tables|
        ensures got.tables[j] == doc.tables[j]
      {
        SameValues(got.tables[j].values, doc.tables[j].values, entries, j + 1);
      }
      assert got.tables == doc.tables;
    }
  }
}
