/** The tables of the host library file and the records they describe: codec.rs. */
module HostTables {
  import opened Wrappers
  import opened HostLines

  type Values = map<Key, Value>

  datatype Table = Table(kind: Kind, values: Values)

  datatype Document = Document(root: Values, tables: seq<Table>)

  const NOTHING := Document(map[], [])

  // ---------- Lines into tables ----------

  function AddEntry(doc: Document, e: Entry): Result<Document> {
    match e
    case Blank => Ok(doc)
    case Header(kind) => Ok(doc.(tables := doc.tables + [Table(kind, map[])]))
    case Assign(key, value) =>
      if doc.tables == [] then
        if key in doc.root then Err else Ok(doc.(root := doc.root[key := value]))
      else
        var n := |doc.tables| - 1;
        var t := doc.tables[n];
        if key in t.values then Err else Ok(doc.(tables := doc.tables[..n] + [t.(values := t.values[key := value])]))
  }

  function Gather(doc: Document, entries: seq<Entry>): Result<Document>
    decreases |entries|
  {
    if entries == [] then Ok(doc)
    else
      var next :- AddEntry(doc, entries[0]);
      Gather(next, entries[1..])
  }

  function Then(r: Result<Document>, entries: seq<Entry>): Result<Document> {
    if r.Ok? then Gather(r.value, entries) else Err
  }

  lemma {:induction false} GatherConcat(doc: Document, a: seq<Entry>, b: seq<Entry>)
    ensures Gather(doc, a + b) == Then(Gather(doc, a), b)
    decreases |a|
  {
    if a == [] {
      assert a + b == b;
    } else {
      assert (a + b)[0] == a[0] && (a + b)[1..] == a[1..] + b;
      var next := AddEntry(doc, a[0]);
      if next.Ok? {
        GatherConcat(next.value, a[1..], b);
      }
    }
  }

  // ---------- A table's lines from its fields ----------

  /** The assignments for the fields that are present, in the order of `keys`. */
  function Assignments(keys: seq<Key>, f: Key -> Option<Value>): seq<Entry> {
    if keys == [] then []
    else (if f(keys[0]).Some? then [Assign(keys[0], f(keys[0]).value)] else []) + Assignments(keys[1..], f)
  }

  function ValuesOf(keys: seq<Key>, f: Key -> Option<Value>): Values {
    map k | k in keys && f(k).Some? :: f(k).value
  }

  function WithLast(doc: Document, more: Values): Document
    requires doc.tables != []
  {
    var n := |doc.tables| - 1;
    doc.(tables := doc.tables[..n] + [doc.tables[n].(values := doc.tables[n].values + more)])
  }

  lemma KeysSplit(keys: seq<Key>)
    requires keys != [] && Distinct(keys)
    ensures Distinct(keys[1..]) && keys[0] !in keys[1..] && forall k :: k in keys <==> k == keys[0] || k in keys[1..]
  {
    assert keys == [keys[0]] + keys[1..];
  }

  lemma FieldsSplit(keys: seq<Key>, f: Key -> Option<Value>, before: Values)
    requires keys != [] && Distinct(keys) && (forall k <- keys :: k !in before)
    ensures Distinct(keys[1..])
    ensures var now := if f(keys[0]).Some? then before[keys[0] := f(keys[0]).value] else before;
            && (forall k <- keys[1..] :: k !in now)
            && before + ValuesOf(keys, f) == now + ValuesOf(keys[1..], f)
  {
    KeysSplit(keys);
  }

  /** Assigning a new key changes the last table only. */
  lemma AssignToLast(doc: Document, key: Key, value: Value, more: Values)
    requires doc.tables != [] && key !in doc.tables[|doc.tables| - 1].values
    ensures var next := AddEntry(doc, Assign(key, value));
            && next.Ok? && |next.value.tables| == |doc.tables|
            && next.value.tables[|doc.tables| - 1].values == doc.tables[|doc.tables| - 1].values[key := value]
            && WithLast(next.value, more) ==
               doc.(tables := doc.tables[..|doc.tables| - 1]
                    + [doc.tables[|doc.tables| - 1].(values := doc.tables[|doc.tables| - 1].values[key := value]
                        + more)])
  {
    var n := |doc.tables| - 1;
    assert AddEntry(doc, Assign(key, value)).value.tables[..n] == doc.tables[..n];
  }

  lemma {:induction false} GatherFields(doc: Document, keys: seq<Key>, f: Key -> Option<Value>)
    requires doc.tables != [] && Distinct(keys)
    requires forall k <- keys :: k !in doc.tables[|doc.tables| - 1].values
    ensures Gather(doc, Assignments(keys, f)) == Ok(WithLast(doc, ValuesOf(keys, f)))
    decreases |keys|
  {
    var n := |doc.tables| - 1;
    if keys == [] {
      assert doc.tables[n].values + ValuesOf(keys, f) == doc.tables[n].values;
      assert WithLast(doc, ValuesOf(keys, f)).tables == doc.tables;
    } else {
      FieldsSplit(keys, f, doc.tables[n].values);
      var v := f(keys[0]);
      if v.None? {
        assert Assignments(keys, f) == Assignments(keys[1..], f);
        GatherFields(doc, keys[1..], f);
      } else {
        AssignToLast(doc, keys[0], v.value, ValuesOf(keys[1..], f));
        assert Assignments(keys, f)[0] == Assign(keys[0], v.value)
            && Assignments(keys, f)[1..] == Assignments(keys[1..], f);
        GatherFields(AddEntry(doc, Assign(keys[0], v.value)).value, keys[1..], f);
      }
    }
  }

  lemma {:induction false} GatherRoot(root: Values, keys: seq<Key>, f: Key -> Option<Value>)
    requires Distinct(keys) && forall k <- keys :: k !in root
    ensures Gather(Document(root, []), Assignments(keys, f)) == Ok(Document(root + ValuesOf(keys, f), []))
    decreases |keys|
  {
    if keys == [] {
      assert root + ValuesOf(keys, f) == root;
    } else {
      FieldsSplit(keys, f, root);
      var v := f(keys[0]);
      if v.None? {
        assert Assignments(keys, f) == Assignments(keys[1..], f);
        GatherRoot(root, keys[1..], f);
      } else {
        assert Assignments(keys, f)[0] == Assign(keys[0], v.value)
            && Assignments(keys, f)[1..] == Assignments(keys[1..], f);
        GatherRoot(root[keys[0] := v.value], keys[1..], f);
      }
    }
  }

  function TableEntries(kind: Kind, keys: seq<Key>, f: Key -> Option<Value>): seq<Entry> {
    [Blank, Header(kind)] + Assignments(keys, f)
  }

  /** The lines of a table add exactly that table. */
  lemma GatherTable(doc: Document, kind: Kind, keys: seq<Key>, f: Key -> Option<Value>)
    requires Distinct(keys)
    ensures Gather(doc, TableEntries(kind, keys, f))
        == Ok(doc.(tables := doc.tables + [Table(kind, ValuesOf(keys, f))]))
  {
    var es := TableEntries(kind, keys, f);
    var started := doc.(tables := doc.tables + [Table(kind, map[])]);
    assert es[0] == Blank && es[1..][0] == Header(kind) && es[1..][1..] == Assignments(keys, f);
    assert Gather(doc, es) == Gather(started, Assignments(keys, f));
    GatherFields(started, keys, f);
    assert started.tables[..|doc.tables|] == doc.tables;
    assert map[] + ValuesOf(keys, f) == ValuesOf(keys, f);
  }
}
