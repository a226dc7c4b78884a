/** The tables of a host library file may stand in any order: codec.rs. */
module HostOrder {
  import opened Wrappers
  import opened Text
  import opened HostModel
  import opened HostLines
  import opened HostTables
  import opened HostItems
  import opened HostBuild
  import opened HostCodec

  // ---------- Collecting ----------

  function Append<T>(a: Result<seq<T>>, b: Result<seq<T>>): Result<seq<T>> {
    if a.Ok? && b.Ok? then Ok(a.value + b.value) else Err
  }

  /** The results for all elements one after the other, unless one fails. */
  function Collect<A, B>(s: seq<A>, f: A -> Result<seq<B>>): Result<seq<B>> {
    if s == [] then Ok([]) else Append(f(s[0]), Collect(s[1..], f))
  }

  lemma AppendAssoc<T>(a: Result<seq<T>>, b: Result<seq<T>>, c: Result<seq<T>>)
    ensures Append(Append(a, b), c) == Append(a, Append(b, c))
  {
    if a.Ok? && b.Ok? && c.Ok? {
      assert (a.value + b.value) + c.value == a.value + (b.value + c.value);
    }
  }

  lemma {:induction false} CollectConcat<A, B>(a: seq<A>, b: seq<A>, f: A -> Result<seq<B>>)
    ensures Collect(a + b, f) == Append(Collect(a, f), Collect(b, f))
  {
    if a == [] {
      assert a + b == b;
      if Collect(b, f).Ok? {
        assert [] + Collect(b, f).value == Collect(b, f).value;
      }
    } else {
      assert (a + b)[0] == a[0] && (a + b)[1..] == a[1..] + b;
      CollectConcat(a[1..], b, f);
      AppendAssoc(f(a[0]), Collect(a[1..], f), Collect(b, f));
    }
  }

  /** The same outcome up to order. */
  ghost predicate SameBag<T>(a: Result<seq<T>>, b: Result<seq<T>>) {
    (a.Ok? <==> b.Ok?) && (a.Ok? ==> multiset(a.value) == multiset(b.value))
  }

  lemma AppendSwaps<T>(a: Result<seq<T>>, b: Result<seq<T>>, c: Result<seq<T>>, d: Result<seq<T>>)
    requires SameBag(d, Append(a, c))
    ensures SameBag(Append(b, d), Append(a, Append(b, c)))
  {
  }

  lemma TakeOut<A>(b: seq<A>, k: nat)
    requires k < |b|
    ensures multiset(b) == multiset(b[..k] + b[k + 1..]) + multiset{b[k]}
    ensures b == b[..k] + ([b[k]] + b[k + 1..])
  {
    assert b == b[..k] + ([b[k]] + b[k + 1..]);
  }

  /** The first element of one arrangement stands somewhere in the other. */
  lemma Elsewhere<A>(a: seq<A>, b: seq<A>) returns (k: nat)
    requires a != [] && multiset(a) == multiset(b)
    ensures k < |b| && b[k] == a[0] && multiset(a[1..]) == multiset(b[..k] + b[k + 1..])
  {
    assert a[0] in multiset(b);
    k :| 0 <= k < |b| && b[k] == a[0];
    TakeOut(b, k);
    TakeOut(a, 0);
    assert a[..0] + a[1..] == a[1..];
    Cancel(multiset(a[1..]), multiset(b[..k] + b[k + 1..]), a[0]);
  }

  lemma CollectMiddle<A, B>(b: seq<A>, k: nat, f: A -> Result<seq<B>>)
    requires k < |b|
    ensures Collect(b, f) == Append(Collect(b[..k], f), Append(f(b[k]), Collect(b[k + 1..], f)))
  {
    var tail := [b[k]] + b[k + 1..];
    TakeOut(b, k);
    CollectConcat(b[..k], tail, f);
    assert tail[0] == b[k] && tail[1..] == b[k + 1..];
  }

  lemma {:induction false} CollectPermutes<A, B>(a: seq<A>, b: seq<A>, f: A -> Result<seq<B>>)
    requires multiset(a) == multiset(b)
    ensures SameBag(Collect(a, f), Collect(b, f))
    decreases |a|
  {
    if a == [] {
      assert |b| == |multiset(b)| == |multiset(a)| == 0;
    } else {
      var k := Elsewhere(a, b);
      CollectPermutes(a[1..], b[..k] + b[k + 1..], f);
      CollectConcat(b[..k], b[k + 1..], f);
      CollectMiddle(b, k, f);
      AppendSwaps(Collect(b[..k], f), f(b[k]), Collect(b[k + 1..], f), Collect(a[1..], f));
    }
  }

  // ---------- Tables in any order ----------

  function OneItem(t: Table): Result<seq<Item>> {
    var x :- FromTable(t);
    Ok([x])
  }

  lemma {:induction false} ItemsAreCollected(tables: seq<Table>)
    ensures ItemsFrom(tables) == Collect(tables, OneItem)
  {
    if tables != [] {
      ItemsAreCollected(tables[1..]);
    }
  }

  /** The order of the tables of a document does not matter. */
  lemma TablesPermute(root: Values, a: seq<Table>, b: seq<Table>)
    requires multiset(a) == multiset(b)
    ensures Interpret(Document(root, a)) == Interpret(Document(root, b))
  {
    ItemsAreCollected(a);
    ItemsAreCollected(b);
    CollectPermutes(a, b, OneItem);
    var folders, jumpFolders := GetTexts(root, KFolders), GetTexts(root, KJumpFolders);
    if ItemsFrom(a).Ok? && folders.Ok? && jumpFolders.Ok? {
      OrderDoesNotMatter(folders.value, jumpFolders.value, ItemsFrom(a).value, ItemsFrom(b).value);
    }
  }

  // ---------- Blocks of text ----------

  function ParseText(text: string): Result<seq<Entry>> {
    ParseLines(Lines(text))
  }

  function TablesIn(block: string): Result<seq<Table>> {
    var entries :- ParseText(block);
    var doc :- Gather(NOTHING, entries);
    Ok(doc.tables)
  }

  /** Whole lines, the first of which is a table header. */
  predicate Block(text: string) {
    WholeLines(text) && text != [] && ParseLine(Lines(text)[0]).Ok? && ParseLine(Lines(text)[0]).value.Header?
  }

  predicate Blocks(texts: seq<string>) {
    forall t <- texts :: Block(t)
  }

  lemma {:induction false} ParseLinesConcat(a: seq<string>, b: seq<string>)
    ensures ParseLines(a + b) == Append(ParseLines(a), ParseLines(b))
  {
    if a == [] {
      assert a + b == b;
      if ParseLines(b).Ok? {
        assert [] + ParseLines(b).value == ParseLines(b).value;
      }
    } else {
      assert (a + b)[0] == a[0] && (a + b)[1..] == a[1..] + b;
      ParseLinesConcat(a[1..], b);
      if ParseLine(a[0]).Ok? {
        AppendAssoc(Ok([ParseLine(a[0]).value]), ParseLines(a[1..]), ParseLines(b));
      }
    }
  }

  lemma ParseTextConcat(a: string, b: string)
    requires WholeLines(a)
    ensures ParseText(a + b) == Append(ParseText(a), ParseText(b))
  {
    LinesConcat(a, b);
    ParseLinesConcat(Lines(a), Lines(b));
  }

  function Onto(doc: Document, r: Result<Document>): Result<Document> {
    if r.Ok? then Ok(AddTables(doc, r.value.tables)) else Err
  }

  lemma AddEntryOnto(doc: Document, late: Document, e: Entry)
    requires late.tables != []
    ensures AddEntry(AddTables(doc, late.tables), e) == Onto(doc, AddEntry(late, e))
    ensures AddEntry(late, e).Ok? ==> AddEntry(late, e).value.tables != []
  {
    var n := |late.tables| - 1;
    var all := doc.tables + late.tables;
    assert all[..|all| - 1] == doc.tables + late.tables[..n];
    if e.Header? {
      var t := Table(e.kind, map[]);
      assert all + [t] == doc.tables + (late.tables + [t]);
    } else if e.Assign? {
      var t := late.tables[n].(values := late.tables[n].values[e.key := e.value]);
      assert (doc.tables + late.tables[..n]) + [t] == doc.tables + (late.tables[..n] + [t]);
    }
  }

  lemma {:induction false} GatherOnto(doc: Document, late: Document, entries: seq<Entry>)
    requires late.tables != []
    ensures Gather(AddTables(doc, late.tables), entries) == Onto(doc, Gather(late, entries))
    decreases |entries|
  {
    if entries != [] {
      AddEntryOnto(doc, late, entries[0]);
      var next := AddEntry(late, entries[0]);
      if next.Ok? {
        GatherOnto(doc, next.value, entries[1..]);
      }
    }
  }

  /** Lines from a header on add the same tables to every document. */
  lemma GatherBlock(doc: Document, entries: seq<Entry>)
    requires entries != [] && entries[0].Header?
    ensures Gather(doc, entries) == Onto(doc, Gather(NOTHING, entries))
  {
    var late := AddEntry(NOTHING, entries[0]).value;
    assert late.tables == [Table(entries[0].kind, map[])];
    GatherOnto(doc, late, entries[1..]);
  }

  function GatherText(doc: Document, text: string): Result<Document> {
    var entries :- ParseText(text);
    Gather(doc, entries)
  }

  function ThenText(r: Result<Document>, text: string): Result<Document> {
    if r.Ok? then GatherText(r.value, text) else Err
  }

  lemma GatherTextConcat(doc: Document, a: string, b: string)
    requires WholeLines(a) && ParseText(b).Ok?
    ensures GatherText(doc, a + b) == ThenText(GatherText(doc, a), b)
  {
    ParseTextConcat(a, b);
    if ParseText(a).Ok? {
      GatherConcat(doc, ParseText(a).value, ParseText(b).value);
    }
  }

  /** A block adds the tables in it. */
  lemma BlockAddsTables(doc: Document, block: string)
    requires Block(block)
    ensures GatherText(doc, block) == if TablesIn(block).Ok? then Ok(AddTables(doc, TablesIn(block).value)) else Err
  {
    var lines := Lines(block);
    if ParseText(block).Ok? {
      var entries := ParseText(block).value;
      assert entries[0] == ParseLine(lines[0]).value;
      GatherBlock(doc, entries);
    }
  }

  function Extended(doc: Document, tables: Result<seq<Table>>): Result<Document> {
    if tables.Ok? then Ok(AddTables(doc, tables.value)) else Err
  }

  lemma ExtendTwice(doc: Document, a: seq<Table>, b: Result<seq<Table>>)
    ensures Extended(AddTables(doc, a), b) == Extended(doc, Append(Ok(a), b))
  {
    if b.Ok? {
      assert (doc.tables + a) + b.value == doc.tables + (a + b.value);
    }
  }

  lemma {:induction false} BlocksAddTables(doc: Document, blocks: seq<string>)
    requires Blocks(blocks)
    ensures GatherText(doc, Joined(blocks)) == Extended(doc, Collect(blocks, TablesIn))
    decreases |blocks|
  {
    if blocks == [] {
      assert doc.tables + [] == doc.tables;
    } else {
      var first, rest := blocks[0], blocks[1..];
      BlockAddsTables(doc, first);
      ParseTextConcat(first, Joined(rest));
      if TablesIn(first).Ok? {
        var next := AddTables(doc, TablesIn(first).value);
        BlocksAddTables(next, rest);
        ExtendTwice(doc, TablesIn(first).value, Collect(rest, TablesIn));
        if ParseText(Joined(rest)).Ok? {
          GatherTextConcat(doc, first, Joined(rest));
        }
      } else if ParseText(Joined(rest)).Ok? {
        GatherTextConcat(doc, first, Joined(rest));
      }
    }
  }

  function BytesOf(text: string): Result<seq<byte>> {
    Ok(Utf8(text))
  }

  lemma {:induction false} JoinedBytes(texts: seq<string>)
    ensures Collect(texts, BytesOf) == Ok(Utf8(Joined(texts)))
  {
    if texts != [] {
      JoinedBytes(texts[1..]);
      Utf8Concat(texts[0], Joined(texts[1..]));
    }
  }

  lemma SameSize(a: seq<string>, b: seq<string>)
    requires multiset(a) == multiset(b)
    ensures |Utf8(Joined(a))| == |Utf8(Joined(b))|
  {
    JoinedBytes(a);
    JoinedBytes(b);
    CollectPermutes(a, b, BytesOf);
    assert |multiset(Utf8(Joined(a)))| == |multiset(Utf8(Joined(b)))|;
  }

  function FromText(doc: Document, text: string): Result<Database> {
    var d :- GatherText(doc, text);
    Interpret(d)
  }

  lemma BlocksPermute(doc: Document, a: seq<string>, b: seq<string>)
    requires Blocks(a) && Blocks(b) && multiset(a) == multiset(b)
    ensures FromText(doc, Joined(a)) == FromText(doc, Joined(b))
  {
    BlocksAddTables(doc, a);
    BlocksAddTables(doc, b);
    CollectPermutes(a, b, TablesIn);
    if Collect(a, TablesIn).Ok? {
      var ta, tb := Collect(a, TablesIn).value, Collect(b, TablesIn).value;
      TablesPermute(doc.root, doc.tables + ta, doc.tables + tb);
    }
  }

  lemma DecodeSplit(head: string, rest: string)
    requires WholeLines(head)
    ensures Decode(head + rest) ==
            if |Utf8(head)| + |Utf8(rest)| > MAX_BYTES then Err
            else
              var doc := GatherText(NOTHING, head);
              if doc.Ok? && ParseText(rest).Ok? then FromText(doc.value, rest) else Err
  {
    Utf8Concat(head, rest);
    ParseTextConcat(head, rest);
    if ParseText(rest).Ok? {
      GatherTextConcat(NOTHING, head, rest);
    }
  }

  /**
   * Permuting the tables of a file, hop tables among them, changes nothing: the text is accepted in
   * one order exactly when it is in the other, with the same database.
   */
  lemma TablesInAnyOrder(head: string, a: seq<string>, b: seq<string>)
    requires WholeLines(head) && Blocks(a) && multiset(a) == multiset(b)
    ensures Decode(head + Joined(a)) == Decode(head + Joined(b))
  {
    forall t | t in b ensures Block(t) {
      assert t in multiset(b);
      assert t in multiset(a);
    }
    DecodeSplit(head, Joined(a));
    DecodeSplit(head, Joined(b));
    SameSize(a, b);
    var doc := GatherText(NOTHING, head);
    if doc.Ok? {
      BlocksPermute(doc.value, a, b);
    }
  }
}
