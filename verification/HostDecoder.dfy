/** The table loop and the hop loop of `decode` in codec.rs. */
module HostDecoder {
  import opened Wrappers
  import opened Text
  import opened HostModel
  import opened HostLines
  import opened HostTables
  import opened HostItems
  import opened HostBuild
  import opened HostCodec
  import opened HostAccepted
  import opened HostOrder
  import opened HostReader

  /** The loop that compares each index with the one expected. */
  method AssembleLoop(hops: seq<Numbered>) returns (r: Result<seq<Hop>>)
    ensures r == Assemble(hops)
  {
    var t := SortByIndex(hops);
    var out: seq<Hop> := [];
    for i := 0 to |t|
      invariant |out| == i && forall k :: 0 <= k < i ==> t[k].0 == k && out[k] == t[k].1
    {
      if t[i].0 != i {
        return Err;
      }
      out := out + [t[i].1];
    }
    assert out == seq(|t|, i requires 0 <= i < |t| => t[i].1);
    r := Ok(out);
  }

  lemma ItemsConcat(a: seq<Table>, b: seq<Table>)
    ensures ItemsFrom(a + b) == Append(ItemsFrom(a), ItemsFrom(b))
  {
    ItemsAreCollected(a);
    ItemsAreCollected(b);
    ItemsAreCollected(a + b);
    CollectConcat(a, b, OneItem);
  }

  lemma ItemsOfOne(t: Table)
    ensures ItemsFrom([t]) == OneItem(t)
  {
    var x := FromTable(t);
    assert [t][1..] == [] && (x.Ok? ==> [x.value] + [] == [x.value]);
  }

  lemma ItemsExtend(tables: seq<Table>, i: nat)
    requires i < |tables|
    ensures ItemsFrom(tables[..i + 1]) == Append(ItemsFrom(tables[..i]), OneItem(tables[i]))
  {
    assert tables[..i + 1] == tables[..i] + [tables[i]];
    ItemsConcat(tables[..i], [tables[i]]);
    ItemsOfOne(tables[i]);
  }

  lemma ItemsGoOn(tables: seq<Table>, i: nat)
    requires i < |tables|
    ensures ItemsFrom(tables) == Append(ItemsFrom(tables[..i + 1]), ItemsFrom(tables[i + 1..]))
  {
    Halves(tables, i + 1);
    ItemsConcat(tables[..i + 1], tables[i + 1..]);
  }

  lemma DrawGoesOn(items: seq<Item>, x: Item)
    ensures Draw(items + [x]) == if Draw(items).Ok? then AddItem(Draw(items).value, x) else Err
  {
    assert (items + [x])[..|items|] == items;
  }

  lemma {:induction false} DrawFails(items: seq<Item>, more: seq<Item>)
    requires Draw(items).Err?
    ensures Draw(items + more).Err?
    decreases |more|
  {
    if more == [] {
      assert items + more == items;
    } else {
      DrawGoesOn(items, more[0]);
      DrawFails(items + [more[0]], more[1..]);
      assert (items + [more[0]]) + more[1..] == items + more;
    }
  }

  function Drawn(items: Result<seq<Item>>): Result<Draft> {
    if items.Ok? then Draw(items.value) else Err
  }

  lemma DrawnStops(tables: seq<Table>, i: nat)
    requires i < |tables| && Drawn(ItemsFrom(tables[..i + 1])).Err?
    ensures Drawn(ItemsFrom(tables)).Err?
  {
    ItemsGoOn(tables, i);
    if ItemsFrom(tables).Ok? {
      DrawFails(ItemsFrom(tables[..i + 1]).value, ItemsFrom(tables[i + 1..]).value);
    }
  }

  lemma DrawnGoesOn(tables: seq<Table>, i: nat, d: Draft)
    requires i < |tables| && Drawn(ItemsFrom(tables[..i])) == Ok(d)
    ensures Drawn(ItemsFrom(tables[..i + 1])) ==
            if FromTable(tables[i]).Ok? then AddItem(d, FromTable(tables[i]).value) else Err
  {
    ItemsExtend(tables, i);
    if FromTable(tables[i]).Ok? {
      DrawGoesOn(ItemsFrom(tables[..i]).value, FromTable(tables[i]).value);
    }
  }

  /** The table loop of `decode`. */
  method DrawLoop(tables: seq<Table>) returns (r: Result<Draft>)
    ensures r == Drawn(ItemsFrom(tables))
  {
    var hosts: map<string, Host> := map[];
    var names: set<string> := {};
    var hops: map<string, seq<Numbered>> := map[];
    for i := 0 to |tables|
      invariant Drawn(ItemsFrom(tables[..i])) == Ok(Draft(hosts, names, hops))
    {
      DrawnGoesOn(tables, i, Draft(hosts, names, hops));
      var item := ReadTable(tables[i]);
      if item.Err? {
        DrawnStops(tables, i);
        return Err;
      }
      match item.value {
        case HostItem(h) =>
          if h.alias in hosts {
            DrawnStops(tables, i);
            return Err;
          }
          hosts := hosts[h.alias := h];
        case ChainItem(name) =>
          if name in names {
            DrawnStops(tables, i);
            return Err;
          }
          names := names + {name};
        case HopItem(chain, index, hop) =>
          hops := hops[chain := (if chain in hops then hops[chain] else []) + [(index, hop)]];
      }
    }
    assert tables[..|tables|] == tables;
    r := Ok(Draft(hosts, names, hops));
  }

  /** The chains once the hops of all but `todo` have been put in place. */
  ghost predicate Placed(d: Draft, chains: map<string, Chain>, todo: set<string>) {
    && todo <= d.hops.Keys && chains.Keys == d.names
    && (forall c <- d.hops :: c !in todo ==> c in d.names && Assemble(HopsAt(d, c)).Ok?)
    && (forall c <- d.names ::
          chains[c] == Chain(c, if c in d.hops && c !in todo then Assemble(HopsAt(d, c)).value else []))
  }

  lemma AllPlaced(d: Draft, chains: map<string, Chain>)
    requires Placed(d, chains, {})
    ensures Complete(d) && chains == ChainsOf(d)
  {
    assert Assemble([]).Ok? && Assemble([]).value == [];
    assert forall c <- d.names :: c !in d.hops ==> HopsAt(d, c) == [];
  }

  /** The loop over the collected hops of each chain. */
  method PlaceLoop(d: Draft) returns (r: Result<map<string, Chain>>)
    ensures r == if Complete(d) then Ok(ChainsOf(d)) else Err
  {
    var chains := map c | c in d.names :: Chain(c, []);
    var todo := d.hops.Keys;
    while todo != {}
      invariant Placed(d, chains, todo)
      decreases |todo|
    {
      var c :| c in todo;
      if c !in chains {
        return Err;
      }
      var hops := AssembleLoop(d.hops[c]);
      if hops.Err? {
        return Err;
      }
      chains := chains[c := Chain(c, hops.value)];
      todo := todo - {c};
    }
    AllPlaced(d, chains);
    r := Ok(chains);
  }

  method FinishLoop(d: Draft, folders: seq<string>, jumpFolders: seq<string>) returns (r: Result<Database>)
    ensures r == if Complete(d) then Checked(Finished(d, folders, jumpFolders)) else Err
  {
    var chains :- PlaceLoop(d);
    var db := Database(folders, jumpFolders, DATABASE_VERSION, d.hosts, chains);
    var ok := CheckDatabase(db);
    r := if ok then Ok(db) else Err;
  }

  method DecodeFile(text: string) returns (r: Result<Database>)
    ensures r == Decode(text)
    ensures r.Ok? ==> Describes(text, r.value)
    ensures r.Err? ==> forall db :: !Describes(text, db)
  {
    DecodeDecides(text);
    if |Utf8(text)| > MAX_BYTES {
      return Err;
    }
    var doc :- ReadTables(Lines(text));
    var version :- GetInteger(doc.root, KVersion);
    var folders :- GetTexts(doc.root, KFolders);
    var jumpFolders :- GetTexts(doc.root, KJumpFolders);
    if version != Some(DATABASE_VERSION) || !Only(doc.root, ROOT_KEYS) {
      return Err;
    }
    var d :- DrawLoop(doc.tables);
    r := FinishLoop(d, folders, jumpFolders);
  }
}
