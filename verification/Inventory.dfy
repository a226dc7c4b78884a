/** Expanding nested inventory groups: inventory.rs. */
module Inventory {
  import opened Wrappers

  datatype Member = Host(name: string) | Group(name: string)

  type Groups = map<string, seq<Member>>

  const MAX_EXPANDED_GROUP_HOSTS := 1024

  // ---------- The naive flattening ----------

  /** All hosts below `name`, in order and with repetitions; fails on a missing group or on a cycle through `path`. */
  function Flatten(groups: Groups, name: string, path: set<string>): Result<seq<string>>
    decreases groups.Keys - path, 0
  {
    if name in path || name !in groups then Err
    else
      assert name in groups.Keys - path;
      FlattenMembers(groups, groups[name], path + {name})
  }

  function FlattenMembers(groups: Groups, members: seq<Member>, path: set<string>): Result<seq<string>>
    decreases groups.Keys - path, 1 + |members|
  {
    if members == [] then Ok([])
    else
      var first :- FlattenMember(groups, members, path);
      var rest :- FlattenMembers(groups, members[1..], path);
      Ok(first + rest)
  }

  function FlattenMember(groups: Groups, members: seq<Member>, path: set<string>): Result<seq<string>>
    requires members != []
    decreases groups.Keys - path, |members|
  {
    match members[0]
    case Host(h) => Ok([h])
    case Group(g) => Flatten(groups, g, path)
  }

  /** The first occurrences in `xs` of what is not in `seen`. */
  function Firsts(seen: set<string>, xs: seq<string>): seq<string>
    decreases |xs|
  {
    if xs == [] then []
    else if xs[0] in seen then Firsts(seen, xs[1..])
    else [xs[0]] + Firsts(seen + {xs[0]}, xs[1..])
  }

  function Elements(xs: seq<string>): set<string> {
    set x | x in xs
  }

  /** What `expand_group` is meant to return. */
  function Expansion(groups: Groups, name: string): Result<seq<string>> {
    var flat :- Flatten(groups, name, {});
    if |Firsts({}, flat)| > MAX_EXPANDED_GROUP_HOSTS then Err else Ok(Firsts({}, flat))
  }

  lemma {:induction false} FirstsConcat(seen: set<string>, a: seq<string>, b: seq<string>)
    ensures Firsts(seen, a + b) == Firsts(seen, a) + Firsts(seen + Elements(a), b)
    decreases |a|
  {
    if a == [] {
      assert a + b == b && seen + Elements(a) == seen;
    } else {
      assert (a + b)[1..] == a[1..] + b;
      assert Elements(a) == {a[0]} + Elements(a[1..]);
      if a[0] in seen {
        FirstsConcat(seen, a[1..], b);
        assert seen + Elements(a) == seen + Elements(a[1..]);
      } else {
        FirstsConcat(seen + {a[0]}, a[1..], b);
        assert seen + Elements(a) == seen + {a[0]} + Elements(a[1..]);
      }
    }
  }

  lemma ElementsSplit(xs: seq<string>)
    requires xs != []
    ensures Elements(xs) == {xs[0]} + Elements(xs[1..])
  {
  }

  lemma ElementsCons(x: string, xs: seq<string>)
    ensures Elements([x] + xs) == {x} + Elements(xs)
  {
  }

  lemma OneMore(all: set<string>, seen: set<string>, x: string)
    requires x !in seen
    ensures ({x} + all) - seen == {x} + (all - (seen + {x}))
    ensures |({x} + all) - seen| == 1 + |all - (seen + {x})|
  {
    assert ({x} + all) - seen == {x} + (all - (seen + {x}));
  }

  lemma {:induction false} FirstsAreDistinct(seen: set<string>, xs: seq<string>)
    ensures Elements(Firsts(seen, xs)) == Elements(xs) - seen
    ensures |Firsts(seen, xs)| == |Elements(xs) - seen|
    decreases |xs|
  {
    if xs != [] {
      ElementsSplit(xs);
      if xs[0] in seen {
        FirstsAreDistinct(seen, xs[1..]);
        assert Elements(xs) - seen == Elements(xs[1..]) - seen;
      } else {
        FirstsAreDistinct(seen + {xs[0]}, xs[1..]);
        OneMore(Elements(xs[1..]), seen, xs[0]);
        ElementsCons(xs[0], Firsts(seen + {xs[0]}, xs[1..]));
      }
    }
  }

  /** Where `x` stands first. */
  ghost predicate StandsFirst(xs: seq<string>, x: string, i: nat) {
    i < |xs| && xs[i] == x && x !in xs[..i]
  }

  lemma StandsFirstLater(xs: seq<string>, x: string, i: nat)
    requires xs != [] && StandsFirst(xs[1..], x, i) && xs[0] != x
    ensures StandsFirst(xs, x, i + 1)
  {
    assert xs[..i + 1] == [xs[0]] + xs[1..][..i];
  }

  lemma {:induction false} FirstsStand(seen: set<string>, xs: seq<string>, j: nat) returns (q: nat)
    requires j < |Firsts(seen, xs)|
    ensures Firsts(seen, xs)[j] !in seen && StandsFirst(xs, Firsts(seen, xs)[j], q)
    decreases |xs|
  {
    if xs[0] in seen {
      q := FirstsStand(seen, xs[1..], j);
      StandsFirstLater(xs, Firsts(seen, xs)[j], q);
      q := q + 1;
    } else if j == 0 {
      q := 0;
    } else {
      q := FirstsStand(seen + {xs[0]}, xs[1..], j - 1);
      StandsFirstLater(xs, Firsts(seen, xs)[j], q);
      q := q + 1;
    }
  }

  /** The first occurrences are listed in the order in which they stand. */
  lemma {:induction false} FirstsKeepOrder(seen: set<string>, xs: seq<string>, i: nat, j: nat)
    returns (p: nat, q: nat)
    requires i < j < |Firsts(seen, xs)|
    ensures p < q && StandsFirst(xs, Firsts(seen, xs)[i], p) && StandsFirst(xs, Firsts(seen, xs)[j], q)
    decreases |xs|
  {
    var fs := Firsts(seen, xs);
    if xs[0] !in seen && i == 0 {
      p := 0;
      q := FirstsStand(seen + {xs[0]}, xs[1..], j - 1);
    } else {
      var shift := if xs[0] in seen then 0 else 1;
      var more := if xs[0] in seen then seen else seen + {xs[0]};
      p, q := FirstsKeepOrder(more, xs[1..], i - shift, j - shift);
      var u := FirstsStand(more, xs[1..], i - shift);
      StandsFirstLater(xs, fs[i], p);
      p := p + 1;
    }
    var v := FirstsStand(if xs[0] in seen then seen else seen + {xs[0]}, xs[1..], if xs[0] in seen then j else j - 1);
    StandsFirstLater(xs, fs[j], q);
    q := q + 1;
  }

  // ---------- The walk of the source ----------

  /** `all` is `done` followed by what the remaining members give. */
  ghost predicate Continues(all: Result<seq<string>>, done: seq<string>, rest: Result<seq<string>>) {
    (all.Ok? <==> rest.Ok?) && (all.Ok? ==> all.value == done + rest.value)
  }

  /** One more member: how the flattening and its first occurrences go on. */
  lemma Continue(groups: Groups, members: seq<Member>, i: nat, path: set<string>, seen: set<string>, done: seq<string>)
    requires i < |members|
    requires Continues(FlattenMembers(groups, members, path), done, FlattenMembers(groups, members[i..], path))
    ensures var part := FlattenMember(groups, members[i..], path);
            var all := FlattenMembers(groups, members, path);
            if part.Err? then all.Err?
            else
              && Continues(all, done + part.value, FlattenMembers(groups, members[i + 1..], path))
              && Firsts(seen, done + part.value) == Firsts(seen, done) + Firsts(seen + Elements(done), part.value)
              && Elements(done + part.value) == Elements(done) + Elements(part.value)
              && (all.Ok? ==> |Firsts(seen, done + part.value)| <= |Firsts(seen, all.value)|)
  {
    assert members[i..][1..] == members[i + 1..];
    var part := FlattenMember(groups, members[i..], path);
    var all := FlattenMembers(groups, members, path);
    if part.Ok? {
      FirstsConcat(seen, done, part.value);
      if all.Ok? {
        FirstsConcat(seen, done + part.value, FlattenMembers(groups, members[i + 1..], path).value);
      }
    }
  }

  /** The flattening fits on top of `size` hosts that were expanded before. */
  ghost predicate Fits(size: nat, seen: set<string>, flat: Result<seq<string>>) {
    flat.Ok? && size + |Firsts(seen, flat.value)| <= MAX_EXPANDED_GROUP_HOSTS
  }

  class Walk {
    const groups: Groups
    var visiting: seq<string>
    var seen: set<string>
    var expanded: seq<string>

    constructor (groups: Groups)
      ensures this.groups == groups && visiting == [] && seen == {} && expanded == []
    {
      this.groups := groups;
      visiting, seen, expanded := [], {}, [];
    }

    /** The limit has not been passed. */
    ghost predicate Valid()
      reads this
    {
      |expanded| <= MAX_EXPANDED_GROUP_HOSTS
    }

    /** `flat` has been appended, without repetitions. */
    twostate predicate Appended(flat: seq<string>)
      reads this
    {
      expanded == old(expanded) + Firsts(old(seen), flat) && seen == old(seen) + Elements(flat)
          && visiting == old(visiting)
    }

    /** A host is kept the first time it is met. */
    method Keep(host: string) returns (ok: bool)
      requires Valid()
      modifies this
      ensures ok <==> Fits(|old(expanded)|, old(seen), Ok([host]))
      ensures ok ==> Valid() && Appended([host])
    {
      assert Elements([host]) == {host} && [host][1..] == [];
      assert Firsts(seen, [host]) == if host in seen then [] else [host];
      if host !in seen {
        seen := seen + {host};
        expanded := expanded + [host];
        if |expanded| > MAX_EXPANDED_GROUP_HOSTS {
          return false;
        }
      } else {
        assert expanded + [] == expanded && seen + {host} == seen;
      }
      return true;
    }

    /** The member loop of `expand_group_inner`. */
    method ExpandMembers(members: seq<Member>) returns (ok: bool)
      requires Valid()
      modifies this
      ensures ok <==> Fits(|old(expanded)|, old(seen), FlattenMembers(groups, members, Elements(old(visiting))))
      ensures ok ==> Valid() && Appended(FlattenMembers(groups, members, Elements(old(visiting))).value)
      decreases groups.Keys - Elements(visiting), 1
    {
      ghost var path := Elements(visiting);
      ghost var done: seq<string> := [];
      assert expanded + [] == expanded;
      for i := 0 to |members|
        invariant Valid() && Appended(done)
        invariant Continues(FlattenMembers(groups, members, path), done, FlattenMembers(groups, members[i..], path))
      {
        ghost var part := FlattenMember(groups, members[i..], path);
        Continue(groups, members, i, path, old(seen), done);
        var fine;
        match members[i] {
          case Host(host) => fine := Keep(host);
          case Group(g) => fine := Expand(g);
        }
        if !fine {
          return false;
        }
        done := done + part.value;
      }
      assert members[|members|..] == [] && done + [] == done;
      return true;
    }

    /** `expand_group_inner`. */
    method Expand(name: string) returns (ok: bool)
      requires Valid()
      modifies this
      ensures ok <==> Fits(|old(expanded)|, old(seen), Flatten(groups, name, Elements(old(visiting))))
      ensures ok ==> Valid() && Appended(Flatten(groups, name, Elements(old(visiting))).value)
      decreases groups.Keys - Elements(visiting), 0
    {
      if name in visiting || name !in groups {
        return false;
      }
      ghost var path := Elements(visiting);
      visiting := visiting + [name];
      assert Elements(visiting) == path + {name};
      assert name in groups.Keys - path;
      var fine := ExpandMembers(groups[name]);
      if !fine {
        return false;
      }
      visiting := visiting[..|visiting| - 1];
      return true;
    }
  }

  method ExpandGroup(groups: Groups, name: string) returns (r: Result<seq<string>>)
    ensures r == Expansion(groups, name)
  {
    if name !in groups {
      return Err;
    }
    var walk := new Walk(groups);
    assert Elements([]) == {};
    var ok := walk.Expand(name);
    if !ok {
      return Err;
    }
    var empty: seq<string> := [];
    assert empty + Firsts({}, Flatten(groups, name, {}).value) == Firsts({}, Flatten(groups, name, {}).value);
    return Ok(walk.expanded);
  }

  // ---------- When expansion succeeds ----------

  /** A chain of group references. */
  ghost predicate Path(groups: Groups, p: seq<string>) {
    p != [] && forall i :: 0 <= i < |p| - 1 ==> p[i] in groups && Group(p[i + 1]) in groups[p[i]]
  }

  /** The chain ends in a group that exists, repeats nothing and avoids `path`. */
  ghost predicate GoodChain(groups: Groups, p: seq<string>, path: set<string>)
    requires p != []
  {
    p[|p| - 1] in groups && Distinct(p) && forall i :: 0 <= i < |p| ==> p[i] !in path
  }

  /** Every chain of references from `name` is good. */
  ghost predicate Sound(groups: Groups, name: string, path: set<string>) {
    forall p :: Path(groups, p) && p[0] == name ==> GoodChain(groups, p, path)
  }

  lemma {:induction false} MembersOkEach(groups: Groups, members: seq<Member>, path: set<string>)
    ensures FlattenMembers(groups, members, path).Ok?
       <==> forall m :: m in members && m.Group? ==> Flatten(groups, m.name, path).Ok?
    decreases |members|
  {
    if members != [] {
      MembersOkEach(groups, members[1..], path);
      assert members == [members[0]] + members[1..];
    }
  }

  lemma {:induction false} OkMeansGoodChain(groups: Groups, name: string, path: set<string>, p: seq<string>)
    requires Flatten(groups, name, path).Ok? && Path(groups, p) && p[0] == name
    ensures GoodChain(groups, p, path)
    decreases |p|
  {
    if |p| > 1 {
      MembersOkEach(groups, groups[name], path + {name});
      var q := p[1..];
      assert Path(groups, q) by {
        forall i | 0 <= i < |q| - 1
          ensures q[i] in groups && Group(q[i + 1]) in groups[q[i]]
        {
          assert p[i + 1] in groups && Group(p[i + 1 + 1]) in groups[p[i + 1]];
        }
      }
      assert Group(p[0 + 1]) in groups[p[0]];
      OkMeansGoodChain(groups, p[1], path + {name}, q);
      assert forall i :: 1 <= i < |p| ==> p[i] == q[i - 1];
    }
  }

  lemma {:induction false} SoundMeansOk(groups: Groups, name: string, path: set<string>)
    requires Sound(groups, name, path)
    ensures Flatten(groups, name, path).Ok?
    decreases groups.Keys - path
  {
    assert Path(groups, [name]) && [name][0] == name;
    assert GoodChain(groups, [name], path);
    assert [name][0] !in path && name in groups.Keys - path;
    forall m | m in groups[name] && m.Group?
      ensures Flatten(groups, m.name, path + {name}).Ok?
    {
      forall q | Path(groups, q) && q[0] == m.name
        ensures GoodChain(groups, q, path + {name})
      {
        var p := [name] + q;
        assert Path(groups, p) && p[0] == name;
        assert GoodChain(groups, p, path);
        assert forall i :: 0 <= i < |q| ==> q[i] == p[i + 1];
      }
      SoundMeansOk(groups, m.name, path + {name});
    }
    MembersOkEach(groups, groups[name], path + {name});
  }

  /** Some chain from `name` leads to a group that lists `host`. */
  ghost predicate Reaches(groups: Groups, name: string, host: string) {
    exists p :: ReachesBy(groups, name, host, p)
  }

  ghost predicate ReachesBy(groups: Groups, name: string, host: string, p: seq<string>) {
    Path(groups, p) && p[0] == name && p[|p| - 1] in groups && Host(host) in groups[p[|p| - 1]]
  }

  lemma {:induction false} MembersContain(groups: Groups, members: seq<Member>, path: set<string>, host: string)
    requires FlattenMembers(groups, members, path).Ok?
    ensures host in FlattenMembers(groups, members, path).value
       <==> || Host(host) in members
            || exists m :: && m in members && m.Group? && Flatten(groups, m.name, path).Ok?
                           && host in Flatten(groups, m.name, path).value
    decreases |members|
  {
    if members != [] {
      MembersContain(groups, members[1..], path, host);
      assert members == [members[0]] + members[1..];
    }
  }

  lemma {:induction false} ListedIsReached(groups: Groups, name: string, path: set<string>, host: string)
    requires Flatten(groups, name, path).Ok? && host in Flatten(groups, name, path).value
    ensures Reaches(groups, name, host)
    decreases groups.Keys - path
  {
    assert name in groups.Keys - path;
    MembersContain(groups, groups[name], path + {name}, host);
    if Host(host) in groups[name] {
      assert ReachesBy(groups, name, host, [name]);
    } else {
      var m :| m in groups[name] && m.Group? && Flatten(groups, m.name, path + {name}).Ok?
          && host in Flatten(groups, m.name, path + {name}).value;
      ListedIsReached(groups, m.name, path + {name}, host);
      var q :| ReachesBy(groups, m.name, host, q);
      assert ReachesBy(groups, name, host, [name] + q);
    }
  }

  lemma {:induction false} ReachedIsListed(groups: Groups, name: string, path: set<string>, host: string,
      p: seq<string>)
    requires Flatten(groups, name, path).Ok? && ReachesBy(groups, name, host, p)
    ensures host in Flatten(groups, name, path).value
    decreases |p|
  {
    MembersContain(groups, groups[name], path + {name}, host);
    if |p| > 1 {
      MembersOkEach(groups, groups[name], path + {name});
      var q := p[1..];
      assert Group(p[0 + 1]) in groups[p[0]];
      assert ReachesBy(groups, p[1], host, q) by {
        forall i | 0 <= i < |q| - 1
          ensures q[i] in groups && Group(q[i + 1]) in groups[q[i]]
        {
          assert p[i + 1] in groups && Group(p[i + 1 + 1]) in groups[p[i + 1]];
        }
      }
      ReachedIsListed(groups, p[1], path + {name}, host, q);
    }
  }

  /** The hosts a group stands for. */
  ghost function ReachableHosts(groups: Groups, name: string): set<string> {
    set n, i | n in groups && 0 <= i < |groups[n]| && groups[n][i].Host? && Reaches(groups, name, groups[n][i].name)
      :: groups[n][i].name
  }

  lemma FlattenListsReachable(groups: Groups, name: string)
    requires Flatten(groups, name, {}).Ok?
    ensures Elements(Flatten(groups, name, {}).value) == ReachableHosts(groups, name)
  {
    var flat := Flatten(groups, name, {}).value;
    forall h
      ensures h in Elements(flat) <==> h in ReachableHosts(groups, name)
    {
      if h in flat {
        ListedIsReached(groups, name, {}, h);
        var p :| ReachesBy(groups, name, h, p);
        var n := p[|p| - 1];
        var i :| 0 <= i < |groups[n]| && groups[n][i] == Host(h);
        assert groups[n][i].name in ReachableHosts(groups, name);
      }
      if h in ReachableHosts(groups, name) {
        var p :| ReachesBy(groups, name, h, p);
        ReachedIsListed(groups, name, {}, h, p);
      }
    }
  }

  /**
   Expansion succeeds exactly when no chain of references from the group meets a missing group or a
   cycle and at most 1024 hosts are reachable; it then lists each reachable host once, in the order
   of the naive flattening.
   */
  lemma ExpansionSucceedsExactlyWhen(groups: Groups, name: string)
    ensures Expansion(groups, name).Ok?
       <==> Sound(groups, name, {}) && |ReachableHosts(groups, name)| <= 1024
    ensures Expansion(groups, name).Ok? ==>
              var hosts := Expansion(groups, name).value;
              Elements(hosts) == ReachableHosts(groups, name) && |hosts| == |ReachableHosts(groups, name)|
  {
    if Flatten(groups, name, {}).Ok? {
      var flat := Flatten(groups, name, {}).value;
      forall p | Path(groups, p) && p[0] == name
        ensures GoodChain(groups, p, {})
      {
        OkMeansGoodChain(groups, name, {}, p);
      }
      FlattenListsReachable(groups, name);
      FirstsAreDistinct({}, flat);
      assert Elements(flat) - {} == Elements(flat);
    } else if Sound(groups, name, {}) {
      SoundMeansOk(groups, name, {});
    }
  }
}
