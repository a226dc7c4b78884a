/** Revocation and certificate-authority markers of known_hosts: host_trust.rs and handler.rs. */
module HostTrust {
  import opened Wrappers
  import opened Text
  import opened Wildcard

  /** An OpenSSH public key; the verifier accepts only some algorithms as authorities. */
  datatype Key = Key(text: string, verifiable: bool)

  datatype HostPatterns = Patterns(list: seq<string>) | Hashed(salt: string, hash: string)

  /** Foreign parsers and cryptography, held fixed. */
  datatype Foreign = Foreign(
    parsePatterns: string -> Result<HostPatterns>,
    parseKey: string -> Result<Key>,
    hashMatches: (string, HostPatterns) -> bool,
    certificateValid: (Certificate, set<Key>) -> bool)

  datatype Certificate = Certificate(isHost: bool, subject: Key, signer: Key, criticalOptions: nat,
      principals: seq<string>)

  datatype TrustPolicy = TrustPolicy(authorities: seq<Key>, revoked: seq<Key>)

  // ---------- Pattern lists ----------

  function Lower(s: string): string {
    seq(|s|, i requires 0 <= i < |s| => if 'A' <= s[i] <= 'Z' then s[i] + 32 as char else s[i])
  }

  /** An entry `clear_host_patterns_match` refuses. */
  predicate BadEntry(entry: string) {
    entry == "" || entry == "!"
  }

  predicate Negated(entry: string) {
    entry != [] && entry[0] == '!'
  }

  ghost predicate EntryMatches(entry: string, target: string) {
    Matches(Utf8(if Negated(entry) then entry[1..] else entry), Utf8(Lower(target)))
  }

  /** `clear_host_patterns_match`, entry by entry. */
  ghost function ListMatch(target: string, entries: seq<string>, positive: bool): Result<bool> {
    if entries == [] then Ok(positive)
    else if BadEntry(entries[0]) then Err
    else if EntryMatches(entries[0], target) then
      if Negated(entries[0]) then Ok(false) else ListMatch(target, entries[1..], true)
    else ListMatch(target, entries[1..], positive)
  }

  method ClearPatternsMatch(target: string, entries: seq<string>) returns (r: Result<bool>)
    ensures r == ListMatch(target, entries, false)
  {
    var positive := false;
    var lowered := Utf8(Lower(target));
    for i := 0 to |entries|
      invariant ListMatch(target, entries[i..], positive) == ListMatch(target, entries, false)
    {
      var entry := entries[i];
      assert entries[i..][0] == entry && entries[i..][1..] == entries[i + 1..];
      if entry == "" || entry == "!" {
        return Err;
      }
      var negated := entry[0] == '!';
      var matched := WildcardMatch(Utf8(if negated then entry[1..] else entry), lowered);
      if matched {
        if negated {
          return Ok(false);
        }
        positive := true;
      }
    }
    return Ok(positive);
  }

  /** Some entry of the given sign matches. */
  ghost predicate AnyMatch(target: string, entries: seq<string>, negated: bool) {
    exists e :: e in entries && Negated(e) == negated && EntryMatches(e, target)
  }

  lemma {:induction false} ListMatchMeans(target: string, entries: seq<string>, positive: bool)
    requires forall e :: e in entries ==> !BadEntry(e)
    ensures ListMatch(target, entries, positive)
         == Ok((positive || AnyMatch(target, entries, false)) && !AnyMatch(target, entries, true))
  {
    if entries != [] {
      assert entries == [entries[0]] + entries[1..];
      ListMatchMeans(target, entries[1..], positive);
      ListMatchMeans(target, entries[1..], true);
    }
  }

  /** A list without empty entries matches independently of the order of its entries. */
  lemma OrderDoesNotMatter(target: string, a: seq<string>, b: seq<string>)
    requires multiset(a) == multiset(b) && forall e :: e in a ==> !BadEntry(e)
    ensures ListMatch(target, a, false) == ListMatch(target, b, false)
  {
    forall e
      ensures e in a <==> e in b
    {
      assert e in a <==> e in multiset(a);
      assert e in b <==> e in multiset(b);
    }
    ListMatchMeans(target, a, false);
    ListMatchMeans(target, b, false);
  }

  /** Some well-formed negated entry matches, which ends the list at once. */
  ghost predicate Vetoed(target: string, entries: seq<string>) {
    exists e :: e in entries && !BadEntry(e) && Negated(e) && EntryMatches(e, target)
  }

  ghost predicate AnyBad(entries: seq<string>) {
    exists e :: e in entries && BadEntry(e)
  }

  /** Every arrangement of the entries gives the same verdict. */
  ghost predicate AnyOrderWorks(target: string, a: seq<string>) {
    forall b :: multiset(b) == multiset(a) ==> ListMatch(target, b, false) == ListMatch(target, a, false)
  }

  /** Without a veto, a bad entry is found wherever it stands. */
  lemma {:induction false} BadIsFound(target: string, entries: seq<string>, positive: bool)
    requires AnyBad(entries) && !Vetoed(target, entries)
    ensures ListMatch(target, entries, positive) == Err
  {
    assert entries == [entries[0]] + entries[1..];
    if !BadEntry(entries[0]) {
      assert AnyBad(entries[1..]) && !Vetoed(target, entries[1..]);
      BadIsFound(target, entries[1..], positive);
      BadIsFound(target, entries[1..], true);
    }
  }

  /** Any entry can be put first. */
  lemma ToTheFront(a: seq<string>, x: string) returns (b: seq<string>)
    requires x in a
    ensures b != [] && b[0] == x && multiset(b) == multiset(a)
  {
    var i :| 0 <= i < |a| && a[i] == x;
    b := [x] + (a[..i] + a[i + 1..]);
    assert a == a[..i] + ([x] + a[i + 1..]);
  }

  lemma SameEntries(target: string, a: seq<string>, b: seq<string>)
    requires multiset(a) == multiset(b)
    ensures (AnyBad(a) <==> AnyBad(b)) && (Vetoed(target, a) <==> Vetoed(target, b))
  {
    forall e
      ensures e in a <==> e in b
    {
      assert e in a <==> e in multiset(a);
      assert e in b <==> e in multiset(b);
    }
  }

  lemma OrdersDiffer(target: string, a: seq<string>)
    requires AnyBad(a) && Vetoed(target, a)
    ensures !AnyOrderWorks(target, a)
  {
    var x :| x in a && BadEntry(x);
    var y :| y in a && !BadEntry(y) && Negated(y) && EntryMatches(y, target);
    var first := ToTheFront(a, x);
    var second := ToTheFront(a, y);
    assert ListMatch(target, first, false) == Err;
    assert ListMatch(target, second, false) == Ok(false);
  }

  /**
   The order of a list does not matter for a host exactly when no entry is empty or no well-formed
   negated entry matches the host.
   */
  lemma OrderMattersExactlyWhen(target: string, a: seq<string>)
    ensures AnyOrderWorks(target, a) <==> !AnyBad(a) || !Vetoed(target, a)
  {
    if AnyBad(a) && Vetoed(target, a) {
      OrdersDiffer(target, a);
    } else {
      forall b | multiset(b) == multiset(a)
        ensures ListMatch(target, b, false) == ListMatch(target, a, false)
      {
        SameEntries(target, a, b);
        if AnyBad(a) {
          BadIsFound(target, a, false);
          BadIsFound(target, b, false);
        } else {
          OrderDoesNotMatter(target, a, b);
        }
      }
    }
  }

  /** For example, a matching negated entry may hide an empty one. */
  lemma OrderMattersWithEmptyEntry()
    ensures ListMatch("a", ["!a", ""], false) == Ok(false)
    ensures ListMatch("a", ["", "!a"], false) == Err
  {
    var a := Utf8("a");
    assert "!a"[1..] == "a" && Lower("a") == "a" && a == [97];
    assert a[1..] == [];
    assert Scan(a, a, 0, 0, NoStar) == Scan(a, a, 1, 1, NoStar);
    assert EntryMatches("!a", "a");
  }

  // ---------- Marker lines ----------

  datatype Mark = Nothing | Authority(key: Key) | Revoked(key: Key)

  function KnownHostsTarget(host: string, port: nat): string {
    if port == 22 then host else "[" + host + "]:" + Decimal(port)
  }

  ghost function PatternsMatch(f: Foreign, target: string, patterns: HostPatterns): Result<bool> {
    match patterns
    case Patterns(list) => ListMatch(target, list, false)
    case Hashed(_, _) => Ok(f.hashMatches(target, patterns))
  }

  /** One line of the file, for the host `target`. */
  ghost function MarkOf(f: Foreign, target: string, raw: string): Result<Mark> {
    var line := Trim(raw);
    if line == "" || line[0] != '@' then Ok(Nothing)
    else
      var fields := Fields(line);
      var marker := if fields == [] then "" else fields[0];
      if marker != "@cert-authority" && marker != "@revoked" then Err
      else if |fields| < 2 then Err
      else
        var patterns :- f.parsePatterns(fields[1]);
        if |fields| < 4 then Err
        else
          var applies :- PatternsMatch(f, target, patterns);
          if !applies then Ok(Nothing)
          else
            var key :- f.parseKey(fields[2] + " " + fields[3]);
            Ok(if marker == "@revoked" then Revoked(key) else Authority(key))
  }

  ghost function MarksOf(f: Foreign, target: string, lines: seq<string>): Result<seq<Mark>> {
    if lines == [] then Ok([])
    else
      var first :- MarkOf(f, target, lines[0]);
      var rest :- MarksOf(f, target, lines[1..]);
      Ok([first] + rest)
  }

  /** The keys of the revoking or of the authority marks, in file order. */
  function KeysOf(marks: seq<Mark>, revoking: bool): seq<Key> {
    if marks == [] then []
    else KeyOf(marks[0], revoking) + KeysOf(marks[1..], revoking)
  }

  function KeyOf(mark: Mark, revoking: bool): seq<Key> {
    if mark.Nothing? || mark.Revoked? != revoking then [] else [mark.key]
  }

  // ---------- Removing duplicates ----------

  /** The first occurrences among `keys` of what is not in `seen`, appended to `seen`. */
  function DedupOnto(seen: seq<Key>, keys: seq<Key>): seq<Key>
    decreases |keys|
  {
    if keys == [] then seen
    else DedupOnto(if keys[0] in seen then seen else seen + [keys[0]], keys[1..])
  }

  method DedupPublicKeys(keys: seq<Key>) returns (unique: seq<Key>)
    ensures unique == DedupOnto([], keys)
  {
    unique := [];
    for i := 0 to |keys|
      invariant DedupOnto(unique, keys[i..]) == DedupOnto([], keys)
    {
      assert keys[i..][0] == keys[i] && keys[i..][1..] == keys[i + 1..];
      if keys[i] !in unique {
        unique := unique + [keys[i]];
      }
    }
  }

  lemma {:induction false} DedupIsDistinct(seen: seq<Key>, keys: seq<Key>)
    requires Distinct(seen)
    ensures Distinct(DedupOnto(seen, keys))
    decreases |keys|
  {
    if keys != [] {
      DedupIsDistinct(if keys[0] in seen then seen else seen + [keys[0]], keys[1..]);
    }
  }

  lemma {:induction false} DedupKeeps(seen: seq<Key>, keys: seq<Key>, k: Key)
    ensures k in DedupOnto(seen, keys) <==> k in seen || k in keys
    decreases |keys|
  {
    if keys != [] {
      DedupKeeps(if keys[0] in seen then seen else seen + [keys[0]], keys[1..], k);
      assert keys == [keys[0]] + keys[1..];
    }
  }

  /** Deduplication keeps every key, invents none and leaves no key twice. */
  lemma DedupKeepsKeys(keys: seq<Key>)
    ensures var d := DedupOnto([], keys); Distinct(d) && forall k :: k in d <==> k in keys
  {
    DedupIsDistinct([], keys);
    forall k ensures k in DedupOnto([], keys) <==> k in keys {
      DedupKeeps([], keys, k);
    }
  }

  /** `HostTrustPolicy::parse`. */
  ghost function ParsePolicy(f: Foreign, host: string, port: nat, contents: string): Result<TrustPolicy> {
    var marks :- MarksOf(f, KnownHostsTarget(host, port), Lines(contents));
    Ok(TrustPolicy(DedupOnto([], KeysOf(marks, false)), DedupOnto([], KeysOf(marks, true))))
  }

  /** One line, imperatively: the checks in the order of the source. */
  method ReadMark(f: Foreign, target: string, raw: string) returns (r: Result<Mark>)
    ensures r == MarkOf(f, target, raw)
  {
    var line := Trim(raw);
    if line == "" || line[0] != '@' {
      return Ok(Nothing);
    }
    var fields := Fields(line);
    if fields == [] || (fields[0] != "@cert-authority" && fields[0] != "@revoked") || |fields| < 2 {
      return Err;
    }
    var patterns := f.parsePatterns(fields[1]);
    if patterns.Err? || |fields| < 4 {
      return Err;
    }
    var applies: Result<bool>;
    match patterns.value {
      case Patterns(list) => applies := ClearPatternsMatch(target, list);
      case Hashed(_, _) => applies := Ok(f.hashMatches(target, patterns.value));
    }
    if applies.Err? || !applies.value {
      return if applies.Err? then Err else Ok(Nothing);
    }
    var key := f.parseKey(fields[2] + " " + fields[3]);
    if key.Err? {
      return Err;
    }
    return Ok(if fields[0] == "@revoked" then Revoked(key.value) else Authority(key.value));
  }

  /** `all` is `seen` followed by what the remaining lines give. */
  ghost predicate Resumes(all: Result<seq<Mark>>, seen: seq<Mark>, rest: Result<seq<Mark>>) {
    (all.Ok? <==> rest.Ok?) && (all.Ok? ==> all.value == seen + rest.value)
  }

  lemma ResumesStep(f: Foreign, target: string, lines: seq<string>, i: nat, seen: seq<Mark>)
    requires i < |lines| && Resumes(MarksOf(f, target, lines), seen, MarksOf(f, target, lines[i..]))
    ensures var mark := MarkOf(f, target, lines[i]);
            if mark.Err? then MarksOf(f, target, lines).Err?
            else Resumes(MarksOf(f, target, lines), seen + [mark.value], MarksOf(f, target, lines[i + 1..]))
  {
    assert lines[i..][0] == lines[i] && lines[i..][1..] == lines[i + 1..];
  }

  lemma {:induction false} KeysConcat(a: seq<Mark>, b: seq<Mark>, revoking: bool)
    ensures KeysOf(a + b, revoking) == KeysOf(a, revoking) + KeysOf(b, revoking)
  {
    if a == [] {
      assert a + b == b;
    } else {
      assert (a + b)[1..] == a[1..] + b;
      KeysConcat(a[1..], b, revoking);
    }
  }

  lemma AppendKey(seen: seq<Mark>, mark: Mark)
    ensures KeysOf(seen + [mark], false) == KeysOf(seen, false) + KeyOf(mark, false)
    ensures KeysOf(seen + [mark], true) == KeysOf(seen, true) + KeyOf(mark, true)
  {
    KeysConcat(seen, [mark], false);
    KeysConcat(seen, [mark], true);
    assert [mark][1..] == [];
  }

  method Parse(f: Foreign, host: string, port: nat, contents: string) returns (r: Result<TrustPolicy>)
    ensures r == ParsePolicy(f, host, port, contents)
  {
    var target, lines := KnownHostsTarget(host, port), Lines(contents);
    var authorities: seq<Key>, revoked: seq<Key> := [], [];
    ghost var seen: seq<Mark> := [];
    for i := 0 to |lines|
      invariant authorities == KeysOf(seen, false) && revoked == KeysOf(seen, true)
      invariant Resumes(MarksOf(f, target, lines), seen, MarksOf(f, target, lines[i..]))
    {
      var mark := ReadMark(f, target, lines[i]);
      ResumesStep(f, target, lines, i, seen);
      if mark.Err? {
        return Err;
      }
      AppendKey(seen, mark.value);
      match mark.value {
        case Nothing =>
        case Authority(key) => authorities := authorities + [key];
        case Revoked(key) => revoked := revoked + [key];
      }
      seen := seen + [mark.value];
    }
    assert lines[|lines|..] == [];
    assert MarksOf(f, target, lines) == Ok(seen + []) && seen + [] == seen;
    authorities := DedupPublicKeys(authorities);
    revoked := DedupPublicKeys(revoked);
    return Ok(TrustPolicy(authorities, revoked));
  }

  // ---------- The decision ----------

  const MAX_KNOWN_HOSTS_BYTES := 8 * 1024 * 1024

  /** `load_path`: a missing file is an empty policy, an oversized one an error. */
  ghost function LoadPolicy(f: Foreign, host: string, port: nat, file: Option<string>): Result<TrustPolicy> {
    if file.None? then Ok(TrustPolicy([], []))
    else if |Utf8(file.value)| > MAX_KNOWN_HOSTS_BYTES then Err
    else ParsePolicy(f, host, port, file.value)
  }

  /** The authorities whose algorithm the verifier accepts; validation asks whether the signer is one of them. */
  function Verifiable(keys: seq<Key>): set<Key> {
    set k | k in keys && k.verifiable
  }

  ghost predicate PrincipalsAllow(host: string, principals: seq<string>) {
    principals == [] || exists p :: p in principals && Matches(Utf8(Lower(p)), Utf8(Lower(host)))
  }

  /** `verify_host_certificate`. */
  ghost predicate CertificateAccepted(f: Foreign, policy: TrustPolicy, host: string, c: Certificate) {
    && c.isHost
    && c.subject !in policy.revoked
    && c.signer !in policy.revoked
    && c.signer.verifiable
    && Verifiable(policy.authorities) != {}
    && f.certificateValid(c, Verifiable(policy.authorities))
    && c.criticalOptions == 0
    && PrincipalsAllow(host, c.principals)
  }

  datatype HostKeyPolicy = Strict | AcceptNew | Insecure

  datatype Presented = PlainKey(key: Key) | WithCertificate(certificate: Certificate)

  datatype Verdict = Known | Learned | Unverified | Rejected

  /** The ordinary-key lookup and learning, held fixed. */
  datatype Ordinary = Ordinary(known: Result<bool>, learned: bool)

  /** `check_server_key`: the order in which the checks run. */
  ghost function CheckServerKey(f: Foreign, mode: HostKeyPolicy, host: string, port: nat, file: Option<string>,
                                ordinary: Ordinary, presented: Presented): Verdict
  {
    match presented
    case WithCertificate(c) =>
      if mode.Insecure? then Rejected
      else
        var policy := LoadPolicy(f, host, port, file);
        if policy.Ok? && CertificateAccepted(f, policy.value, host, c) then Known else Rejected
    case PlainKey(k) =>
      var policy := LoadPolicy(f, host, port, file);
      if policy.Err? || k in policy.value.revoked then Rejected
      else if mode.Insecure? then Unverified
      else if ordinary.known.Err? then Rejected
      else if ordinary.known.value then Known
      else if mode.Strict? then Rejected
      else if ordinary.learned then Learned else Rejected
  }

  // ---------- What the text means ----------

  /** Every entry is well formed, some plain one matches and no negated one does. */
  ghost predicate ListAccepts(target: string, list: seq<string>) {
    && (forall e :: e in list ==> e != "" && e != "!")
    && (exists e :: e in list && e[0] != '!' && Matches(Utf8(e), Utf8(Lower(target))))
    && (forall e :: e in list && e[0] == '!' ==> !Matches(Utf8(e[1..]), Utf8(Lower(target))))
  }

  /** Before every malformed entry stands a negated one that matches. */
  ghost predicate ListReadable(target: string, list: seq<string>) {
    forall j :: 0 <= j < |list| && (list[j] == "" || list[j] == "!") ==> VetoedBefore(target, list, j)
  }

  ghost predicate VetoedBefore(target: string, list: seq<string>, j: nat)
    requires j <= |list|
  {
    exists i :: 0 <= i < j && |list[i]| > 1 && list[i][0] == '!' && Matches(Utf8(list[i][1..]), Utf8(Lower(target)))
  }

  /** The host field of a marker line applies to the target. */
  ghost predicate Applies(f: Foreign, target: string, hosts: string) {
    match f.parsePatterns(hosts)
    case Err => false
    case Ok(patterns) => if patterns.Patterns? then ListAccepts(target, patterns.list)
      else f.hashMatches(target, patterns)
  }

  /** The line puts the marker on `k`: marker, hosts, algorithm and key data are its first four fields. */
  ghost predicate Marks(f: Foreign, target: string, raw: string, marker: string, k: Key) {
    var fields := Fields(Trim(raw));
    && |fields| >= 4 && fields[0] == marker && Applies(f, target, fields[1])
    && f.parseKey(fields[2] + " " + fields[3]) == Ok(k)
  }

  /** A line without a marker, or a complete one with a marker that is known. */
  ghost predicate WellMarked(f: Foreign, target: string, raw: string) {
    var line := Trim(raw);
    || line == "" || line[0] != '@'
    || (var fields := Fields(line);
        && |fields| >= 4 && (fields[0] == "@revoked" || fields[0] == "@cert-authority")
        && f.parsePatterns(fields[1]).Ok?
        && (var patterns := f.parsePatterns(fields[1]).value;
            patterns.Patterns? ==> ListReadable(target, patterns.list))
        && (Applies(f, target, fields[1]) ==> f.parseKey(fields[2] + " " + fields[3]).Ok?))
  }

  lemma VetoMoves(target: string, list: seq<string>, j: nat)
    requires 0 < j <= |list|
    ensures VetoedBefore(target, list[1..], j - 1) ==> VetoedBefore(target, list, j)
    ensures VetoedBefore(target, list, j) ==>
              || (|list[0]| > 1 && list[0][0] == '!' && Matches(Utf8(list[0][1..]), Utf8(Lower(target))))
              || VetoedBefore(target, list[1..], j - 1)
  {
    if VetoedBefore(target, list[1..], j - 1) {
      var i :| 0 <= i < j - 1 && |list[1..][i]| > 1 && list[1..][i][0] == '!'
          && Matches(Utf8(list[1..][i][1..]), Utf8(Lower(target)));
      assert list[i + 1] == list[1..][i];
    }
    if VetoedBefore(target, list, j) {
      var i :| 0 <= i < j && |list[i]| > 1 && list[i][0] == '!' && Matches(Utf8(list[i][1..]), Utf8(Lower(target)));
      if i > 0 {
        assert list[1..][i - 1] == list[i];
      }
    }
  }

  lemma ReadableMoves(target: string, list: seq<string>)
    requires list != [] && !BadEntry(list[0]) && !(Negated(list[0]) && EntryMatches(list[0], target))
    ensures ListReadable(target, list) <==> ListReadable(target, list[1..])
  {
    forall j | 0 < j < |list|
      ensures list[j] == list[1..][j - 1]
      ensures VetoedBefore(target, list, j) <==> VetoedBefore(target, list[1..], j - 1)
    {
      VetoMoves(target, list, j);
    }
    if ListReadable(target, list) {
      forall j | 0 <= j < |list[1..]| && (list[1..][j] == "" || list[1..][j] == "!")
        ensures VetoedBefore(target, list[1..], j)
      {
        assert list[j + 1] == list[1..][j];
        assert VetoedBefore(target, list, j + 1);
      }
    }
  }

  lemma VetoedIsReadable(target: string, list: seq<string>)
    requires list != [] && !BadEntry(list[0]) && Negated(list[0]) && EntryMatches(list[0], target)
    ensures ListReadable(target, list)
  {
    forall j | 0 <= j < |list| && (list[j] == "" || list[j] == "!")
      ensures VetoedBefore(target, list, j)
    {
      assert |list[0]| > 1;
    }
  }

  lemma {:induction false} ListIsReadable(target: string, list: seq<string>, positive: bool)
    ensures ListMatch(target, list, positive).Ok? <==> ListReadable(target, list)
  {
    if list != [] {
      if BadEntry(list[0]) {
        assert !VetoedBefore(target, list, 0);
      } else if Negated(list[0]) && EntryMatches(list[0], target) {
        VetoedIsReadable(target, list);
      } else {
        ReadableMoves(target, list);
        ListIsReadable(target, list[1..], positive);
        ListIsReadable(target, list[1..], true);
      }
    }
  }

  lemma {:induction false} BadListIsRefused(target: string, list: seq<string>, positive: bool)
    requires AnyBad(list)
    ensures ListMatch(target, list, positive) != Ok(true)
  {
    assert list == [list[0]] + list[1..];
    if !BadEntry(list[0]) {
      assert AnyBad(list[1..]);
      BadListIsRefused(target, list[1..], positive);
      BadListIsRefused(target, list[1..], true);
    }
  }

  /** The verdict of a list of patterns, entry order included. */
  lemma ListVerdict(target: string, list: seq<string>)
    ensures ListMatch(target, list, false).Ok? <==> ListReadable(target, list)
    ensures ListMatch(target, list, false) == Ok(true) <==> ListAccepts(target, list)
  {
    ListIsReadable(target, list, false);
    if AnyBad(list) {
      BadListIsRefused(target, list, false);
    } else {
      ListMatchMeans(target, list, false);
    }
  }

  lemma AppliesMeans(f: Foreign, target: string, hosts: string)
    ensures f.parsePatterns(hosts).Err? ==> !Applies(f, target, hosts)
    ensures f.parsePatterns(hosts).Ok? ==>
              var patterns := f.parsePatterns(hosts).value;
              && (PatternsMatch(f, target, patterns).Ok? <==>
                    (patterns.Patterns? ==> ListReadable(target, patterns.list)))
              && (PatternsMatch(f, target, patterns) == Ok(true) <==> Applies(f, target, hosts))
  {
    if f.parsePatterns(hosts).Ok? && f.parsePatterns(hosts).value.Patterns? {
      ListVerdict(target, f.parsePatterns(hosts).value.list);
    }
  }

  /** Whether a line carries a marker shows in its first field. */
  lemma MarkerStarts(raw: string)
    ensures Trim(raw) == "" ==> Fields(Trim(raw)) == []
    ensures Trim(raw) != "" ==> Fields(Trim(raw)) != [] && Fields(Trim(raw))[0] != [] &&
                                Fields(Trim(raw))[0][0] == Trim(raw)[0]
  {
    var i, j := TrimIs(raw);
    if Trim(raw) != "" {
      FirstFieldStarts(Trim(raw), []);
      assert [] + Trim(raw) == Trim(raw);
    }
  }

  /** The marker of a line, read off its text. */
  lemma MarkMeans(f: Foreign, target: string, raw: string)
    ensures MarkOf(f, target, raw).Ok? <==> WellMarked(f, target, raw)
    ensures forall k :: MarkOf(f, target, raw) == Ok(Revoked(k)) <==> Marks(f, target, raw, "@revoked", k)
    ensures forall k :: MarkOf(f, target, raw) == Ok(Authority(k)) <==> Marks(f, target, raw, "@cert-authority", k)
  {
    MarkerStarts(raw);
    var fields := Fields(Trim(raw));
    assert "@revoked"[0] == '@' && "@cert-authority"[0] == '@' && "@revoked"[1] != "@cert-authority"[1];
    if |fields| >= 2 {
      AppliesMeans(f, target, fields[1]);
    }
  }

  // ---------- The policy of a whole file ----------

  /** There is no file, or it has at most 8 MiB and only lines that can be read. */
  ghost predicate Loads(f: Foreign, host: string, port: nat, file: Option<string>) {
    var target := if port == 22 then host else "[" + host + "]:" + Decimal(port);
    file.Some? ==>
      && |Utf8(file.value)| <= 8388608
      && forall raw :: raw in Lines(file.value) ==> WellMarked(f, target, raw)
  }

  /** Some line of the file puts the marker on `k` for this host. */
  ghost predicate Marked(f: Foreign, host: string, port: nat, file: Option<string>, marker: string, k: Key) {
    var target := if port == 22 then host else "[" + host + "]:" + Decimal(port);
    file.Some? && exists raw :: raw in Lines(file.value) && Marks(f, target, raw, marker, k)
  }

  lemma {:induction false} MarksAre(f: Foreign, target: string, lines: seq<string>)
    ensures MarksOf(f, target, lines).Ok? <==> forall raw :: raw in lines ==> MarkOf(f, target, raw).Ok?
    ensures MarksOf(f, target, lines).Ok? ==>
              var marks := MarksOf(f, target, lines).value;
              |marks| == |lines| && forall i :: 0 <= i < |lines| ==> MarkOf(f, target, lines[i]) == Ok(marks[i])
  {
    if lines != [] {
      assert lines == [lines[0]] + lines[1..];
      MarksAre(f, target, lines[1..]);
    }
  }

  lemma {:induction false} KeysAre(marks: seq<Mark>, revoking: bool, k: Key)
    ensures k in KeysOf(marks, revoking) <==> (if revoking then Revoked(k) else Authority(k)) in marks
  {
    if marks != [] {
      assert marks == [marks[0]] + marks[1..];
      KeysAre(marks[1..], revoking, k);
    }
  }

  lemma MarkedLine(f: Foreign, target: string, lines: seq<string>, mark: Mark)
    requires MarksOf(f, target, lines).Ok?
    ensures mark in MarksOf(f, target, lines).value <==>
              exists raw :: raw in lines && MarkOf(f, target, raw) == Ok(mark)
  {
    MarksAre(f, target, lines);
    var marks := MarksOf(f, target, lines).value;
    if mark in marks {
      var i :| 0 <= i < |marks| && marks[i] == mark;
      assert lines[i] in lines;
    }
    if raw :| raw in lines && MarkOf(f, target, raw) == Ok(mark) {
      var i :| 0 <= i < |lines| && lines[i] == raw;
      assert marks[i] in marks;
    }
  }

  lemma PolicyHolds(f: Foreign, host: string, port: nat, contents: string, k: Key)
    requires ParsePolicy(f, host, port, contents).Ok?
    ensures var policy := ParsePolicy(f, host, port, contents).value;
            && (k in policy.revoked <==> Marked(f, host, port, Some(contents), "@revoked", k))
            && (k in policy.authorities <==> Marked(f, host, port, Some(contents), "@cert-authority", k))
  {
    var target, lines := KnownHostsTarget(host, port), Lines(contents);
    var marks := MarksOf(f, target, lines).value;
    DedupKeepsKeys(KeysOf(marks, true));
    DedupKeepsKeys(KeysOf(marks, false));
    KeysAre(marks, true, k);
    KeysAre(marks, false, k);
    MarkedLine(f, target, lines, Revoked(k));
    MarkedLine(f, target, lines, Authority(k));
    forall raw ensures MarkOf(f, target, raw) == Ok(Revoked(k)) <==> Marks(f, target, raw, "@revoked", k)
               ensures MarkOf(f, target, raw) == Ok(Authority(k)) <==> Marks(f, target, raw, "@cert-authority", k)
    {
      MarkMeans(f, target, raw);
    }
  }

  /** Which files give a policy, and which keys it revokes or trusts, by the text alone. */
  lemma PolicyExactly(f: Foreign, host: string, port: nat, file: Option<string>)
    ensures LoadPolicy(f, host, port, file).Ok? <==> Loads(f, host, port, file)
    ensures LoadPolicy(f, host, port, file).Ok? ==>
              var policy := LoadPolicy(f, host, port, file).value;
              && (forall k :: k in policy.revoked <==> Marked(f, host, port, file, "@revoked", k))
              && (forall k :: k in policy.authorities <==> Marked(f, host, port, file, "@cert-authority", k))
  {
    if file.Some? {
      var target := KnownHostsTarget(host, port);
      MarksAre(f, target, Lines(file.value));
      forall raw ensures MarkOf(f, target, raw).Ok? <==> WellMarked(f, target, raw) {
        MarkMeans(f, target, raw);
      }
      if LoadPolicy(f, host, port, file).Ok? {
        forall k
          ensures var policy := LoadPolicy(f, host, port, file).value;
                  && (k in policy.revoked <==> Marked(f, host, port, file, "@revoked", k))
                  && (k in policy.authorities <==> Marked(f, host, port, file, "@cert-authority", k))
        {
          PolicyHolds(f, host, port, file.value, k);
        }
      }
    }
  }

  // ---------- The verdict ----------

  /** `keys` are the verifiable keys with a `@cert-authority` line for this host. */
  ghost predicate TrustedAuthorities(f: Foreign, host: string, port: nat, file: Option<string>, keys: set<Key>) {
    forall k :: k in keys <==> k.verifiable && Marked(f, host, port, file, "@cert-authority", k)
  }

  /** What makes a certificate acceptable, by the text of the file. */
  ghost predicate CertificateFits(f: Foreign, host: string, port: nat, file: Option<string>, c: Certificate) {
    && c.isHost && c.signer.verifiable && c.criticalOptions == 0
    && !Marked(f, host, port, file, "@revoked", c.subject)
    && !Marked(f, host, port, file, "@revoked", c.signer)
    && (c.principals != [] ==> exists p :: p in c.principals && Matches(Utf8(Lower(p)), Utf8(Lower(host))))
    && exists keys: set<Key> ::
         TrustedAuthorities(f, host, port, file, keys) && keys != {} && f.certificateValid(c, keys)
  }

  /** A plain key: the markers come first under every policy, only `AcceptNew` learns, only `Insecure` skips. */
  lemma VerdictOnKey(f: Foreign, mode: HostKeyPolicy, host: string, port: nat, file: Option<string>,
                     ordinary: Ordinary, k: Key)
    ensures var v := CheckServerKey(f, mode, host, port, file, ordinary, PlainKey(k));
            var clean := Loads(f, host, port, file) && !Marked(f, host, port, file, "@revoked", k);
            && (v == Unverified <==> clean && mode == Insecure)
            && (v == Known <==> clean && mode != Insecure && ordinary.known == Ok(true))
            && (v == Learned <==> clean && mode == AcceptNew && ordinary.known == Ok(false) && ordinary.learned)
  {
    PolicyExactly(f, host, port, file);
  }

  /** A certificate: known exactly if it fits, never under `Insecure`, never learned. */
  lemma VerdictOnCertificate(f: Foreign, mode: HostKeyPolicy, host: string, port: nat, file: Option<string>,
                             ordinary: Ordinary, c: Certificate)
    ensures CheckServerKey(f, mode, host, port, file, ordinary, WithCertificate(c)) ==
            if mode != Insecure && Loads(f, host, port, file) && CertificateFits(f, host, port, file, c) then Known
            else Rejected
  {
    PolicyExactly(f, host, port, file);
    if Loads(f, host, port, file) {
      var keys := Verifiable(LoadPolicy(f, host, port, file).value.authorities);
      assert TrustedAuthorities(f, host, port, file, keys);
      forall other | TrustedAuthorities(f, host, port, file, other)
        ensures other == keys
      {
      }
    }
  }

  /** The keys that must not be revoked for an acceptance. */
  function Subjects(presented: Presented): set<Key> {
    match presented
    case PlainKey(k) => {k}
    case WithCertificate(c) => {c.subject, c.signer}
  }

  lemma AcceptedIsClean(f: Foreign, mode: HostKeyPolicy, host: string, port: nat, file: Option<string>,
                        ordinary: Ordinary, presented: Presented)
    requires CheckServerKey(f, mode, host, port, file, ordinary, presented) != Rejected
    ensures Loads(f, host, port, file)
    ensures forall k :: k in Subjects(presented) ==> !Marked(f, host, port, file, "@revoked", k)
  {
    match presented
    case PlainKey(k) => VerdictOnKey(f, mode, host, port, file, ordinary, k);
    case WithCertificate(c) => VerdictOnCertificate(f, mode, host, port, file, ordinary, c);
  }

  /** Under every policy, even the insecure one, no accepted key is on a matching `@revoked` line. */
  lemma AcceptedIsNotRevoked(f: Foreign, mode: HostKeyPolicy, host: string, port: nat, contents: string,
                             ordinary: Ordinary, presented: Presented, i: nat, k: Key)
    requires CheckServerKey(f, mode, host, port, Some(contents), ordinary, presented) != Rejected
    requires k in Subjects(presented) && i < |Lines(contents)|
    ensures var target := if port == 22 then host else "[" + host + "]:" + Decimal(port);
            !Marks(f, target, Lines(contents)[i], "@revoked", k)
  {
    AcceptedIsClean(f, mode, host, port, Some(contents), ordinary, presented);
    assert Lines(contents)[i] in Lines(contents);
  }

  /** A line that can be read and names no authority for this host. */
  ghost predicate OnlyRevokes(f: Foreign, host: string, port: nat, line: string) {
    var target := if port == 22 then host else "[" + host + "]:" + Decimal(port);
    PlainLine(line) && WellMarked(f, target, line) && forall k :: !Marks(f, target, line, "@cert-authority", k)
  }

  /** The text with one more line between `head` and `rest`. */
  function WithLine(head: string, line: string, rest: string): string {
    head + (Unlines([line]) + rest)
  }

  lemma InsertedLines(head: string, line: string, rest: string)
    requires WholeLines(head) && PlainLine(line)
    ensures Lines(head + rest) == Lines(head) + Lines(rest)
    ensures Lines(WithLine(head, line, rest)) == Lines(head) + ([line] + Lines(rest))
  {
    var u := Unlines([line]);
    assert [line][1..] == [];
    assert u == line + ("\n" + Unlines([]));
    LinesConcat(head, rest);
    LinesConcat(head, u + rest);
    LinesConcat(u, rest);
    LinesOfUnlines([line]);
  }

  lemma InsertedSize(head: string, line: string, rest: string)
    ensures |Utf8(head + rest)| <= |Utf8(WithLine(head, line, rest))|
  {
    Utf8Concat(head, rest);
    Utf8Concat(head, Unlines([line]) + rest);
    Utf8Concat(Unlines([line]), rest);
  }

  lemma SameButOne(a: seq<string>, line: string, b: seq<string>)
    ensures forall raw :: raw in a + ([line] + b) <==> raw in a + b || raw == line
  {
  }

  /** What one more such line does to the meaning of the file. */
  lemma InsertedLine(f: Foreign, host: string, port: nat, head: string, line: string, rest: string)
    requires WholeLines(head) && OnlyRevokes(f, host, port, line)
    ensures var less, more := Some(head + rest), Some(WithLine(head, line, rest));
            && (Loads(f, host, port, more) ==> Loads(f, host, port, less))
            && (forall k :: Marked(f, host, port, less, "@revoked", k) ==> Marked(f, host, port, more, "@revoked", k))
            && (forall k ::
                  Marked(f, host, port, less, "@cert-authority", k) <==>
                    Marked(f, host, port, more, "@cert-authority", k))
  {
    InsertedLines(head, line, rest);
    InsertedSize(head, line, rest);
    SameButOne(Lines(head), line, Lines(rest));
  }

  lemma SameFit(f: Foreign, host: string, port: nat, less: Option<string>, more: Option<string>, c: Certificate)
    requires CertificateFits(f, host, port, more, c)
    requires forall k :: Marked(f, host, port, less, "@revoked", k) ==> Marked(f, host, port, more, "@revoked", k)
    requires forall k ::
               Marked(f, host, port, less, "@cert-authority", k) <==> Marked(f, host, port, more, "@cert-authority", k)
    ensures CertificateFits(f, host, port, less, c)
  {
    var keys: set<Key> :|
      TrustedAuthorities(f, host, port, more, keys) && keys != {} && f.certificateValid(c, keys);
    assert TrustedAuthorities(f, host, port, less, keys);
  }

  /** Adding a well-formed `@revoked` line anywhere never turns a rejection into an acceptance. */
  lemma RevokingOnlyRejectsMore(f: Foreign, mode: HostKeyPolicy, host: string, port: nat, head: string, line: string,
                                rest: string, ordinary: Ordinary, presented: Presented)
    requires WholeLines(head) && OnlyRevokes(f, host, port, line)
    requires CheckServerKey(f, mode, host, port, Some(WithLine(head, line, rest)), ordinary, presented) != Rejected
    ensures CheckServerKey(f, mode, host, port, Some(head + rest), ordinary, presented)
         == CheckServerKey(f, mode, host, port, Some(WithLine(head, line, rest)), ordinary, presented)
  {
    var less, more := Some(head + rest), Some(WithLine(head, line, rest));
    InsertedLine(f, host, port, head, line, rest);
    match presented
    case PlainKey(k) =>
      VerdictOnKey(f, mode, host, port, more, ordinary, k);
      VerdictOnKey(f, mode, host, port, less, ordinary, k);
    case WithCertificate(c) =>
      VerdictOnCertificate(f, mode, host, port, more, ordinary, c);
      VerdictOnCertificate(f, mode, host, port, less, ordinary, c);
      SameFit(f, host, port, less, more, c);
  }
}
