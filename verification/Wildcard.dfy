/** Host patterns with one remembered star: `wildcard_match` of host_trust.rs. */
module Wildcard {
  import opened Text

  const STAR: byte := 42
  const QUESTION: byte := 63

  function Fold(b: byte): byte {
    if 65 <= b <= 90 then b + 32 else b
  }

  /** A pattern byte accepts a candidate byte without being a star. */
  predicate Accepts(p: byte, c: byte) {
    p == QUESTION || Fold(p) == Fold(c)
  }

  /** Equal up to the case of an ASCII letter. */
  predicate SameLetter(a: byte, b: byte) {
    || a == b
    || ('A' as int <= a <= 'Z' as int && b == a + 32)
    || ('A' as int <= b <= 'Z' as int && a == b + 32)
  }

  /** The declarative meaning of a pattern. */
  ghost predicate Glob(p: seq<byte>, c: seq<byte>)
    decreases |p|
  {
    if p == [] then c == []
    else if p[0] == '*' as int then exists k :: 0 <= k <= |c| && Glob(p[1..], c[k..])
    else c != [] && (p[0] == '?' as int || SameLetter(p[0], c[0])) && Glob(p[1..], c[1..])
  }

  /** The remembered star and the candidate position it currently covers up to. */
  datatype Star = NoStar | Star(at: nat, upto: nat)

  ghost predicate StarOk(p: seq<byte>, c: seq<byte>, i: nat, j: nat, star: Star) {
    && i <= |p| && j <= |c|
    && (star.Star? ==> star.at < i && p[star.at] == STAR && star.upto <= j && star.upto <= |c|)
  }

  /** The loop of the source, one iteration per unfolding. */
  ghost predicate Scan(p: seq<byte>, c: seq<byte>, i: nat, j: nat, star: Star)
    requires StarOk(p, c, i, j, star)
    decreases |c| - (if star.Star? then star.upto else 0), |p| - i
  {
    if j == |c| then Trailing(p[i..])
    else if i < |p| && Accepts(p[i], c[j]) then Scan(p, c, i + 1, j + 1, star)
    else if i < |p| && p[i] == STAR then Scan(p, c, i + 1, j, Star(i, j))
    else if star.Star? then Scan(p, c, star.at + 1, star.upto + 1, Star(star.at, star.upto + 1))
    else false
  }

  /** Only stars are left. */
  predicate Trailing(p: seq<byte>) {
    p == [] || (p[0] == STAR && Trailing(p[1..]))
  }

  ghost predicate Matches(p: seq<byte>, c: seq<byte>) {
    Scan(p, c, 0, 0, NoStar)
  }

  method WildcardMatch(p: seq<byte>, c: seq<byte>) returns (matched: bool)
    ensures matched == Matches(p, c)
  {
    var i: nat, j: nat := 0, 0;
    var star := NoStar;
    while j < |c|
      invariant StarOk(p, c, i, j, star)
      invariant Scan(p, c, i, j, star) == Matches(p, c)
      decreases |c| - (if star.Star? then star.upto else 0), |p| - i
    {
      if i < |p| && (p[i] == QUESTION || Fold(p[i]) == Fold(c[j])) {
        i, j := i + 1, j + 1;
      } else if i < |p| && p[i] == STAR {
        star := Star(i, j);
        i := i + 1;
      } else if star.Star? {
        star := Star(star.at, star.upto + 1);
        i, j := star.at + 1, star.upto;
      } else {
        return false;
      }
    }
    while i < |p| && p[i] == STAR
      invariant i <= |p| && Trailing(p[i..]) == Matches(p, c)
    {
      assert p[i..][1..] == p[i + 1..];
      i := i + 1;
    }
    return i == |p|;
  }

  // ---------- Against the declarative pattern language ----------

  /** The first `n` pattern bytes are not stars and accept the first `n` candidate bytes. */
  ghost predicate Literal(p: seq<byte>, c: seq<byte>, n: nat) {
    n <= |p| && n <= |c| && forall k :: 0 <= k < n ==> p[k] != STAR && Accepts(p[k], c[k])
  }

  /** A star-free stretch of the pattern is matched byte by byte. */
  lemma {:induction false} GlobSplits(p: seq<byte>, c: seq<byte>, n: nat)
    requires n <= |p| && forall k :: 0 <= k < n ==> p[k] != STAR
    ensures Glob(p, c) <==> Literal(p, c, n) && Glob(p[n..], c[n..])
    decreases n
  {
    if n == 0 {
      assert p[0..] == p && c[0..] == c;
    } else {
      GlobSplits(p, c, n - 1);
      if n - 1 <= |c| {
        var p', c' := p[n - 1..], c[n - 1..];
        assert p'[1..] == p[n..];
        if c' != [] {
          assert c'[1..] == c[n..] && c'[0] == c[n - 1];
        }
      }
    }
  }

  lemma {:induction false} TrailingIsGlob(p: seq<byte>)
    ensures Trailing(p) <==> Glob(p, [])
  {
    if p != [] {
      TrailingIsGlob(p[1..]);
      if p[0] == STAR {
        var e: seq<byte> := [];
        assert e[0..] == e;
        assert Glob(p, e) <==> Glob(p[1..], e[0..]);
      }
    }
  }

  /** Some candidate suffix from `from` on is matched by `p`. */
  ghost predicate GlobFrom(p: seq<byte>, c: seq<byte>, start: nat) {
    exists k :: start <= k <= |c| && Glob(p, c[k..])
  }

  lemma GlobStar(p: seq<byte>, c: seq<byte>, start: nat)
    requires p != [] && p[0] == STAR && start <= |c|
    ensures Glob(p, c[start..]) <==> GlobFrom(p[1..], c, start)
  {
    if Glob(p, c[start..]) {
      var k :| 0 <= k <= |c[start..]| && Glob(p[1..], c[start..][k..]);
      assert c[start..][k..] == c[start + k..];
    }
    if k :| start <= k <= |c| && Glob(p[1..], c[k..]) {
      assert c[start..][k - start..] == c[k..];
    }
  }

  /** While a star is remembered, everything after it has been matched literally. */
  ghost predicate Aligned(p: seq<byte>, c: seq<byte>, i: nat, j: nat, star: Star)
    requires StarOk(p, c, i, j, star)
  {
    star.Star? ==> i - (star.at + 1) == j - star.upto && Literal(p[star.at + 1..], c[star.upto..], i - (star.at + 1))
  }

  /** What is still to be decided. */
  ghost predicate Pending(p: seq<byte>, c: seq<byte>, i: nat, j: nat, star: Star)
    requires StarOk(p, c, i, j, star)
  {
    if star.Star? then GlobFrom(p[star.at + 1..], c, star.upto) else Glob(p[i..], c[j..])
  }

  lemma AcceptKeepsPending(p: seq<byte>, c: seq<byte>, i: nat, j: nat, star: Star)
    requires StarOk(p, c, i, j, star) && Aligned(p, c, i, j, star) && i < |p| && j < |c| && p[i] != STAR
    requires Accepts(p[i], c[j])
    ensures StarOk(p, c, i + 1, j + 1, star) && Aligned(p, c, i + 1, j + 1, star)
    ensures Pending(p, c, i, j, star) <==> Pending(p, c, i + 1, j + 1, star)
  {
    StepOn(p, c, i, j);
  }

  lemma StuckIsNotPending(p: seq<byte>, c: seq<byte>, i: nat, j: nat)
    requires i <= |p| && j < |c| && (i == |p| || (p[i] != STAR && !Accepts(p[i], c[j])))
    ensures !Glob(p[i..], c[j..])
  {
    if i < |p| {
      assert p[i..][0] == p[i] && c[j..][0] == c[j];
    }
  }

  /** On a star-free candidate the scan decides exactly what is pending. */
  lemma {:induction false} ScanDecides(p: seq<byte>, c: seq<byte>, i: nat, j: nat, star: Star)
    requires StarOk(p, c, i, j, star) && Aligned(p, c, i, j, star) && STAR !in c
    ensures Scan(p, c, i, j, star) <==> Pending(p, c, i, j, star)
    decreases |c| - (if star.Star? then star.upto else 0), |p| - i
  {
    if j == |c| {
      AtEnd(p, c, i, star);
    } else if i < |p| && Accepts(p[i], c[j]) {
      assert c[j] in c;
      AcceptKeepsPending(p, c, i, j, star);
      ScanDecides(p, c, i + 1, j + 1, star);
    } else if i < |p| && p[i] == STAR {
      ScanDecides(p, c, i + 1, j, Star(i, j));
      NextStar(p, c, i, j, star);
    } else if star.Star? {
      ScanDecides(p, c, star.at + 1, star.upto + 1, Star(star.at, star.upto + 1));
      Mismatch(p, c, i, j, star);
    } else {
      StuckIsNotPending(p, c, i, j);
    }
  }

  lemma AtEnd(p: seq<byte>, c: seq<byte>, i: nat, star: Star)
    requires StarOk(p, c, i, |c|, star) && Aligned(p, c, i, |c|, star)
    ensures Trailing(p[i..]) <==> Pending(p, c, i, |c|, star)
  {
    TrailingIsGlob(p[i..]);
    assert c[|c|..] == [];
    if star.Star? {
      var q, n := p[star.at + 1..], i - (star.at + 1);
      assert q[n..] == p[i..];
      forall k | star.upto <= k <= |c|
        ensures Glob(q, c[k..]) <==> k == star.upto && Glob(p[i..], [])
      {
        GlobSplits(q, c[k..], n);
        if k == star.upto {
          assert c[k..][n..] == [];
        }
      }
    }
  }

  lemma NextStarTakesOver(p: seq<byte>, c: seq<byte>, i: nat, j: nat, star: Star, k: nat)
    requires StarOk(p, c, i, j, star) && Aligned(p, c, i, j, star) && i < |p| && p[i] == STAR
    requires star.Star? && star.upto <= k <= |c| && Glob(p[star.at + 1..], c[k..])
    ensures GlobFrom(p[i + 1..], c, j)
  {
    var q, n := p[star.at + 1..], i - (star.at + 1);
    assert q[n..] == p[i..] && p[i..][1..] == p[i + 1..];
    GlobSplits(q, c[k..], n);
    assert c[k..][n..] == c[k + n..];
    GlobStar(p[i..], c, k + n);
  }

  lemma NewerStarCovers(p: seq<byte>, c: seq<byte>, i: nat, j: nat, star: Star)
    requires StarOk(p, c, i, j, star) && Aligned(p, c, i, j, star) && i < |p| && p[i] == STAR && star.Star?
    requires GlobFrom(p[star.at + 1..], c, star.upto)
    ensures GlobFrom(p[i + 1..], c, j)
  {
    var k :| star.upto <= k <= |c| && Glob(p[star.at + 1..], c[k..]);
    NextStarTakesOver(p, c, i, j, star, k);
  }

  /** What the newer star can match, the older one can too. */
  lemma OlderStarCovers(p: seq<byte>, c: seq<byte>, i: nat, j: nat, star: Star)
    requires StarOk(p, c, i, j, star) && Aligned(p, c, i, j, star) && i < |p| && p[i] == STAR && star.Star?
    requires GlobFrom(p[i + 1..], c, j)
    ensures GlobFrom(p[star.at + 1..], c, star.upto)
  {
    var q, n := p[star.at + 1..], i - (star.at + 1);
    assert q[n..] == p[i..] && p[i..][1..] == p[i + 1..];
    GlobStar(p[i..], c, j);
    GlobSplits(q, c[star.upto..], n);
    assert c[star.upto..][n..] == c[j..];
  }

  lemma NextStar(p: seq<byte>, c: seq<byte>, i: nat, j: nat, star: Star)
    requires StarOk(p, c, i, j, star) && Aligned(p, c, i, j, star) && i < |p| && p[i] == STAR
    ensures Pending(p, c, i, j, star) <==> Pending(p, c, i + 1, j, Star(i, j))
  {
    if star.NoStar? {
      StarStep(p, c, i, j);
    } else {
      if GlobFrom(p[star.at + 1..], c, star.upto) {
        NewerStarCovers(p, c, i, j, star);
      }
      if GlobFrom(p[i + 1..], c, j) {
        OlderStarCovers(p, c, i, j, star);
      }
    }
  }

  lemma StepOn(p: seq<byte>, c: seq<byte>, i: nat, j: nat)
    requires i < |p| && j < |c| && p[i] != STAR && Accepts(p[i], c[j])
    ensures Glob(p[i..], c[j..]) <==> Glob(p[i + 1..], c[j + 1..])
  {
    assert p[i..][1..] == p[i + 1..] && c[j..][1..] == c[j + 1..];
  }

  lemma Mismatch(p: seq<byte>, c: seq<byte>, i: nat, j: nat, star: Star)
    requires StarOk(p, c, i, j, star) && Aligned(p, c, i, j, star) && star.Star? && j < |c|
    requires i == |p| || (p[i] != STAR && !Accepts(p[i], c[j]))
    ensures Pending(p, c, i, j, star) <==> GlobFrom(p[star.at + 1..], c, star.upto + 1)
  {
    var q, n := p[star.at + 1..], i - (star.at + 1);
    GlobSplits(q, c[star.upto..], n);
    assert q[n..] == p[i..] && c[star.upto..][n..] == c[j..];
    if i < |p| {
      assert p[i..][0] == p[i] && c[j..][0] == c[j];
    }
    assert !Glob(q, c[star.upto..]);
  }

  /** On every candidate without a star the matcher is the pattern language, in both directions. */
  lemma MatchesIsGlob(p: seq<byte>, c: seq<byte>)
    requires STAR !in c
    ensures Matches(p, c) <==> Glob(p, c)
  {
    ScanDecides(p, c, 0, 0, NoStar);
    assert p[0..] == p && c[0..] == c;
  }

  // ---------- Candidates that contain a star ----------

  /** Whatever the scan accepts is in the pattern language, for every candidate. */
  lemma AcceptStep(p: seq<byte>, c: seq<byte>, i: nat, j: nat)
    requires i < |p| && j < |c| && Accepts(p[i], c[j]) && Glob(p[i + 1..], c[j + 1..])
    ensures Glob(p[i..], c[j..])
  {
    if p[i] == STAR {
      assert p[i..][1..] == p[i + 1..];
      assert GlobFrom(p[i + 1..], c, j);
      GlobStar(p[i..], c, j);
    } else {
      StepOn(p, c, i, j);
    }
  }

  lemma StarStep(p: seq<byte>, c: seq<byte>, i: nat, j: nat)
    requires i < |p| && j <= |c| && p[i] == STAR
    ensures Glob(p[i..], c[j..]) <==> GlobFrom(p[i + 1..], c, j)
  {
    assert p[i..][1..] == p[i + 1..];
    GlobStar(p[i..], c, j);
  }

  lemma {:induction false} ScanIsSound(p: seq<byte>, c: seq<byte>, i: nat, j: nat, star: Star)
    requires StarOk(p, c, i, j, star) && Scan(p, c, i, j, star)
    ensures Glob(p[i..], c[j..]) || (star.Star? && GlobFrom(p[star.at + 1..], c, star.upto))
    decreases |c| - (if star.Star? then star.upto else 0), |p| - i
  {
    if j == |c| {
      TrailingIsGlob(p[i..]);
      assert c[j..] == [];
    } else if i < |p| && Accepts(p[i], c[j]) {
      ScanIsSound(p, c, i + 1, j + 1, star);
      if Glob(p[i + 1..], c[j + 1..]) {
        AcceptStep(p, c, i, j);
      }
    } else if i < |p| && p[i] == STAR {
      ScanIsSound(p, c, i + 1, j, Star(i, j));
      StarStep(p, c, i, j);
      assert Glob(p[i + 1..], c[j..]) ==> GlobFrom(p[i + 1..], c, j);
    } else if star.Star? {
      ScanIsSound(p, c, star.at + 1, star.upto + 1, Star(star.at, star.upto + 1));
    }
  }

  lemma MatchesIsSound(p: seq<byte>, c: seq<byte>)
    requires Matches(p, c)
    ensures Glob(p, c)
  {
    ScanIsSound(p, c, 0, 0, NoStar);
    assert p[0..] == p && c[0..] == c;
  }

  /** A literal prefix without stars is consumed by the scan unchanged. */
  lemma {:induction false} ScanSkips(p: seq<byte>, c: seq<byte>, i: nat, n: nat)
    requires i <= n <= |p| && n <= |c| && forall k :: 0 <= k < n ==> p[k] == c[k]
    ensures Scan(p, c, i, i, NoStar) == Scan(p, c, n, n, NoStar)
    decreases n - i
  {
    if i < n {
      ScanSkips(p, c, i + 1, n);
    }
  }

  lemma {:induction false} GlobSelf(p: seq<byte>, c: seq<byte>)
    requires p <= c && STAR !in p
    ensures forall q, d :: p + q == d && Glob(q, c[|p|..]) ==> Glob(d, c)
  {
    forall q, d | p + q == d && Glob(q, c[|p|..])
      ensures Glob(d, c)
    {
      assert forall k :: 0 <= k < |p| ==> d[k] == p[k] && p[k] in p;
      GlobSplits(d, c, |p|);
      assert d[|p|..] == q;
    }
  }

  /** A pattern the matcher rejects although the pattern language accepts it. */
  function Witness(c: seq<byte>, k: nat): seq<byte>
    requires k < |c|
  {
    c[..k] + if k + 1 == |c| then [STAR, QUESTION] else [STAR]
  }

  /** For every candidate with a star there is a pattern on which the two differ. */
  lemma StarCandidateDiffers(c: seq<byte>, k: nat)
    requires k < |c| && c[k] == STAR && STAR !in c[..k]
    ensures Glob(Witness(c, k), c) && !Matches(Witness(c, k), c)
  {
    var p := Witness(c, k);
    var q := p[k..];
    assert p[..k] == c[..k] && p == c[..k] + q;
    GlobSelf(c[..k], c);
    assert p[k] == STAR;
    if k + 1 == |c| {
      assert q == [STAR, QUESTION] && c[k..] == [STAR] && c[k..][0..] == c[k..];
      assert q[1..] == [QUESTION];
      assert Glob([QUESTION], [STAR]);
      assert Glob(q, c[k..]);
      ScanSkips(p, c, 0, k);
      assert Scan(p, c, k, k, NoStar) == Trailing(p[k + 1..]);
      assert p[k + 1..] == [QUESTION];
    } else {
      assert q == [STAR] && q[1..] == [] && c[k..][|c| - k..] == [];
      assert Glob(q, c[k..]);
      ScanSkips(p, c, 0, k);
      assert Scan(p, c, k, k, NoStar) == Scan(p, c, k + 1, k + 1, NoStar);
    }
  }

  lemma {:induction false} FirstStar(c: seq<byte>) returns (k: nat)
    requires STAR in c
    ensures k < |c| && c[k] == STAR && STAR !in c[..k]
  {
    if c[0] == STAR {
      k := 0;
    } else {
      var r := FirstStar(c[1..]);
      k := r + 1;
      assert c[..k] == [c[0]] + c[1..][..r];
    }
  }

  /** The matcher implements the pattern language on a candidate exactly when the candidate has no star. */
  lemma ExactlyOnStarFreeCandidates(c: seq<byte>)
    ensures (forall p :: Matches(p, c) <==> Glob(p, c)) <==> STAR !in c
  {
    if STAR !in c {
      forall p
        ensures Matches(p, c) <==> Glob(p, c)
      {
        MatchesIsGlob(p, c);
      }
    } else {
      var k := FirstStar(c);
      StarCandidateDiffers(c, k);
    }
  }
}
