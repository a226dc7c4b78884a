/** The parts of Rust's text library that the parsers use. */
module Text {

  type byte = b: nat | b < 256

  // ---------- Characters ----------

  /** `char::is_control`: the category Cc. */
  predicate IsControl(c: char) {
    c as int < 0x20 || 0x7F <= c as int < 0xA0
  }

  /** `char::is_whitespace`: the property White_Space. */
  predicate IsWhite(c: char) {
    var n := c as int;
    || 0x09 <= n <= 0x0D || n == 0x20 || n == 0x85 || n == 0xA0 || n == 0x1680
    || 0x2000 <= n <= 0x200A || n == 0x2028 || n == 0x2029 || n == 0x202F || n == 0x205F || n == 0x3000
  }

  predicate IsDigit(c: char) {
    '0' <= c <= '9'
  }

  predicate IsAsciiAlnum(c: char) {
    IsDigit(c) || 'a' <= c <= 'z' || 'A' <= c <= 'Z'
  }

  predicate IsAsciiWhite(c: char) {
    c as int in {0x09, 0x0A, 0x0C, 0x0D, 0x20}
  }

  function Utf8Char(c: char): (b: seq<byte>)
    ensures 1 <= |b| <= 4
  {
    var n := c as int;
    if n < 0x80 then [n]
    else if n < 0x800 then [0xC0 + n / 64, 0x80 + n % 64]
    else if n < 0x10000 then [0xE0 + n / 4096, 0x80 + n / 64 % 64, 0x80 + n % 64]
    else [0xF0 + n / 262144, 0x80 + n / 4096 % 64, 0x80 + n / 64 % 64, 0x80 + n % 64]
  }

  /** The bytes of a `str`. */
  function Utf8(s: string): seq<byte> {
    if s == [] then [] else Utf8Char(s[0]) + Utf8(s[1..])
  }

  // ---------- Lines ----------

  /** The position of the first `c`, or the length. */
  function IndexOf(s: string, c: char): (i: nat)
    ensures i <= |s| && c !in s[..i] && (i < |s| ==> s[i] == c)
  {
    if s == [] || s[0] == c then 0
    else
      var i := IndexOf(s[1..], c);
      assert s[..i + 1] == [s[0]] + s[1..][..i];
      i + 1
  }

  function Chomp(line: string): string {
    if line != [] && line[|line| - 1] == '\r' then line[..|line| - 1] else line
  }

  /** `str::lines`. */
  function Lines(s: string): seq<string> {
    if s == [] then []
    else
      var i := IndexOf(s, '\n');
      if i == |s| then [s] else [Chomp(s[..i])] + Lines(s[i + 1..])
  }

  function Unlines(ls: seq<string>): string {
    if ls == [] then [] else ls[0] + ("\n" + Unlines(ls[1..]))
  }

  /** A line that a line break ends exactly. */
  predicate PlainLine(l: string) {
    '\n' !in l && Chomp(l) == l
  }

  lemma IndexAfter(l: string, rest: string)
    requires '\n' !in l
    ensures IndexOf(l + ("\n" + rest), '\n') == |l|
  {
    var s := l + ("\n" + rest);
    var i := IndexOf(s, '\n');
    assert forall k :: 0 <= k < |l| ==> s[k] == l[k] && l[k] in l;
    assert s[|l|] == '\n';
  }

  lemma Cut<T>(a: seq<T>, x: T, b: seq<T>)
    ensures (a + ([x] + b))[..|a|] == a && (a + ([x] + b))[|a| + 1..] == b
  {
  }

  lemma Halves<T>(s: seq<T>, i: nat)
    requires i <= |s|
    ensures s == s[..i] + s[i..]
  {
  }

  lemma Uncut<T>(s: seq<T>, i: nat)
    requires i < |s|
    ensures s == s[..i] + ([s[i]] + s[i + 1..])
  {
    assert s[i..] == [s[i]] + s[i + 1..];
    assert s == s[..i] + s[i..];
  }

  /** The first line of a text is what stands before the first line break. */
  lemma FirstLine(l: string, rest: string)
    requires '\n' !in l
    ensures Lines(l + ("\n" + rest)) == [Chomp(l)] + Lines(rest)
  {
    IndexAfter(l, rest);
    Cut(l, '\n', rest);
  }

  lemma {:induction false} LinesOfUnlines(ls: seq<string>)
    requires forall i :: 0 <= i < |ls| ==> PlainLine(ls[i])
    ensures Lines(Unlines(ls)) == ls
  {
    if ls != [] {
      LinesOfUnlines(ls[1..]);
      FirstLine(ls[0], Unlines(ls[1..]));
      assert ls == [ls[0]] + ls[1..];
    }
  }

  lemma Cancel<T>(a: multiset<T>, b: multiset<T>, x: T)
    requires a + multiset{x} == b + multiset{x}
    ensures a == b
  {
    assert a == (a + multiset{x}) - multiset{x};
    assert b == (b + multiset{x}) - multiset{x};
  }

  /** The parts one after the other. */
  function Joined<T>(parts: seq<seq<T>>): seq<T> {
    if parts == [] then [] else parts[0] + Joined(parts[1..])
  }

  lemma Reassociate<T>(a: seq<T>, b: seq<T>, c: seq<T>)
    ensures a + (b + c) == (a + b) + c
  {
  }

  lemma {:induction false} UnlinesConcat(a: seq<string>, b: seq<string>)
    ensures Unlines(a + b) == Unlines(a) + Unlines(b)
  {
    if a == [] {
      assert a + b == b;
    } else {
      UnlinesConcat(a[1..], b);
      assert (a + b)[0] == a[0] && (a + b)[1..] == a[1..] + b;
      Reassociate("\n", Unlines(a[1..]), Unlines(b));
      Reassociate(a[0], "\n" + Unlines(a[1..]), Unlines(b));
    }
  }

  /** Text that ends at a line boundary. */
  predicate WholeLines(s: string) {
    s == [] || s[|s| - 1] == '\n'
  }

  lemma BreakIsFound(s: string)
    requires '\n' in s
    ensures IndexOf(s, '\n') < |s|
  {
    assert s[..|s|] == s;
  }

  lemma TailIsWhole(s: string, i: nat)
    requires WholeLines(s) && i < |s|
    ensures WholeLines(s[i + 1..])
  {
  }

  lemma CutAtBreak(s: string, i: nat)
    requires i < |s| && s[i] == '\n' && WholeLines(s)
    ensures WholeLines(s[i + 1..]) && s == s[..i] + ("\n" + s[i + 1..])
  {
    TailIsWhole(s, i);
    Uncut(s, i);
    assert [s[i]] == "\n";
  }

  lemma SplitLine(s: string) returns (i: nat)
    requires s != [] && s[|s| - 1] == '\n'
    ensures i == IndexOf(s, '\n') && i < |s| && WholeLines(s[i + 1..]) && s == s[..i] + ("\n" + s[i + 1..])
  {
    BreakIsFound(s);
    i := IndexOf(s, '\n');
    CutAtBreak(s, i);
  }

  /** Cutting a text at a line boundary cuts its list of lines. */
  lemma {:induction false} LinesConcat(head: string, rest: string)
    requires WholeLines(head)
    ensures Lines(head + rest) == Lines(head) + Lines(rest)
    decreases |head|
  {
    if head == [] {
      assert head + rest == rest;
    } else {
      var i := SplitLine(head);
      var l, tail := head[..i], head[i + 1..];
      Reassociate("\n", tail, rest);
      Reassociate(l, "\n" + tail, rest);
      FirstLine(l, tail);
      FirstLine(l, tail + rest);
      LinesConcat(tail, rest);
      Reassociate([Chomp(l)], Lines(tail), Lines(rest));
    }
  }

  lemma {:induction false} Utf8Concat(a: string, b: string)
    ensures Utf8(a + b) == Utf8(a) + Utf8(b)
  {
    if a == [] {
      assert a + b == b;
    } else {
      Utf8Concat(a[1..], b);
      assert (a + b)[0] == a[0] && (a + b)[1..] == a[1..] + b;
      Reassociate(Utf8Char(a[0]), Utf8(a[1..]), Utf8(b));
    }
  }

  // ---------- Trimming ----------

  function TrimStart(s: string): string {
    if s != [] && IsWhite(s[0]) then TrimStart(s[1..]) else s
  }

  function TrimEnd(s: string): string {
    if s != [] && IsWhite(s[|s| - 1]) then TrimEnd(s[..|s| - 1]) else s
  }

  function Trim(s: string): string {
    TrimEnd(TrimStart(s))
  }

  /** Text that `trim` returns unchanged. */
  predicate Trimmed(s: string) {
    s == [] || (!IsWhite(s[0]) && !IsWhite(s[|s| - 1]))
  }

  /** One blank on either side is trimmed away. */
  lemma TrimBlanks(s: string)
    requires s != [] && Trimmed(s)
    ensures Trim(s) == s && Trim(s + " ") == s && Trim(" " + s) == s
  {
    assert (s + " ")[..|s|] == s;
    assert (" " + s)[1..] == s;
  }

  lemma {:induction false} TrimStartIs(s: string) returns (i: nat)
    ensures i <= |s| && TrimStart(s) == s[i..] && (i < |s| ==> !IsWhite(s[i]))
    ensures forall k :: 0 <= k < i ==> IsWhite(s[k])
  {
    i := 0;
    if s != [] && IsWhite(s[0]) {
      var j := TrimStartIs(s[1..]);
      i := j + 1;
      assert forall k :: 1 <= k < i ==> s[k] == s[1..][k - 1];
    }
  }

  lemma {:induction false} TrimEndIs(s: string) returns (j: nat)
    ensures j <= |s| && TrimEnd(s) == s[..j] && (j > 0 ==> !IsWhite(s[j - 1]))
    ensures forall k :: j <= k < |s| ==> IsWhite(s[k])
  {
    j := |s|;
    if s != [] && IsWhite(s[|s| - 1]) {
      j := TrimEndIs(s[..|s| - 1]);
    }
  }

  /** Trimming cuts off white space on either side, and all of it. */
  lemma TrimIs(s: string) returns (i: nat, j: nat)
    ensures i <= j <= |s| && Trim(s) == s[i..j] && Trimmed(Trim(s))
    ensures forall k :: 0 <= k < |s| && !(i <= k < j) ==> IsWhite(s[k])
  {
    i := TrimStartIs(s);
    var n := TrimEndIs(s[i..]);
    j := i + n;
    assert s[i..][..n] == s[i..j];
    assert forall k :: j <= k < |s| ==> s[k] == s[i..][k - i];
  }

  // ---------- Splitting ----------

  /** `split_ascii_whitespace`: the maximal runs without ASCII white space. */
  function Fields(s: string): seq<string> {
    FieldsFrom(s, [])
  }

  function FieldsFrom(s: string, open: string): seq<string> {
    if s == [] then (if open == [] then [] else [open])
    else if IsAsciiWhite(s[0]) then (if open == [] then [] else [open]) + FieldsFrom(s[1..], [])
    else FieldsFrom(s[1..], open + [s[0]])
  }

  ghost predicate Blank(s: string) {
    forall i :: 0 <= i < |s| ==> IsAsciiWhite(s[i])
  }

  /** A run of characters without ASCII white space. */
  ghost predicate Solid(s: string) {
    s != [] && forall i :: 0 <= i < |s| ==> !IsAsciiWhite(s[i])
  }

  lemma {:induction false} FieldsSkip(blanks: string, rest: string)
    requires Blank(blanks)
    ensures Fields(blanks + rest) == Fields(rest)
  {
    if blanks == [] {
      assert blanks + rest == rest;
    } else {
      FieldsSkip(blanks[1..], rest);
      assert (blanks + rest)[1..] == blanks[1..] + rest;
    }
  }

  lemma {:induction false} FieldsTake(open: string, word: string, rest: string)
    requires Solid(open + word) && (rest == [] || IsAsciiWhite(rest[0]))
    ensures FieldsFrom(word + rest, open) == [open + word] + Fields(rest)
    decreases |word|
  {
    if word == [] {
      assert word + rest == rest && open + word == open;
    } else {
      var c := word[0];
      assert !IsAsciiWhite((open + word)[|open|]);
      assert (open + [c]) + word[1..] == open + word;
      assert (word + rest)[1..] == word[1..] + rest;
      FieldsTake(open + [c], word[1..], rest);
    }
  }

  /** The fields of a text are its first run without white space and then the fields of what follows it. */
  lemma FieldsAre(blanks: string, word: string, rest: string)
    requires Blank(blanks) && Solid(word) && (rest == [] || IsAsciiWhite(rest[0]))
    ensures Fields(blanks) == []
    ensures Fields(blanks + (word + rest)) == [word] + Fields(rest)
  {
    FieldsSkip(blanks, []);
    assert blanks + [] == blanks;
    FieldsSkip(blanks, word + rest);
    assert [] + word == word;
    FieldsTake([], word, rest);
  }

  /** A text that starts without white space has a first field, and they start alike. */
  lemma {:induction false} FirstFieldStarts(s: string, open: string)
    requires open + s != [] && (open == [] ==> !IsAsciiWhite(s[0]))
    ensures FieldsFrom(s, open) != [] && FieldsFrom(s, open)[0] != [] && FieldsFrom(s, open)[0][0] == (open + s)[0]
    decreases |s|
  {
    if s != [] && !IsAsciiWhite(s[0]) {
      assert open + [s[0]] + s[1..] == open + s;
      FirstFieldStarts(s[1..], open + [s[0]]);
    }
  }

  // ---------- Decimal numbers ----------

  function Digit(n: nat): char
    requires n < 10
  {
    '0' + n as char
  }

  /** `format!("{}", n)`. */
  function Decimal(n: nat): (s: string)
    ensures s != [] && forall i :: 0 <= i < |s| ==> IsDigit(s[i])
  {
    if n < 10 then [Digit(n)] else Decimal(n / 10) + [Digit(n % 10)]
  }

  function DigitValue(c: char): (n: nat)
    requires IsDigit(c)
    ensures n < 10
  {
    c as int - '0' as int
  }

  /** The value of a digit string. */
  function NumberOf(s: string): nat
    requires forall i :: 0 <= i < |s| ==> IsDigit(s[i])
  {
    if s == [] then 0 else 10 * NumberOf(s[..|s| - 1]) + DigitValue(s[|s| - 1])
  }

  lemma {:induction false} ValueOfDecimal(n: nat)
    ensures NumberOf(Decimal(n)) == n
  {
    if n >= 10 {
      ValueOfDecimal(n / 10);
      var s := Decimal(n);
      assert s[..|s| - 1] == Decimal(n / 10);
    }
  }
}
