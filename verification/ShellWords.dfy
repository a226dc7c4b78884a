/** Remote command rendering of command.rs and client.rs, read back by the POSIX word rules. */
module ShellWords {
  import opened Wrappers
  import opened Text

  // ---------- A reader for shell input ----------

  datatype Token = Word(text: string) | AndIf

  datatype Mode = Unquoted | SingleQuoted | DoubleQuoted

  /** Characters that end a literal word or start an expansion when they are not quoted. */
  predicate Special(c: char) {
    c in {'|', ';', '<', '>', '(', ')', '$', '`', '\n', '*', '?', '[', ']', '#', '~', '{', '}', '!'}
  }

  predicate Blank(c: char) {
    c == ' ' || c == '\t'
  }

  function Flush(word: Option<string>): seq<Token> {
    if word.Some? then [Word(word.value)] else []
  }

  function Grow(word: Option<string>, s: string): Option<string> {
    Some((if word.Some? then word.value else "") + s)
  }

  function Prepend(ts: seq<Token>, r: Result<seq<Token>>): Result<seq<Token>> {
    if r.Ok? then Ok(ts + r.value) else Err
  }

  /**
   Token recognition with the quoting rules of sections 2.2 and 2.3 of the POSIX.1-2017 Shell
   Command Language. Unquoted characters that would be an operator other than `&&`, a pattern, a
   comment or an expansion are refused, so a successful reading is literal.
   */
  function Read(s: string, mode: Mode, word: Option<string>): Result<seq<Token>>
    decreases |s|
  {
    match mode
    case Unquoted =>
      if s == [] then Ok(Flush(word))
      else if Blank(s[0]) then Prepend(Flush(word), Read(s[1..], Unquoted, None))
      else if s[0] == '&' then
        if |s| > 1 && s[1] == '&' then Prepend(Flush(word) + [AndIf], Read(s[2..], Unquoted, None)) else Err
      else if s[0] == '\'' then Read(s[1..], SingleQuoted, Grow(word, ""))
      else if s[0] == '"' then Read(s[1..], DoubleQuoted, Grow(word, ""))
      else if s[0] == '\\' then
        if |s| < 2 then Err
        else if s[1] == '\n' then Read(s[2..], Unquoted, word)
        else Read(s[2..], Unquoted, Grow(word, [s[1]]))
      else if Special(s[0]) then Err
      else Read(s[1..], Unquoted, Grow(word, [s[0]]))
    case SingleQuoted =>
      if s == [] then Err
      else if s[0] == '\'' then Read(s[1..], Unquoted, word)
      else Read(s[1..], SingleQuoted, Grow(word, [s[0]]))
    case DoubleQuoted =>
      if s == [] then Err
      else if s[0] == '"' then Read(s[1..], Unquoted, word)
      else if s[0] == '$' || s[0] == '`' then Err
      else if s[0] == '\\' && |s| > 1
          && s[1] in {'$', '`', '"', '\\'} then Read(s[2..], DoubleQuoted, Grow(word, [s[1]]))
      else if s[0] == '\\' && |s| > 1 && s[1] == '\n' then Read(s[2..], DoubleQuoted, word)
      else Read(s[1..], DoubleQuoted, Grow(word, [s[0]]))
  }

  function Tokens(s: string): Result<seq<Token>> {
    Read(s, Unquoted, None)
  }

  // ---------- Quoting ----------

  predicate Safe(c: char) {
    IsAsciiAlnum(c) || c in {'_', '+', '-', '.', '/', ':', '@', '%', ',', '='}
  }

  predicate AllSafe(s: string) {
    forall i :: 0 <= i < |s| ==> Safe(s[i])
  }

  /** `value.replace('\'', "'\"'\"'")`. */
  function EscapeQuotes(s: string): string {
    if s == [] then [] else EscapeChar(s[0]) + EscapeQuotes(s[1..])
  }

  function QuotePosix(value: string): string {
    if value == "" then "''"
    else if AllSafe(value) then value
    else "'" + EscapeQuotes(value) + "'"
  }

  lemma GrowGrow(word: Option<string>, a: string, b: string)
    ensures Grow(Grow(word, a), b) == Grow(word, a + b)
  {
    var w := if word.Some? then word.value else "";
    assert w + a + b == w + (a + b);
  }

  lemma GrowNothing(word: Option<string>)
    requires word.Some?
    ensures Grow(word, "") == word
  {
    assert word.value + "" == word.value;
  }

  /** An unquoted safe character is part of the word. */
  lemma ReadSafeChar(c: char, rest: string, word: Option<string>)
    requires Safe(c)
    ensures Read([c] + rest, Unquoted, word) == Read(rest, Unquoted, Grow(word, [c]))
  {
    assert ([c] + rest)[1..] == rest;
  }

  lemma {:induction false} ReadSafe(s: string, rest: string, word: Option<string>)
    requires AllSafe(s) && s != []
    ensures Read(s + rest, Unquoted, word) == Read(rest, Unquoted, Grow(word, s))
    decreases |s|
  {
    assert Safe(s[0]);
    assert s + rest == [s[0]] + (s[1..] + rest);
    ReadSafeChar(s[0], s[1..] + rest, word);
    if |s| == 1 {
      assert s[1..] + rest == rest && s == [s[0]];
    } else {
      ReadSafe(s[1..], rest, Grow(word, [s[0]]));
      GrowGrow(word, [s[0]], s[1..]);
      assert [s[0]] + s[1..] == s;
    }
  }

  /** Between single quotes every character but the quote stands for itself. */
  lemma ReadSingleChar(c: char, rest: string, word: Option<string>)
    ensures Read([c] + rest, SingleQuoted, word)
         == if c == '\'' then Read(rest, Unquoted, word) else Read(rest, SingleQuoted, Grow(word, [c]))
  {
    assert ([c] + rest)[1..] == rest;
  }

  /** Closing the quote, a double-quoted quote, and opening again reads as one quote character. */
  lemma QuoteDance(tail: string, word: Option<string>)
    requires word.Some?
    ensures Read("'\"'\"'" + tail, SingleQuoted, word) == Read(tail, SingleQuoted, Grow(word, "'"))
  {
    var s := "'\"'\"'" + tail;
    var s1, s2, s3, s4 := s[1..], s[2..], s[3..], s[4..];
    assert s1[1..] == s2 && s2[1..] == s3 && s3[1..] == s4 && s4[1..] == tail;
    assert s1[0] == '"' && s2[0] == '\'' && s3[0] == '"' && s4[0] == '\'';
    GrowNothing(word);
    GrowNothing(Grow(word, "'"));
    assert Read(s, SingleQuoted, word) == Read(s1, Unquoted, word);
    assert Read(s1, Unquoted, word) == Read(s2, DoubleQuoted, word);
    assert Read(s2, DoubleQuoted, word) == Read(s3, DoubleQuoted, Grow(word, "'"));
    assert Read(s3, DoubleQuoted, Grow(word, "'")) == Read(s4, Unquoted, Grow(word, "'"));
  }

  function EscapeChar(c: char): string {
    if c == '\'' then "'\"'\"'" else [c]
  }

  lemma ReadEscapedChar(c: char, rest: string, word: Option<string>)
    requires word.Some?
    ensures Read(EscapeChar(c) + rest, SingleQuoted, word) == Read(rest, SingleQuoted, Grow(word, [c]))
  {
    if c == '\'' {
      QuoteDance(rest, word);
    } else {
      ReadSingleChar(c, rest, word);
    }
  }

  lemma {:induction false} ReadEscaped(s: string, rest: string, word: Option<string>)
    requires word.Some?
    ensures Read(EscapeQuotes(s) + ("'" + rest), SingleQuoted, word) == Read(rest, Unquoted, Grow(word, s))
    decreases |s|
  {
    var tail := "'" + rest;
    if s == [] {
      assert EscapeQuotes(s) + tail == tail;
      ReadSingleChar('\'', rest, word);
      GrowNothing(word);
    } else {
      assert EscapeQuotes(s) + tail == EscapeChar(s[0]) + (EscapeQuotes(s[1..]) + tail);
      ReadEscapedChar(s[0], EscapeQuotes(s[1..]) + tail, word);
      ReadEscaped(s[1..], rest, Grow(word, [s[0]]));
      GrowGrow(word, [s[0]], s[1..]);
      assert [s[0]] + s[1..] == s;
    }
  }

  /** Whatever the value, its quoted form reads as exactly the value, inside or outside a word. */
  lemma ReadQuoted(value: string, rest: string, word: Option<string>)
    ensures Read(QuotePosix(value) + rest, Unquoted, word) == Read(rest, Unquoted, Grow(word, value))
  {
    if value != "" && AllSafe(value) {
      ReadSafe(value, rest, word);
    } else {
      var body := EscapeQuotes(value) + ("'" + rest);
      assert QuotePosix(value) + rest == ['\''] + body;
      assert (['\''] + body)[1..] == body;
      assert Read(['\''] + body, Unquoted, word) == Read(body, SingleQuoted, Grow(word, ""));
      ReadEscaped(value, rest, Grow(word, ""));
      GrowGrow(word, "", value);
      assert "" + value == value;
    }
  }

  // ---------- Commands ----------

  datatype Variable = Variable(name: string, value: string)

  datatype CommandSpec = CommandSpec(program: string, arguments: seq<string>, environment: seq<Variable>,
      directory: Option<string>)

  const NUL := 0 as char

  predicate NameChar(c: char) {
    IsAsciiAlnum(c) || c == '_'
  }

  predicate ValidName(name: string) {
    name != "" && !IsDigit(name[0]) && forall i :: 0 <= i < |name| ==> NameChar(name[i])
  }

  /** A portable name: letters, digits and underscores, no digit first. */
  predicate PortableName(name: string) {
    && name != "" && !('0' <= name[0] <= '9')
    && forall i :: 0 <= i < |name| ==>
         'a' <= name[i] <= 'z' || 'A' <= name[i] <= 'Z' || '0' <= name[i] <= '9' || name[i] == '_'
  }

  predicate ValidVariable(v: Variable) {
    PortableName(v.name) && '\0' !in v.value
  }

  predicate ValidSpec(spec: CommandSpec) {
    && spec.program != "" && '\0' !in spec.program
    && (forall i :: 0 <= i < |spec.arguments| ==> '\0' !in spec.arguments[i])
    && (spec.directory.Some? ==> spec.directory.value != "" && '\0' !in spec.directory.value)
    && (forall i :: 0 <= i < |spec.environment| ==> ValidVariable(spec.environment[i]))
    && (forall i, j :: 0 <= i < j < |spec.environment| ==> spec.environment[i].name != spec.environment[j].name)
  }

  method Validated(spec: CommandSpec) returns (ok: bool)
    ensures ok == ValidSpec(spec)
  {
    if spec.program == "" || NUL in spec.program {
      return false;
    }
    for i := 0 to |spec.arguments|
      invariant forall k :: 0 <= k < i ==> NUL !in spec.arguments[k]
    {
      if NUL in spec.arguments[i] {
        return false;
      }
    }
    if spec.directory.Some? && (spec.directory.value == "" || NUL in spec.directory.value) {
      return false;
    }
    var names: set<string> := {};
    for i := 0 to |spec.environment|
      invariant forall k :: 0 <= k < i ==> ValidVariable(spec.environment[k])
      invariant forall k, m :: 0 <= k < m < i ==> spec.environment[k].name != spec.environment[m].name
      invariant names == set k | 0 <= k < i :: spec.environment[k].name
    {
      var v := spec.environment[i];
      if !ValidName(v.name) || v.name in names || NUL in v.value {
        return false;
      }
      names := names + {v.name};
    }
    return true;
  }

  function SafeCdOperand(directory: string): string {
    if directory != "" && directory[0] == '-' then "./" + directory else directory
  }

  function RenderDirectory(directory: Option<string>): string {
    if directory.None? then "" else "cd " + QuotePosix(SafeCdOperand(directory.value)) + " && "
  }

  function RenderEnvironment(env: seq<Variable>): string {
    if env == [] then "" else env[0].name + "=" + QuotePosix(env[0].value) + " " + RenderEnvironment(env[1..])
  }

  function RenderArguments(arguments: seq<string>): string {
    if arguments == [] then "" else " " + QuotePosix(arguments[0]) + RenderArguments(arguments[1..])
  }

  function Render(spec: CommandSpec): string {
    RenderDirectory(spec.directory)
        + (RenderEnvironment(spec.environment) + (QuotePosix(spec.program) + RenderArguments(spec.arguments)))
  }

  method AppendEnvironment(start: string, env: seq<Variable>) returns (rendered: string)
    ensures rendered == start + RenderEnvironment(env)
  {
    rendered := start;
    for i := 0 to |env|
      invariant rendered + RenderEnvironment(env[i..]) == start + RenderEnvironment(env)
    {
      var v := env[i];
      assert env[i..][0] == v && env[i..][1..] == env[i + 1..];
      var piece := v.name + "=" + QuotePosix(v.value) + " ";
      Reassociate(rendered, piece, RenderEnvironment(env[i + 1..]));
      rendered := rendered + piece;
    }
  }

  method AppendArguments(start: string, arguments: seq<string>) returns (rendered: string)
    ensures rendered == start + RenderArguments(arguments)
  {
    rendered := start;
    for i := 0 to |arguments|
      invariant rendered + RenderArguments(arguments[i..]) == start + RenderArguments(arguments)
    {
      assert arguments[i..][0] == arguments[i] && arguments[i..][1..] == arguments[i + 1..];
      var piece := " " + QuotePosix(arguments[i]);
      Reassociate(rendered, piece, RenderArguments(arguments[i + 1..]));
      rendered := rendered + piece;
    }
  }

  lemma Regroup(a: string, b: string, c: string, d: string)
    ensures a + b + c + d == a + (b + (c + d))
  {
  }

  method RenderPosix(spec: CommandSpec) returns (r: Result<string>)
    ensures r == if ValidSpec(spec) then Ok(Render(spec)) else Err
    ensures r.Ok? ==> Tokens(r.value).Ok? && Seen(Tokens(r.value).value, spec)
  {
    var ok := Validated(spec);
    if !ok {
      return Err;
    }
    var rendered := "";
    if spec.directory.Some? {
      rendered := "cd " + QuotePosix(SafeCdOperand(spec.directory.value)) + " && ";
    }
    var d := rendered;
    rendered := AppendEnvironment(rendered, spec.environment);
    rendered := rendered + QuotePosix(spec.program);
    rendered := AppendArguments(rendered, spec.arguments);
    Regroup(d, RenderEnvironment(spec.environment), QuotePosix(spec.program), RenderArguments(spec.arguments));
    RenderedCommandReadsBack(spec);
    return Ok(rendered);
  }

  // ---------- Reading a rendered command back ----------

  function WordsOf(ws: seq<string>): seq<Token> {
    seq(|ws|, i requires 0 <= i < |ws| => Word(ws[i]))
  }

  /** The shell words an environment stands for. */
  function Assignments(env: seq<Variable>): seq<string> {
    seq(|env|, i requires 0 <= i < |env| => env[i].name + "=" + env[i].value)
  }

  /** What the remote shell is meant to see. */
  function Intended(spec: CommandSpec): seq<Token> {
    (if spec.directory.None? then [] else [Word("cd"), Word(SafeCdOperand(spec.directory.value)), AndIf]) +
    WordsOf(Assignments(spec.environment) + [spec.program] + spec.arguments)
  }

  /** After a blank, the open word is complete. */
  lemma ReadBlank(rest: string, word: Option<string>)
    ensures Read(" " + rest, Unquoted, word) == Prepend(Flush(word), Tokens(rest))
  {
    assert (" " + rest)[1..] == rest;
  }

  lemma PrependPrepend(a: seq<Token>, b: seq<Token>, r: Result<seq<Token>>)
    ensures Prepend(a, Prepend(b, r)) == Prepend(a + b, r)
  {
    if r.Ok? {
      assert a + (b + r.value) == a + b + r.value;
    }
  }

  /** A blank ends the open word, and the argument becomes the next one. */
  lemma ReadOneArgument(word: string, a: string, rest: string)
    ensures Read(" " + QuotePosix(a) + rest, Unquoted, Some(word)) ==
            Prepend([Word(word)], Read(rest, Unquoted, Some(a)))
  {
    Reassociate(" ", QuotePosix(a), rest);
    ReadBlank(QuotePosix(a) + rest, Some(word));
    ReadQuoted(a, rest, None);
    assert "" + a == a;
  }

  lemma {:induction false} ReadArguments(arguments: seq<string>, word: string)
    ensures Read(RenderArguments(arguments), Unquoted, Some(word)) == Ok(WordsOf([word] + arguments))
    decreases |arguments|
  {
    if arguments == [] {
      assert WordsOf([word] + arguments) == [Word(word)];
    } else {
      var a, rest := arguments[0], RenderArguments(arguments[1..]);
      ReadOneArgument(word, a, rest);
      ReadArguments(arguments[1..], a);
      assert [word] + arguments == [word] + ([a] + arguments[1..]);
      WordsSplit(word, [a] + arguments[1..]);
    }
  }

  lemma WordsConcat(a: seq<string>, b: seq<string>)
    ensures WordsOf(a + b) == WordsOf(a) + WordsOf(b)
  {
  }

  lemma WordsSplit(word: string, rest: seq<string>)
    ensures WordsOf([word] + rest) == [Word(word)] + WordsOf(rest)
  {
  }

  /** `NAME=value` followed by a blank is one word, whatever the value. */
  lemma ReadAssignment(v: Variable, tail: string)
    requires ValidVariable(v)
    ensures Tokens(v.name + "=" + (QuotePosix(v.value) + (" " + tail)))
        == Prepend([Word(v.name + "=" + v.value)], Tokens(tail))
  {
    var start := v.name + "=";
    assert AllSafe(start);
    ReadSafe(start, QuotePosix(v.value) + (" " + tail), None);
    ReadQuoted(v.value, " " + tail, Grow(None, start));
    GrowGrow(None, start, v.value);
    ReadBlank(tail, Grow(None, start + v.value));
    assert "" + (start + v.value) == v.name + "=" + v.value;
  }

  lemma AssignmentText(start: string, q: string, more: string, rest: string)
    ensures start + q + " " + more + rest == start + (q + (" " + (more + rest)))
  {
    Regroup(start, q, " ", more);
    Reassociate(" ", more, rest);
    Reassociate(q, " " + more, rest);
    Reassociate(start, q + (" " + more), rest);
  }

  lemma {:induction false} ReadEnvironment(env: seq<Variable>, rest: string)
    requires forall i :: 0 <= i < |env| ==> ValidVariable(env[i])
    ensures Tokens(RenderEnvironment(env) + rest) == Prepend(WordsOf(Assignments(env)), Tokens(rest))
    decreases |env|
  {
    if env == [] {
      assert RenderEnvironment(env) + rest == rest;
      assert Tokens(rest).Ok? ==> [] + Tokens(rest).value == Tokens(rest).value;
    } else {
      var v, tail := env[0], RenderEnvironment(env[1..]) + rest;
      assert ValidVariable(v);
      AssignmentText(v.name + "=", QuotePosix(v.value), RenderEnvironment(env[1..]), rest);
      ReadAssignment(v, tail);
      ReadEnvironment(env[1..], rest);
      PrependPrepend([Word(v.name + "=" + v.value)], WordsOf(Assignments(env[1..])), Tokens(rest));
      assert WordsOf(Assignments(env)) == [Word(v.name + "=" + v.value)] + WordsOf(Assignments(env[1..]));
    }
  }

  lemma ReadAndIf(rest: string)
    ensures Tokens("&& " + rest) == Prepend([AndIf], Tokens(rest))
  {
    var s := "&& " + rest;
    assert s[0] == '&' && s[1] == '&' && s[2..] == " " + rest;
    ReadBlank(rest, None);
    assert [] + [AndIf] == [AndIf];
    PrependPrepend([AndIf], [], Tokens(rest));
    assert [AndIf] + [] == [AndIf];
  }

  lemma DirectoryText(q: string, rest: string)
    ensures "cd " + q + " && " + rest == "cd" + (" " + (q + (" " + ("&& " + rest))))
  {
    var tail := " " + ("&& " + rest);
    assert " && " + rest == tail;
    assert "cd " + q == "cd" + (" " + q);
    assert "cd " + q + " && " + rest == ("cd " + q) + tail;
    assert ("cd" + (" " + q)) + tail == "cd" + (" " + (q + tail));
  }

  lemma ReadCdWord(rest: string)
    ensures Tokens("cd" + (" " + rest)) == Prepend([Word("cd")], Tokens(rest))
  {
    ReadSafe("cd", " " + rest, None);
    assert "" + "cd" == "cd";
    ReadBlank(rest, Some("cd"));
  }

  lemma ReadQuotedWord(d: string, rest: string)
    ensures Tokens(QuotePosix(d) + (" " + rest)) == Prepend([Word(d)], Tokens(rest))
  {
    ReadQuoted(d, " " + rest, None);
    assert "" + d == d;
    ReadBlank(rest, Some(d));
  }

  lemma ReadDirectory(directory: string, rest: string)
    ensures Tokens(RenderDirectory(Some(directory)) + rest)
         == Prepend([Word("cd"), Word(SafeCdOperand(directory)), AndIf], Tokens(rest))
  {
    var d := SafeCdOperand(directory);
    var after := "&& " + rest;
    DirectoryText(QuotePosix(d), rest);
    ReadCdWord(QuotePosix(d) + (" " + after));
    ReadQuotedWord(d, after);
    ReadAndIf(rest);
    PrependPrepend([Word(d)], [AndIf], Tokens(rest));
    PrependPrepend([Word("cd")], [Word(d)] + [AndIf], Tokens(rest));
    assert [Word("cd")] + ([Word(d)] + [AndIf]) == [Word("cd"), Word(d), AndIf];
  }

  /** A program with its arguments reads back as those words. */
  lemma ReadProgram(program: string, arguments: seq<string>)
    ensures Tokens(QuotePosix(program) + RenderArguments(arguments)) == Ok(WordsOf([program] + arguments))
  {
    ReadQuoted(program, RenderArguments(arguments), None);
    assert "" + program == program;
    ReadArguments(arguments, program);
  }

  lemma ReadBody(spec: CommandSpec)
    requires ValidSpec(spec)
    ensures Tokens(RenderEnvironment(spec.environment) + (QuotePosix(spec.program) + RenderArguments(spec.arguments)))
         == Ok(WordsOf(Assignments(spec.environment) + [spec.program] + spec.arguments))
  {
    ReadProgram(spec.program, spec.arguments);
    ReadEnvironment(spec.environment, QuotePosix(spec.program) + RenderArguments(spec.arguments));
    Reassociate(Assignments(spec.environment), [spec.program], spec.arguments);
    WordsConcat(Assignments(spec.environment), [spec.program] + spec.arguments);
  }

  /** From token `n` on: one word per assignment, the program and its arguments. */
  ghost predicate CommandSeen(tokens: seq<Token>, n: nat, spec: CommandSpec) {
    var m := |spec.environment|;
    && |tokens| == n + m + 1 + |spec.arguments|
    && (forall i :: 0 <= i < m ==>
          tokens[n + i] == Word(spec.environment[i].name + "=" + spec.environment[i].value))
    && tokens[n + m] == Word(spec.program)
    && (forall i :: 0 <= i < |spec.arguments| ==> tokens[n + m + 1 + i] == Word(spec.arguments[i]))
  }

  /**
   The word after `cd` is the directory, with `./` before it if it starts with a dash, so that it is never
   taken for an option.
   */
  ghost predicate OperandSeen(operand: string, directory: string) {
    && (directory != "" && directory[0] == '-' ==> operand == "./" + directory)
    && (directory == "" || directory[0] != '-' ==> operand == directory)
    && (operand == "" || operand[0] != '-')
  }

  /** What the shell sees: `cd`, the directory and `&&` if there is a directory, and then the command. */
  ghost predicate Seen(tokens: seq<Token>, spec: CommandSpec) {
    match spec.directory
    case None => CommandSeen(tokens, 0, spec)
    case Some(directory) =>
      && |tokens| >= 3 && tokens[0] == Word("cd") && tokens[1].Word? && tokens[2] == AndIf
      && OperandSeen(tokens[1].text, directory) && CommandSeen(tokens, 3, spec)
  }

  lemma WordsAreSeen(spec: CommandSpec)
    ensures CommandSeen(WordsOf(Assignments(spec.environment) + [spec.program] + spec.arguments), 0, spec)
  {
  }

  lemma SeenLater(head: seq<Token>, words: seq<Token>, spec: CommandSpec)
    requires CommandSeen(words, 0, spec)
    ensures CommandSeen(head + words, |head|, spec)
  {
    var n, m := |head|, |spec.environment|;
    assert forall i :: 0 <= i < |words| ==> (head + words)[n + i] == words[i];
    assert (head + words)[n + m] == words[m];
    forall i | 0 <= i < |spec.arguments|
      ensures (head + words)[n + m + 1 + i] == Word(spec.arguments[i])
    {
      assert (head + words)[n + (m + 1 + i)] == words[0 + m + 1 + i];
    }
  }

  lemma IntendedIsSeen(spec: CommandSpec)
    ensures Seen(Intended(spec), spec)
  {
    var words := WordsOf(Assignments(spec.environment) + [spec.program] + spec.arguments);
    WordsAreSeen(spec);
    match spec.directory
    case None => assert Intended(spec) == words;
    case Some(directory) =>
      var head := [Word("cd"), Word(SafeCdOperand(directory)), AndIf];
      SeenLater(head, words, spec);
      assert Intended(spec) == head + words;
  }

  /** Every valid command, whatever its arguments contain, reads back as exactly these words. */
  lemma RenderedCommandReadsBack(spec: CommandSpec)
    requires ValidSpec(spec)
    ensures Tokens(Render(spec)).Ok? && Seen(Tokens(Render(spec)).value, spec)
  {
    ReadBody(spec);
    IntendedIsSeen(spec);
    var tail := RenderEnvironment(spec.environment) + (QuotePosix(spec.program) + RenderArguments(spec.arguments));
    var words := WordsOf(Assignments(spec.environment) + [spec.program] + spec.arguments);
    if spec.directory.Some? {
      ReadDirectory(spec.directory.value, tail);
    } else {
      assert "" + tail == tail && [] + words == words;
    }
    assert Tokens(Render(spec)) == Ok(Intended(spec));
  }

  // ---------- Running as another user ----------

  datatype RemoteUser = Current | Sudo(user: string)

  datatype Platform = Posix | Windows

  function CommandForUser(command: string, user: RemoteUser, platform: Platform): Result<string> {
    match user
    case Current => Ok(command)
    case Sudo(u) =>
      if platform.Windows? then Err
      else Ok("sudo -n -u " + QuotePosix(u) + " -- sh -lc " + QuotePosix(command))
  }

  /** Under sudo the remote shell sees eight words, and the eighth is the command itself, unchanged. */
  lemma SudoKeepsTheCommand(command: string, user: string)
    ensures Tokens(CommandForUser(command, Sudo(user), Posix).value)
         == Ok(WordsOf(["sudo", "-n", "-u", user, "--", "sh", "-lc", command]))
  {
    SudoIsRendered(command, user);
    ReadProgram("sudo", SudoArguments(command, user));
    EightWords("sudo", "-n", "-u", user, "--", "sh", "-lc", command);
  }

  lemma EightWords(a: string, b: string, c: string, d: string, e: string, f: string, g: string, h: string)
    ensures [a] + ([b] + ([c] + ([d] + ([e] + ([f] + ([g] + [h])))))) == [a, b, c, d, e, f, g, h]
  {
    assert [e] + ([f] + ([g] + [h])) == [e, f, g, h];
    assert [b] + ([c] + ([d] + [e, f, g, h])) == [b, c, d, e, f, g, h];
  }

  function SudoArguments(command: string, user: string): seq<string> {
    ["-n"] + (["-u"] + ([user] + ShellArguments(command)))
  }

  lemma RenderSudo(command: string, user: string)
    ensures RenderArguments(SudoArguments(command, user))
         == " " + "-n" + (" " + "-u" + (" " + QuotePosix(user) + RenderArguments(ShellArguments(command))))
  {
    PlainWords();
    RenderFirst(user, ShellArguments(command));
    RenderFirst("-u", [user] + ShellArguments(command));
    RenderFirst("-n", ["-u"] + ([user] + ShellArguments(command)));
  }

  lemma SudoIsRendered(command: string, user: string)
    ensures CommandForUser(command, Sudo(user), Posix)
         == Ok(QuotePosix("sudo") + RenderArguments(SudoArguments(command, user)))
  {
    PlainWords();
    RenderShell(command);
    RenderSudo(command, user);
    SudoText(QuotePosix(user), QuotePosix(command));
  }

  function ShellArguments(command: string): seq<string> {
    ["--"] + (["sh"] + (["-lc"] + [command]))
  }

  lemma PlainWords()
    ensures QuotePosix("sudo") == "sudo" && QuotePosix("-n") == "-n" && QuotePosix("-u") == "-u"
    ensures QuotePosix("--") == "--" && QuotePosix("sh") == "sh" && QuotePosix("-lc") == "-lc"
  {
    assert AllSafe("sudo") && AllSafe("-n") && AllSafe("-u") && AllSafe("--") && AllSafe("sh") && AllSafe("-lc");
  }

  lemma RenderShell(command: string)
    ensures RenderArguments(ShellArguments(command))
         == " " + "--" + (" " + "sh" + (" " + "-lc" + (" " + QuotePosix(command) + "")))
  {
    PlainWords();
    RenderFirst(command, []);
    assert [command] + [] == [command];
    RenderFirst("-lc", [command]);
    RenderFirst("sh", ["-lc"] + [command]);
    RenderFirst("--", ["sh"] + (["-lc"] + [command]));
  }

  lemma RenderFirst(first: string, rest: seq<string>)
    ensures RenderArguments([first] + rest) == " " + QuotePosix(first) + RenderArguments(rest)
  {
    assert ([first] + rest)[1..] == rest;
  }

  lemma SudoText(x: string, y: string)
    ensures "sudo -n -u " + x + " -- sh -lc " + y
         == "sudo" + (" " + "-n"
             + (" " + "-u" + (" " + x + (" " + "--" + (" " + "sh" + (" " + "-lc" + (" " + y + "")))))))
  {
  }

  /** Reading the eighth word again recovers the words of the original command. */
  lemma SudoNests(spec: CommandSpec, user: string)
    requires ValidSpec(spec)
    ensures var outer := Tokens(CommandForUser(Render(spec), Sudo(user), Posix).value);
            && outer.Ok? && |outer.value| == 8 && outer.value[7].Word?
            && Tokens(outer.value[7].text).Ok? && Seen(Tokens(outer.value[7].text).value, spec)
  {
    SudoKeepsTheCommand(Render(spec), user);
    RenderedCommandReadsBack(spec);
  }
}
