/** Password-type authentication against any server: auth.rs. */
module Authenticate {
  import opened Wrappers

  const MAX_ROUNDS := 16
  const MAX_PROMPTS_PER_ROUND := 32
  const MAX_TOTAL_PROMPTS := 64

  datatype Method = PasswordMethod | InteractiveMethod | OtherMethod(name: string)

  /** What the client sends. */
  datatype Message =
    | TryPassword(secret: string)
    | StartInteractive
    | Respond(responses: seq<string>)

  /** What the server answers; `Broken` stands for every transport error, as does a question in answer to a password. */
  datatype Reply =
    | Accepted
    | Refused(remaining: set<Method>)
    | Ask(prompts: seq<string>)
    | Broken

  /** Any behaviour: the answer may depend on everything sent so far. */
  type Behaviour = seq<Message> -> Reply

  function Answers(prompts: seq<string>, secret: string): (r: seq<string>)
    ensures |r| == |prompts| && forall i :: 0 <= i < |r| ==> r[i] == if prompts[i] == [] then [] else secret
  {
    seq(|prompts|, i requires 0 <= i < |prompts| => if prompts[i] == [] then [] else secret)
  }

  /** `validate_keyboard_interactive_request`. */
  function Admitted(rounds: nat, prompts: nat, previous: nat): (r: Result<nat>)
    ensures r.Ok? <==>
              rounds <= MAX_ROUNDS && prompts <= MAX_PROMPTS_PER_ROUND && previous + prompts <= MAX_TOTAL_PROMPTS
    ensures r.Ok? ==> r.value == previous + prompts
  {
    if rounds > MAX_ROUNDS then Err
    else if prompts > MAX_PROMPTS_PER_ROUND then Err
    else if previous + prompts > MAX_TOTAL_PROMPTS then Err
    else Ok(previous + prompts)
  }

  function Sibling(m: Method): Method
    requires m.PasswordMethod? || m.InteractiveMethod?
  {
    if m.PasswordMethod? then InteractiveMethod else PasswordMethod
  }

  /** The server switched the method off but offers the other one for the same secret. */
  predicate MayFallBack(rejected: Method, remaining: set<Method>)
    requires rejected.PasswordMethod? || rejected.InteractiveMethod?
  {
    rejected !in remaining && Sibling(rejected) in remaining
  }

  // ---------- Bounds on what was sent ----------

  function Prompts(ms: seq<Message>): nat {
    if ms == [] then 0
    else Prompts(ms[..|ms| - 1]) + if ms[|ms| - 1].Respond? then |ms[|ms| - 1].responses| else 0
  }

  predicate Harmless(r: seq<string>, secret: string) {
    forall i :: 0 <= i < |r| ==> r[i] == [] || r[i] == secret
  }

  /** One conversation: a start and answers within the limits. */
  ghost predicate Conversation(ms: seq<Message>, secret: string) {
    && ms != [] && ms[0].StartInteractive? && |ms| <= 1 + 16 && Prompts(ms) <= 64
    && forall i :: 1 <= i < |ms| ==>
         ms[i].Respond? && |ms[i].responses| <= 32 && Harmless(ms[i].responses, secret)
  }

  /** Answering one more question would leave the limits of a conversation. */
  ghost predicate Exceeds(talk: seq<Message>, prompts: seq<string>) {
    |talk| > 16 || |prompts| > 32 || Prompts(talk) + |prompts| > 64
  }

  /** The message answers the question: the secret for every prompt that has a text. */
  ghost predicate AnswersTo(question: Reply, m: Message, secret: string) {
    && question.Ask? && m.Respond? && |m.responses| == |question.prompts|
    && forall j :: 0 <= j < |m.responses| ==> m.responses[j] == if question.prompts[j] == "" then "" else secret
  }

  /** From message `start` on, every response answers what the server had just asked. */
  ghost predicate AnswersQuestions(server: Behaviour, sent: seq<Message>, start: nat, secret: string) {
    forall i :: start <= i < |sent| && sent[i].Respond? ==> AnswersTo(server(sent[..i]), sent[i], secret)
  }

  lemma OneMoreAnswer(server: Behaviour, sent: seq<Message>, m: Message, start: nat, secret: string)
    requires AnswersQuestions(server, sent, start, secret) && (m.Respond? ==> AnswersTo(server(sent), m, secret))
    ensures AnswersQuestions(server, sent + [m], start, secret)
  {
    var all := sent + [m];
    forall i | start <= i < |all| && all[i].Respond?
      ensures AnswersTo(server(all[..i]), all[i], secret)
    {
      assert all[..i] == sent[..i] && (i == |sent| ==> sent[..i] == sent);
    }
  }

  class Session {
    var sent: seq<Message>
    const server: Behaviour

    constructor (server: Behaviour)
      ensures sent == [] && this.server == server
    {
      this.server := server;
      sent := [];
    }

    method Send(m: Message) returns (reply: Reply)
      modifies this
      ensures sent == old(sent) + [m] && reply == server(sent)
    {
      sent := sent + [m];
      reply := server(sent);
    }

    /** `authenticate_keyboard_interactive`: the methods the server still accepts, if it refuses. */
    method Interactive(secret: string) returns (r: Result<Option<set<Method>>>)
      modifies this
      ensures |sent| > |old(sent)| && sent[..|old(sent)|] == old(sent) && Conversation(sent[|old(sent)|..], secret)
      ensures AnswersQuestions(server, sent, |old(sent)|, secret)
      ensures match server(sent)
              case Accepted => r == Ok(None)
              case Refused(remaining) => r == Ok(Some(remaining))
              case Ask(prompts) => r.Err? && Exceeds(sent[|old(sent)|..], prompts)
              case Broken => r.Err?
    {
      ghost var start := |sent|;
      ghost var talk := [StartInteractive];
      OneMoreAnswer(server, sent, StartInteractive, start, secret);
      var reply := Send(StartInteractive);
      var rounds, total := 0, 0;
      while true
        invariant sent == old(sent) + talk && reply == server(sent)
        invariant |talk| == 1 + rounds && rounds <= MAX_ROUNDS && total == Prompts(talk) <= MAX_TOTAL_PROMPTS
        invariant Conversation(talk, secret) && AnswersQuestions(server, sent, start, secret)
        decreases MAX_ROUNDS - rounds
      {
        assert sent[start..] == talk && sent[..start] == old(sent);
        match reply
        case Accepted => return Ok(None);
        case Refused(remaining) => return Ok(Some(remaining));
        case Broken => return Err;
        case Ask(prompts) =>
          rounds := rounds + 1;
          var admitted := Admitted(rounds, |prompts|, total);
          if admitted.Err? {
            return Err;
          }
          total := admitted.value;
          var answers := Answers(prompts, secret);
          OneMoreAnswer(server, sent, Respond(answers), start, secret);
          reply := Send(Respond(answers));
          ghost var longer := talk + [Respond(answers)];
          assert longer[..|longer| - 1] == talk;
          talk := longer;
      }
    }

    /** `authenticate` with a password. */
    method Password(secret: string) returns (r: Result<bool>)
      requires sent == []
      modifies this
      ensures sent != [] && sent[0] == TryPassword(secret)
      ensures |sent| > 1 <==> SwitchedOff(server([TryPassword(secret)]), PasswordMethod, InteractiveMethod)
      ensures |sent| > 1 ==> Conversation(sent[1..], secret)
      ensures AnswersQuestions(server, sent, 0, secret)
      ensures (r == Ok(true) <==> server(sent) == Accepted) && (r == Ok(false) <==> server(sent).Refused?)
      ensures Bounded(sent, secret)
    {
      var reply := Send(TryPassword(secret));
      assert sent == [TryPassword(secret)];
      PasswordAlone(secret);
      match reply
      case Accepted => r := Ok(true);
      case Ask(_) => r := Err;
      case Broken => r := Err;
      case Refused(remaining) =>
        if !MayFallBack(PasswordMethod, remaining) {
          return Ok(false);
        }
        var again := Interactive(secret);
        assert sent == [TryPassword(secret)] + sent[1..];
        PasswordThenTalk(secret, sent[1..]);
        r := if again.Ok? then Ok(again.value.None?) else Err;
    }

    /** `authenticate` with keyboard-interactive; `talk` is that conversation. */
    method KeyboardInteractive(secret: string) returns (r: Result<bool>, ghost talk: seq<Message>)
      requires sent == []
      modifies this
      ensures Conversation(talk, secret)
      ensures var again := SwitchedOff(server(talk), InteractiveMethod, PasswordMethod);
              sent == if again then talk + [TryPassword(secret)] else talk
      ensures AnswersQuestions(server, sent, 0, secret)
      ensures (r == Ok(true) <==> server(sent) == Accepted) && (r == Ok(false) <==> server(sent).Refused?)
      ensures Bounded(sent, secret)
    {
      var first := Interactive(secret);
      talk := sent;
      assert sent[0..] == sent;
      TalkAlone(secret, talk);
      if first.Err? {
        return Err, talk;
      }
      if first.value.None? {
        return Ok(true), talk;
      }
      if !MayFallBack(InteractiveMethod, first.value.value) {
        return Ok(false), talk;
      }
      TalkThenPassword(secret, talk);
      OneMoreAnswer(server, sent, TryPassword(secret), 0, secret);
      var reply := Send(TryPassword(secret));
      r := match reply case Accepted => Ok(true) case Refused(_) => Ok(false) case _ => Err;
    }
  }

  /** The one situation in which the other method is tried: the first is no longer offered, the other one is. */
  predicate SwitchedOff(reply: Reply, tried: Method, other: Method) {
    reply.Refused? && tried !in reply.remaining && other in reply.remaining
  }

  /** Whatever the server does: one password, one conversation, sixteen rounds, sixty-four prompts. */
  ghost predicate Bounded(sent: seq<Message>, secret: string) {
    && (forall i, j :: 0 <= i < j < |sent| ==> !(sent[i].TryPassword? && sent[j].TryPassword?))
    && (forall i, j :: 0 <= i < j < |sent| ==> !(sent[i].StartInteractive? && sent[j].StartInteractive?))
    && |sent| <= 2 + 16 && Prompts(sent) <= 64
    && (forall i :: 0 <= i < |sent| && sent[i].TryPassword? ==> sent[i].secret == secret)
    && (forall i :: 0 <= i < |sent| && sent[i].Respond? ==>
          |sent[i].responses| <= 32 && Harmless(sent[i].responses, secret))
  }

  lemma {:induction false} PromptsAfter(m: Message, ms: seq<Message>)
    requires !m.Respond?
    ensures Prompts([m] + ms) == Prompts(ms)
  {
    if ms != [] {
      PromptsAfter(m, ms[..|ms| - 1]);
      assert ([m] + ms)[..|ms|] == [m] + ms[..|ms| - 1];
    } else {
      assert ([m] + ms)[..0] == [];
    }
  }

  lemma PasswordAlone(secret: string)
    ensures Bounded([TryPassword(secret)], secret)
  {
    PromptsAfter(TryPassword(secret), []);
    assert [TryPassword(secret)] + [] == [TryPassword(secret)];
  }

  lemma TalkAlone(secret: string, talk: seq<Message>)
    requires Conversation(talk, secret)
    ensures Bounded(talk, secret)
  {
  }

  lemma PasswordThenTalk(secret: string, talk: seq<Message>)
    requires Conversation(talk, secret)
    ensures Bounded([TryPassword(secret)] + talk, secret)
  {
    PromptsAfter(TryPassword(secret), talk);
  }

  lemma TalkThenPassword(secret: string, talk: seq<Message>)
    requires Conversation(talk, secret)
    ensures Bounded(talk + [TryPassword(secret)], secret)
  {
    assert (talk + [TryPassword(secret)])[..|talk|] == talk;
  }
}
