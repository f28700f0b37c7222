/** The conversation a diff policy holds with its language model, across the trials of a campaign. */
module Conversation {
  import opened Wrappers
  import opened Trials
  import UnifiedDiff

  datatype Role = System | User | Assistant

  datatype Message = Message(role: Role, content: string)

  /** What one call of the model gives: a text, or an exception with its message. */
  datatype Answer = Reply(raw: string) | Raised(error: string)

  /** Extraction and validation of the diff in a reply. */
  datatype Verdict = Good(diff: string) | Bad(error: string)

  /** The parts of the policy that are not modelled further: the prompts, and the check of a reply. */
  datatype Setup = Setup(
    system: string,
    prompt: (string, seq<Entry>, string) -> string,
    correction: string -> string,
    check: string -> Verdict)

  /** One call of `propose`: whether the key is set, what the state builder supplies, and the answer that each
      attempt would get. */
  datatype Call = Call(hasKey: bool, history: seq<Entry>, source: string, program: string, answers: seq<Answer>)

  /** What the policy remembers between calls. */
  datatype Memory = Memory(conversation: seq<Message>, lastSeen: Option<nat>)

  datatype Proposal = Drafted(diff: string) | Fallback

  const ATTEMPTS := 3
  const KEPT_MESSAGES := 20
  const BLANK := Memory([], None)

  predicate IsDiff(e: Entry) { "_type" in e.params && e.params["_type"] == "diff" }

  /** The trial number of the most recent kept diff. */
  function LastKept(h: seq<Entry>): Option<nat> {
    if h == [] then None
    else if IsDiff(h[|h| - 1]) && h[|h| - 1].decision == Keep then Some(h[|h| - 1].iter)
    else LastKept(h[..|h| - 1])
  }

  function Trim(c: seq<Message>): seq<Message> {
    if |c| > KEPT_MESSAGES then c[|c| - KEPT_MESSAGES..] else c
  }

  function Judge(s: Setup, a: Answer): Verdict {
    if a.Raised? then Bad(a.error) else s.check(a.raw)
  }

  function Correction(s: Setup, error: string): Message {
    Message(User, s.correction(error))
  }

  /** The message lists sent by the attempts, and the reply and diff that ended them. */
  datatype Session = Session(sent: seq<seq<Message>>, reply: Option<string>, result: Proposal)

  /** The attempts. A failed one adds the latest reply seen, however old, and a correction request. */
  function Attempt(s: Setup, messages: seq<Message>, raw: string, answers: seq<Answer>): Session
    decreases |answers|
  {
    if answers == [] then Session([], None, Fallback)
    else
      var sent := [Message(System, s.system)] + messages;
      var latest := if answers[0].Reply? then answers[0].raw else raw;
      match Judge(s, answers[0])
      case Good(diff) => Session([sent], Some(latest), Drafted(diff))
      case Bad(error) =>
        var more := Attempt(s, messages + [Message(Assistant, latest), Correction(s, error)], latest, answers[1..]);
        more.(sent := [sent] + more.sent)
  }

  /** A session preceded by lists that were sent before it. */
  function After(before: seq<seq<Message>>, rest: Session): Session {
    rest.(sent := before + rest.sent)
  }

  lemma AfterAfter(a: seq<seq<Message>>, b: seq<seq<Message>>, rest: Session)
    ensures After(a, After(b, rest)) == After(a + b, rest) && After([], rest) == rest
  {
    assert a + (b + rest.sent) == (a + b) + rest.sent;
  }

  lemma AttemptStep(s: Setup, messages: seq<Message>, raw: string, answers: seq<Answer>, k: nat)
    requires k < |answers|
    ensures var latest := if answers[k].Reply? then answers[k].raw else raw;
            Attempt(s, messages, raw, answers[k..]) ==
              match Judge(s, answers[k])
              case Good(diff) => Session([[Message(System, s.system)] + messages], Some(latest), Drafted(diff))
              case Bad(error) =>
                After([[Message(System, s.system)] + messages],
                      Attempt(s, messages + [Message(Assistant, latest), Correction(s, error)], latest, answers[k + 1..]))
  {
    assert answers[k..][0] == answers[k] && answers[k..][1..] == answers[k + 1..];
  }

  /** The policy talks to the model only with a key and a source; otherwise it falls back before touching its memory. */
  predicate Active(c: Call) { c.hasKey && c.source != "" }

  function Prompt(s: Setup, c: Call): string { s.prompt(c.source, c.history, c.program) }

  /** Forget the conversation when a diff was kept that it has not seen. */
  function Refresh(m: Memory, h: seq<Entry>): Memory {
    var kept := LastKept(h);
    if kept != None && kept != m.lastSeen then Memory([], kept) else m
  }

  function Talk(s: Setup, m: Memory, c: Call): Session {
    if !Active(c) then Session([], None, Fallback)
    else Attempt(s, Trim(Refresh(m, c.history).conversation) + [Message(User, Prompt(s, c))], "", c.answers)
  }

  /** The memory after a call: a successful one adds its prompt and its reply. */
  function Remember(s: Setup, m: Memory, c: Call): Memory {
    if !Active(c) then m
    else
      var now := Refresh(m, c.history);
      var reply := Talk(s, m, c).reply;
      if reply == None then now
      else now.(conversation := Trim(now.conversation + Pair(Prompt(s, c), reply.value)))
  }

  function Pair(prompt: string, reply: string): seq<Message> { [Message(User, prompt), Message(Assistant, reply)] }

  /** The policy as it runs. */
  class LLMDiffPolicy {
    const setup: Setup
    var conversation: seq<Message>
    var lastSeenKeptDiffIter: Option<nat>

    function View(): Memory
      reads this
    {
      Memory(conversation, lastSeenKeptDiffIter)
    }

    constructor (setup: Setup)
      ensures this.setup == setup && View() == BLANK
    {
      this.setup := setup;
      conversation, lastSeenKeptDiffIter := [], None;
    }

    method FindLastKept(history: seq<Entry>) returns (kept: Option<nat>)
      ensures kept == LastKept(history)
    {
      var i := |history|;
      assert history[..i] == history;
      while i > 0
        invariant 0 <= i <= |history|
        invariant LastKept(history) == LastKept(history[..i])
      {
        i := i - 1;
        var entry := history[i];
        assert history[..i + 1][..i] == history[..i];
        if IsDiff(entry) && entry.decision == Keep {
          return Some(entry.iter);
        }
      }
      return None;
    }

    method ResetOnKeep(history: seq<Entry>)
      modifies this
      ensures View() == Refresh(old(View()), history)
    {
      var kept := FindLastKept(history);
      if kept != None && kept != lastSeenKeptDiffIter {
        conversation := [];
        lastSeenKeptDiffIter := kept;
      }
    }

    method Propose(c: Call) returns (sent: seq<seq<Message>>, result: Proposal)
      requires |c.answers| == ATTEMPTS
      modifies this
      ensures View() == Remember(setup, old(View()), c)
      ensures sent == Talk(setup, old(View()), c).sent && result == Talk(setup, old(View()), c).result
    {
      if !c.hasKey || c.source == "" {
        return [], Fallback;
      }
      ResetOnKeep(c.history);
      sent, result := RetryLoop(c, setup.prompt(c.source, c.history, c.program));
    }

    /** The retry loop: a success stores the clean pair, a failure only lengthens this call's own list. */
    method RetryLoop(c: Call, prompt: string) returns (sent: seq<seq<Message>>, result: Proposal)
      requires |c.answers| == ATTEMPTS
      modifies `conversation
      ensures var session := Attempt(setup, Trim(old(conversation)) + [Message(User, prompt)], "", c.answers);
              && sent == session.sent && result == session.result
              && conversation == (if session.reply == None then old(conversation)
                                  else Trim(old(conversation) + Pair(prompt, session.reply.value)))
    {
      var messages := Trim(conversation) + [Message(User, prompt)];
      ghost var session := Attempt(setup, messages, "", c.answers);
      var raw := "";
      sent := [];
      assert c.answers[0..] == c.answers;
      AfterAfter([], [], session);
      for attempt := 0 to ATTEMPTS
        invariant conversation == old(conversation)
        invariant session == After(sent, Attempt(setup, messages, raw, c.answers[attempt..]))
      {
        var answer := c.answers[attempt];
        AttemptStep(setup, messages, raw, c.answers, attempt);
        ghost var before, now := sent, [[Message(System, setup.system)] + messages];
        sent := sent + [[Message(System, setup.system)] + messages];
        var verdict := Judge(setup, answer);
        if answer.Reply? {
          raw := answer.raw;
        }
        if verdict.Good? {
          conversation := conversation + [Message(User, prompt), Message(Assistant, raw)];
          conversation := Trim(conversation);
          return sent, Drafted(verdict.diff);
        }
        messages := messages + [Message(Assistant, raw), Correction(setup, verdict.error)];
        AfterAfter(before, now, Attempt(setup, messages, raw, c.answers[attempt + 1..]));
      }
      return sent, Fallback;
    }
  }

  // ---------------------------------------------------------------- the shape of what is sent

  /** Roles take turns, the user first. */
  predicate Turns(ms: seq<Message>) {
    forall k :: 0 <= k < |ms| ==> ms[k].role == if k % 2 == 0 then User else Assistant
  }

  /** Whole exchanges, at most ten. */
  predicate Exchanges(ms: seq<Message>) {
    Turns(ms) && |ms| % 2 == 0 && |ms| <= KEPT_MESSAGES
  }

  /** The system prompt first, then turns that end with the user. */
  predicate WellFormed(s: Setup, ms: seq<Message>) {
    |ms| >= 2 && |ms| % 2 == 0 && ms[0] == Message(System, s.system) && Turns(ms[1..])
  }

  lemma {:induction false} AttemptShape(s: Setup, messages: seq<Message>, raw: string, answers: seq<Answer>)
    requires Turns(messages) && |messages| % 2 == 1
    ensures var sent := Attempt(s, messages, raw, answers).sent;
            && |sent| <= |answers|
            && forall a :: 0 <= a < |sent| ==>
                 && WellFormed(s, sent[a])
                 && |sent[a]| == 1 + |messages| + 2 * a
                 && sent[a][1..1 + |messages|] == messages
    decreases |answers|
  {
    if answers != [] && Judge(s, answers[0]).Bad? {
      var latest := if answers[0].Reply? then answers[0].raw else raw;
      var longer := messages + [Message(Assistant, latest), Correction(s, Judge(s, answers[0]).error)];
      AttemptShape(s, longer, latest, answers[1..]);
      var sent, more := Attempt(s, messages, raw, answers).sent, Attempt(s, longer, latest, answers[1..]).sent;
      forall a | 1 <= a < |sent|
        ensures sent[a] == more[a - 1] && sent[a][1..1 + |messages|] == messages
      {
        assert more[a - 1][1..1 + |messages|] == more[a - 1][1..1 + |longer|][..|messages|];
        assert longer[..|messages|] == messages;
      }
    }
  }

  /** An answer that gives a diff: the model replied, and the reply passes the check. */
  predicate Succeeds(s: Setup, a: Answer) { a.Reply? && s.check(a.raw).Good? }

  /** What is wrong with an answer that does not: the exception, or the complaint of the check. */
  function Complaint(s: Setup, a: Answer): string
    requires !Succeeds(s, a)
  {
    if a.Raised? then a.error else s.check(a.raw).error
  }

  /** The text that a correction answers to, after attempt `j`: the last reply so far, or nothing. */
  predicate Answered(answers: seq<Answer>, j: nat, raw: string, content: string)
    requires j < |answers|
  {
    && (forall m :: 0 <= m <= j && answers[m].Reply? && (forall q :: m < q <= j ==> answers[q].Raised?) ==> content == answers[m].raw)
    && ((forall m :: 0 <= m <= j ==> answers[m].Raised?) ==> content == raw)
  }

  /** The list of attempt `a`: what every attempt sends, and for each attempt before it the text it got and the request to
      correct it. */
  predicate Corrected(s: Setup, messages: seq<Message>, raw: string, answers: seq<Answer>, sent: seq<Message>, a: nat)
    requires a <= |answers|
    requires forall j :: 0 <= j < a ==> !Succeeds(s, answers[j])
  {
    && |sent| == 1 + |messages| + 2 * a
    && sent[..1 + |messages|] == [Message(System, s.system)] + messages
    && var added := sent[1 + |messages|..];
       forall j :: 0 <= j < a ==> CorrectedAt(s, raw, answers, j, added[2 * j], added[1 + 2 * j])
  }

  /** The two messages about attempt `j`. */
  predicate CorrectedAt(s: Setup, raw: string, answers: seq<Answer>, j: nat, got: Message, request: Message)
    requires j < |answers| && !Succeeds(s, answers[j])
  {
    && got.role == Assistant && Answered(answers, j, raw, got.content)
    && request == Message(User, s.correction(Complaint(s, answers[j])))
  }

  lemma AnsweredLater(answers: seq<Answer>, j: nat, raw: string, content: string)
    requires 0 < j < |answers|
    requires Answered(answers[1..], j - 1, if answers[0].Reply? then answers[0].raw else raw, content)
    ensures Answered(answers, j, raw, content)
  {
    var rest := answers[1..];
    forall m | 0 <= m <= j && answers[m].Reply? && forall q :: m < q <= j ==> answers[q].Raised?
      ensures content == answers[m].raw
    {
      if m == 0 {
        assert forall q :: 0 <= q <= j - 1 ==> rest[q] == answers[q + 1];
      } else {
        assert rest[m - 1] == answers[m] && forall q :: m - 1 < q <= j - 1 ==> rest[q] == answers[q + 1];
      }
    }
    if forall m :: 0 <= m <= j ==> answers[m].Raised? {
      assert forall q :: 0 <= q <= j - 1 ==> rest[q] == answers[q + 1];
    }
  }

  lemma CorrectedLater(s: Setup, messages: seq<Message>, raw: string, answers: seq<Answer>, sent: seq<Message>, a: nat)
    requires 0 < a <= |answers| && forall j :: 0 <= j < a ==> !Succeeds(s, answers[j])
    requires var latest := if answers[0].Reply? then answers[0].raw else raw;
             var longer := messages + [Message(Assistant, latest), Correction(s, Complaint(s, answers[0]))];
             && (forall j :: 0 <= j < a - 1 ==> !Succeeds(s, answers[1..][j]))
             && Corrected(s, longer, latest, answers[1..], sent, a - 1)
    ensures Corrected(s, messages, raw, answers, sent, a)
  {
    var latest := if answers[0].Reply? then answers[0].raw else raw;
    var n := 1 + |messages|;
    FirstCorrection(s, messages, latest, Complaint(s, answers[0]), sent);
    TwoFurther(sent, n, a);
    assert CorrectedAt(s, raw, answers, 0, sent[n..][0], sent[n..][1]);
    LaterCorrections(s, raw, answers, sent[n..], a);
  }

  lemma TwoFurther(sent: seq<Message>, n: nat, a: nat)
    requires a > 0 && |sent| == n + 2 * a
    ensures sent[n..][0] == sent[n] && sent[n..][1] == sent[n + 1]
    ensures forall i :: 0 <= i < a - 1 ==>
              sent[n + 2..][2 * i] == sent[n..][2 + 2 * i] && sent[n + 2..][1 + 2 * i] == sent[n..][3 + 2 * i]
  {
  }

  /** The messages about the later attempts, behind the two about the first. */
  lemma LaterCorrections(s: Setup, raw: string, answers: seq<Answer>, added: seq<Message>, a: nat)
    requires 0 < a <= |answers| && |added| == 2 * a && forall j :: 0 <= j < a ==> !Succeeds(s, answers[j])
    requires forall i :: 0 <= i < a - 1 ==> !Succeeds(s, answers[1..][i])
    requires var latest := if answers[0].Reply? then answers[0].raw else raw;
             forall i :: 0 <= i < a - 1 ==> CorrectedAt(s, latest, answers[1..], i, added[2 + 2 * i], added[3 + 2 * i])
    ensures forall j :: 1 <= j < a ==> CorrectedAt(s, raw, answers, j, added[2 * j], added[1 + 2 * j])
  {
    forall j | 1 <= j < a
      ensures CorrectedAt(s, raw, answers, j, added[2 * j], added[1 + 2 * j])
    {
      var i := j - 1;
      assert added[2 * j] == added[2 + 2 * i] && added[1 + 2 * j] == added[3 + 2 * i];
      CorrectedAtLater(s, raw, answers, j, added[2 * j], added[1 + 2 * j]);
    }
  }

  lemma CorrectedAtLater(s: Setup, raw: string, answers: seq<Answer>, j: nat, got: Message, request: Message)
    requires 0 < j < |answers| && !Succeeds(s, answers[j])
    requires CorrectedAt(s, if answers[0].Reply? then answers[0].raw else raw, answers[1..], j - 1, got, request)
    ensures CorrectedAt(s, raw, answers, j, got, request)
  {
    AnsweredLater(answers, j, raw, got.content);
  }

  lemma FirstCorrection(s: Setup, messages: seq<Message>, latest: string, error: string, sent: seq<Message>)
    requires |sent| >= 3 + |messages|
    requires sent[..3 + |messages|] ==
             [Message(System, s.system)] + (messages + [Message(Assistant, latest), Correction(s, error)])
    ensures sent[..1 + |messages|] == [Message(System, s.system)] + messages
    ensures sent[1 + |messages|] == Message(Assistant, latest) && sent[2 + |messages|] == Correction(s, error)
  {
    var n, top := 1 + |messages|, sent[..3 + |messages|];
    assert sent[..n] == top[..n] && sent[n] == top[n] && sent[n + 1] == top[n + 1];
  }

  /** What the attempts do. They go on up to the first answer that gives a diff, which is the result, and whose text is what
      is remembered; if there is none, all of them are made and there is no result. Attempt `a` sends the given messages
      and, for each attempt before it, the text it got and a request to correct exactly what was wrong with it. */
  lemma {:induction false} AttemptMeans(s: Setup, messages: seq<Message>, raw: string, answers: seq<Answer>, n: nat)
    requires n <= |answers| && (forall j :: 0 <= j < n ==> !Succeeds(s, answers[j]))
    requires n < |answers| ==> Succeeds(s, answers[n])
    ensures var session := Attempt(s, messages, raw, answers);
            && (if n < |answers| then
                  && |session.sent| == n + 1
                  && session.result == Drafted(s.check(answers[n].raw).diff) && session.reply == Some(answers[n].raw)
                else |session.sent| == n && session.result == Fallback && session.reply == None)
            && forall a :: 0 <= a < |session.sent| ==> Corrected(s, messages, raw, answers, session.sent[a], a)
    decreases |answers|
  {
    if n > 0 {
      var latest := if answers[0].Reply? then answers[0].raw else raw;
      var longer := messages + [Message(Assistant, latest), Correction(s, Complaint(s, answers[0]))];
      assert forall j :: 0 <= j < |answers| - 1 ==> answers[1..][j] == answers[j + 1];
      AttemptMeans(s, longer, latest, answers[1..], n - 1);
      var session, more := Attempt(s, messages, raw, answers), Attempt(s, longer, latest, answers[1..]);
      assert session == After([[Message(System, s.system)] + messages], more);
      forall a | 0 <= a < |session.sent|
        ensures Corrected(s, messages, raw, answers, session.sent[a], a)
      {
        if a > 0 {
          assert session.sent[a] == more.sent[a - 1];
          CorrectedLater(s, messages, raw, answers, session.sent[a], a);
        }
      }
    }
  }

  /** The last ten exchanges of a list, or all of them. */
  lemma TrimMeans(c: seq<Message>)
    ensures |Trim(c)| == Min(20, |c|) && Trim(c) == c[|c| - |Trim(c)|..]
  {
  }

  /** A call without a key or a source sends nothing and forgets nothing. Any other call makes at most three attempts,
      behind the last ten exchanges that are not forgotten because a new diff was kept. It stores its prompt and the first good
      reply; if there is none, it stores nothing and falls back. */
  lemma CallMeans(s: Setup, m: Memory, c: Call, n: nat)
    requires |c.answers| == ATTEMPTS && n <= 3 && forall j :: 0 <= j < n ==> !Succeeds(s, c.answers[j])
    requires n < 3 ==> Succeeds(s, c.answers[n])
    ensures var session, after := Talk(s, m, c), Remember(s, m, c);
            var kept := LastKept(c.history);
            var prior := if kept.Some? && kept != m.lastSeen then [] else m.conversation;
            var prompt := Message(User, s.prompt(c.source, c.history, c.program));
            if !c.hasKey || c.source == "" then session.sent == [] && session.result == Fallback && after == m
            else
              && |session.sent| == Min(n + 1, 3)
              && (forall a :: 0 <= a < |session.sent| ==>
                    Corrected(s, prior[Max(0, |prior| - 20)..] + [prompt], "", c.answers, session.sent[a], a))
              && after.lastSeen == (if kept.Some? then kept else m.lastSeen)
              && if n < 3 then
                   var stored := prior + [prompt, Message(Assistant, c.answers[n].raw)];
                   session.result == Drafted(s.check(c.answers[n].raw).diff) && after.conversation == stored[Max(0, |stored| - 20)..]
                 else session.result == Fallback && after.conversation == prior
  {
    if Active(c) {
      var prior := Refresh(m, c.history).conversation;
      AttemptMeans(s, Trim(prior) + [Message(User, Prompt(s, c))], "", c.answers, n);
      TrimMeans(prior);
      if n < 3 {
        Stored(prior, Prompt(s, c), c.answers[n].raw);
      }
    }
  }

  lemma Stored(prior: seq<Message>, prompt: string, reply: string)
    ensures var stored := prior + [Message(User, prompt), Message(Assistant, reply)];
            Trim(prior + Pair(prompt, reply)) == stored[Max(0, |stored| - 20)..]
  {
    TrimMeans(prior + Pair(prompt, reply));
  }

  // ---------------------------------------------------------------- over a campaign

  function Converse(s: Setup, cs: seq<Call>): Memory {
    if cs == [] then BLANK else Remember(s, Converse(s, cs[..|cs| - 1]), cs[|cs| - 1])
  }

  /** The message lists sent by call `i`. */
  function SentBy(s: Setup, cs: seq<Call>, i: nat): seq<seq<Message>>
    requires i < |cs|
  {
    Talk(s, Converse(s, cs[..i]), cs[i]).sent
  }

  /** The histories grow by appending, and number their entries in order. */
  ghost predicate AppendOnly(cs: seq<Call>) {
    && (forall i, j :: 0 <= i <= j < |cs| ==> cs[i].history <= cs[j].history)
    && (forall i :: 0 <= i < |cs| ==> Numbered(cs[i].history))
  }

  predicate Numbered(h: seq<Entry>) {
    forall k :: 0 <= k < |h| ==> h[k].iter == k
  }

  /** The first acceptable answer, which is the only one that can be remembered. */
  function FirstGood(s: Setup, answers: seq<Answer>): Option<string> {
    if answers == [] then None
    else if answers[0].Reply? && s.check(answers[0].raw).Good? then Some(answers[0].raw)
    else FirstGood(s, answers[1..])
  }

  /** The exchanges of the calls that succeeded while `kept` was the last kept diff. */
  function Successes(s: Setup, cs: seq<Call>, kept: Option<nat>): seq<Message> {
    if cs == [] then []
    else
      var c := cs[|cs| - 1];
      var reply := FirstGood(s, c.answers);
      Successes(s, cs[..|cs| - 1], kept)
      + if Active(c) && reply.Some? && LastKept(c.history) == kept then Pair(Prompt(s, c), reply.value) else []
  }

  lemma {:induction false} ReplyIsFirstGood(s: Setup, messages: seq<Message>, raw: string, answers: seq<Answer>)
    ensures Attempt(s, messages, raw, answers).reply == FirstGood(s, answers)
    decreases |answers|
  {
    if answers != [] && Judge(s, answers[0]).Bad? {
      var latest := if answers[0].Reply? then answers[0].raw else raw;
      ReplyIsFirstGood(s, messages + [Message(Assistant, latest), Correction(s, Judge(s, answers[0]).error)], latest, answers[1..]);
    }
  }

  lemma TurnsAppend(ms: seq<Message>, prompt: string, reply: string)
    requires Turns(ms) && |ms| % 2 == 0
    ensures Turns(ms + Pair(prompt, reply)) && |ms + Pair(prompt, reply)| % 2 == 0
  {
  }

  lemma {:induction false} SuccessesShape(s: Setup, cs: seq<Call>, kept: Option<nat>)
    ensures Turns(Successes(s, cs, kept)) && |Successes(s, cs, kept)| % 2 == 0
    decreases |cs|
  {
    if cs != [] {
      var init, c := cs[..|cs| - 1], cs[|cs| - 1];
      SuccessesShape(s, init, kept);
      if FirstGood(s, c.answers).Some? {
        TurnsAppend(Successes(s, init, kept), Prompt(s, c), FirstGood(s, c.answers).value);
      }
    }
  }

  /** The order of kept diffs in time; `None` is before all of them. */
  predicate AtMost(a: Option<nat>, b: Option<nat>) {
    a == None || (b.Some? && a.value <= b.value)
  }

  lemma {:induction false} LastKeptInRange(h: seq<Entry>)
    requires Numbered(h)
    ensures LastKept(h).Some? ==> LastKept(h).value < |h|
    decreases |h|
  {
    if h != [] {
      LastKeptInRange(h[..|h| - 1]);
    }
  }

  /** Longer histories have later kept diffs. */
  lemma {:induction false} LastKeptGrows(h: seq<Entry>, longer: seq<Entry>)
    requires h <= longer && Numbered(longer)
    ensures AtMost(LastKept(h), LastKept(longer))
    decreases |longer|
  {
    if h != longer {
      var init := longer[..|longer| - 1];
      LastKeptGrows(h, init);
      LastKeptInRange(init);
    }
  }

  /** No active call of `cs` saw a later kept diff than `kept`. */
  ghost predicate SeenBy(cs: seq<Call>, kept: Option<nat>) {
    forall i :: 0 <= i < |cs| && Active(cs[i]) ==> AtMost(LastKept(cs[i].history), kept)
  }

  ghost predicate Witnessed(cs: seq<Call>, kept: Option<nat>) {
    kept == None || exists i :: 0 <= i < |cs| && LastKept(cs[i].history) == kept
  }

  /** What the memory holds after the calls `cs`. */
  ghost predicate Remembers(s: Setup, cs: seq<Call>, m: Memory) {
    && m.conversation == Trim(Successes(s, cs, m.lastSeen))
    && SeenBy(cs, m.lastSeen)
    && Witnessed(cs, m.lastSeen)
  }

  lemma {:induction false} NoSuccesses(s: Setup, cs: seq<Call>, seen: Option<nat>, kept: Option<nat>)
    requires SeenBy(cs, seen) && !AtMost(kept, seen)
    ensures Successes(s, cs, kept) == []
    decreases |cs|
  {
    if cs != [] {
      NoSuccesses(s, cs[..|cs| - 1], seen, kept);
    }
  }

  lemma AllBefore(cs: seq<Call>, seen: Option<nat>, h: seq<Entry>)
    requires Numbered(h) && forall i :: 0 <= i < |cs| ==> cs[i].history <= h
    ensures SeenBy(cs, LastKept(h))
    ensures Witnessed(cs, seen) ==> AtMost(seen, LastKept(h))
  {
    forall i | 0 <= i < |cs|
      ensures AtMost(LastKept(cs[i].history), LastKept(h))
    {
      LastKeptGrows(cs[i].history, h);
    }
  }

  /** A new call finds exactly the exchanges that succeeded under the diff that is the last kept one now. */
  lemma Refreshed(s: Setup, cs: seq<Call>, m: Memory, h: seq<Entry>)
    requires Remembers(s, cs, m) && AtMost(m.lastSeen, LastKept(h))
    ensures Refresh(m, h) == Memory(Trim(Successes(s, cs, LastKept(h))), LastKept(h))
  {
    if LastKept(h) != m.lastSeen {
      NoSuccesses(s, cs, m.lastSeen, LastKept(h));
    }
  }

  lemma TrimTrim(a: seq<Message>, b: seq<Message>)
    requires |b| <= KEPT_MESSAGES
    ensures Trim(Trim(a) + b) == Trim(a + b)
  {
  }

  lemma {:induction false} AlwaysRemembers(s: Setup, cs: seq<Call>)
    requires AppendOnly(cs)
    ensures Remembers(s, cs, Converse(s, cs))
    decreases |cs|
  {
    if cs != [] {
      var init, c := cs[..|cs| - 1], cs[|cs| - 1];
      assert forall i :: 0 <= i < |init| ==> init[i] == cs[i];
      AlwaysRemembers(s, init);
      AllBefore(init, Converse(s, init).lastSeen, c.history);
      OneMore(s, init, Converse(s, init), c);
      assert cs == init + [c];
    }
  }

  lemma SeenByMore(init: seq<Call>, c: Call, kept: Option<nat>)
    requires SeenBy(init, kept) && (Active(c) ==> AtMost(LastKept(c.history), kept))
    ensures SeenBy(init + [c], kept)
  {
  }

  lemma WitnessedByMore(init: seq<Call>, c: Call, kept: Option<nat>)
    requires Witnessed(init, kept) || LastKept(c.history) == kept
    ensures Witnessed(init + [c], kept)
  {
    var cs := init + [c];
    if kept != None {
      if LastKept(c.history) == kept {
        assert cs[|init|] == c;
      } else {
        var i :| 0 <= i < |init| && LastKept(init[i].history) == kept;
        assert cs[i] == init[i];
      }
    }
  }

  /** A call that talks to the model leaves the exchanges under the last kept diff, its own included. */
  lemma ActiveMore(s: Setup, init: seq<Call>, m: Memory, c: Call)
    requires Remembers(s, init, m) && AtMost(m.lastSeen, LastKept(c.history)) && Active(c)
    ensures Remember(s, m, c) == Memory(Trim(Successes(s, init + [c], LastKept(c.history))), LastKept(c.history))
  {
    var kept, reply := LastKept(c.history), FirstGood(s, c.answers);
    assert (init + [c])[..|init|] == init;
    Refreshed(s, init, m, c.history);
    ReplyIsFirstGood(s, Trim(Trim(Successes(s, init, kept))) + [Message(User, Prompt(s, c))], "", c.answers);
    if reply.Some? {
      TrimTrim(Successes(s, init, kept), Pair(Prompt(s, c), reply.value));
    }
  }

  lemma OneMore(s: Setup, init: seq<Call>, m: Memory, c: Call)
    requires Remembers(s, init, m)
    requires SeenBy(init, LastKept(c.history)) && AtMost(m.lastSeen, LastKept(c.history))
    ensures Remembers(s, init + [c], Remember(s, m, c))
  {
    var kept := if Active(c) then LastKept(c.history) else m.lastSeen;
    SeenByMore(init, c, kept);
    WitnessedByMore(init, c, kept);
    if Active(c) {
      ActiveMore(s, init, m, c);
    } else {
      assert (init + [c])[..|init|] == init;
    }
  }

  /** The list that attempt number `attempt` sends: the system prompt, the exchanges `prior`, the prompt, and two
      messages per attempt that already failed. Roles alternate and the user speaks last. */
  predicate Shows(s: Setup, sent: seq<Message>, prior: seq<Message>, prompt: string, attempt: nat) {
    && WellFormed(s, sent)
    && |sent| == |prior| + 2 + 2 * attempt
    && sent[1..|prior| + 2] == prior + [Message(User, prompt)]
  }

  lemma TalkShows(s: Setup, m: Memory, c: Call, prior: seq<Message>)
    requires Active(c) && Exchanges(prior) && Trim(Refresh(m, c.history).conversation) == prior
    ensures var sent := Talk(s, m, c).sent;
            && |sent| <= |c.answers|
            && forall a :: 0 <= a < |sent| ==> Shows(s, sent[a], prior, Prompt(s, c), a)
  {
    var messages := prior + [Message(User, Prompt(s, c))];
    AttemptShape(s, messages, "", c.answers);
  }

  /** All that call `i` sends: at most three lists, each with the same exchanges before the prompt of today. */
  ghost predicate Sends(s: Setup, cs: seq<Call>, i: nat, prior: seq<Message>)
    requires i < |cs|
  {
    && |SentBy(s, cs, i)| <= ATTEMPTS
    && forall a :: 0 <= a < |SentBy(s, cs, i)| ==> Shows(s, SentBy(s, cs, i)[a], prior, Prompt(s, cs[i]), a)
  }

  /** What the model is shown. The exchanges that call `i` shows are the last ten among the earlier calls that succeeded
      while the last kept diff was the one of today. Nothing else of earlier calls is in any of its lists: no failed
      attempt, and nothing said before that diff was kept. */
  lemma SentIsCurrent(s: Setup, cs: seq<Call>, i: nat)
    requires AppendOnly(cs) && i < |cs| && Active(cs[i]) && |cs[i].answers| == ATTEMPTS
    ensures var prior := Trim(Successes(s, cs[..i], LastKept(cs[i].history)));
            Exchanges(prior) && Sends(s, cs, i, prior)
  {
    var before, c := cs[..i], cs[i];
    assert before + [c] <= cs;
    assert forall j :: 0 <= j < i ==> before[j] == cs[j];
    ShownBefore(s, before, c);
  }

  lemma ShownBefore(s: Setup, before: seq<Call>, c: Call)
    requires AppendOnly(before) && Active(c) && Numbered(c.history)
    requires forall j :: 0 <= j < |before| ==> before[j].history <= c.history
    ensures var sent, prior := Talk(s, Converse(s, before), c).sent, Trim(Successes(s, before, LastKept(c.history)));
            && |sent| <= |c.answers|
            && Exchanges(prior)
            && forall a :: 0 <= a < |sent| ==> Shows(s, sent[a], prior, Prompt(s, c), a)
  {
    var m, kept := Converse(s, before), LastKept(c.history);
    AlwaysRemembers(s, before);
    AllBefore(before, m.lastSeen, c.history);
    Refreshed(s, before, m, c.history);
    SuccessesShape(s, before, kept);
    TrimmedTwice(Successes(s, before, kept));
    TalkShows(s, m, c, Trim(Successes(s, before, kept)));
  }

  lemma TrimmedTwice(ms: seq<Message>)
    requires Turns(ms) && |ms| % 2 == 0
    ensures Exchanges(Trim(ms)) && Trim(Trim(ms)) == Trim(ms)
  {
  }

  // ---------------------------------------------------------------- which histories carry the tag

  /** What a trial proposed, and the fate of the proposal. */
  datatype Change = NewDiff(diff: string) | NewParams(params: Params)

  datatype Fate = Fate(change: Change, status: string, decision: Decision, metrics: Metrics)

  /** The parameters that the two modes record in the history. */
  function HybridParams(c: Change): Params {
    match c
    case NewDiff(diff) => map["diff" := diff, "diff_len" := UnifiedDiff.PrintNat(|diff|), "_type" := "diff"]
    case NewParams(params) => params["_type" := "param"]
  }

  function DiffModeParams(diff: string): Params {
    map["diff" := diff, "diff_len" := UnifiedDiff.PrintNat(|diff|)]
  }

  function RecordedParams(hybrid: bool, c: Change): Params {
    if hybrid then HybridParams(c) else match c case NewDiff(diff) => DiffModeParams(diff) case NewParams(params) => params
  }

  /** The history in which trial `i` is entry `i`. */
  function History(hybrid: bool, fs: seq<Fate>): (h: seq<Entry>)
    ensures |h| == |fs|
  {
    seq(|fs|, i requires 0 <= i < |fs| => Entry(i, fs[i].status, fs[i].decision, fs[i].metrics, RecordedParams(hybrid, fs[i].change)))
  }

  predicate KeptDiff(f: Fate) { f.change.NewDiff? && f.decision == Keep }

  /** In hybrid mode the tag tells the truth: what the policy finds is the last trial that was a diff and was kept. */
  lemma {:induction false} HybridFindsLastKept(fs: seq<Fate>)
    ensures match LastKept(History(true, fs))
            case None => forall i :: 0 <= i < |fs| ==> !KeptDiff(fs[i])
            case Some(k) => k < |fs| && KeptDiff(fs[k]) && forall i :: k < i < |fs| ==> !KeptDiff(fs[i])
  {
    if fs != [] {
      var n := |fs| - 1;
      HybridFindsLastKept(fs[..n]);
      assert History(true, fs)[..n] == History(true, fs[..n]);
      assert forall i :: 0 <= i < n ==> fs[..n][i] == fs[i];
    }
  }

  /** In pure diff mode nothing is tagged, so the policy never finds a kept diff. */
  lemma {:induction false} DiffModeFindsNothing(fs: seq<Fate>)
    requires forall i :: 0 <= i < |fs| ==> fs[i].change.NewDiff?
    ensures LastKept(History(false, fs)) == None
  {
    if fs != [] {
      var n := |fs| - 1;
      DiffModeFindsNothing(fs[..n]);
      assert History(false, fs)[..n] == History(false, fs[..n]);
    }
  }

  /** So there the conversation survives every kept diff: with a model that always answers well, the second prompt of a
      campaign whose first diff was kept still follows the exchange about the replaced source. In hybrid mode it does not. */
  lemma DiffModeKeepsStaleExchanges(s: Setup, raw: string, source: string, patched: string, diff: string)
    requires source != "" && patched != "" && s.check(raw) == Good(diff)
    ensures var kept := Fate(NewDiff(diff), "ok", Keep, map[]);
            var first := Call(true, [], source, "", [Reply(raw), Reply(raw), Reply(raw)]);
            && (var second := first.(history := History(false, [kept]), source := patched);
                SentBy(s, [first, second], 1)[0][1..3] == Pair(Prompt(s, first), raw))
            && (var second := first.(history := History(true, [kept]), source := patched);
                SentBy(s, [first, second], 1)[0][1..] == [Message(User, Prompt(s, second))])
  {
    var kept := Fate(NewDiff(diff), "ok", Keep, map[]);
    var first := Call(true, [], source, "", [Reply(raw), Reply(raw), Reply(raw)]);
    DiffModeFindsNothing([kept]);
    HybridFindsLastKept([kept]);
    SecondList(s, first, first.(history := History(false, [kept]), source := patched), raw);
    SecondList(s, first, first.(history := History(true, [kept]), source := patched), raw);
  }

  /** The first list that the second call of a campaign sends, after a first call that succeeded at once. */
  lemma SecondList(s: Setup, first: Call, second: Call, raw: string)
    requires Active(first) && first.history == [] && |first.answers| > 0
    requires first.answers[0] == Reply(raw) && s.check(raw).Good?
    requires Active(second) && |second.answers| > 0
    ensures var m := Memory(Pair(Prompt(s, first), raw), None);
            && SentBy(s, [first, second], 1) != []
            && SentBy(s, [first, second], 1)[0] ==
               [Message(System, s.system)] + (Refresh(m, second.history).conversation + [Message(User, Prompt(s, second))])
  {
    var m := Memory(Pair(Prompt(s, first), raw), None);
    AfterFirst(s, first, raw);
    assert [first, second][..1] == [first];
    assert Trim(Refresh(m, second.history).conversation) == Refresh(m, second.history).conversation;
  }

  lemma AfterFirst(s: Setup, first: Call, raw: string)
    requires Active(first) && first.history == [] && |first.answers| > 0
    requires first.answers[0] == Reply(raw) && s.check(raw).Good?
    ensures Converse(s, [first]) == Memory(Pair(Prompt(s, first), raw), None)
  {
    assert [first][..0] == [];
    assert Converse(s, []) == BLANK;
  }

  // ---------------------------------------------------------------- whole campaigns in both modes

  /** The calls of a campaign: call `j` is made after the first `lens[j]` trials, and finds their history. */
  ghost predicate FromCampaign(hybrid: bool, fs: seq<Fate>, cs: seq<Call>, lens: seq<nat>) {
    && |lens| == |cs|
    && (forall j :: 0 <= j < |cs| ==> lens[j] <= |fs| && cs[j].history == History(hybrid, fs[..lens[j]]))
    && Ascending(lens)
  }

  ghost predicate Ascending(lens: seq<nat>) {
    forall i, j :: 0 <= i <= j < |lens| ==> lens[i] <= lens[j]
  }

  /** The last of the first `n` trials that was a diff and was kept. */
  ghost predicate IsLastKept(fs: seq<Fate>, n: nat, last: Option<nat>)
    requires n <= |fs|
  {
    match last
    case None => forall i :: 0 <= i < n ==> !KeptDiff(fs[i])
    case Some(k) => k < n && KeptDiff(fs[k]) && forall i :: k < i < n ==> !KeptDiff(fs[i])
  }

  /** The exchanges of the calls that succeeded after at least `from` and fewer than `to` trials. */
  function SuccessesSeen(s: Setup, cs: seq<Call>, lens: seq<nat>, from: nat, to: nat): seq<Message>
    requires |lens| == |cs|
  {
    if cs == [] then []
    else
      var n := |cs| - 1;
      var c, reply := cs[n], FirstGood(s, cs[n].answers);
      SuccessesSeen(s, cs[..n], lens[..n], from, to)
      + if Active(c) && reply.Some? && from <= lens[n] < to then Pair(Prompt(s, c), reply.value) else []
  }

  /** If the tag finds `kept` exactly for the calls in that range, the exchanges are the same. */
  lemma {:induction false} TaggedAreSeen(s: Setup, cs: seq<Call>, lens: seq<nat>, kept: Option<nat>, from: nat, to: nat)
    requires |lens| == |cs|
    requires forall j :: 0 <= j < |cs| ==> (LastKept(cs[j].history) == kept <==> from <= lens[j] < to)
    ensures Successes(s, cs, kept) == SuccessesSeen(s, cs, lens, from, to)
    decreases |cs|
  {
    if cs != [] {
      TaggedAreSeen(s, cs[..|cs| - 1], lens[..|cs| - 1], kept, from, to);
    }
  }

  lemma {:induction false} NoneSeen(s: Setup, cs: seq<Call>, lens: seq<nat>, from: nat, to: nat)
    requires |lens| == |cs| && forall j :: 0 <= j < |cs| ==> lens[j] < from
    ensures SuccessesSeen(s, cs, lens, from, to) == []
    decreases |cs|
  {
    if cs != [] {
      NoneSeen(s, cs[..|cs| - 1], lens[..|cs| - 1], from, to);
    }
  }

  /** Exchanges from before and from after a moment. */
  lemma {:induction false} SeenSplit(s: Setup, cs: seq<Call>, lens: seq<nat>, mid: nat, to: nat)
    requires |lens| == |cs| && Ascending(lens) && mid <= to
    ensures SuccessesSeen(s, cs, lens, 0, to) == SuccessesSeen(s, cs, lens, 0, mid) + SuccessesSeen(s, cs, lens, mid, to)
    decreases |cs|
  {
    if cs != [] {
      var n := |cs| - 1;
      SeenSplit(s, cs[..n], lens[..n], mid, to);
      if lens[n] < mid {
        NoneSeen(s, cs, lens, mid, to);
        NoneSeen(s, cs[..n], lens[..n], mid, to);
      }
    }
  }

  lemma HistoryPrefix(hybrid: bool, fs: seq<Fate>, a: nat, b: nat)
    requires a <= b <= |fs|
    ensures History(hybrid, fs[..a]) <= History(hybrid, fs[..b]) && Numbered(History(hybrid, fs[..b]))
  {
  }

  lemma CampaignsAppend(hybrid: bool, fs: seq<Fate>, cs: seq<Call>, lens: seq<nat>)
    requires FromCampaign(hybrid, fs, cs, lens)
    ensures AppendOnly(cs)
  {
    forall i, j | 0 <= i <= j < |cs|
      ensures cs[i].history <= cs[j].history && Numbered(cs[i].history)
    {
      HistoryPrefix(hybrid, fs, lens[i], lens[j]);
      HistoryPrefix(hybrid, fs, lens[i], lens[i]);
    }
  }

  /** In hybrid mode an earlier call had the last kept diff of today exactly if that diff was in its history. */
  lemma TagTellsTime(fs: seq<Fate>, m: nat, n: nat, last: Option<nat>)
    requires m <= n <= |fs| && IsLastKept(fs, n, last)
    ensures LastKept(History(true, fs[..n])) == last
    ensures LastKept(History(true, fs[..m])) == last <==> (last.Some? ==> last.value < m)
  {
    HybridFindsLastKept(fs[..n]);
    HybridFindsLastKept(fs[..m]);
    assert forall i :: 0 <= i < n ==> fs[..n][i] == fs[i];
    assert forall i :: 0 <= i < m ==> fs[..m][i] == fs[i];
  }

  /** The number of trials after which the source of today was in place. */
  function Since(last: Option<nat>): nat { if last.Some? then last.value + 1 else 0 }

  lemma CampaignPrefix(hybrid: bool, fs: seq<Fate>, cs: seq<Call>, lens: seq<nat>, i: nat)
    requires FromCampaign(hybrid, fs, cs, lens) && i < |cs|
    ensures FromCampaign(hybrid, fs, cs[..i], lens[..i])
    ensures NoneLater(lens[..i], lens[i])
  {
  }

  ghost predicate NoneLater(lens: seq<nat>, n: nat) {
    forall j :: 0 <= j < |lens| ==> lens[j] <= n
  }

  lemma CallTag(fs: seq<Fate>, cs: seq<Call>, lens: seq<nat>, j: nat, n: nat, last: Option<nat>)
    requires FromCampaign(true, fs, cs, lens) && NoneLater(lens, n) && n <= |fs| && IsLastKept(fs, n, last) && j < |cs|
    ensures LastKept(cs[j].history) == last <==> Since(last) <= lens[j]
    ensures lens[j] <= |fs|
  {
    TagTellsTime(fs, lens[j], n, last);
  }

  lemma HybridPrior(s: Setup, fs: seq<Fate>, cs: seq<Call>, lens: seq<nat>, n: nat, last: Option<nat>)
    requires FromCampaign(true, fs, cs, lens) && NoneLater(lens, n) && n <= |fs| && IsLastKept(fs, n, last)
    ensures Successes(s, cs, last) == SuccessesSeen(s, cs, lens, Since(last), |fs| + 1)
  {
    var from := Since(last);
    forall j | 0 <= j < |cs|
      ensures LastKept(cs[j].history) == last <==> from <= lens[j] < |fs| + 1
    {
      CallTag(fs, cs, lens, j, n, last);
    }
    TaggedAreSeen(s, cs, lens, last, from, |fs| + 1);
  }

  /** Hygiene in hybrid mode, over any campaign: every list that a call sends shows exactly the last ten exchanges that
      succeeded since the last diff was really kept, and no earlier one. */
  lemma HybridShowsCurrent(s: Setup, fs: seq<Fate>, cs: seq<Call>, lens: seq<nat>, i: nat, last: Option<nat>)
    requires FromCampaign(true, fs, cs, lens)
    requires i < |cs| && Active(cs[i]) && |cs[i].answers| == ATTEMPTS && IsLastKept(fs, lens[i], last)
    ensures Sends(s, cs, i, Trim(SuccessesSeen(s, cs[..i], lens[..i], Since(last), |fs| + 1)))
  {
    CampaignsAppend(true, fs, cs, lens);
    SentIsCurrent(s, cs, i);
    CampaignPrefix(true, fs, cs, lens, i);
    HybridPrior(s, fs, cs[..i], lens[..i], lens[i], last);
    TagTellsTime(fs, lens[i], lens[i], last);
  }

  /** The part of `earlier` that is still shown when `recent` came after it. */
  function StillShown(earlier: seq<Message>, recent: seq<Message>): (rest: seq<Message>)
    ensures |rest| <= |earlier| && rest == earlier[|earlier| - |rest|..]
    ensures rest != [] <==> earlier != [] && |recent| < KEPT_MESSAGES
  {
    earlier[|earlier| - Min(|earlier|, Max(0, KEPT_MESSAGES - |recent|))..]
  }

  lemma TrimConcat(earlier: seq<Message>, recent: seq<Message>)
    ensures Trim(earlier + recent) == StillShown(earlier, recent) + Trim(recent)
  {
  }

  lemma DiffModePrior(s: Setup, fs: seq<Fate>, cs: seq<Call>, lens: seq<nat>, mid: nat)
    requires FromCampaign(false, fs, cs, lens) && AllDiffs(fs) && mid <= |fs|
    ensures Successes(s, cs, None)
         == SuccessesSeen(s, cs, lens, 0, mid) + SuccessesSeen(s, cs, lens, mid, |fs| + 1)
  {
    forall j | 0 <= j < |cs|
      ensures LastKept(cs[j].history) == None <==> 0 <= lens[j] < |fs| + 1
    {
      DiffModeFindsNothing(fs[..lens[j]]);
    }
    TaggedAreSeen(s, cs, lens, None, 0, |fs| + 1);
    SeenSplit(s, cs, lens, mid, |fs| + 1);
  }

  predicate AllDiffs(fs: seq<Fate>) { forall k :: 0 <= k < |fs| ==> fs[k].change.NewDiff? }

  lemma DiffModeSends(s: Setup, fs: seq<Fate>, cs: seq<Call>, lens: seq<nat>, i: nat, mid: nat)
    requires FromCampaign(false, fs, cs, lens) && AllDiffs(fs) && mid <= |fs|
    requires i < |cs| && Active(cs[i]) && |cs[i].answers| == ATTEMPTS
    ensures var earlier := SuccessesSeen(s, cs[..i], lens[..i], 0, mid);
            var recent := SuccessesSeen(s, cs[..i], lens[..i], mid, |fs| + 1);
            Sends(s, cs, i, StillShown(earlier, recent) + Trim(recent))
  {
    var before, ls := cs[..i], lens[..i];
    AllAreSent(s, fs, cs, lens, i);
    CampaignPrefix(false, fs, cs, lens, i);
    DiffModePrior(s, fs, before, ls, mid);
    SentInTwo(s, cs, i, Successes(s, before, None), SuccessesSeen(s, before, ls, 0, mid),
              SuccessesSeen(s, before, ls, mid, |fs| + 1));
  }

  /** In pure diff mode the conversation is never reset. Over any campaign with a kept diff, a call shows the last ten
      exchanges of all that succeeded: those since the last kept diff, preceded by stale ones, about a source that has
      been replaced, exactly if there are any and fewer than ten exchanges succeeded since. */
  lemma DiffModeShowsAll(s: Setup, fs: seq<Fate>, cs: seq<Call>, lens: seq<nat>, i: nat, last: nat)
    requires FromCampaign(false, fs, cs, lens) && AllDiffs(fs)
    requires i < |cs| && Active(cs[i]) && |cs[i].answers| == ATTEMPTS && IsLastKept(fs, lens[i], Some(last))
    ensures var earlier := SuccessesSeen(s, cs[..i], lens[..i], 0, last + 1);
            var recent := SuccessesSeen(s, cs[..i], lens[..i], last + 1, |fs| + 1);
            var stale := StillShown(earlier, recent);
            && (stale != [] <==> earlier != [] && |recent| < KEPT_MESSAGES)
            && Sends(s, cs, i, stale + Trim(recent))
  {
    DiffModeSends(s, fs, cs, lens, i, last + 1);
  }

  lemma AllAreSent(s: Setup, fs: seq<Fate>, cs: seq<Call>, lens: seq<nat>, i: nat)
    requires FromCampaign(false, fs, cs, lens) && AllDiffs(fs)
    requires i < |cs| && Active(cs[i]) && |cs[i].answers| == ATTEMPTS
    ensures Sends(s, cs, i, Trim(Successes(s, cs[..i], None)))
  {
    CampaignsAppend(false, fs, cs, lens);
    SentIsCurrent(s, cs, i);
    DiffModeFindsNothing(fs[..lens[i]]);
  }

  lemma SentInTwo(s: Setup, cs: seq<Call>, i: nat, all: seq<Message>, earlier: seq<Message>, recent: seq<Message>)
    requires i < |cs| && all == earlier + recent && Sends(s, cs, i, Trim(all))
    ensures Sends(s, cs, i, StillShown(earlier, recent) + Trim(recent))
  {
    TrimConcat(earlier, recent);
  }

  // ---------------------------------------------------------------- what not to propose again

  const SUMMARIES := 8

  /** The gist of a diff, if it is not blank. */
  type Gist = string -> Option<string>

  function GistOf(gist: Gist, e: Entry): Option<string> {
    if IsDiff(e) && "diff" in e.params then gist(e.params["diff"]) else None
  }

  /** Entry `i` is the latest among the entries with its gist. */
  predicate Latest(gist: Gist, h: seq<Entry>, i: nat)
    requires i < |h|
  {
    GistOf(gist, h[i]).Some? && forall j :: i < j < |h| ==> GistOf(gist, h[j]) != GistOf(gist, h[i])
  }

  /** The positions from `n` on, newest first, of the entries that are the latest with their gist. */
  function Newest(gist: Gist, h: seq<Entry>, n: nat): seq<nat>
    requires n <= |h|
    decreases |h| - n
  {
    if n == |h| then [] else Newest(gist, h, n + 1) + (if Latest(gist, h, n) then [n] else [])
  }

  /** The scan that fills the "do not propose again" section: positions of the entries it lists. */
  method ExtractPriorDiffs(gist: Gist, history: seq<Entry>) returns (listed: seq<nat>)
    ensures listed <= Newest(gist, history, 0)
    ensures |listed| == Min(8, |Newest(gist, history, 0)|)
  {
    var seen: set<string> := {};
    listed := [];
    var i := |history|;
    while i > 0
      invariant 0 <= i <= |history|
      invariant listed == Newest(gist, history, i) && |listed| < SUMMARIES
      invariant forall g :: g in seen <==> exists j :: i <= j < |history| && GistOf(gist, history[j]) == Some(g)
    {
      i := i - 1;
      var g := GistOf(gist, history[i]);
      if g.Some? && g.value !in seen {
        seen := seen + {g.value};
        listed := listed + [i];
        if |listed| >= SUMMARIES {
          NewestExtends(gist, history, 0, i);
          return;
        }
      }
    }
  }

  lemma {:induction false} NewestExtends(gist: Gist, h: seq<Entry>, n: nat, m: nat)
    requires n <= m <= |h|
    ensures Newest(gist, h, m) <= Newest(gist, h, n)
    decreases m - n
  {
    if n < m {
      NewestExtends(gist, h, n + 1, m);
    }
  }

  lemma {:induction false} NewestInRange(gist: Gist, h: seq<Entry>, n: nat, i: nat)
    requires n <= |h|
    ensures i in Newest(gist, h, n) <==> n <= i < |h| && Latest(gist, h, i)
    decreases |h| - n
  {
    if n < |h| {
      NewestInRange(gist, h, n + 1, i);
    }
  }

  /** The list goes back in time, repeats no gist, and leaves out no gist that is newer than one it contains. */
  lemma {:induction false} NewestIsComplete(gist: Gist, h: seq<Entry>, n: nat)
    requires n <= |h|
    ensures var list := Newest(gist, h, n);
            && (forall a, b :: 0 <= a < b < |list| ==> list[b] < list[a])
            && (forall i: nat :: i in list <==> n <= i < |h| && Latest(gist, h, i))
    decreases |h| - n
  {
    forall i: nat
      ensures i in Newest(gist, h, n) <==> n <= i < |h| && Latest(gist, h, i)
    {
      NewestInRange(gist, h, n, i);
    }
    if n < |h| {
      NewestIsComplete(gist, h, n + 1);
      var rest, list := Newest(gist, h, n + 1), Newest(gist, h, n);
      forall a, b | 0 <= a < b < |list|
        ensures list[b] < list[a]
      {
        assert list[a] == rest[a] && rest[a] in rest;
        assert b < |rest| ==> list[b] == rest[b];
      }
    }
  }
}
