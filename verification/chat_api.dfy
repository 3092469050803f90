/** The debate assistant's chat client: shaping a conversation into a request
    (one system message, then a strictly alternating user/assistant history
    that ends with the user) and the three-attempt retry schedule with
    exponential backoff. The HTTP exchange itself is abstracted into one
    outcome per attempt. */
module ChatApi {
  import opened Common

  datatype Role = User | Assistant | System

  datatype Message = Message(role: Role, content: string)

  // ---------------------------------------------------------------------
  // History shaping

  /** The history filter: walking the conversation, a message is kept when
      it is a user or assistant message whose role differs from the last kept
      role (initially the system's). */
  function KeepFrom(history: seq<Message>, lastRole: Role): seq<Message> {
    if history == [] then []
    else
      var m := history[0];
      if m.role != lastRole && (m.role == User || m.role == Assistant) then
        [m] + KeepFrom(history[1..], m.role)
      else
        KeepFrom(history[1..], lastRole)
  }

  /** Only user and assistant messages, no two neighbours with one role. */
  predicate Alternating(s: seq<Message>) {
    && (forall i :: 0 <= i < |s| ==> s[i].role == User || s[i].role == Assistant)
    && (forall i :: 0 <= i < |s| - 1 ==> s[i].role != s[i + 1].role)
  }

  lemma {:induction false} KeepFromAlternates(history: seq<Message>, lastRole: Role)
    ensures Alternating(KeepFrom(history, lastRole))
    ensures KeepFrom(history, lastRole) != [] ==> KeepFrom(history, lastRole)[0].role != lastRole
  {
    if history != [] {
      var m := history[0];
      KeepFromAlternates(history[1..], m.role);
      KeepFromAlternates(history[1..], lastRole);
    }
  }

  lemma {:induction false} KeepFromSubsequence(history: seq<Message>, lastRole: Role)
    ensures IsSubsequence(KeepFrom(history, lastRole), history)
  {
    if history != [] {
      KeepFromSubsequence(history[1..], history[0].role);
      KeepFromSubsequence(history[1..], lastRole);
    }
  }

  /** A history that already alternates, starts with either role and has
      only user and assistant messages passes the filter unchanged. */
  lemma {:induction false} KeepFromAlternatingIdentity(history: seq<Message>, lastRole: Role)
    requires Alternating(history)
    requires history != [] ==> history[0].role != lastRole
    ensures KeepFrom(history, lastRole) == history
  {
    if history != [] {
      KeepFromAlternatingIdentity(history[1..], history[0].role);
    }
  }

  /** The request: the system message, the filtered history, and a trailing
      assistant message dropped. */
  function Shape(prompt: string, history: seq<Message>): seq<Message> {
    var all := [Message(System, prompt)] + KeepFrom(history, System);
    if |all| > 1 && all[|all| - 1].role == Assistant then all[..|all| - 1] else all
  }

  /** `getDebateResponse`'s message building: a loop over the history that
      tracks the last kept role, then the pop of a trailing assistant reply. */
  method BuildMessages(prompt: string, history: seq<Message>) returns (messages: seq<Message>)
    ensures messages == Shape(prompt, history)
  {
    messages := [Message(System, prompt)];
    var lastRole := System;
    var valid: seq<Message> := [];
    var i := 0;
    while i < |history|
      invariant 0 <= i <= |history|
      invariant valid + KeepFrom(history[i..], lastRole) == KeepFrom(history, System)
    {
      var m := history[i];
      assert history[i..][0] == m && history[i..][1..] == history[i + 1..];
      if m.role != lastRole && (m.role == User || m.role == Assistant) {
        assert KeepFrom(history[i..], lastRole) == [m] + KeepFrom(history[i + 1..], m.role);
        assert valid + [m] + KeepFrom(history[i + 1..], m.role) == valid + ([m] + KeepFrom(history[i + 1..], m.role));
        valid := valid + [m];
        lastRole := m.role;
      } else {
        assert KeepFrom(history[i..], lastRole) == KeepFrom(history[i + 1..], lastRole);
      }
      i := i + 1;
    }
    assert history[i..] == [];
    assert valid == KeepFrom(history, System);
    messages := messages + valid;
    if |messages| > 1 && messages[|messages| - 1].role == Assistant {
      messages := messages[..|messages| - 1];
    }
  }

  /** What the request looks like: exactly one system message, first, with the
      prompt; after it an alternating user/assistant history drawn in order
      from the conversation; and it ends with the user unless the history
      came out empty. */
  lemma ShapeFacts(prompt: string, history: seq<Message>)
    ensures var r := Shape(prompt, history);
            && |r| >= 1 && r[0] == Message(System, prompt)
            && Alternating(r[1..])
            && (|r| > 1 ==> r[1].role == User || r[1].role == Assistant)
            && IsSubsequence(r[1..], history)
            && (|r| == 1 || r[|r| - 1].role == User)
  {
    var kept := KeepFrom(history, System);
    KeepFromAlternates(history, System);
    KeepFromSubsequence(history, System);
    var all := [Message(System, prompt)] + kept;
    assert all[1..] == kept;
    if |all| > 1 && all[|all| - 1].role == Assistant {
      var r := all[..|all| - 1];
      assert r[1..] == kept[..|kept| - 1];
      SubsequencePrefix(kept, history, |kept| - 1);
      if |r| > 1 {
        assert kept[|kept| - 2].role != kept[|kept| - 1].role;
      }
    }
  }

  /** A conversation ending with the assistant's reply sends everything but
      that reply: the request ends with the user's last message. */
  lemma TrailingReplyDropped()
    ensures Shape("p", [Message(User, "a"), Message(Assistant, "b")])
         == [Message(System, "p"), Message(User, "a")]
    ensures Shape("p", [Message(User, "a"), Message(User, "b")])
         == [Message(System, "p"), Message(User, "a")]
  {
    var h := [Message(User, "a"), Message(Assistant, "b")];
    assert h[1..] == [Message(Assistant, "b")] && h[1..][1..] == [];
    var g := [Message(User, "a"), Message(User, "b")];
    assert g[1..] == [Message(User, "b")] && g[1..][1..] == [];
  }

  // ---------------------------------------------------------------------
  // Request options

  /** Sampling options; each may be left out. */
  datatype Options = Options(
    maxTokens: Option<nat>,
    temperature: Option<real>,
    topP: Option<real>,
    presencePenalty: Option<real>,
    frequencyPenalty: Option<real>)

  datatype Settings = Settings(
    maxTokens: nat, temperature: real, topP: real, presencePenalty: real, frequencyPenalty: real)

  function OrElse<T>(o: Option<T>, d: T): T {
    if o.Some? then o.value else d
  }

  /** The defaults: 500 tokens, temperature 0.7, top-p 1.0, no penalties. */
  function WithDefaults(o: Options): (s: Settings)
    ensures o.maxTokens.None? ==> s.maxTokens == 500
    ensures o.temperature.None? ==> s.temperature == 0.7
    ensures o.topP.None? ==> s.topP == 1.0
    ensures o.presencePenalty.None? ==> s.presencePenalty == 0.0
    ensures o.frequencyPenalty.None? ==> s.frequencyPenalty == 0.0
    ensures o.maxTokens.Some? ==> s.maxTokens == o.maxTokens.value
    ensures o.temperature.Some? ==> s.temperature == o.temperature.value
    ensures o.topP.Some? ==> s.topP == o.topP.value
    ensures o.presencePenalty.Some? ==> s.presencePenalty == o.presencePenalty.value
    ensures o.frequencyPenalty.Some? ==> s.frequencyPenalty == o.frequencyPenalty.value
  {
    Settings(OrElse(o.maxTokens, 500), OrElse(o.temperature, 0.7), OrElse(o.topP, 1.0),
             OrElse(o.presencePenalty, 0.0), OrElse(o.frequencyPenalty, 0.0))
  }

  // ---------------------------------------------------------------------
  // Retry with backoff

  const MaxRetries := 3
  const BaseDelay := 1000

  /** What one attempt brings back: a transport failure, a non-OK status, a
      reply without choices, or the first choice's content. */
  datatype Outcome = NetworkError | HttpError(status: nat) | NoChoices | FirstChoice(content: string)

  datatype Error = MissingKey | AttemptFailed(outcome: Outcome)

  datatype Reply = Text(text: string) | Thrown(error: Error)

  predicate Succeeds(o: Outcome) {
    o.FirstChoice?
  }

  /** The text of a successful attempt; empty content reads as a fixed phrase. */
  function ContentOf(o: Outcome): string
    requires Succeeds(o)
  {
    if o.content == "" then "No response content" else o.content
  }

  function Pow2(k: nat): nat {
    if k == 0 then 1 else 2 * Pow2(k - 1)
  }

  /** Index of the first successful attempt among the first `n`. */
  function FirstSuccess(outcomes: seq<Outcome>, n: nat): (r: Option<nat>)
    requires n <= |outcomes|
    ensures r.Some? ==> r.value < n && Succeeds(outcomes[r.value])
                        && forall j :: 0 <= j < r.value ==> !Succeeds(outcomes[j])
    ensures r.None? ==> forall j :: 0 <= j < n ==> !Succeeds(outcomes[j])
  {
    if n == 0 then None
    else
      var earlier := FirstSuccess(outcomes, n - 1);
      if earlier.Some? then earlier
      else if Succeeds(outcomes[n - 1]) then Some(n - 1)
      else None
  }

  /** The waits before attempts 1..k: 1000 ms, then 2000 ms. */
  function Backoff(k: nat): (r: seq<nat>)
    ensures |r| == k
    ensures forall j :: 0 <= j < k ==> r[j] == BaseDelay * Pow2(j)
  {
    if k == 0 then [] else Backoff(k - 1) + [BaseDelay * Pow2(k - 1)]
  }

  /** `sendMessage`: without a key nothing is attempted; otherwise up to three
      attempts, waiting 1000 * 2^k ms after failed attempt k except the last,
      and returning the first success or throwing the last failure.
      `outcomes[k]` is what attempt k would bring back. */
  method SendWithRetry(hasKey: bool, outcomes: seq<Outcome>) returns (reply: Reply, attempts: nat, waits: seq<nat>)
    requires |outcomes| >= MaxRetries
    ensures !hasKey ==> reply == Thrown(MissingKey) && attempts == 0 && waits == []
    ensures hasKey && FirstSuccess(outcomes, MaxRetries).Some? ==>
              var k := FirstSuccess(outcomes, MaxRetries).value;
              reply == Text(ContentOf(outcomes[k])) && attempts == k + 1 && waits == Backoff(k)
    ensures hasKey && FirstSuccess(outcomes, MaxRetries).None? ==>
              reply == Thrown(AttemptFailed(outcomes[MaxRetries - 1]))
              && attempts == MaxRetries && waits == Backoff(MaxRetries - 1)
    ensures attempts <= MaxRetries && |waits| < MaxRetries
  {
    if !hasKey {
      return Thrown(MissingKey), 0, [];
    }
    var lastError: Option<Error> := None;
    waits := [];
    attempts := 0;
    var attempt := 0;
    while attempt < MaxRetries
      invariant 0 <= attempt < MaxRetries && attempts == attempt
      invariant FirstSuccess(outcomes, attempt).None?
      invariant waits == Backoff(attempt)
      invariant attempt > 0 ==> lastError == Some(AttemptFailed(outcomes[attempt - 1]))
    {
      attempts := attempts + 1;
      var o := outcomes[attempt];
      if Succeeds(o) {
        return Text(ContentOf(o)), attempts, waits;
      }
      lastError := Some(AttemptFailed(o));
      if attempt == MaxRetries - 1 {
        break;
      }
      waits := waits + [BaseDelay * Pow2(attempt)];
      attempt := attempt + 1;
    }
    reply := Thrown(lastError.value);
  }

  /** The whole schedule: at most 1000 + 2000 ms of waiting in all. */
  lemma BackoffSchedule()
    ensures Backoff(MaxRetries - 1) == [1000, 2000]
  {
  }
}
