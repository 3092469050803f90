/** A peer debate: simulated matching, a five-second countdown, three timed
    debate phases (opening 7 minutes, rebuttal and conclusion 5 minutes
    each) that advance when their clock reaches zero, a feedback phase, and
    an append-only chat. Each effect firing is one method call; the one-
    second delays between firings are left to the caller. */
module PeerMatch {
  import opened Common

  datatype Phase = Matching | Countdown | Opening | Rebuttal | Conclusion | Feedback

  /** The phases the debate timer walks through. */
  const PhaseOrder: seq<Phase> := [Opening, Rebuttal, Conclusion, Feedback]

  predicate Debating(p: Phase) {
    p == Opening || p == Rebuttal || p == Conclusion
  }

  /** `phaseOrder.indexOf(phase)`: -1 for a phase not in the list. */
  function IndexOf(p: Phase): (i: int)
    ensures -1 <= i < |PhaseOrder|
    ensures i >= 0 ==> PhaseOrder[i] == p
    ensures i == -1 ==> p !in PhaseOrder
  {
    if p == Opening then 0
    else if p == Rebuttal then 1
    else if p == Conclusion then 2
    else if p == Feedback then 3
    else -1
  }

  /** What one firing of the debate-timer effect does, phase by phase: a
      running debate clock ticks down; at zero opening hands over to
      rebuttal and rebuttal to conclusion with five minutes each,
      conclusion hands over to feedback with the clock left at zero,
      feedback stays put, and any phase outside the debate order (matching,
      countdown) jumps to opening with seven minutes. */
  function DebateStep(p: Phase, t: nat): (Phase, nat) {
    if Debating(p) && t > 0 then (p, t - 1)
    else if t > 0 then (p, t)
    else match p
      case Opening => (Rebuttal, 300)
      case Rebuttal => (Conclusion, 300)
      case Conclusion => (Feedback, 0)
      case Feedback => (Feedback, 0)
      case Matching => (Opening, 420)
      case Countdown => (Opening, 420)
  }

  /** Position of a debating phase in the order. */
  function Stage(p: Phase): nat {
    match p
      case Opening => 0
      case Rebuttal => 1
      case Conclusion => 2
      case Feedback => 3
      case _ => 0
  }

  /** Once the debate has begun the timer effect only moves forward: either
      the clock ticks down in the same phase, or the phase moves one stage
      on; feedback at zero is the end. */
  lemma DebateStepProgress(p: Phase, t: nat)
    requires Debating(p) || p == Feedback
    ensures var (q, u) := DebateStep(p, t);
            (q == p && ((Debating(p) && t > 0 && u == t - 1) || (p == Feedback && u == t)))
            || (Debating(p) && t == 0 && Stage(q) == Stage(p) + 1)
    ensures p == Feedback && t == 0 ==> DebateStep(p, t) == (Feedback, 0)
  {
  }

  /** A debate phase holds the clock for its full length before moving on:
      starting the opening at 420 seconds, 420 firings leave it at zero
      still in the opening. */
  lemma {:induction false} ClockRunsDown(p: Phase, t: nat, k: nat)
    requires Debating(p) && k <= t
    ensures Iterate(p, t, k) == (p, t - k)
  {
    if k > 0 {
      ClockRunsDown(p, t, k - 1);
    }
  }

  /** `k` firings of the debate-timer effect. */
  function Iterate(p: Phase, t: nat, k: nat): (Phase, nat)
  {
    if k == 0 then (p, t) else var (q, u) := Iterate(p, t, k - 1); DebateStep(q, u)
  }

  datatype ChatEntry = Text(message: string) | Reaction(kind: ReactionKind)

  datatype ReactionKind = ThumbsUp | Clap | Laugh

  class Match {
    var phase: Phase
    var timer: nat
    var isMatching: bool
    var hasOpponent: bool
    var countdown: nat
    var chat: seq<ChatEntry>
    var newMessage: string
    var rating: nat
    var feedback: string

    /** The clock of a debate phase never exceeds seven minutes, the
        countdown never exceeds five, and feedback is only reached with the
        clock at zero. */
    ghost predicate Valid()
      reads this
    {
      && countdown <= 5
      && timer <= 420
      && (phase == Feedback ==> timer == 0)
    }

    constructor ()
      ensures Valid()
      ensures phase == Matching && timer == 300 && isMatching && !hasOpponent && countdown == 5
      ensures chat == [] && newMessage == "" && rating == 0 && feedback == ""
    {
      phase := Matching;
      timer := 300;
      isMatching := true;
      hasOpponent := false;
      countdown := 5;
      chat := [];
      newMessage := "";
      rating := 0;
      feedback := "";
    }

    /** The matching effect's timeout: an opponent is found and the
        countdown starts. Outside matching it does nothing. */
    method MatchFound()
      requires Valid()
      modifies this
      ensures Valid()
      ensures old(phase) == Matching ==> phase == Countdown && hasOpponent && !isMatching
      ensures old(phase) != Matching ==> phase == old(phase) && hasOpponent == old(hasOpponent)
                                         && isMatching == old(isMatching)
      ensures timer == old(timer) && countdown == old(countdown) && chat == old(chat)
      ensures newMessage == old(newMessage) && rating == old(rating) && feedback == old(feedback)
    {
      if phase == Matching {
        hasOpponent := true;
        isMatching := false;
        phase := Countdown;
      }
    }

    /** One firing of the countdown effect: count down to zero, then open
        the debate with seven minutes on the clock. */
    method CountdownTick()
      requires Valid()
      modifies this
      ensures Valid()
      ensures old(phase) == Countdown && old(countdown) > 0 ==>
                countdown == old(countdown) - 1 && phase == Countdown && timer == old(timer)
      ensures old(phase) == Countdown && old(countdown) == 0 ==>
                phase == Opening && timer == 420 && countdown == 0
      ensures old(phase) != Countdown ==>
                phase == old(phase) && timer == old(timer) && countdown == old(countdown)
      ensures chat == old(chat) && hasOpponent == old(hasOpponent) && isMatching == old(isMatching)
      ensures newMessage == old(newMessage) && rating == old(rating) && feedback == old(feedback)
    {
      if phase == Countdown && countdown > 0 {
        countdown := countdown - 1;
      } else if phase == Countdown && countdown == 0 {
        phase := Opening;
        timer := 420;
      }
    }

    /** One firing of the debate-timer effect, looking the next phase up in
        the phase order. */
    method DebateTimerTick()
      requires Valid()
      modifies this
      ensures Valid()
      ensures (phase, timer) == DebateStep(old(phase), old(timer))
      ensures countdown == old(countdown) && chat == old(chat) && hasOpponent == old(hasOpponent)
      ensures isMatching == old(isMatching)
      ensures newMessage == old(newMessage) && rating == old(rating) && feedback == old(feedback)
    {
      if Debating(phase) && timer > 0 {
        timer := timer - 1;
      } else if timer == 0 {
        var currentIndex := IndexOf(phase);
        if currentIndex < |PhaseOrder| - 1 {
          var next := PhaseOrder[currentIndex + 1];
          phase := next;
          if next != Feedback {
            timer := if next == Opening then 420 else 300;
          }
        }
      }
    }

    /** `sendMessage`: a message with something besides blanks is appended
        and the input cleared; otherwise nothing happens. */
    method SendMessage()
      modifies this
      ensures HasNonBlank(old(newMessage)) ==> chat == old(chat) + [Text(old(newMessage))] && newMessage == ""
      ensures !HasNonBlank(old(newMessage)) ==> chat == old(chat) && newMessage == old(newMessage)
      ensures phase == old(phase) && timer == old(timer) && countdown == old(countdown)
      ensures isMatching == old(isMatching) && hasOpponent == old(hasOpponent)
      ensures rating == old(rating) && feedback == old(feedback)
    {
      if HasNonBlank(newMessage) {
        chat := chat + [Text(newMessage)];
        newMessage := "";
      }
    }

    /** `sendReaction`: reactions are always appended. */
    method SendReaction(r: ReactionKind)
      modifies this
      ensures chat == old(chat) + [Reaction(r)]
      ensures newMessage == old(newMessage)
      ensures phase == old(phase) && timer == old(timer) && countdown == old(countdown)
      ensures isMatching == old(isMatching) && hasOpponent == old(hasOpponent)
      ensures rating == old(rating) && feedback == old(feedback)
    {
      chat := chat + [Reaction(r)];
    }

    /** `quickRematch`: back to matching with a fresh countdown and an empty
        chat. The clock is not reset. */
    method QuickRematch()
      requires Valid()
      modifies this
      ensures Valid()
      ensures phase == Matching && isMatching && !hasOpponent && countdown == 5
      ensures chat == [] && rating == 0 && feedback == ""
      ensures timer == old(timer)
      ensures newMessage == old(newMessage)
    {
      phase := Matching;
      isMatching := true;
      hasOpponent := false;
      countdown := 5;
      chat := [];
      rating := 0;
      feedback := "";
    }
  }

  /** A rematch from the feedback screen leaves the clock at zero, so the
      very next firing of the debate-timer effect, before any opponent is
      found, jumps from matching straight into the opening. */
  lemma RematchSkipsMatching()
    ensures DebateStep(Matching, 0) == (Opening, 420)
    ensures DebateStep(Matching, 300) == (Matching, 300)
  {
  }
}
