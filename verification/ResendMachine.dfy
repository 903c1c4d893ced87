/**
 Transaction.Start: the resend loops with their timers. What the network does to each round of the loop is an
 input - whether the write succeeds, and which event, if any, the channel delivers and how long after the wait
 begins. A write takes no time. When event and timer fall due together either may be taken.
 */
module ResendMachine {
  import opened Basics
  import opened TransactionTables
  import opened RelaySpec

  const NUM_OF_RESEND: nat := 3
  const REQUEST_TIMEOUT: nat := 3 * SECOND
  const RESPONSE_TIMEOUT: nat := 15 * SECOND

  datatype Delivery = Delivery(event: EventType, delay: Time)

  datatype Round = Round(writeOk: bool, delivery: Option<Delivery>, tieToTimer: bool)

  datatype Outcome = Finished | WriteFailed | TimedOut

  /** The event the select takes, when the timer has `remaining` to run. */
  function Consumed(round: Round, remaining: Time): Option<EventType> {
    match round.delivery
    case None => None
    case Some(d) =>
      if d.delay < remaining || (d.delay == remaining && !round.tieToTimer) then Some(d.event) else None
  }

  /** How long the select waits. */
  function Waited(round: Round, remaining: Time): Time {
    if Consumed(round, remaining).Some? then round.delivery.value.delay else remaining
  }

  /** An event that comes before the timer is taken when it comes, one that comes after is not, and either may be at once. */
  lemma TheTimerDecides(round: Round, remaining: Time)
    ensures round.delivery.None? ==> Consumed(round, remaining) == None && Waited(round, remaining) == remaining
    ensures round.delivery.Some? ==>
      var d := round.delivery.value;
      && (d.delay < remaining ==> Consumed(round, remaining) == Some(d.event) && Waited(round, remaining) == d.delay)
      && (d.delay > remaining ==> Consumed(round, remaining) == None && Waited(round, remaining) == remaining)
      && (d.delay == remaining ==> Waited(round, remaining) == remaining
                                   && (Consumed(round, remaining) == None <==> round.tieToTimer)
                                   && (Consumed(round, remaining) == Some(d.event) <==> !round.tieToTimer))
  {
  }

  /** The select, as the loops run it: the event if it is there in time, and how long was waited. */
  method Select(round: Round, remaining: Time) returns (event: Option<EventType>, waited: Time)
    ensures event == Consumed(round, remaining) && waited == Waited(round, remaining)
    ensures waited <= remaining
    ensures round.delivery.None? ==> event == None && waited == remaining
    ensures round.delivery.Some? && round.delivery.value.delay < remaining ==>
      event == Some(round.delivery.value.event) && waited == round.delivery.value.delay
    ensures round.delivery.Some? && round.delivery.value.delay > remaining ==> event == None && waited == remaining
  {
    if round.delivery == None {
      return None, remaining;
    }
    var d := round.delivery.value;
    if d.delay > remaining || (d.delay == remaining && round.tieToTimer) {
      return None, remaining;
    }
    return Some(d.event), d.delay;
  }

  // -- Requests --------------------------------------------------------------------------------------

  /** The first n rounds get their write out and take no valid response. */
  ghost predicate StillAsking(rounds: seq<Round>, n: nat)
    requires n <= |rounds|
  {
    forall i :: 0 <= i < n ==> rounds[i].writeOk && Consumed(rounds[i], REQUEST_TIMEOUT) != Some(ReceiveValidResponse)
  }

  /** The round gets its write out and takes a valid response. */
  predicate Answered(round: Round) {
    round.writeOk && Consumed(round, REQUEST_TIMEOUT) == Some(ReceiveValidResponse)
  }

  function AskedFor(rounds: seq<Round>, n: nat): Time
    requires n <= |rounds|
  {
    if n == 0 then 0 else AskedFor(rounds, n - 1) + Waited(rounds[n - 1], REQUEST_TIMEOUT)
  }

  /** The first n rounds get their write out, and nothing comes. */
  ghost predicate Silent(rounds: seq<Round>, n: nat)
    requires n <= |rounds|
  {
    forall i :: 0 <= i < n ==> rounds[i].writeOk && rounds[i].delivery.None?
  }

  /** The loop itself. */
  method RunRequest(rounds: seq<Round>) returns (outcome: Outcome, writes: nat, waited: Time)
    requires |rounds| == NUM_OF_RESEND
    ensures 1 <= writes <= NUM_OF_RESEND
    ensures waited <= NUM_OF_RESEND * REQUEST_TIMEOUT
    ensures outcome.Finished? <==> exists i :: 0 <= i < NUM_OF_RESEND && StillAsking(rounds, i) && Answered(rounds[i])
    ensures outcome.WriteFailed? <==> exists i :: 0 <= i < NUM_OF_RESEND && StillAsking(rounds, i) && !rounds[i].writeOk
    ensures outcome.TimedOut? <==> StillAsking(rounds, NUM_OF_RESEND)
    ensures outcome.TimedOut? ==> writes == NUM_OF_RESEND
    ensures outcome.Finished? ==> Answered(rounds[writes - 1])
    ensures forall i :: 0 <= i < writes - 1 ==> !Answered(rounds[i])
    ensures StillAsking(rounds, writes - 1)
    ensures waited == AskedFor(rounds, if outcome.WriteFailed? then writes - 1 else writes)
  {
    waited, writes := 0, 0;
    var iter := 0;
    while iter < NUM_OF_RESEND
      invariant 0 <= iter <= NUM_OF_RESEND && writes == iter
      invariant StillAsking(rounds, iter)
      invariant waited == AskedFor(rounds, iter) <= iter * REQUEST_TIMEOUT
    {
      writes := writes + 1;
      if !rounds[iter].writeOk {
        return WriteFailed, writes, waited;
      }
      var event, took := Select(rounds[iter], REQUEST_TIMEOUT);
      waited := waited + took;
      if event == Some(ReceiveValidResponse) {
        return Finished, writes, waited;
      }
      iter := iter + 1;
    }
    return TimedOut, writes, waited;
  }

  /**
   A request is written at most three times and waits at most nine seconds in all. It finishes exactly when some
   round takes a valid response after every write so far succeeded; it fails at once with the first write that
   fails; and it times out exactly when all three rounds pass without either.
   */
  method StartRequest(rounds: seq<Round>) returns (outcome: Outcome, writes: nat, waited: Time)
    requires |rounds| == NUM_OF_RESEND
    ensures 1 <= writes <= NUM_OF_RESEND
    ensures waited <= NUM_OF_RESEND * REQUEST_TIMEOUT
    ensures outcome.Finished? <==> exists i :: 0 <= i < NUM_OF_RESEND && StillAsking(rounds, i) && Answered(rounds[i])
    ensures outcome.WriteFailed? <==> exists i :: 0 <= i < NUM_OF_RESEND && StillAsking(rounds, i) && !rounds[i].writeOk
    ensures outcome.TimedOut? <==> StillAsking(rounds, NUM_OF_RESEND)
    ensures outcome.TimedOut? ==> writes == NUM_OF_RESEND
    ensures outcome.Finished? ==> Answered(rounds[writes - 1])
    ensures forall i :: 0 <= i < writes - 1 ==> !Answered(rounds[i])
    ensures StillAsking(rounds, writes - 1)
    ensures waited == AskedFor(rounds, if outcome.WriteFailed? then writes - 1 else writes)
    // What that comes to, by what the network does: a valid response that comes in some round ends it there and then;
    // silence lasts nine seconds; and a first write that fails is the end.
    ensures forall i :: 0 <= i < NUM_OF_RESEND && Silent(rounds, i) && rounds[i].writeOk
                        && rounds[i].delivery.Some? && rounds[i].delivery.value.event == ReceiveValidResponse
                        && rounds[i].delivery.value.delay < 3 * SECOND ==>
              outcome.Finished? && writes == i + 1 && waited == i * 3 * SECOND + rounds[i].delivery.value.delay
    ensures Silent(rounds, 3) ==> outcome.TimedOut? && writes == 3 && waited == 9 * SECOND
    ensures !rounds[0].writeOk ==> outcome.WriteFailed? && writes == 1 && waited == 0
  {
    outcome, writes, waited := RunRequest(rounds);
    forall i | 0 <= i <= NUM_OF_RESEND && Silent(rounds, i)
      ensures StillAsking(rounds, i) && AskedFor(rounds, i) == i * 3 * SECOND
    {
      SilenceIsAsking(rounds, i);
    }
  }

  lemma {:induction false} SilenceIsAsking(rounds: seq<Round>, n: nat)
    requires n <= |rounds| && Silent(rounds, n)
    ensures StillAsking(rounds, n) && AskedFor(rounds, n) == n * 3 * SECOND
  {
    if n > 0 {
      SilenceIsAsking(rounds, n - 1);
    }
  }

  /**
   A relayed request gives up within the lifetime of the claim it carries: registered up to 21 seconds after the
   claim, and still holding it unanswered, its error handler's take succeeds.
   */
  lemma GiveUpIsInTime(t: Table, n: nat, registered: Time, rounds: seq<Round>, tries: nat)
    requires |rounds| == NUM_OF_RESEND && tries <= NUM_OF_RESEND
    requires n in t.relays && !t.relays[n].answered
    requires registered + 9 * SECOND <= t.relays[n].recorded + 30 * SECOND
    ensures Taken(t, n, registered + AskedFor(rounds, tries)) == Some(t.relays[n])
  {
    AskedForIsBounded(rounds, tries);
  }

  lemma {:induction false} AskedForIsBounded(rounds: seq<Round>, n: nat)
    requires n <= |rounds|
    ensures AskedFor(rounds, n) <= n * REQUEST_TIMEOUT
  {
    if n > 0 {
      AskedForIsBounded(rounds, n - 1);
    }
  }

  // -- Responses -------------------------------------------------------------------------------------

  /** How long the response has been held, and when it was last asked for again (or first sent). */
  datatype Held = Held(waited: Time, asked: Time)

  function Remaining(h: Held): Time {
    if h.asked + RESPONSE_TIMEOUT >= h.waited then h.asked + RESPONSE_TIMEOUT - h.waited else 0
  }

  /** After n rounds that each took an event: a resend request restarts the quiet period, another event does not. */
  function HeldAfter(rounds: seq<Round>, n: nat): (h: Held)
    requires n <= |rounds|
    ensures h.asked <= h.waited <= h.asked + RESPONSE_TIMEOUT
    ensures h.waited <= n * RESPONSE_TIMEOUT
  {
    if n == 0 then Held(0, 0)
    else
      var h := HeldAfter(rounds, n - 1);
      var waited := h.waited + Waited(rounds[n - 1], Remaining(h));
      Held(waited, if Consumed(rounds[n - 1], Remaining(h)) == Some(ReceiveResendRequest) then waited else h.asked)
  }

  /** The first n rounds get their write out and take an event. */
  ghost predicate StillHeld(rounds: seq<Round>, n: nat)
    requires n <= |rounds|
  {
    forall i :: 0 <= i < n ==> rounds[i].writeOk && Consumed(rounds[i], Remaining(HeldAfter(rounds, i))).Some?
  }

  /** Round i gets its write out and takes no event before the timer. */
  ghost predicate FallsQuiet(rounds: seq<Round>, i: nat)
    requires i < |rounds|
  {
    rounds[i].writeOk && Consumed(rounds[i], Remaining(HeldAfter(rounds, i))).None?
  }

  /** The loop itself. */
  method RunResponse(rounds: seq<Round>) returns (outcome: Outcome, writes: nat, waited: Time, asked: Time)
    requires |rounds| == NUM_OF_RESEND
    ensures 1 <= writes <= NUM_OF_RESEND
    ensures waited <= NUM_OF_RESEND * RESPONSE_TIMEOUT
    ensures StillHeld(rounds, writes - 1)
    ensures outcome.Finished? <==> StillHeld(rounds, NUM_OF_RESEND)
    ensures outcome.Finished? ==> writes == NUM_OF_RESEND
    ensures outcome.WriteFailed? <==> exists i :: 0 <= i < NUM_OF_RESEND && StillHeld(rounds, i) && !rounds[i].writeOk
    ensures outcome.TimedOut? ==> waited == asked + RESPONSE_TIMEOUT
    ensures outcome.TimedOut? ==> asked == HeldAfter(rounds, writes - 1).asked
    ensures outcome.TimedOut? <==> exists i :: 0 <= i < NUM_OF_RESEND && StillHeld(rounds, i) && FallsQuiet(rounds, i)
    ensures forall k :: 0 <= k < NUM_OF_RESEND && StillHeld(rounds, k) ==> k < writes
  {
    waited, asked, writes := 0, 0, 0;
    var iter := 0;
    while iter < NUM_OF_RESEND
      invariant 0 <= iter <= NUM_OF_RESEND && writes == iter
      invariant Held(waited, asked) == HeldAfter(rounds, iter)
      invariant StillHeld(rounds, iter)
    {
      writes := writes + 1;
      if !rounds[iter].writeOk {
        return WriteFailed, writes, waited, asked;
      }
      var remaining := Remaining(Held(waited, asked));
      var event, took := Select(rounds[iter], remaining);
      waited := waited + took;
      if event.None? {
        return TimedOut, writes, waited, asked;
      }
      if event == Some(ReceiveResendRequest) {
        asked := waited;
      }
      iter := iter + 1;
    }
    return Finished, writes, waited, asked;
  }

  /**
   A response is written at most three times and held at most 45 seconds. It ends with the first write that fails,
   or fifteen seconds after it was last asked for, or when a third event is taken, and in no other way.
   */
  method StartResponse(rounds: seq<Round>) returns (outcome: Outcome, writes: nat, waited: Time, asked: Time)
    requires |rounds| == NUM_OF_RESEND
    ensures 1 <= writes <= NUM_OF_RESEND
    ensures waited <= NUM_OF_RESEND * RESPONSE_TIMEOUT
    ensures StillHeld(rounds, writes - 1)
    ensures outcome.Finished? <==> StillHeld(rounds, NUM_OF_RESEND)
    ensures outcome.Finished? ==> writes == NUM_OF_RESEND
    ensures outcome.WriteFailed? <==> exists i :: 0 <= i < NUM_OF_RESEND && StillHeld(rounds, i) && !rounds[i].writeOk
    ensures outcome.TimedOut? ==> waited == asked + RESPONSE_TIMEOUT
    ensures outcome.TimedOut? ==> asked == HeldAfter(rounds, writes - 1).asked
    ensures outcome.TimedOut? <==> exists i :: 0 <= i < NUM_OF_RESEND && StillHeld(rounds, i) && FallsQuiet(rounds, i)
    ensures forall k :: 0 <= k < NUM_OF_RESEND && StillHeld(rounds, k) ==> k < writes
    // What that comes to, by what the network does: unasked it is held fifteen seconds, and asked again in that time it
    // is written again and held fifteen seconds more.
    ensures Silent(rounds, 1) ==> outcome.TimedOut? && writes == 1 && waited == 15 * SECOND
    ensures rounds[0].writeOk && rounds[0].delivery.Some? && rounds[0].delivery.value.event == ReceiveResendRequest
            && rounds[0].delivery.value.delay < 15 * SECOND ==>
      && writes >= 2
      && (rounds[1].writeOk && rounds[1].delivery.None? ==>
            var d := rounds[0].delivery.value.delay;
            outcome.TimedOut? && writes == 2 && asked == d && waited == d + 15 * SECOND)
  {
    outcome, writes, waited, asked := RunResponse(rounds);
    if rounds[0].writeOk {
      FirstRoundDecides(rounds);
    }
  }

  lemma FirstRoundDecides(rounds: seq<Round>)
    requires |rounds| == NUM_OF_RESEND && rounds[0].writeOk
    ensures rounds[0].delivery.None? ==> FallsQuiet(rounds, 0) && !StillHeld(rounds, 1)
    ensures rounds[0].delivery.Some? && rounds[0].delivery.value.event == ReceiveResendRequest
            && rounds[0].delivery.value.delay < 15 * SECOND ==>
      var d := rounds[0].delivery.value.delay;
      && StillHeld(rounds, 1) && HeldAfter(rounds, 1) == Held(d, d)
      && (rounds[1].writeOk && rounds[1].delivery.None? ==> FallsQuiet(rounds, 1) && !StillHeld(rounds, 2))
  {
    if rounds[0].delivery.Some? && rounds[0].delivery.value.event == ReceiveResendRequest
       && rounds[0].delivery.value.delay < 15 * SECOND
    {
      AResendRequestIsAnswered(rounds, 0, rounds[0].delivery.value.delay);
    }
  }

  /** A resend request that comes within the quiet period is answered by another write, and starts the period again. */
  lemma AResendRequestIsAnswered(rounds: seq<Round>, n: nat, d: Time)
    requires n < |rounds| && StillHeld(rounds, n) && rounds[n].writeOk
    requires rounds[n].delivery == Some(Delivery(ReceiveResendRequest, d))
    requires HeldAfter(rounds, n).waited + d < HeldAfter(rounds, n).asked + 15 * SECOND
    ensures StillHeld(rounds, n + 1)
    ensures HeldAfter(rounds, n + 1).waited == HeldAfter(rounds, n).waited + d
    ensures HeldAfter(rounds, n + 1).asked == HeldAfter(rounds, n).waited + d
  {
  }

  /** Only resend requests are ever posted to a response, so the third event is the third resend request. */
  lemma FinishedMeansThreeResendRequests(rounds: seq<Round>)
    requires |rounds| == NUM_OF_RESEND && StillHeld(rounds, NUM_OF_RESEND)
    requires forall i :: 0 <= i < |rounds| && rounds[i].delivery.Some? ==> rounds[i].delivery.value.event == ReceiveResendRequest
    ensures forall i :: 0 <= i < NUM_OF_RESEND ==> AsksAgain(rounds, i)
  {
  }

  /** Round i takes a resend request, which restarts the quiet period. */
  ghost predicate AsksAgain(rounds: seq<Round>, i: nat)
    requires i < |rounds|
  {
    && Consumed(rounds[i], Remaining(HeldAfter(rounds, i))) == Some(ReceiveResendRequest)
    && HeldAfter(rounds, i + 1).asked == HeldAfter(rounds, i + 1).waited
  }
}
