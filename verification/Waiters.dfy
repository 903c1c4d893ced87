/**
 The HTTP requesters waiting for a user plane's answer: a table from sequence number to a channel with room for
 one answer. The goroutine that answers must never block on it, whoever else registered under the same number
 and however often a response, an error or a rollback comes.
 */
module Waiters {
  import opened Basics

  type Channel = nat

  // -- The table's three operations ------------------------------------------------------------------

  function WithoutOwn(txns: map<nat, Channel>, number: nat, own: Channel): map<nat, Channel> {
    if number in txns && txns[number] == own then txns - {number} else txns
  }

  class WaiterTable {
    var upfTxns: map<nat, Channel>

    constructor ()
      ensures upfTxns == map[]
    {
      upfTxns := map[];
    }

    /** InsertUpfPfcpTxn: an earlier registration under the number is overwritten. */
    method InsertUpfPfcpTxn(number: nat, channel: Channel)
      modifies this
      ensures upfTxns == old(upfTxns)[number := channel]
    {
      upfTxns := upfTxns[number := channel];
    }

    /** ForgetUpfPfcpTxn: a registration made since under the same number stays. */
    method ForgetUpfPfcpTxn(number: nat, own: Channel)
      modifies this
      ensures upfTxns == WithoutOwn(old(upfTxns), number, own)
      ensures number in old(upfTxns) && old(upfTxns)[number] == own ==> upfTxns == old(upfTxns) - {number}
      ensures number !in old(upfTxns) || old(upfTxns)[number] != own ==> upfTxns == old(upfTxns)
    {
      if number !in upfTxns || upfTxns[number] != own {
        return;
      }
      upfTxns := upfTxns - {number};
    }

    /** ForwardPfcpMsgToUpf up to its wait: the registration goes with a send that fails. */
    method RegisterAndSend(number: nat, channel: Channel, sendFails: bool) returns (waits: bool)
      modifies this
      ensures waits == !sendFails
      ensures upfTxns == if waits then old(upfTxns)[number := channel] else old(upfTxns) - {number}
    {
      InsertUpfPfcpTxn(number, channel);
      if sendFails {
        ForgetUpfPfcpTxn(number, channel);
        return false;
      }
      return true;
    }

    /** GetUpfPfcpTxn: whoever gets the channel is the only one to. */
    method GetUpfPfcpTxn(number: nat) returns (channel: Option<Channel>)
      modifies this
      ensures channel == if number in old(upfTxns) then Some(old(upfTxns)[number]) else None
      ensures upfTxns == old(upfTxns) - {number}
    {
      if number in upfTxns {
        channel := Some(upfTxns[number]);
        upfTxns := upfTxns - {number};
      } else {
        channel := None;
      }
    }
  }

  // -- Everyone who uses it, interleaved -------------------------------------------------------------

  /** ForwardPfcpMsgToUpf, by the channel it made. */
  datatype Requester =
    | Registered(number: nat)
    | RollingBack(number: nat)
    | Waiting(number: nat)
    | Gone(number: nat)

  /** encodeAndSendRsp and sendErrRsp alike: get the channel, then send into it. */
  datatype Replier = Holding(channel: Channel) | Replied

  /** `queued` are the channels whose slot is full; `sent` and `takenBy` are history. */
  datatype State = State(
    upfTxns: map<nat, Channel>,
    requesters: map<Channel, Requester>,
    repliers: map<nat, Replier>,
    queued: set<Channel>,
    sent: map<Channel, nat>,
    takenBy: map<Channel, nat>)

  datatype Step =
    | Insert(channel: Channel, number: nat)
    | SendOk(channel: Channel)
    | SendFailed(channel: Channel)
    | RollBack(channel: Channel)
    | Receive(channel: Channel)
    | Get(replier: nat, number: nat)
    | Reply(replier: nat)

  const Start: State := State(map[], map[], map[], {}, map[], map[])

  function Sent(s: State, ch: Channel): nat {
    if ch in s.sent then s.sent[ch] else 0
  }

  ghost predicate Next(s: State, step: Step, s': State) {
    match step
    case Insert(ch, n) =>
      ch !in s.requesters && s' == s.(upfTxns := s.upfTxns[n := ch], requesters := s.requesters[ch := Registered(n)])
    case SendOk(ch) =>
      ch in s.requesters && s.requesters[ch].Registered?
      && s' == s.(requesters := s.requesters[ch := Waiting(s.requesters[ch].number)])
    case SendFailed(ch) =>
      ch in s.requesters && s.requesters[ch].Registered?
      && s' == s.(requesters := s.requesters[ch := RollingBack(s.requesters[ch].number)])
    case RollBack(ch) =>
      ch in s.requesters && s.requesters[ch].RollingBack?
      && var n := s.requesters[ch].number;
         s' == s.(upfTxns := WithoutOwn(s.upfTxns, n, ch), requesters := s.requesters[ch := Gone(n)])
    case Receive(ch) =>
      ch in s.requesters && s.requesters[ch].Waiting? && ch in s.queued
      && s' == s.(requesters := s.requesters[ch := Gone(s.requesters[ch].number)], queued := s.queued - {ch})
    case Get(r, n) =>
      r !in s.repliers
      && s' == (if n in s.upfTxns
                then s.(upfTxns := s.upfTxns - {n}, repliers := s.repliers[r := Holding(s.upfTxns[n])],
                        takenBy := s.takenBy[s.upfTxns[n] := r])
                else s.(repliers := s.repliers[r := Replied]))
    case Reply(r) =>
      CanReply(s, r)
      && var ch := s.repliers[r].channel;
         s' == s.(repliers := s.repliers[r := Replied], queued := s.queued + {ch}, sent := s.sent[ch := Sent(s, ch) + 1])
  }

  /** A send goes through at once exactly when the channel's one slot is free. */
  ghost predicate CanReply(s: State, r: nat) {
    r in s.repliers && s.repliers[r].Holding? && s.repliers[r].channel !in s.queued
  }

  ghost predicate Unused(s: State, ch: Channel) {
    Sent(s, ch) == 0 && ch !in s.queued
  }

  /** A channel is registered under its requester's number until it is taken, and unused until its taker replies. */
  ghost predicate ChannelSound(s: State, ch: Channel) {
    && (ch !in s.requesters ==> ch !in s.takenBy)
    && (ch !in s.takenBy ==> Unused(s, ch))
    && (ch in s.takenBy ==> s.takenBy[ch] in s.repliers)
    && (ch in s.takenBy && s.repliers[s.takenBy[ch]].Holding? ==> Unused(s, ch) && s.repliers[s.takenBy[ch]].channel == ch)
    && Sent(s, ch) <= 1
  }

  ghost predicate Inv(s: State) {
    && (forall ch :: ChannelSound(s, ch))
    && (forall n :: n in s.upfTxns ==>
          s.upfTxns[n] in s.requesters && s.requesters[s.upfTxns[n]].number == n && s.upfTxns[n] !in s.takenBy)
    && (forall r :: r in s.repliers && s.repliers[r].Holding? ==>
          s.repliers[r].channel in s.takenBy && s.takenBy[s.repliers[r].channel] == r)
  }

  lemma StepKeepsChannelSound(s: State, step: Step, s': State, ch: Channel)
    requires Inv(s) && Next(s, step, s')
    ensures ChannelSound(s', ch)
  {
    assert ChannelSound(s, ch);
    if step.Reply? {
      assert ChannelSound(s, s.repliers[step.replier].channel);
    }
  }

  lemma StepKeepsInv(s: State, step: Step, s': State)
    requires Inv(s) && Next(s, step, s')
    ensures Inv(s')
  {
    forall ch ensures ChannelSound(s', ch) {
      StepKeepsChannelSound(s, step, s', ch);
    }
    if step.Insert? {
      assert ChannelSound(s, step.channel);
    }
  }

  ghost predicate IsRun(states: seq<State>, steps: seq<Step>) {
    && |states| == |steps| + 1
    && states[0] == Start
    && forall i :: 0 <= i < |steps| ==> Next(states[i], steps[i], states[i + 1])
  }

  lemma {:induction false} EveryStateIsSound(states: seq<State>, steps: seq<Step>, i: nat)
    requires IsRun(states, steps) && i < |states|
    ensures Inv(states[i])
  {
    if i > 0 {
      EveryStateIsSound(states, steps, i - 1);
      assert Next(states[i - 1], steps[i - 1], states[i]);
      StepKeepsInv(states[i - 1], steps[i - 1], states[i]);
    }
  }

  /**
   In every state of every run: a goroutine that has got a channel can send into it without blocking, a channel
   is registered under at most one number, and at most one value is ever sent into it.
   */
  lemma RepliesNeverBlock(states: seq<State>, steps: seq<Step>, i: nat)
    requires IsRun(states, steps) && i < |states|
    ensures var s := states[i];
      && (forall r :: r in s.repliers && s.repliers[r].Holding? ==> CanReply(s, r))
      && (forall m, n :: m in s.upfTxns && n in s.upfTxns && s.upfTxns[m] == s.upfTxns[n] ==> m == n)
      && (forall ch :: Sent(s, ch) <= 1)
  {
    EveryStateIsSound(states, steps, i);
    var s := states[i];
    assert forall ch :: ChannelSound(s, ch) ==> Sent(s, ch) <= 1;
    forall r | r in s.repliers && s.repliers[r].Holding? ensures CanReply(s, r) {
      assert ChannelSound(s, s.repliers[r].channel);
    }
  }
}
