/**
 A report's whole way, as a run: the SMF names the user plane, the report is claimed and relayed, the SMF answers and
 the answer goes out. It is a timely run and an orderly one, so what is proved of those is proved of something.
 */
module ProtocolExample {
  import opened Basics
  import opened Allocator
  import opened RelaySpec
  import opened AuthSpec
  import opened TransactionSpec
  import opened Protocol
  import opened ProtocolAnswers
  import opened ProtocolAnswerSteps
  import ProtocolSafety
  import RelayToken

  const ADAPTER := Peer("10.0.0.1", 8805)
  const UPF := Peer("10.0.0.2", 8805)
  const UPF_SEQ: nat := 7

  ghost predicate IsGoodRun(r: Run) {
    IsOrderlyRun(r) && ProtocolSafety.IsTimelyRun(r)
  }

  function Now(r: Run): State
    requires |r.states| > 0
  {
    r.states[|r.states| - 1]
  }

  /** A step a timely and orderly run may take. */
  ghost predicate Goes(s: State, step: Step, s': State) {
    Next(s, step, s') && NotReused(s, step) && ProtocolSafety.Timely(s, step)
  }

  lemma Extend(r: Run, step: Step, s: State) returns (longer: Run)
    requires IsGoodRun(r) && Goes(Now(r), step, s)
    ensures IsGoodRun(longer) && Now(longer) == s
  {
    longer := Run(r.states + [s], r.steps + [step]);
    forall i: nat | i < |longer.steps| ensures IsStep(longer, i) && NotReused(longer.states[i], longer.steps[i])
                                               && ProtocolSafety.Timely(longer.states[i], longer.steps[i])
    {
      assert i < |r.steps| ==> IsStep(r, i);
    }
  }

  /** A state where only a naming has been. */
  function Named(nodes: Nodes, addrs: Addrs, naming: Naming): State {
    Start(ADAPTER).(auth := Auth(addrs, nodes), naming := naming)
  }

  const JOB := Job("n", 0, Some(UPF.host), false, None)
  const NODES: Nodes := map["n" := NodeRecord(0, Some(UPF.host))]
  const ADDRS: Addrs := map[UPF.host := {"n"}]

  /** The SMF has named the user plane. */
  lemma TheNodeIsNamed() returns (r: Run)
    ensures IsGoodRun(r) && Now(r) == Named(NODES, ADDRS, Unlocked)
  {
    var dated: Nodes := map["n" := NodeRecord(0, None)];
    r := Run([Start(ADAPTER)], []);
    assert Now(r) == Named(map[], map[], Unlocked);
    r := Extend(r, OfNaming(BeginNaming("n", 0, Some(UPF.host))), Named(dated, map[], Expiring(JOB)));
    r := Extend(r, OfNaming(EndExpiry), Named(dated, map[], Placing(JOB)));
    assert NODES == dated["n" := NodeRecord(0, Some(UPF.host))];
    assert {} + {"n"} == {"n"};
    assert Occupy(map[], "n", UPF.host) == ADDRS;
    r := Extend(r, OfNaming(Place), Named(NODES, ADDRS, Unlocked));
  }

  /** A state where one handler has come as far as claiming. */
  function Arriving(reader: Reader, handlers: map<Id, Handler>): State {
    Named(NODES, ADDRS, Unlocked).(reader := reader, handlers := handlers)
  }

  const TOKEN := RelayToken.Token(0, 0, RELAY_LIFETIME)

  lemma TheReportHasArrived() returns (r: Run)
    ensures IsGoodRun(r) && Now(r) == Arriving(Idle, map[0 := Arrived(UPF, UPF_SEQ)])
  {
    r := TheNodeIsNamed();
    assert Now(r) == Arriving(Idle, map[]);
    r := Extend(r, OfReader(ReadReport(UPF, UPF_SEQ)), Arriving(Reporting(UPF, UPF_SEQ), map[]));
    r := Extend(r, OfReader(DispatchReport(0)), Arriving(Idle, map[0 := Arrived(UPF, UPF_SEQ)]));
  }

  lemma TheReportIsAdmitted() returns (r: Run)
    ensures IsGoodRun(r) && Now(r) == Arriving(Idle, map[0 := Claiming(UPF, UPF_SEQ, TOKEN, 0)])
  {
    r := TheReportHasArrived();
    r := Extend(r, OfHandler(0, ReadGeneration), Arriving(Idle, map[0 := Quoting(UPF, UPF_SEQ, TOKEN)]));
    assert "n" in ADDRS[UPF.host] && Recent(RecordOf(NODES, "n"), 0);
    r := Extend(r, OfHandler(0, CheckKnown), Arriving(Idle, map[0 := Admitted(UPF, UPF_SEQ, TOKEN)]));
    r := Extend(r, OfHandler(0, FindSmf(true)), Arriving(Idle, map[0 := Claiming(UPF, UPF_SEQ, TOKEN, 0)]));
  }

  const NUMBER := RELAY_SEQUENCE_FLOOR
  const CLAIM := Relay(UPF, UPF_SEQ, 0, false)

  /** ... and as far as sending, once it has claimed. */
  function ClaimedState(): State {
    Arriving(Idle, map[0 := Relaying(Send, UPF, UPF_SEQ, NUMBER, 0, 0)]).(
      table := AddClaim(Empty, NUMBER, CLAIM),
      past := Start(ADAPTER).past.(claims := [Report(UPF, UPF_SEQ, 0)], claimOf := map[NUMBER := 0]))
  }

  lemma TheClaimIsFresh()
    ensures Claim(Empty, UPF, UPF_SEQ, 0, 0, Fresh(NUMBER), AddClaim(Empty, NUMBER, CLAIM))
  {
    assert Sweep(Empty, 0) == Empty;
    assert Matching(Empty, UPF, UPF_SEQ, 0) == {};
    assert Distance(0, NUMBER, RELAY_SEQUENCE_FLOOR, RELAY_SEQUENCE_CEIL) == 1;
  }

  lemma TheReportIsClaimed() returns (r: Run)
    ensures IsGoodRun(r) && Now(r) == ClaimedState()
  {
    r := TheReportIsAdmitted();
    TheClaimIsFresh();
    assert Dropped(Now(r).past, map[]) == {};
    assert map[NUMBER := 0] == Keeping(Now(r).past, map[]).claimOf[NUMBER := 0];
    r := Extend(r, OfHandler(0, ClaimReport(Fresh(NUMBER))), ClaimedState());
  }

  /** The request is out under the number. */
  function SentState(posted: bool, reader: Reader, responders: map<Id, Responder>): State {
    ClaimedState().(
      handlers := map[0 := Finished],
      flat := map[Key(ADAPTER, NUMBER) := 1],
      txs := map[1 := Tx(Key(ADAPTER, NUMBER), RelayRequest(0), Running(posted))],
      reader := reader,
      responders := responders,
      past := ClaimedState().past.(sent := {0}))
  }

  lemma TheReportIsRelayed() returns (r: Run)
    ensures IsGoodRun(r) && Now(r) == SentState(false, Idle, map[])
  {
    r := TheReportIsClaimed();
    r := Extend(r, OfHandler(0, SendReport(1, Registered)), SentState(false, Idle, map[]));
  }

  lemma TheSmfResponds() returns (r: Run)
    ensures IsGoodRun(r) && Now(r) == SentState(true, Idle, map[0 := Pending(NUMBER, 0)])
  {
    r := TheReportIsRelayed();
    r := Extend(r, OfReader(ReadResponse(NUMBER)), SentState(false, FoundTx(1, NUMBER, 0), map[]));
    r := Extend(r, OfReader(PostResponse), SentState(true, Responding(NUMBER, 0), map[]));
    r := Extend(r, OfReader(DispatchResponse(0)), SentState(true, Idle, map[0 := Pending(NUMBER, 0)]));
  }

  /** The response's handler has taken the claim. */
  function TakenState(): State {
    var s := SentState(true, Idle, map[0 := Answering(NUMBER, 0, UPF, UPF_SEQ, 0)]);
    s.(table := Take(s.table, NUMBER, 0), past := s.past.(takers := map[0 := ResponderTaker(0)]))
  }

  lemma TheClaimIsTaken() returns (r: Run)
    ensures IsGoodRun(r) && Now(r) == TakenState()
  {
    r := TheSmfResponds();
    assert Taken(Now(r).table, NUMBER, 0) == Some(CLAIM);
    r := Extend(r, OfResponder(0, TakeForResponse), TakenState());
  }

  /** There is such a run, and it ends with the SMF's answer on its way to the user plane under the report's number. */
  lemma AReportIsAnswered() returns (r: Run)
    ensures ProtocolSafety.IsTimelyRun(r) && IsOrderlyRun(r)
    ensures Now(r).past.answers == [Answer(0, UPF, UPF_SEQ, BySmf)]
    ensures Key(UPF, UPF_SEQ) in Now(r).flat
  {
    r := TheClaimIsTaken();
    var answered := AfterAnswer(TakenState(), Answer(0, UPF, UPF_SEQ, BySmf), 2, Registered);
    r := Extend(r, OfResponder(0, AnswerReport(2, Registered)), WithResponder(answered, 0, Forgetting(NUMBER, 0)));
  }

  // -- A report relayed twice ------------------------------------------------------------------------

  /** As SentState, with a second handler. */
  function CopyState(h: Handler, posted: bool, reader: Reader, responders: map<Id, Responder>): State {
    var s := SentState(posted, reader, responders);
    s.(handlers := s.handlers[1 := h])
  }

  /** A copy of the report is read while the first is being relayed, and its handler gets as far as the claim. */
  lemma ACopyHasArrived() returns (r: Run)
    ensures IsGoodRun(r) && Now(r) == CopyState(Arrived(UPF, UPF_SEQ), false, Idle, map[])
  {
    r := TheReportIsRelayed();
    r := Extend(r, OfReader(ReadReport(UPF, UPF_SEQ)), SentState(false, Reporting(UPF, UPF_SEQ), map[]));
    r := Extend(r, OfReader(DispatchReport(1)), CopyState(Arrived(UPF, UPF_SEQ), false, Idle, map[]));
  }

  const COPY := Claiming(UPF, UPF_SEQ, TOKEN, 0)

  lemma ACopyQuotes()
    ensures Goes(CopyState(Arrived(UPF, UPF_SEQ), false, Idle, map[]), OfHandler(1, ReadGeneration),
                 CopyState(Quoting(UPF, UPF_SEQ, TOKEN), false, Idle, map[]))
  {
  }

  lemma ACopyIsChecked()
    ensures Goes(CopyState(Quoting(UPF, UPF_SEQ, TOKEN), false, Idle, map[]), OfHandler(1, CheckKnown),
                 CopyState(Admitted(UPF, UPF_SEQ, TOKEN), false, Idle, map[]))
  {
    assert "n" in ADDRS[UPF.host] && Recent(RecordOf(NODES, "n"), 0);
  }

  lemma ACopyFindsTheSmf()
    ensures Goes(CopyState(Admitted(UPF, UPF_SEQ, TOKEN), false, Idle, map[]), OfHandler(1, FindSmf(true)),
                 CopyState(COPY, false, Idle, map[]))
  {
  }

  lemma ACopyIsAdmitted() returns (r: Run)
    ensures IsGoodRun(r) && Now(r) == CopyState(COPY, false, Idle, map[])
  {
    r := ACopyHasArrived();
    ACopyQuotes();
    ACopyIsChecked();
    ACopyFindsTheSmf();
    r := Extend(r, OfHandler(1, ReadGeneration), CopyState(Quoting(UPF, UPF_SEQ, TOKEN), false, Idle, map[]));
    r := Extend(r, OfHandler(1, CheckKnown), CopyState(Admitted(UPF, UPF_SEQ, TOKEN), false, Idle, map[]));
    r := Extend(r, OfHandler(1, FindSmf(true)), CopyState(COPY, false, Idle, map[]));
  }

  /** Before it claims, the SMF answers the first. */
  lemma TheFirstIsAnswered() returns (r: Run)
    ensures IsGoodRun(r) && Now(r) == CopyState(COPY, true, Idle, map[0 := Pending(NUMBER, 0)])
  {
    r := ACopyIsAdmitted();
    r := Extend(r, OfReader(ReadResponse(NUMBER)), CopyState(COPY, false, FoundTx(1, NUMBER, 0), map[]));
    r := Extend(r, OfReader(PostResponse), CopyState(COPY, true, Responding(NUMBER, 0), map[]));
    r := Extend(r, OfReader(DispatchResponse(0)), CopyState(COPY, true, Idle, map[0 := Pending(NUMBER, 0)]));
  }

  function TakenBeforeCopy(): State {
    var s := CopyState(COPY, true, Idle, map[0 := Answering(NUMBER, 0, UPF, UPF_SEQ, 0)]);
    s.(table := Take(s.table, NUMBER, 0), past := s.past.(takers := map[0 := ResponderTaker(0)]))
  }

  function AnsweredBeforeCopy(): State {
    var s := AfterAnswer(TakenBeforeCopy(), Answer(0, UPF, UPF_SEQ, BySmf), 2, Registered);
    WithResponder(s, 0, Forgetting(NUMBER, 0))
  }

  lemma TheFirstIsTaken()
    ensures Goes(CopyState(COPY, true, Idle, map[0 := Pending(NUMBER, 0)]), OfResponder(0, TakeForResponse), TakenBeforeCopy())
  {
    assert Taken(ClaimedState().table, NUMBER, 0) == Some(CLAIM);
  }

  lemma TheFirstAnswerGoesOut()
    ensures Goes(TakenBeforeCopy(), OfResponder(0, AnswerReport(2, Registered)), AnsweredBeforeCopy())
  {
  }

  lemma TheFirstAnswerIsOut() returns (r: Run)
    ensures IsGoodRun(r) && Now(r) == AnsweredBeforeCopy()
  {
    r := TheFirstIsAnswered();
    TheFirstIsTaken();
    TheFirstAnswerGoesOut();
    r := Extend(r, OfResponder(0, TakeForResponse), TakenBeforeCopy());
    r := Extend(r, OfResponder(0, AnswerReport(2, Registered)), AnsweredBeforeCopy());
  }

  function EndedBeforeCopy(): State {
    Named(NODES, ADDRS, Unlocked).(
      table := Table(map[], map[], NUMBER, 0),
      flat := map[Key(ADAPTER, NUMBER) := 1][Key(UPF, UPF_SEQ) := 2],
      txs := map[1 := Tx(Key(ADAPTER, NUMBER), RelayRequest(0), Running(true))][2 := Tx(Key(UPF, UPF_SEQ), AnswerTx, Running(false))],
      handlers := map[0 := Finished][1 := COPY],
      responders := map[0 := Done],
      past := EndedHistory())
  }

  function EndedHistory(): History {
    History([Report(UPF, UPF_SEQ, 0)], map[], {0}, map[0 := ResponderTaker(0)], [Answer(0, UPF, UPF_SEQ, BySmf)], map[], {0}, {})
  }

  lemma TheFirstIsForgotten()
    ensures AfterForget(AnsweredBeforeCopy(), NUMBER) == EndedBeforeCopy().(responders := map[0 := Forgetting(NUMBER, 0)])
  {
    var forgotten := AfterForget(AnsweredBeforeCopy(), NUMBER);
    assert forgotten.table.relays == map[] && forgotten.past.claimOf == map[];
    assert forgotten.past == EndedHistory();
  }

  lemma TheFirstClaimEnds()
    ensures Goes(AnsweredBeforeCopy(), OfResponder(0, EndAnswered), EndedBeforeCopy())
  {
    TheFirstIsForgotten();
  }

  lemma TheFirstClaimIsOver() returns (r: Run)
    ensures IsGoodRun(r) && Now(r) == EndedBeforeCopy()
  {
    r := TheFirstAnswerIsOut();
    TheFirstClaimEnds();
    r := Extend(r, OfResponder(0, EndAnswered), EndedBeforeCopy());
  }

  lemma TheCopyIsFresh()
    ensures EndedBeforeCopy().table == Table(map[], map[], NUMBER, 0)
    ensures Claim(EndedBeforeCopy().table, UPF, UPF_SEQ, 0, 0, Fresh(NUMBER + 1), AddClaim(EndedBeforeCopy().table, NUMBER + 1, CLAIM))
  {
    var t := EndedBeforeCopy().table;
    assert t.relays == map[];
    assert Sweep(t, 0) == t && Matching(t, UPF, UPF_SEQ, 0) == {};
    assert Distance(NUMBER, NUMBER + 1, RELAY_SEQUENCE_FLOOR, RELAY_SEQUENCE_CEIL) == 1;
  }

  function ClaimedTwice(): State {
    EndedBeforeCopy().(
      handlers := map[0 := Finished][1 := Relaying(Send, UPF, UPF_SEQ, NUMBER + 1, 0, 1)],
      table := AddClaim(Table(map[], map[], NUMBER, 0), NUMBER + 1, CLAIM),
      past := EndedHistory().(claims := [Report(UPF, UPF_SEQ, 0), Report(UPF, UPF_SEQ, 1)], claimOf := map[NUMBER + 1 := 1]))
  }

  lemma NobodyHoldsTheNextNumber()
    ensures Unheld(EndedBeforeCopy(), NUMBER + 1)
  {
  }

  lemma NothingIsSwept()
    ensures var p := EndedHistory(); Keeping(p, KeptByClaim(Table(map[], map[], NUMBER, 0), UPF.host, 0, 0).relays) == p
  {
    assert Dropped(EndedHistory(), map[]) == {};
    assert Sweep(Table(map[], map[], NUMBER, 0), 0).relays == map[];
  }

  lemma TheCopyClaimsAfresh()
    ensures ClaimReportStep(EndedBeforeCopy(), 1, COPY, Fresh(NUMBER + 1), ClaimedTwice())
  {
    TheCopyIsFresh();
    NothingIsSwept();
  }

  lemma TheCopyClaims()
    ensures Goes(EndedBeforeCopy(), OfHandler(1, ClaimReport(Fresh(NUMBER + 1))), ClaimedTwice())
  {
    NobodyHoldsTheNextNumber();
    TheCopyClaimsAfresh();
  }

  function RelayedTwice(): State {
    var s := ClaimedTwice();
    s.(handlers := map[0 := Finished][1 := Finished],
       flat := s.flat[Key(ADAPTER, NUMBER + 1) := 3],
       txs := s.txs[3 := Tx(Key(ADAPTER, NUMBER + 1), RelayRequest(1), Running(false))],
       past := s.past.(sent := {0, 1}))
  }

  lemma TheCopyIsRegistered()
    ensures var s := ClaimedTwice();
      Sends(s, Key(ADAPTER, NUMBER + 1), 3, Registered)
      && WithHandler(AfterSend(s, Key(ADAPTER, NUMBER + 1), RelayRequest(1), 3, Registered), 1, Finished)
           == RelayedTwice().(past := s.past)
  {
  }

  lemma TheCopyIsSent()
    ensures Goes(ClaimedTwice(), OfHandler(1, SendReport(3, Registered)), RelayedTwice())
  {
    TheCopyIsRegistered();
    assert {0} + {1} == {0, 1};
  }

  /**
   A report answered can still be relayed again: a copy read before the answer's transaction was registered reaches its
   own claim after the first has ended. It is the third of the reasons in ProtocolCopies.
   */
  lemma AReportCanBeRelayedTwice() returns (r: Run)
    ensures ProtocolSafety.IsTimelyRun(r) && IsOrderlyRun(r)
    ensures var p := Now(r).past;
      && |p.claims| == 2 && p.claims[0].peer == p.claims[1].peer && p.claims[0].upfSeq == p.claims[1].upfSeq
      && 0 in p.sent && 1 in p.sent && 0 in p.absorbed && p.ended == {}
  {
    r := TheFirstClaimIsOver();
    TheCopyClaims();
    TheCopyIsSent();
    r := Extend(r, OfHandler(1, ClaimReport(Fresh(NUMBER + 1))), ClaimedTwice());
    r := Extend(r, OfHandler(1, SendReport(3, Registered)), RelayedTwice());
  }
}
