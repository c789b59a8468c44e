/** Assessments of the source: one is raised at a time, the newest replaces the waiting one, and
    a failed send leaves it waiting for the next present. */
module ReplayAssessment {
  import opened Subsequences
  import opened Wrappers
  import opened Messages
  import opened ReplayState
  import opened ReplayMachine

  /** What touches the waiting assessment: reporting one, or preparing a present. */
  datatype Call = Report(assessment: Assessment, sent: bool) | Prepare(uncertain: bool, present: Event)

  predicate CallOk(c: Call) { c.Prepare? ==> c.present.PreparePresent? }

  predicate AllOk(calls: seq<Call>) { forall i :: 0 <= i < |calls| ==> CallOk(calls[i]) }

  function Waiting(s: State): seq<Assessment> {
    if s.pendingAssessment.None? then [] else [s.pendingAssessment.value]
  }

  /** An uncertain presentation withdraws the source when nothing else waits to be said. */
  function Raised(s: State, c: Call): seq<Assessment> {
    match c
    case Report(assessment, _) => [assessment]
    case Prepare(uncertain, _) =>
      if uncertain && s.pendingAssessment.None? then [Rejected(EncoderBackendUnavailable)] else []
  }

  /** The assessment the daemon receives during this call. */
  function Heard(s: State, c: Call): seq<Assessment>
    requires CallOk(c)
  {
    var offered := if Raised(s, c) != [] then Raised(s, c) else Waiting(s);
    if (if c.Report? then c.sent else c.present.sent) then offered else []
  }

  function After(s: State, c: Call): State
    requires CallOk(c)
  {
    match c
    case Report(assessment, sent) => Assess(s, assessment, sent)
    case Prepare(uncertain, present) => PresentGate(s.(presentationUncertain := uncertain), present).0
  }

  // ---- Any sequence of calls ----

  function AfterAll(s: State, calls: seq<Call>): State
    requires AllOk(calls)
  {
    if calls == [] then s else After(AfterAll(s, calls[..|calls| - 1]), calls[|calls| - 1])
  }

  function AllRaised(s: State, calls: seq<Call>): seq<Assessment>
    requires AllOk(calls)
  {
    if calls == [] then Waiting(s)
    else
      var n := |calls| - 1;
      AllRaised(s, calls[..n]) + Raised(AfterAll(s, calls[..n]), calls[n])
  }

  function AllHeard(s: State, calls: seq<Call>): seq<Assessment>
    requires AllOk(calls)
  {
    if calls == [] then []
    else
      var n := |calls| - 1;
      AllHeard(s, calls[..n]) + Heard(AfterAll(s, calls[..n]), calls[n])
  }

  /** A call leaves what was heard and what waits as it was, or puts one new assessment last in
      place of the waiting one. */
  lemma OneCall(s: State, c: Call)
    requires CallOk(c)
    ensures |Raised(s, c)| <= 1
    ensures Raised(s, c) == [] ==> Heard(s, c) + Waiting(After(s, c)) == Waiting(s)
    ensures Raised(s, c) != [] ==> Heard(s, c) + Waiting(After(s, c)) == Raised(s, c)
  {
  }

  /** The lists after one call, from the lists before it. */
  lemma ListsStep(heard: seq<Assessment>, waiting: seq<Assessment>, raised: seq<Assessment>, raising: seq<Assessment>,
                  hearing: seq<Assessment>, left: seq<Assessment>)
    requires Subsequence(heard + waiting, raised) && NewestKept(heard + waiting, raised)
    requires |raising| <= 1 && hearing + left == if raising == [] then waiting else raising
    ensures Subsequence((heard + hearing) + left, raised + raising)
    ensures NewestKept((heard + hearing) + left, raised + raising)
  {
    ListsMove(heard, waiting, raised, raising, hearing, left);
    if raising != [] {
      SubsequenceExtends(heard + waiting, raised, |heard|, raising[0]);
    }
  }

  lemma ListsMove(heard: seq<Assessment>, waiting: seq<Assessment>, raised: seq<Assessment>, raising: seq<Assessment>,
                  hearing: seq<Assessment>, left: seq<Assessment>)
    requires |raising| <= 1 && hearing + left == if raising == [] then waiting else raising
    ensures raising == [] ==> (heard + hearing) + left == heard + waiting && raised + raising == raised
    ensures raising != [] ==>
              && (heard + hearing) + left == (heard + waiting)[..|heard|] + [raising[0]]
              && raised + raising == raised + [raising[0]]
  {
    assert (heard + hearing) + left == heard + (hearing + left);
    assert (heard + waiting)[..|heard|] == heard;
  }

  lemma {:induction false} HeardInOrder(s: State, calls: seq<Call>)
    requires AllOk(calls)
    ensures Subsequence(AllHeard(s, calls) + Waiting(AfterAll(s, calls)), AllRaised(s, calls))
    ensures NewestKept(AllHeard(s, calls) + Waiting(AfterAll(s, calls)), AllRaised(s, calls))
    decreases |calls|
  {
    if calls == [] {
      Reflexive(Waiting(s));
    } else {
      var n := |calls| - 1;
      HeardInOrder(s, calls[..n]);
      var before := AfterAll(s, calls[..n]);
      OneCall(before, calls[n]);
      ListsStep(AllHeard(s, calls[..n]), Waiting(before), AllRaised(s, calls[..n]), Raised(before, calls[n]),
                Heard(before, calls[n]), Waiting(After(before, calls[n])));
      assert AllHeard(s, calls) == AllHeard(s, calls[..n]) + Heard(before, calls[n]);
      assert AllRaised(s, calls) == AllRaised(s, calls[..n]) + Raised(before, calls[n]);
      assert AfterAll(s, calls) == After(before, calls[n]);
    }
  }

  predicate NewestKept(part: seq<Assessment>, whole: seq<Assessment>) {
    && (part == [] <==> whole == [])
    && (whole != [] ==> part[|part| - 1] == whole[|whole| - 1])
  }

  lemma Reflexive(w: seq<Assessment>)
    requires |w| <= 1
    ensures Subsequence([] + w, w)
  {
    assert [] + w == w;
    assert w != [] ==> w[..0] == [];
  }

  /** Whatever sends fail, the daemon hears assessments in the order they were raised, each at
      most once, and the newest one is either the last it heard or still waiting to be sent. */
  lemma NewestIsHeardOrWaiting(s: State, calls: seq<Call>)
    requires AllOk(calls)
    ensures var heard, raised := AllHeard(s, calls), AllRaised(s, calls);
            var waiting := AfterAll(s, calls).pendingAssessment;
            && Subsequence(heard, raised)
            && (raised != [] ==>
                  if waiting.Some? then waiting.value == raised[|raised| - 1]
                  else heard != [] && heard[|heard| - 1] == raised[|raised| - 1])
  {
    var heard, raised := AllHeard(s, calls), AllRaised(s, calls);
    var all := heard + Waiting(AfterAll(s, calls));
    HeardInOrder(s, calls);
    SubsequencePrefix(all, raised, |heard|);
    assert all[..|heard|] == heard;
  }

  /** The first send that succeeds brings the daemon up to date with the newest assessment. */
  lemma SuccessfulSendCatchesUp(s: State, calls: seq<Call>, present: Event)
    requires AllOk(calls) && present.PreparePresent? && present.sent
    requires AllRaised(s, calls) != []
    ensures var uncertain := AfterAll(s, calls).presentationUncertain;
            var all := calls + [Prepare(uncertain, present)];
            && AllOk(all) && AfterAll(s, all).pendingAssessment.None? && AllHeard(s, all) != []
            && AllHeard(s, all)[|AllHeard(s, all)| - 1] == AllRaised(s, all)[|AllRaised(s, all)| - 1]
  {
    var last := Prepare(AfterAll(s, calls).presentationUncertain, present);
    var all := calls + [last];
    NewestIsHeardOrWaiting(s, all);
    OneMore(s, calls, last);
    assert After(AfterAll(s, calls), last).pendingAssessment.None?;
  }

  lemma OneMore(s: State, calls: seq<Call>, last: Call)
    requires AllOk(calls) && CallOk(last)
    ensures AfterAll(s, calls + [last]) == After(AfterAll(s, calls), last)
    ensures AllRaised(s, calls + [last]) == AllRaised(s, calls) + Raised(AfterAll(s, calls), last)
  {
    assert (calls + [last])[..|calls|] == calls;
  }

  /** Recording is refused exactly when the last reported assessment was a rejection. */
  lemma {:induction false} LastReportDecides(s: State, calls: seq<Call>, i: nat)
    requires AllOk(calls) && i < |calls| && calls[i].Report?
    requires forall j :: i < j < |calls| ==> calls[j].Prepare?
    ensures AfterAll(s, calls).sourceRejected <==> calls[i].assessment.Rejected?
    decreases |calls|
  {
    var n := |calls| - 1;
    if i < n {
      LastReportDecides(s, calls[..n], i);
    }
  }
}
