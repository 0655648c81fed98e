/**
  What holds of a work order over every run of marking, signing, deciding,
  starting, completing and reopening it (internal/store/maintenance_phase2.go,
  internal/store/installation.go).
 */
module CommissioningSafety {
  import opened Wrappers
  import opened Text
  import opened Checklist
  import opened Commissioning

  // ---------------------------------------------------------------------------
  // The invariant
  // ---------------------------------------------------------------------------

  /** Engineering and production signed for results that are all there and good. */
  ghost predicate AcceptedOnResults(j: Job) {
    forall p :: p in j.handover && Accepting(p) ==> IsCommissioning(j.woType) && Passed(j)
  }

  ghost predicate SignersDiffer(handover: map<Party, Signature>) {
    && (forall p :: p in handover ==> handover[p].signer != "")
    && (forall p, q :: p in handover && q in handover && p != q ==> !EqualFold(handover[p].signer, handover[q].signer))
  }

  /** A pass where there are limits carries a reading inside them. */
  predicate PassIsMeasured(l: Limits, e: Option<Entry>) {
    e.Some? && e.value.result == "pass" && l.Any() ==> e.value.reading.Some? && l.Hold(e.value.reading.value)
  }

  ghost predicate PassesMeasured(j: Job) {
    IsCommissioning(j.woType) ==>
      forall i :: 0 <= i < |StepLimits(j.checklist)| ==>
        PassIsMeasured(StepLimits(j.checklist)[i], ResultAt(j.results, i))
  }

  /** An entry is for a step there is, under its name, and marks it one of the three ways. */
  ghost predicate Fits(checklist: seq<Value>, i: int, e: Entry) {
    0 <= i < |Steps(checklist)| && e.step == Steps(checklist)[i] && e.result in ["pass", "fail", "na"]
  }

  ghost predicate EntriesFit(checklist: seq<Value>, list: seq<Entry>) {
    forall i :: ResultAt(list, i).Some? ==> Fits(checklist, i, ResultAt(list, i).value)
  }

  ghost predicate DecidedByAnother(a: Option<Approval>) {
    a.Some? ==>
      && a.value.requestedBy != ""
      && (a.value.state != Pending ==>
            a.value.decidedBy.Some? && !EqualFold(a.value.requestedBy, a.value.decidedBy.value))
  }

  ghost predicate Inv(j: Job) {
    && AcceptedOnResults(j) && SignersDiffer(j.handover) && PassesMeasured(j) && DecidedByAnother(j.approval)
    && EntriesFit(j.checklist, j.results)
    && (j.status == Completed ==> CompletionOk(j))
    && (j.status == InProgress ==> StartOk(j))
  }

  // ---------------------------------------------------------------------------
  // One operation
  // ---------------------------------------------------------------------------

  lemma MarkedIsMeasured(j: Job, m: Mark, actor: string, now: int)
    requires IsCommissioning(j.woType) && MarkOk(j.woType, j.checklist, m)
    ensures m.index < |StepLimits(j.checklist)|
    ensures PassIsMeasured(StepLimits(j.checklist)[m.index], Some(EntryOf(j.checklist, m, actor, now)))
  {
    StepsAndLimitsLineUp(j.checklist);
  }

  lemma AfterIsMeasured(j: Job, marks: seq<Mark>, actor: string, now: int, i: nat)
    requires IsCommissioning(j.woType) && MarksOk(j.woType, j.checklist, marks) && PassesMeasured(j)
    requires i < |StepLimits(j.checklist)|
    ensures PassIsMeasured(StepLimits(j.checklist)[i], After(j, marks, actor, now, i))
  {
    StepsAndLimitsLineUp(j.checklist);
    var m := LastMark(marks, i);
    if m.Some? {
      var k :| 0 <= k < |marks| && marks[k] == m.value;
      MarkedIsMeasured(j, marks[k], actor, now);
    }
  }

  lemma RecordKeepsMeasured(j: Job, marks: seq<Mark>, actor: string, now: int)
    requires Record(j, marks, actor, now).Ok? && PassesMeasured(j)
    ensures PassesMeasured(Record(j, marks, actor, now).value)
  {
    if IsCommissioning(j.woType) {
      StepsAndLimitsLineUp(j.checklist);
      var es := AfterAll(j, marks, actor, now);
      forall i | 0 <= i < |StepLimits(j.checklist)|
        ensures PassIsMeasured(StepLimits(j.checklist)[i], ResultAt(Listed(es), i))
      {
        ListedReadsBack(es, i);
        AfterIsMeasured(j, marks, actor, now, i);
      }
    }
  }

  lemma AfterFits(j: Job, marks: seq<Mark>, actor: string, now: int, i: nat)
    requires MarksOk(j.woType, j.checklist, marks) && EntriesFit(j.checklist, j.results) && i < |Steps(j.checklist)|
    ensures var e := After(j, marks, actor, now, i); e.Some? ==> Fits(j.checklist, i, e.value)
  {
    var m := LastMark(marks, i);
    if m.Some? {
      var k :| 0 <= k < |marks| && marks[k] == m.value;
      assert MarkOk(j.woType, j.checklist, marks[k]);
    }
  }

  lemma RecordFits(j: Job, marks: seq<Mark>, actor: string, now: int)
    requires Record(j, marks, actor, now).Ok? && EntriesFit(j.checklist, j.results)
    ensures EntriesFit(j.checklist, Record(j, marks, actor, now).value.results)
  {
    var es := AfterAll(j, marks, actor, now);
    forall i | ResultAt(Listed(es), i).Some? ensures Fits(j.checklist, i, ResultAt(Listed(es), i).value) {
      ListedReadsBack(es, i);
      AfterFits(j, marks, actor, now, i);
    }
  }

  /** What a refused or another operation leaves alone. */
  ghost predicate SameJob(j: Job, j': Job) {
    j'.woType == j.woType && j'.checklist == j.checklist && j'.status == j.status && j'.approval == j.approval
  }

  lemma FewerSignaturesKeepInv(j: Job, j': Job)
    requires Inv(j) && !Closed(j) && SameJob(j, j') && PassesMeasured(j') && EntriesFit(j'.checklist, j'.results)
    requires forall p :: p in j'.handover ==> p in j.handover && j'.handover[p] == j.handover[p]
    requires forall p :: p in j'.handover && Accepting(p) ==> !IsCommissioning(j.woType)
    ensures Inv(j')
  {}

  lemma RecordKeepsInv(j: Job, marks: seq<Mark>, actor: string, now: int)
    requires Inv(j) && Record(j, marks, actor, now).Ok?
    ensures Inv(Record(j, marks, actor, now).value)
  {
    RecordKeepsMeasured(j, marks, actor, now);
    RecordFits(j, marks, actor, now);
    FewerSignaturesKeepInv(j, Record(j, marks, actor, now).value);
  }

  lemma SignedIsNamed(p: Paper, actor: string, now: int)
    requires actor != "" && Signed(p, actor, now).Ok?
    ensures Signed(p, actor, now).value.signer != ""
  {}

  lemma OneMoreSignatureKeepsInv(j: Job, j': Job, p: Party, s: Signature)
    requires Inv(j) && !Closed(j) && SameJob(j, j') && j'.results == j.results && j'.handover == j.handover[p := s]
    requires IsCommissioning(j.woType) && (Accepting(p) ==> Passed(j))
    requires s.signer != "" && !SignedElsewhere(j.handover, p, s.signer)
    ensures Inv(j')
  {
    assert Passed(j') <==> Passed(j);
    forall q | q in j.handover && q != p ensures !EqualFold(j'.handover[q].signer, s.signer) {
      assert !SignedBy(j.handover, q, p, s.signer);
    }
  }

  lemma SignKeepsInv(j: Job, party: string, actor: string, now: int, paper: Paper, company: string)
    requires Inv(j) && actor != "" && Sign(j, party, actor, now, paper, company).Ok?
    ensures Inv(Sign(j, party, actor, now, paper, company).value)
  {
    var p, j' := PartyNamed(party).value, Sign(j, party, actor, now, paper, company).value;
    SignedIsNamed(paper, actor, now);
    OneMoreSignatureKeepsInv(j, j', p, j'.handover[p]);
  }

  /** Tests and handover as they were. */
  lemma SameResultsKeepInv(j: Job, j': Job)
    requires Inv(j) && j'.woType == j.woType && j'.checklist == j.checklist
    requires j'.results == j.results && j'.handover == j.handover
    requires DecidedByAnother(j'.approval)
    requires j'.status == Completed ==> CompletionOk(j')
    requires j'.status == InProgress ==> StartOk(j')
    ensures Inv(j')
  {
    assert Passed(j') <==> Passed(j);
  }

  lemma SignoffKeepsInv(j: Job, role: string, actor: string, now: int, paper: Paper)
    requires Inv(j) && SignOff(j, role, actor, now, paper).Ok?
    ensures Inv(SignOff(j, role, actor, now, paper).value)
  {
    SameResultsKeepInv(j, SignOff(j, role, actor, now, paper).value);
  }

  lemma DecideKeepsInv(j: Job, approve: bool, reason: string, actor: string, now: int)
    requires Inv(j) && Decide(j, approve, reason, actor, now).Ok?
    ensures Inv(Decide(j, approve, reason, actor, now).value)
  {
    SameResultsKeepInv(j, Decide(j, approve, reason, actor, now).value);
  }

  lemma StatusKeepsInv(j: Job, j': Job)
    requires Inv(j) && j' == j.(status := j'.status)
    requires j'.status == j.status || (j'.status == InProgress ==> StartOk(j))
    requires j'.status == j.status || (j'.status == Completed ==> CompletionOk(j))
    ensures Inv(j')
  {
    SameResultsKeepInv(j, j');
  }

  lemma OpKeepsInv(j: Job, op: Op)
    requires Inv(j)
    ensures Inv(Apply(j, op))
  {
    if Attempt(j, op).Ok? {
      match op
      case RecordChecklist(marks, who, now) => RecordKeepsInv(j, marks, ActorName(who), now);
      case SignHandover(party, who, now, paper, company) => SignKeepsInv(j, party, ActorName(who), now, paper, company);
      case Signoff(role, who, now, paper) => SignoffKeepsInv(j, role, ActorName(who), now, paper);
      case DecideApproval(approve, reason, who, now) => DecideKeepsInv(j, approve, reason, ActorName(who), now);
      case PatchStatus(_) => StatusKeepsInv(j, Apply(j, op));
      case CompleteWorkOrder => StatusKeepsInv(j, Apply(j, op));
      case CodeFailure => SameResultsKeepInv(j, Apply(j, op));
    }
  }

  lemma {:induction false} RunKeepsInv(j: Job, ops: seq<Op>)
    requires Inv(j)
    ensures Inv(Run(j, ops))
    decreases |ops|
  {
    if ops != [] {
      RunKeepsInv(j, ops[..|ops| - 1]);
      OpKeepsInv(Run(j, ops[..|ops| - 1]), ops[|ops| - 1]);
    }
  }

  lemma RaisedIsSound(woType: string, name: string, checklist: seq<Value>, estimate: real, threshold: real,
                      who: Option<Claims>)
    ensures Inv(Raised(woType, name, checklist, estimate, threshold, who))
  {
    assert ResultsOf([]) == map[];
  }

  lemma ReachableIsSound(j: Job)
    requires Reachable(j)
    ensures Inv(j)
  {
    var woType, name, checklist, estimate, threshold, who, ops :|
      j == Run(Raised(woType, name, checklist, estimate, threshold, who), ops);
    RaisedIsSound(woType, name, checklist, estimate, threshold, who);
    RunKeepsInv(Raised(woType, name, checklist, estimate, threshold, who), ops);
  }

  // ---------------------------------------------------------------------------
  // Every run
  // ---------------------------------------------------------------------------

  /** Test `i` was passed, on a reading inside its limits where it has any, or does not apply. */
  ghost predicate Good(j: Job, i: nat)
    requires i < |Steps(j.checklist)| == |StepLimits(j.checklist)|
  {
    var e, l := ResultAt(j.results, i), StepLimits(j.checklist)[i];
    && e.Some? && e.value.step == Steps(j.checklist)[i]
    && (e.value.result == "na"
        || (e.value.result == "pass" && (l.Any() ==> e.value.reading.Some? && l.Hold(e.value.reading.value))))
  }

  lemma PassedIsGood(j: Job, i: nat)
    requires Inv(j) && IsCommissioning(j.woType) && Passed(j) && i < |Steps(j.checklist)|
    ensures |Steps(j.checklist)| == |StepLimits(j.checklist)| && Good(j, i)
  {
    StepsAndLimitsLineUp(j.checklist);
    assert !Unmarked(j.results, i) && !Failed(j.results, i);
    assert PassIsMeasured(StepLimits(j.checklist)[i], ResultAt(j.results, i));
  }

  /** Whenever engineering's or production's signature stands, there is a test and
      every test is good: fail, re-test and re-sign in whatever order. */
  lemma AcceptanceStandsOnGoodTests(j: Job, p: Party, i: nat)
    requires Reachable(j) && p in j.handover && Accepting(p)
    ensures |Steps(j.checklist)| == |StepLimits(j.checklist)| > 0
    ensures i < |Steps(j.checklist)| ==> Good(j, i)
  {
    ReachableIsSound(j);
    StepsAndLimitsLineUp(j.checklist);
    if i < |Steps(j.checklist)| { PassedIsGood(j, i); }
  }

  /** A test whose limits no reading can meet is never passed: accepted, it was set aside. */
  lemma ContradictoryTestIsSetAside(j: Job, p: Party, i: nat)
    requires Reachable(j) && p in j.handover && Accepting(p) && i < |StepLimits(j.checklist)|
    requires StepLimits(j.checklist)[i].Contradictory()
    ensures ResultAt(j.results, i).Some? && ResultAt(j.results, i).value.result == "na"
  {
    AcceptanceStandsOnGoodTests(j, p, i);
    LimitsHoldExactly(StepLimits(j.checklist)[i]);
  }

  /** A checklist that PATCH makes longer by one item; marks and signatures stay. */
  function WithItem(j: Job, item: Value): Job {
    j.(checklist := j.checklist + [item])
  }

  /** A named item is one more step, so far unmarked; any other changes nothing. */
  lemma OneMoreStep(j: Job, item: Value)
    requires EntriesFit(j.checklist, j.results)
    ensures var c, n := WithItem(j, item).checklist, |Steps(j.checklist)|;
      if StepOf(item).None? then Steps(c) == Steps(j.checklist) && StepLimits(c) == StepLimits(j.checklist)
      else
        && Steps(c) == Steps(j.checklist) + [StepOf(item).value]
        && StepLimits(c) == StepLimits(j.checklist) + [LimitsOf(item)]
        && |StepLimits(j.checklist)| == n && ResultAt(j.results, n).None?
  {
    var c := WithItem(j, item).checklist;
    StepsMore(c, |j.checklist|);
    assert c[..|j.checklist|] == j.checklist && c[..|j.checklist| + 1] == c;
    StepsAndLimitsLineUp(j.checklist);
  }

  lemma LongerStillFits(j: Job, item: Value)
    requires Inv(j)
    ensures var l := WithItem(j, item); PassesMeasured(l) && EntriesFit(l.checklist, l.results)
  {
    OneMoreStep(j, item);
    var l := WithItem(j, item);
    forall i | ResultAt(l.results, i).Some? ensures Fits(l.checklist, i, ResultAt(l.results, i).value) {
      assert Fits(j.checklist, i, ResultAt(j.results, i).value);
    }
  }

  /** Adding an item keeps a work order sound exactly when it names no step, or
      nobody accepted the tests yet and the order is not completed: a test added
      later is covered by signatures that never saw it. */
  lemma AddedItemKeepsExactly(j: Job, item: Value)
    requires Inv(j)
    ensures Inv(WithItem(j, item))
       <==> StepOf(item).None? || (j.status != Completed && forall p :: p in j.handover ==> !Accepting(p))
  {
    var l, n := WithItem(j, item), |Steps(j.checklist)|;
    OneMoreStep(j, item);
    LongerStillFits(j, item);
    if StepOf(item).Some? {
      assert Unmarked(l.results, n) && n < |Steps(l.checklist)|;
      assert !Passed(l) && (l.status == Completed ==> !CompletionOk(l));
    } else {
      assert Passed(l) <==> Passed(j);
      assert CompletionOk(l) <==> CompletionOk(j);
    }
  }

  /** No person stands behind two signatures of a handover. */
  lemma ThreeDifferentPeople(j: Job, p: Party, q: Party)
    requires Reachable(j) && p in j.handover && q in j.handover && p != q
    ensures j.handover[p].signer != "" && !EqualFold(j.handover[p].signer, j.handover[q].signer)
  {
    ReachableIsSound(j);
  }

  lemma AllThreeSigned(j: Job, p: Party)
    requires forall p :: p in PARTIES ==> p in j.handover
    ensures p in j.handover
  {
    assert PARTIES[0] == Installer && PARTIES[1] == Engineering && PARTIES[2] == Production;
    assert p in PARTIES;
  }

  /** A completed commissioning job has tests, all good, and all three signatures. */
  lemma CompletedMeansAccepted(j: Job, i: nat)
    requires Reachable(j) && j.status == Completed && IsCommissioning(j.woType)
    ensures |Steps(j.checklist)| == |StepLimits(j.checklist)| > 0
    ensures i < |Steps(j.checklist)| ==> Good(j, i)
    ensures forall p: Party :: p in j.handover
  {
    ReachableIsSound(j);
    StepsAndLimitsLineUp(j.checklist);
    if i < |Steps(j.checklist)| { PassedIsGood(j, i); }
    forall p: Party ensures p in j.handover { AllThreeSigned(j, p); }
  }

  /** A signature that was not there before was given in the run. */
  ghost predicate SignsFor(op: Op, p: Party) {
    op.SignHandover? && PartyNamed(op.party) == Some(p)
  }

  lemma NewSignatureIsGiven(j: Job, op: Op, p: Party)
    requires p in Apply(j, op).handover && p !in j.handover
    ensures SignsFor(op, p)
  {}

  lemma {:induction false} SignatureWasGiven(j: Job, ops: seq<Op>, p: Party) returns (k: nat)
    requires p in Run(j, ops).handover && p !in j.handover
    ensures k < |ops| && SignsFor(ops[k], p)
    decreases |ops|
  {
    var n := |ops| - 1;
    if p in Run(j, ops[..n]).handover {
      k := SignatureWasGiven(j, ops[..n], p);
    } else {
      k := n;
      NewSignatureIsGiven(Run(j, ops[..n]), ops[n], p);
    }
  }

  /** Touching the tests of a commissioning job, even with nothing to mark, takes
      back both acceptances: whatever follows, the job is complete only after
      engineering and production signed again. */
  lemma RetestNeedsNewAcceptance(j: Job, marks: seq<Mark>, who: Option<Claims>, now: int, ops: seq<Op>, p: Party)
    returns (k: nat)
    requires Inv(j) && IsCommissioning(j.woType) && Accepting(p)
    requires Record(j, marks, ActorName(who), now).Ok?
    requires Run(Apply(j, RecordChecklist(marks, who, now)), ops).status == Completed
    ensures k < |ops| && SignsFor(ops[k], p)
  {
    var after := Apply(j, RecordChecklist(marks, who, now));
    OpKeepsInv(j, RecordChecklist(marks, who, now));
    RunKeepsInv(after, ops);
    TypeStays(after, ops);
    AllThreeSigned(Run(after, ops), p);
    k := SignatureWasGiven(after, ops, p);
  }

  lemma TypeStaysOnce(j: Job, op: Op)
    ensures Apply(j, op).woType == j.woType && Apply(j, op).checklist == j.checklist
  {}

  lemma {:induction false} TypeStays(j: Job, ops: seq<Op>)
    ensures Run(j, ops).woType == j.woType && Run(j, ops).checklist == j.checklist
    decreases |ops|
  {
    if ops != [] {
      TypeStays(j, ops[..|ops| - 1]);
      TypeStaysOnce(Run(j, ops[..|ops| - 1]), ops[|ops| - 1]);
    }
  }

  // ---------------------------------------------------------------------------
  // Approval
  // ---------------------------------------------------------------------------

  /** A decision, once made, stays; who asked never changes. */
  lemma ApprovalStays(j: Job, op: Op)
    requires j.approval.Some?
    ensures var a, b := j.approval, Apply(j, op).approval;
      b.Some? && b.value.requestedBy == a.value.requestedBy && (a.value.state != Pending ==> b == a)
  {}

  lemma {:induction false} ApprovalStaysInRun(j: Job, ops: seq<Op>)
    requires j.approval.Some?
    ensures var a, b := j.approval, Run(j, ops).approval;
      b.Some? && b.value.requestedBy == a.value.requestedBy && (a.value.state != Pending ==> b == a)
    decreases |ops|
  {
    if ops != [] {
      ApprovalStaysInRun(j, ops[..|ops| - 1]);
      ApprovalStays(Run(j, ops[..|ops| - 1]), ops[|ops| - 1]);
    }
  }

  /** Four eyes: work whose estimate reaches the threshold is in progress or
      completed only once someone other than who raised it approved it. */
  lemma CostlyWorkIsApprovedByAnother(woType: string, name: string, checklist: seq<Value>, estimate: real,
                                      threshold: real, who: Option<Claims>, ops: seq<Op>)
    requires 0.0 < threshold <= estimate
    requires var j := Run(Raised(woType, name, checklist, estimate, threshold, who), ops);
      j.status == InProgress || j.status == Completed
    ensures var a := Run(Raised(woType, name, checklist, estimate, threshold, who), ops).approval;
      && a.Some? && a.value.state == Approved && a.value.decidedBy.Some?
      && !EqualFold(a.value.decidedBy.value, ActorName(who))
  {
    var j := Raised(woType, name, checklist, estimate, threshold, who);
    RaisedIsSound(woType, name, checklist, estimate, threshold, who);
    RunKeepsInv(j, ops);
    ApprovalStaysInRun(j, ops);
  }

  /** Rejected work is never started or completed, however its status is patched. */
  lemma RejectedWorkStops(j: Job, ops: seq<Op>)
    requires Inv(j) && j.approval.Some? && j.approval.value.state == Rejected
    ensures Run(j, ops).status != InProgress && Run(j, ops).status != Completed
  {
    RunKeepsInv(j, ops);
    ApprovalStaysInRun(j, ops);
  }

  /** A decision binds: approved work may be started at once, and rejected work is
      never in progress or completed, whatever follows. */
  lemma DecisionBinds(j: Job, approve: bool, reason: string, actor: string, now: int, ops: seq<Op>)
    requires Inv(j) && actor != "" && Decide(j, approve, reason, actor, now).Ok?
    ensures var decided := Decide(j, approve, reason, actor, now).value;
      && (approve ==> Move(decided, InProgress).Ok?)
      && (!approve ==> Run(decided, ops).status != InProgress && Run(decided, ops).status != Completed)
  {
    var decided := Decide(j, approve, reason, actor, now).value;
    SameResultsKeepInv(j, decided);
    if !approve { RejectedWorkStops(decided, ops); }
  }

  // ---------------------------------------------------------------------------
  // Checking one's own work
  // ---------------------------------------------------------------------------

  /** The supervisor who checked the work is not the technician who did it. */
  ghost predicate CheckedByAnother(j: Job) {
    j.technician.Some? && j.supervisor.Some? ==> !EqualFold(j.technician.value.signer, j.supervisor.value.signer)
  }

  ghost predicate Reopens(j: Job, op: Op) {
    j.status == Completed && Apply(j, op).status != Completed
  }

  ghost predicate NeverReopened(j: Job, ops: seq<Op>)
    decreases |ops|
  {
    ops == [] || (NeverReopened(j, ops[..|ops| - 1]) && !Reopens(Run(j, ops[..|ops| - 1]), ops[|ops| - 1]))
  }

  ghost predicate CheckedWhenDone(j: Job) {
    && CheckedByAnother(j) && (j.supervisor.Some? ==> j.status == Completed)
    && (j.technician.Some? ==> j.technician.value.signer != "")
  }

  lemma CheckStays(j: Job, op: Op)
    requires CheckedWhenDone(j) && !Reopens(j, op)
    ensures CheckedWhenDone(Apply(j, op))
  {
    if op.Signoff? && Attempt(j, op).Ok? {
      SignedIsNamed(op.paper, ActorName(op.who), op.now);
    }
  }

  /** As long as a completed order is not reopened, no one checks their own work. */
  lemma {:induction false} NobodyChecksOwnWork(woType: string, name: string, checklist: seq<Value>, estimate: real,
                                               threshold: real, who: Option<Claims>, ops: seq<Op>)
    requires NeverReopened(Raised(woType, name, checklist, estimate, threshold, who), ops)
    ensures CheckedWhenDone(Run(Raised(woType, name, checklist, estimate, threshold, who), ops))
    decreases |ops|
  {
    if ops != [] {
      NobodyChecksOwnWork(woType, name, checklist, estimate, threshold, who, ops[..|ops| - 1]);
      CheckStays(Run(Raised(woType, name, checklist, estimate, threshold, who), ops[..|ops| - 1]), ops[|ops| - 1]);
    }
  }

  /** The person on record as supervisor signs as the technician. */
  ghost predicate SelfSign(j: Job, op: Op) {
    && op.Signoff? && op.role == "technician" && Attempt(j, op).Ok? && j.supervisor.Some?
    && Signed(op.paper, ActorName(op.who), op.now).Ok?
    && EqualFold(Signed(op.paper, ActorName(op.who), op.now).value.signer, j.supervisor.value.signer)
  }

  ghost predicate TechnicianNamed(j: Job) {
    j.technician.Some? ==> j.technician.value.signer != ""
  }

  lemma OpChecks(j: Job, op: Op)
    requires TechnicianNamed(j) && CheckedByAnother(j)
    ensures TechnicianNamed(Apply(j, op)) && (CheckedByAnother(Apply(j, op)) <==> !SelfSign(j, op))
  {
    if op.Signoff? && Attempt(j, op).Ok? {
      SignedIsNamed(op.paper, ActorName(op.who), op.now);
    }
  }

  lemma {:induction false} TechnicianStaysNamed(j: Job, ops: seq<Op>)
    requires TechnicianNamed(j)
    ensures TechnicianNamed(Run(j, ops))
    decreases |ops|
  {
    if ops != [] {
      var before, op := Run(j, ops[..|ops| - 1]), ops[|ops| - 1];
      TechnicianStaysNamed(j, ops[..|ops| - 1]);
      if op.Signoff? && Attempt(before, op).Ok? { SignedIsNamed(op.paper, ActorName(op.who), op.now); }
    }
  }

  /** At every point of the run, the work checked was checked by another. */
  ghost predicate AlwaysChecked(j: Job, ops: seq<Op>)
    decreases |ops|
  {
    CheckedByAnother(Run(j, ops)) && (ops == [] || AlwaysChecked(j, ops[..|ops| - 1]))
  }

  ghost predicate NeverSelfSigned(j: Job, ops: seq<Op>)
    decreases |ops|
  {
    || ops == []
    || (NeverSelfSigned(j, ops[..|ops| - 1]) && !SelfSign(Run(j, ops[..|ops| - 1]), ops[|ops| - 1]))
  }

  /** Over every run, reopened orders included: at every point the work was checked
      by another than who did it, if and only if at no step the supervisor signs as
      the technician. */
  lemma {:induction false} CheckedExactlyUnlessSelfSigned(j: Job, ops: seq<Op>)
    requires j.technician == None
    ensures AlwaysChecked(j, ops) <==> NeverSelfSigned(j, ops)
    decreases |ops|
  {
    if ops != [] {
      var front := ops[..|ops| - 1];
      CheckedExactlyUnlessSelfSigned(j, front);
      TechnicianStaysNamed(j, front);
      if AlwaysChecked(j, front) { OpChecks(Run(j, front), ops[|ops| - 1]); }
    }
  }

  lemma BareJobCompletes(j: Job)
    requires !IsCommissioning(j.woType) && !FailureCodeNeeded(j.woType) && j.checklist == [] && j.approval == None
    ensures Apply(j, CompleteWorkOrder) == j.(status := Completed)
  {}

  lemma SignsAsTechnician(j: Job, who: Option<Claims>, now: int)
    requires !Closed(j)
    ensures Apply(j, Signoff("technician", who, now, Paper("", NoDate)))
         == j.(technician := Some(Signature(ActorName(who), None, false, now, None)))
  {
    assert Trim("") == "";
  }

  lemma SignsAsSupervisor(j: Job, who: Option<Claims>, now: int)
    requires j.status == Completed && j.technician.Some? && !EqualFold(j.technician.value.signer, ActorName(who))
    ensures Apply(j, Signoff("supervisor", who, now, Paper("", NoDate)))
         == j.(supervisor := Some(Signature(ActorName(who), None, false, now, None)))
  {
    assert Trim("") == "";
  }

  lemma Reopen(j: Job)
    requires j.approval == None
    ensures Apply(j, PatchStatus(InProgress)) == j.(status := InProgress)
  {}

  lemma Continue(j: Job, ops: seq<Op>, op: Op, next: Job) returns (longer: seq<Op>)
    requires Apply(Run(j, ops), op) == next
    ensures longer == ops + [op] && Run(j, longer) == next
  {
    longer := ops + [op];
    assert longer[..|ops|] == ops;
  }

  /** Such a run: done by one, checked by another, reopened, and done again by the one who checked it. */
  lemma ReopenedWorkCanBeCheckedByItsDoer(woType: string, a: Claims, b: Claims, now: int) returns (ops: seq<Op>)
    requires !IsCommissioning(woType) && !FailureCodeNeeded(woType)
    requires !EqualFold(ActorName(Some(a)), ActorName(Some(b)))
    ensures var j := Run(Raised(woType, "open", [], 0.0, 0.0, None), ops);
      j.status == Completed && j.supervisor.Some? && !CheckedByAnother(j)
  {
    var j0, blank := Raised(woType, "open", [], 0.0, 0.0, None), Paper("", NoDate);
    var s := Signature(ActorName(Some(a)), None, false, now, None);
    var t := Signature(ActorName(Some(b)), None, false, now, None);
    var j1 := j0.(technician := Some(s));
    var j2 := j1.(status := Completed);
    var j3 := j2.(supervisor := Some(t));
    var j4 := j3.(status := InProgress);
    var j5 := j4.(technician := Some(t));
    SignsAsTechnician(j0, Some(a), now);
    ops := Continue(j0, [], Signoff("technician", Some(a), now, blank), j1);
    BareJobCompletes(j1);
    ops := Continue(j0, ops, CompleteWorkOrder, j2);
    SignsAsSupervisor(j2, Some(b), now);
    ops := Continue(j0, ops, Signoff("supervisor", Some(b), now, blank), j3);
    Reopen(j3);
    ops := Continue(j0, ops, PatchStatus(InProgress), j4);
    SignsAsTechnician(j4, Some(b), now);
    ops := Continue(j0, ops, Signoff("technician", Some(b), now, blank), j5);
    BareJobCompletes(j5);
    ops := Continue(j0, ops, CompleteWorkOrder, j5.(status := Completed));
  }
}
