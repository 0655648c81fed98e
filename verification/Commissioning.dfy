/**
  One work order from approval to completion: its checklist, the three-party
  handover of a commissioning job, sign-off, and the gates in front of starting
  and completing it (internal/store/maintenance_phase2.go and installation.go).
 */
module Commissioning {
  import opened Wrappers
  import opened Text
  import opened Checklist

  datatype Party = Installer | Engineering | Production
  const PARTIES: seq<Party> := [Installer, Engineering, Production]

  datatype Status = InProgress | Completed | Cancelled | Waiting(name: string)
  datatype Decision = Pending | Approved | Rejected
  datatype Approval = Approval(state: Decision, requestedBy: string, decidedBy: Option<string>, decidedAt: Option<int>,
                               reason: Option<string>)

  /** A step as it was marked. */
  datatype Entry = Entry(index: int, step: string, result: string, doneBy: string, enteredBy: Option<string>,
                         reading: Option<real>, note: Option<string>, at: int)

  datatype Signature =
    Signature(signer: string, enteredBy: Option<string>, onPaper: bool, at: int, company: Option<string>)

  datatype Job = Job(woType: string, status: Status, checklist: seq<Value>, results: seq<Entry>,
                     handover: map<Party, Signature>, technician: Option<Signature>, supervisor: Option<Signature>,
                     failureCoded: bool, approval: Option<Approval>)

  /** A request to mark a step. */
  datatype Mark = Mark(index: int, result: string, reading: Option<real>, note: string, doneBy: string)

  /** The date written on a paper sheet: none, not a date, or the start of a day. */
  datatype PaperDate = NoDate | BadDate | Day(at: int)
  datatype Paper = Paper(signedBy: string, signedOn: PaperDate)

  datatype Claims = Claims(name: string, email: string, subject: string)

  /** Who is signed in; never empty. */
  function ActorName(who: Option<Claims>): (actor: string)
    ensures actor != ""
  {
    if who.None? then "anonymous"
    else if Trim(who.value.name) != "" then Trim(who.value.name)
    else if Trim(who.value.email) != "" then Trim(who.value.email)
    else if who.value.subject != "" then who.value.subject
    else "anonymous"
  }

  predicate IsCommissioning(woType: string) {
    Lower(Trim(woType)) == "commissioning"
  }

  predicate Closed(j: Job) {
    j.status == Completed || j.status == Cancelled
  }

  // ---------------------------------------------------------------------------
  // Results of steps
  // ---------------------------------------------------------------------------

  /** checklistResultsOf: the last entry stored for each step. */
  function ResultsOf(list: seq<Entry>): (r: map<int, Entry>)
    ensures forall i :: i in r ==> r[i].index == i
  {
    if list == [] then map[]
    else
      var last := list[|list| - 1];
      ResultsOf(list[..|list| - 1])[last.index := last]
  }

  function ResultAt(list: seq<Entry>, i: int): Option<Entry> {
    var r := ResultsOf(list);
    if i in r then Some(r[i]) else None
  }

  predicate Unmarked(list: seq<Entry>, i: int) {
    var e := ResultAt(list, i);
    e.None? || e.value.result == ""
  }

  predicate Failed(list: seq<Entry>, i: int) {
    var e := ResultAt(list, i);
    e.Some? && e.value.result == "fail"
  }

  function CountUnmarked(list: seq<Entry>, n: nat): (c: nat)
    ensures c == 0 <==> forall i :: 0 <= i < n ==> !Unmarked(list, i)
  {
    if n == 0 then 0 else CountUnmarked(list, n - 1) + (if Unmarked(list, n - 1) then 1 else 0)
  }

  function CountFailed(list: seq<Entry>, n: nat): (c: nat)
    ensures c == 0 <==> forall i :: 0 <= i < n ==> !Failed(list, i)
  {
    if n == 0 then 0 else CountFailed(list, n - 1) + (if Failed(list, n - 1) then 1 else 0)
  }

  /** There are tests, each is marked and none failed. */
  ghost predicate Passed(j: Job) {
    && |Steps(j.checklist)| > 0
    && forall i :: 0 <= i < |Steps(j.checklist)| ==> !Unmarked(j.results, i) && !Failed(j.results, i)
  }

  // ---------------------------------------------------------------------------
  // Marking steps
  // ---------------------------------------------------------------------------

  function ResultWord(m: Mark): string {
    Lower(Trim(m.result))
  }

  /** checkAcceptance: a reading outside the limits is no pass, and a commissioning
      test with limits is passed on a reading only. */
  predicate AcceptanceOk(woType: string, checklist: seq<Value>, m: Mark) {
    var limits := StepLimits(checklist);
    if m.index < 0 || m.index >= |limits| || !limits[m.index].Any() then true
    else if m.reading.None? then !(ResultWord(m) == "pass" && IsCommissioning(woType))
    else !(ResultWord(m) == "pass" && !limits[m.index].Hold(m.reading.value))
  }

  predicate MarkOk(woType: string, checklist: seq<Value>, m: Mark) {
    && 0 <= m.index < |Steps(checklist)|
    && ResultWord(m) in ["pass", "fail", "na"]
    && (ResultWord(m) == "fail" ==> Trim(m.note) != "")
    && AcceptanceOk(woType, checklist, m)
  }

  ghost predicate MarksOk(woType: string, checklist: seq<Value>, marks: seq<Mark>) {
    forall k :: 0 <= k < |marks| ==> MarkOk(woType, checklist, marks[k])
  }

  function EntryOf(checklist: seq<Value>, m: Mark, actor: string, now: int): Entry
    requires 0 <= m.index < |Steps(checklist)|
  {
    var name := Trim(m.doneBy);
    var other := name != "" && !EqualFold(name, actor);
    Entry(m.index, Steps(checklist)[m.index], ResultWord(m), if other then name else actor,
          if other then Some(actor) else None, m.reading, if Trim(m.note) != "" then Some(Trim(m.note)) else None, now)
  }

  /** The last mark for a step. */
  function LastMark(marks: seq<Mark>, i: int): (r: Option<Mark>)
    ensures r.Some? ==> r.value in marks && r.value.index == i
  {
    if marks == [] then None
    else if marks[|marks| - 1].index == i then Some(marks[|marks| - 1])
    else LastMark(marks[..|marks| - 1], i)
  }

  /** What is on record for a step once the marks are in: its last mark, or what was there. */
  function After(j: Job, marks: seq<Mark>, actor: string, now: int, i: int): (r: Option<Entry>)
    ensures r.Some? ==> r.value.index == i
  {
    var m := LastMark(marks, i);
    if m.Some? && 0 <= i < |Steps(j.checklist)| then Some(EntryOf(j.checklist, m.value, actor, now))
    else ResultAt(j.results, i)
  }

  /** What is on record for each step once the marks are in. */
  function AfterAll(j: Job, marks: seq<Mark>, actor: string, now: int): (r: seq<Option<Entry>>)
    ensures |r| == |Steps(j.checklist)| && InPlace(r)
  {
    seq(|Steps(j.checklist)|, i => After(j, marks, actor, now, i))
  }

  /** Each entry is the one of its own step. */
  ghost predicate InPlace(es: seq<Option<Entry>>) {
    forall i :: 0 <= i < |es| && es[i].Some? ==> es[i].value.index == i
  }

  /** The list saved: the steps in order, those never marked left out. */
  function Listed(es: seq<Option<Entry>>): seq<Entry> {
    if es == [] then []
    else
      var last := es[|es| - 1];
      Listed(es[..|es| - 1]) + (if last.Some? then [last.value] else [])
  }

  /** withdrawAcceptance. */
  function Withdrawn(handover: map<Party, Signature>): map<Party, Signature> {
    handover - {Engineering, Production}
  }

  /** RecordChecklist. */
  ghost function Record(j: Job, marks: seq<Mark>, actor: string, now: int): Result<Job> {
    if Closed(j) then Err(Conflict)
    else if Steps(j.checklist) == [] || !MarksOk(j.woType, j.checklist, marks) then Err(BadInput)
    else Ok(j.(results := Listed(AfterAll(j, marks, actor, now)),
               handover := if IsCommissioning(j.woType) then Withdrawn(j.handover) else j.handover))
  }

  // ---------------------------------------------------------------------------
  // Signatures
  // ---------------------------------------------------------------------------

  /** PaperSignature.entry: the person on the paper sheet, or the one signed in. */
  function Signed(p: Paper, actor: string, now: int): Result<Signature> {
    var name := Trim(p.signedBy);
    if name == "" then Ok(Signature(actor, None, false, now, None))
    else if p.signedOn.BadDate? || (p.signedOn.Day? && p.signedOn.at > now) then Err(BadInput)
    else Ok(Signature(name, if EqualFold(name, actor) then None else Some(actor), true,
                      if p.signedOn.Day? then p.signedOn.at else now, None))
  }

  function PartyNamed(name: string): Option<Party> {
    var p := Lower(Trim(name));
    if p == "installer" then Some(Installer)
    else if p == "engineering" then Some(Engineering)
    else if p == "production" then Some(Production)
    else None
  }

  predicate Accepting(p: Party) {
    p == Engineering || p == Production
  }

  /** The person signed for `other`, which is not `party`. */
  predicate SignedBy(handover: map<Party, Signature>, other: Party, party: Party, signer: string) {
    other in handover && other != party && handover[other].signer != "" && EqualFold(handover[other].signer, signer)
  }

  /** The person signed for another party already. */
  ghost predicate SignedElsewhere(handover: map<Party, Signature>, party: Party, signer: string) {
    exists other :: SignedBy(handover, other, party, signer)
  }

  /** SignHandover. */
  ghost function Sign(j: Job, party: string, actor: string, now: int, paper: Paper, company: string): Result<Job> {
    var p := PartyNamed(party);
    if p.None? then Err(BadInput)
    else if !IsCommissioning(j.woType) then Err(BadInput)
    else if Closed(j) then Err(Conflict)
    else if Accepting(p.value) && !Passed(j) then Err(Conflict)
    else
      var s := Signed(paper, actor, now);
      if s.Err? then Err(s.error)
      else if SignedElsewhere(j.handover, p.value, s.value.signer) then Err(Conflict)
      else
        var c := Trim(company);
        Ok(j.(handover := j.handover[p.value := s.value.(company := if c != "" then Some(c) else None)]))
  }

  /** Signoff: the technician who did the work, then the supervisor who checked it. */
  function SignOff(j: Job, role: string, actor: string, now: int, paper: Paper): Result<Job> {
    var s := Signed(paper, actor, now);
    if s.Err? then Err(s.error)
    else if role == "technician" then
      if Closed(j) then Err(Conflict) else Ok(j.(technician := Some(s.value)))
    else if role == "supervisor" then
      if j.status != Completed then Err(Conflict)
      else if
        && j.technician.Some?
        && j.technician.value.signer != ""
        && EqualFold(j.technician.value.signer, s.value.signer)
      then Err(Conflict)
      else Ok(j.(supervisor := Some(s.value)))
    else Err(BadInput)
  }

  // ---------------------------------------------------------------------------
  // Approval and the gates
  // ---------------------------------------------------------------------------

  /** ApplyApprovalRule: an estimate that reaches the factory's threshold needs approval. */
  function ApprovalFor(estimate: real, threshold: real, requestedBy: string): Option<Approval> {
    if threshold <= 0.0 || estimate < threshold then None else Some(Approval(Pending, requestedBy, None, None, None))
  }

  /** The decision on record; a reason given before stays unless there is a new one. */
  function Decided(a: Approval, approve: bool, reason: string, actor: string, now: int): Approval {
    a.(state := if approve then Approved else Rejected, decidedBy := Some(actor), decidedAt := Some(now),
       reason := if Trim(reason) != "" then Some(Trim(reason)) else a.reason)
  }

  /** DecideApproval; a rejected job is cancelled. */
  function Decide(j: Job, approve: bool, reason: string, actor: string, now: int): Result<Job> {
    if j.approval.None? || j.approval.value.state != Pending then Err(Conflict)
    else if j.approval.value.requestedBy != "" && EqualFold(j.approval.value.requestedBy, actor) then Err(Conflict)
    else if !approve && Trim(reason) == "" then Err(BadInput)
    else Ok(j.(approval := Some(Decided(j.approval.value, approve, reason, actor, now)),
               status := if approve then j.status else Cancelled))
  }

  /** CheckStart. */
  predicate StartOk(j: Job) {
    j.approval.None? || j.approval.value.state == Approved
  }

  predicate FailureCodeNeeded(woType: string) {
    Lower(woType) in ["breakdown", "corrective"]
  }

  /** CheckCompletion. */
  ghost predicate CompletionOk(j: Job) {
    && StartOk(j)
    && (if IsCommissioning(j.woType) then Passed(j) && (forall p :: p in PARTIES ==> p in j.handover)
        else Steps(j.checklist) != [] ==>
          (forall i :: 0 <= i < |Steps(j.checklist)| ==> !Unmarked(j.results, i)) && j.technician.Some?)
    && (FailureCodeNeeded(j.woType) ==> j.failureCoded)
  }

  /** CompleteWorkOrder. */
  ghost function Complete(j: Job): Result<Job> {
    if CompletionOk(j) then Ok(j.(status := Completed)) else Err(Conflict)
  }

  /** A status set by PATCH, which is also how StartWorkOrder works. */
  ghost function Move(j: Job, status: Status): Result<Job> {
    if status == j.status then Ok(j)
    else if status == InProgress && !StartOk(j) then Err(Conflict)
    else if status == Completed && !CompletionOk(j) then Err(Conflict)
    else Ok(j.(status := status))
  }

  // ---------------------------------------------------------------------------
  // Runs
  // ---------------------------------------------------------------------------

  datatype Op =
    | RecordChecklist(marks: seq<Mark>, who: Option<Claims>, now: int)
    | SignHandover(party: string, who: Option<Claims>, now: int, paper: Paper, company: string)
    | Signoff(role: string, who: Option<Claims>, now: int, paper: Paper)
    | DecideApproval(approve: bool, reason: string, who: Option<Claims>, now: int)
    | PatchStatus(status: Status)
    | CompleteWorkOrder
    | CodeFailure

  ghost function Attempt(j: Job, op: Op): Result<Job> {
    match op
    case RecordChecklist(marks, who, now) => Record(j, marks, ActorName(who), now)
    case SignHandover(party, who, now, paper, company) => Sign(j, party, ActorName(who), now, paper, company)
    case Signoff(role, who, now, paper) => SignOff(j, role, ActorName(who), now, paper)
    case DecideApproval(approve, reason, who, now) => Decide(j, approve, reason, ActorName(who), now)
    case PatchStatus(status) => Move(j, status)
    case CompleteWorkOrder => Complete(j)
    case CodeFailure => Ok(j.(failureCoded := true))
  }

  /** A refused operation changes nothing. */
  ghost function Apply(j: Job, op: Op): Job {
    var r := Attempt(j, op);
    if r.Ok? then r.value else j
  }

  ghost function Run(j: Job, ops: seq<Op>): Job
    decreases |ops|
  {
    if ops == [] then j else Apply(Run(j, ops[..|ops| - 1]), ops[|ops| - 1])
  }

  /** A work order as it is raised: not begun, nothing marked, nothing signed. */
  function Raised(woType: string, name: string, checklist: seq<Value>, estimate: real, threshold: real,
                  who: Option<Claims>): Job {
    Job(woType, Waiting(name), checklist, [], map[], None, None, false,
        ApprovalFor(estimate, threshold, ActorName(who)))
  }

  ghost predicate Reachable(j: Job) {
    exists woType, name, checklist, estimate, threshold, who, ops ::
      j == Run(Raised(woType, name, checklist, estimate, threshold, who), ops)
  }

  // ---------------------------------------------------------------------------
  // Recording and reading back
  // ---------------------------------------------------------------------------

  lemma ResultAfterOneMore(list: seq<Entry>, e: Entry, i: int)
    ensures ResultAt(list + [e], i) == (if i == e.index then Some(e) else ResultAt(list, i))
  {
    assert (list + [e])[..|list|] == list;
  }

  lemma ListedOneMore(es: seq<Option<Entry>>, e: Option<Entry>)
    ensures Listed(es + [e]) == (if e.Some? then Listed(es) + [e.value] else Listed(es))
  {
    assert (es + [e])[..|es|] == es;
  }

  lemma {:induction false} ListedReadsBack(es: seq<Option<Entry>>, i: int)
    requires InPlace(es)
    ensures ResultAt(Listed(es), i) == (if 0 <= i < |es| then es[i] else None)
    decreases |es|
  {
    if es != [] {
      var front, e := es[..|es| - 1], es[|es| - 1];
      ListedReadsBack(front, i);
      assert es == front + [e];
      ListedOneMore(front, e);
      if e.Some? {
        ResultAfterOneMore(Listed(front), e.value, i);
      }
    }
  }

  /** What is recorded is read back: a step marked once or more shows its last
      mark, and every other step shows exactly what it did. */
  lemma RecordReadsBack(j: Job, marks: seq<Mark>, actor: string, now: int, i: nat)
    requires Record(j, marks, actor, now).Ok? && i < |Steps(j.checklist)|
    ensures var after := ResultAt(Record(j, marks, actor, now).value.results, i);
      after == (if LastMark(marks, i).Some? then Some(EntryOf(j.checklist, LastMark(marks, i).value, actor, now))
                else ResultAt(j.results, i))
  {
    ListedReadsBack(AfterAll(j, marks, actor, now), i);
  }

  lemma MarksOkOfBoth(woType: string, checklist: seq<Value>, a: seq<Mark>, b: seq<Mark>)
    requires MarksOk(woType, checklist, a) && MarksOk(woType, checklist, b)
    ensures MarksOk(woType, checklist, a + b)
  {}

  /** Marks of two requests, by two people at two times: each step is as its last
      marker left it. */
  lemma AfterBoth(j: Job, mid: Job, a: seq<Mark>, b: seq<Mark>, actor: string, now: int, other: string, later: int,
                  i: nat)
    requires mid.checklist == j.checklist && i < |Steps(j.checklist)|
    requires ResultAt(mid.results, i) == After(j, a, actor, now, i)
    ensures After(mid, b, other, later, i)
         == (if LastMark(b, i).Some? then After(j, a + b, other, later, i) else After(j, a + b, actor, now, i))
  {
    LastMarkOfBoth(a, b, i);
  }

  /** Recording steps in two requests, one after the other, whoever sends them, is
      recording them in one: each step shows what one request by the person who
      marked it last would show. */
  lemma RecordingComposes(j: Job, a: seq<Mark>, b: seq<Mark>, actor: string, now: int, other: string, later: int,
                          i: nat)
    requires Record(j, a, actor, now).Ok? && i < |Steps(j.checklist)|
    requires Record(Record(j, a, actor, now).value, b, other, later).Ok?
    ensures Record(j, a + b, actor, now).Ok? && Record(j, a + b, other, later).Ok?
    ensures var once := if LastMark(b, i).Some? then Record(j, a + b, other, later) else Record(j, a + b, actor, now);
      ResultAt(Record(Record(j, a, actor, now).value, b, other, later).value.results, i)
      == ResultAt(once.value.results, i)
  {
    var mid := Record(j, a, actor, now).value;
    MarksOkOfBoth(j.woType, j.checklist, a, b);
    ListedReadsBack(AfterAll(j, a, actor, now), i);
    ListedReadsBack(AfterAll(mid, b, other, later), i);
    ListedReadsBack(AfterAll(j, a + b, actor, now), i);
    ListedReadsBack(AfterAll(j, a + b, other, later), i);
    AfterBoth(j, mid, a, b, actor, now, other, later, i);
  }

  lemma {:induction false} LastMarkOfBoth(a: seq<Mark>, b: seq<Mark>, i: int)
    ensures LastMark(a + b, i) == (if LastMark(b, i).Some? then LastMark(b, i) else LastMark(a, i))
    decreases |b|
  {
    if b == [] {
      assert a + b == a;
    } else {
      LastMarkOfBoth(a, b[..|b| - 1], i);
      assert (a + b)[..|a + b| - 1] == a + b[..|b| - 1];
    }
  }
}
