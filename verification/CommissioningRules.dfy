/**
  What the operations on a work order accept, and what they then write, rule by rule
  (internal/store/maintenance_phase2.go, internal/store/installation.go): each in terms
  of the row and the request alone.
 */
module CommissioningRules {
  import opened Wrappers
  import opened Text
  import opened Checklist
  import opened Commissioning
  import opened CommissioningSafety

  /** Entry `k` is the last one stored for step `i`. */
  ghost predicate LastEntry(list: seq<Entry>, i: int, k: nat) {
    k < |list| && list[k].index == i && forall l :: k < l < |list| ==> list[l].index != i
  }

  lemma {:induction false} ResultAtExactly(list: seq<Entry>, i: int)
    ensures var r := ResultAt(list, i);
      if r.None? then forall l :: 0 <= l < |list| ==> list[l].index != i
      else exists k: nat :: LastEntry(list, i, k) && r == Some(list[k])
    decreases |list|
  {
    if list != [] {
      var front, last := list[..|list| - 1], list[|list| - 1];
      ResultAtExactly(front, i);
      if last.index == i {
        assert LastEntry(list, i, |list| - 1);
      } else if ResultAt(list, i).Some? {
        var k: nat :| LastEntry(front, i, k) && ResultAt(front, i) == Some(front[k]);
        assert LastEntry(list, i, k) && list[k] == front[k];
      }
    }
  }

  /** Whatever is stored: a step counts as marked when its last entry has a result, and as
      failed when that is a failure. */
  lemma MarksCountExactly(list: seq<Entry>, i: int)
    ensures Unmarked(list, i) <==> forall k: nat :: LastEntry(list, i, k) ==> list[k].result == ""
    ensures Failed(list, i) <==> exists k: nat :: LastEntry(list, i, k) && list[k].result == "fail"
  {
    ResultAtExactly(list, i);
    if ResultAt(list, i).Some? {
      var k: nat :| LastEntry(list, i, k) && ResultAt(list, i) == Some(list[k]);
      forall l: nat | LastEntry(list, i, l) ensures l == k {}
    }
  }

  /** Every step was marked, and its last mark is one of these words. */
  ghost predicate AllMarked(j: Job, words: seq<string>) {
    forall i :: 0 <= i < |Steps(j.checklist)| ==> MarkedAs(j.results, i, words)
  }

  ghost predicate MarkedAs(list: seq<Entry>, i: int, words: seq<string>) {
    exists k: nat :: LastEntry(list, i, k) && list[k].result in words
  }

  /** What a work order needs before it can be completed. */
  ghost predicate Fulfilled(j: Job) {
    && (j.approval.None? || j.approval.value.state == Approved)
    && (Lower(j.woType) == "breakdown" || Lower(j.woType) == "corrective" ==> j.failureCoded)
    && (if Lower(Trim(j.woType)) == "commissioning"
        then
          && Steps(j.checklist) != [] && AllMarked(j, ["pass", "na"])
          && Installer in j.handover && Engineering in j.handover && Production in j.handover
        else Steps(j.checklist) == [] || (AllMarked(j, ["pass", "fail", "na"]) && j.technician.Some?))
  }

  lemma MarkedExactly(j: Job, i: nat)
    requires EntriesFit(j.checklist, j.results) && i < |Steps(j.checklist)|
    ensures MarkedAs(j.results, i, ["pass", "fail", "na"]) <==> !Unmarked(j.results, i)
    ensures MarkedAs(j.results, i, ["pass", "na"]) <==> !Unmarked(j.results, i) && !Failed(j.results, i)
  {
    ResultAtExactly(j.results, i);
    if ResultAt(j.results, i).Some? {
      var k: nat :| LastEntry(j.results, i, k) && ResultAt(j.results, i) == Some(j.results[k]);
      forall l: nat | LastEntry(j.results, i, l) ensures l == k {}
    }
  }

  lemma FulfilledExactly(j: Job)
    requires Inv(j)
    ensures CompletionOk(j) <==> Fulfilled(j)
  {
    forall i | 0 <= i < |Steps(j.checklist)|
      ensures MarkedAs(j.results, i, ["pass", "fail", "na"]) <==> !Unmarked(j.results, i)
      ensures MarkedAs(j.results, i, ["pass", "na"]) <==> !Unmarked(j.results, i) && !Failed(j.results, i)
    {
      MarkedExactly(j, i);
    }
    assert PARTIES[0] == Installer && PARTIES[1] == Engineering && PARTIES[2] == Production;
  }

  /** Whatever was done to it, a completed work order has all it needs; ordinary work with
      steps has each marked and the technician's signature. */
  lemma CompletedIsFulfilled(j: Job)
    requires Reachable(j) && j.status == Completed
    ensures Fulfilled(j)
    ensures Lower(Trim(j.woType)) != "commissioning" && Steps(j.checklist) != [] ==>
              j.technician.Some? && AllMarked(j, ["pass", "fail", "na"])
    ensures Lower(j.woType) in ["breakdown", "corrective"] ==> j.failureCoded
  {
    ReachableIsSound(j);
    FulfilledExactly(j);
  }

  /** And a work order is completed when asked exactly when it has it; it is started
      exactly when it needs no approval or was approved; and any other status is
      simply set. What is refused changes nothing. */
  lemma StatusesExactly(j: Job, status: Status)
    requires Reachable(j)
    ensures var allowed := status == j.status
                           || (if status == Completed then Fulfilled(j)
                               else status == InProgress ==> j.approval.None? || j.approval.value.state == Approved);
      Attempt(j, PatchStatus(status)) == if allowed then Ok(j.(status := status)) else Err(Conflict)
    ensures Attempt(j, CompleteWorkOrder) == if Fulfilled(j) then Ok(j.(status := Completed)) else Err(Conflict)
  {
    ReachableIsSound(j);
    FulfilledExactly(j);
  }

  // ---------------------------------------------------------------------------
  // Marking
  // ---------------------------------------------------------------------------

  /** One end of the limits, or none, lets a reading through. */
  predicate Within(limits: Limits, v: real) {
    && (limits.min.Some? ==> limits.min.value.AtMost(v))
    && (limits.max.Some? ==> limits.max.value.AtLeast(v))
  }

  /** A mark names a step, and one of three results; a failure says what was found, and a
      pass of a step with limits has a reading inside them, which only a job that is no
      commissioning may leave out. */
  predicate Acceptable(j: Job, m: Mark) {
    var word, limits := Lower(Trim(m.result)), StepLimits(j.checklist);
    && 0 <= m.index < |Steps(j.checklist)| && (word == "pass" || word == "fail" || word == "na")
    && (word == "fail" ==> Trim(m.note) != "")
    && (word == "pass" && m.index < |limits| && (limits[m.index].min.Some? || limits[m.index].max.Some?) ==>
          if m.reading.Some? then Within(limits[m.index], m.reading.value)
          else Lower(Trim(j.woType)) != "commissioning")
  }

  /** The entry a mark leaves: who did it, and who typed it in when that is another. */
  ghost predicate EntryMade(j: Job, m: Mark, actor: string, now: int, e: Entry)
    requires 0 <= m.index < |Steps(j.checklist)|
  {
    var name := Trim(m.doneBy);
    && e.index == m.index && e.step == Steps(j.checklist)[m.index] && e.result == Lower(Trim(m.result))
    && e.reading == m.reading && e.at == now
    && (if name == "" || Lower(name) == Lower(actor) then e.doneBy == actor && e.enteredBy == None
        else e.doneBy == name && e.enteredBy == Some(actor))
    && e.note == (if Trim(m.note) == "" then None else Some(Trim(m.note)))
  }

  /** Mark `k` is the last one for step `i`. */
  ghost predicate LastFor(marks: seq<Mark>, i: int, k: nat) {
    k < |marks| && marks[k].index == i && forall l :: k < l < |marks| ==> marks[l].index != i
  }

  lemma {:induction false} LastMarkExactly(marks: seq<Mark>, i: int)
    ensures var r := LastMark(marks, i);
      if r.None? then forall l :: 0 <= l < |marks| ==> marks[l].index != i
      else exists k: nat :: LastFor(marks, i, k) && r == Some(marks[k])
    decreases |marks|
  {
    if marks != [] {
      var front, last := marks[..|marks| - 1], marks[|marks| - 1];
      if last.index == i {
        assert LastFor(marks, i, |marks| - 1);
      } else {
        LastMarkExactly(front, i);
        if LastMark(front, i).Some? {
          var k: nat :| LastFor(front, i, k) && LastMark(front, i) == Some(front[k]);
          assert LastFor(marks, i, k) && marks[k] == front[k];
        }
      }
    }
  }

  /** What is stored for step `i` after marks: the entry of the last one for it, or else
      what was stored last before. */
  ghost predicate MarkedBy(j: Job, marks: seq<Mark>, actor: string, now: int, list: seq<Entry>, i: nat)
    requires i < |Steps(j.checklist)|
  {
    var r := ResultAt(list, i);
    && (forall k: nat :: LastFor(marks, i, k) ==> r.Some? && EntryMade(j, marks[k], actor, now, r.value))
    && ((forall k :: 0 <= k < |marks| ==> marks[k].index != i) ==> r == ResultAt(j.results, i))
  }

  /** Steps are marked exactly while the order is open, has steps, and every mark is
      acceptable; a commissioning job then loses the two acceptances. */
  lemma RecordsExactly(j: Job, marks: seq<Mark>, actor: string, now: int)
    ensures var r := Record(j, marks, actor, now);
      var open, good := j.status != Completed && j.status != Cancelled,
                        Steps(j.checklist) != [] && forall k :: 0 <= k < |marks| ==> Acceptable(j, marks[k]);
      && (r.Ok? <==> open && good)
      && (if r.Err? then r.error == (if open then BadInput else Conflict)
          else
            var commissioning := Lower(Trim(j.woType)) == "commissioning";
            && r.value == j.(results := r.value.results, handover := r.value.handover)
            && (forall p :: p in r.value.handover <==> p in j.handover && (p == Installer || !commissioning))
            && (forall p :: p in r.value.handover ==> r.value.handover[p] == j.handover[p])
            && InStepOrder(r.value.results)
            && forall i: nat :: i < |Steps(j.checklist)| ==> MarkedBy(j, marks, actor, now, r.value.results, i))
  {
    forall k | 0 <= k < |marks| ensures MarkOk(j.woType, j.checklist, marks[k]) <==> Acceptable(j, marks[k]) {
      AcceptableExactly(j, marks[k]);
    }
    if Record(j, marks, actor, now).Ok? {
      HandoverKept(j, marks, actor, now);
      ListedInOrder(AfterAll(j, marks, actor, now));
      forall i: nat | i < |Steps(j.checklist)|
        ensures MarkedBy(j, marks, actor, now, Record(j, marks, actor, now).value.results, i)
      {
        StoredExactly(j, marks, actor, now, i);
      }
    }
  }

  lemma HandoverKept(j: Job, marks: seq<Mark>, actor: string, now: int)
    requires Record(j, marks, actor, now).Ok?
    ensures var h := Record(j, marks, actor, now).value.handover;
      && (forall p :: p in h <==> p in j.handover && (p == Installer || Lower(Trim(j.woType)) != "commissioning"))
      && (forall p :: p in h ==> h[p] == j.handover[p])
  {}

  ghost predicate InStepOrder(list: seq<Entry>) {
    forall a, b :: 0 <= a < b < |list| ==> list[a].index < list[b].index
  }

  lemma {:induction false} ListedInOrder(es: seq<Option<Entry>>)
    requires InPlace(es)
    ensures InStepOrder(Listed(es)) && forall a :: 0 <= a < |Listed(es)| ==> Listed(es)[a].index < |es|
    decreases |es|
  {
    if es != [] { ListedInOrder(es[..|es| - 1]); }
  }

  lemma AcceptableExactly(j: Job, m: Mark)
    ensures MarkOk(j.woType, j.checklist, m) <==> Acceptable(j, m)
  {
    StepsAndLimitsLineUp(j.checklist);
  }

  lemma StoredExactly(j: Job, marks: seq<Mark>, actor: string, now: int, i: nat)
    requires Record(j, marks, actor, now).Ok? && i < |Steps(j.checklist)|
    ensures MarkedBy(j, marks, actor, now, Record(j, marks, actor, now).value.results, i)
  {
    RecordReadsBack(j, marks, actor, now, i);
    LastMarkExactly(marks, i);
    if LastMark(marks, i).Some? {
      var k: nat :| LastFor(marks, i, k) && LastMark(marks, i) == Some(marks[k]);
      forall l: nat | LastFor(marks, i, l) ensures l == k {}
    }
  }

  // ---------------------------------------------------------------------------
  // Signing and deciding
  // ---------------------------------------------------------------------------

  /** Someone signed in goes by name, or else by mail, or else by subject. */
  lemma ActorExactly(c: Claims)
    ensures ActorName(None) == "anonymous"
    ensures Trim(c.name) != "" ==> ActorName(Some(c)) == Trim(c.name)
    ensures Trim(c.name) == "" && Trim(c.email) != "" ==> ActorName(Some(c)) == Trim(c.email)
    ensures Trim(c.name) == "" && Trim(c.email) == "" ==>
              ActorName(Some(c)) == if c.subject == "" then "anonymous" else c.subject
  {}

  /** A paper sheet needs a date that is one and not in the future, or none. */
  predicate DateAllowed(p: Paper, now: int) {
    Trim(p.signedBy) == "" || p.signedOn.NoDate? || (p.signedOn.Day? && p.signedOn.at <= now)
  }

  function SignerOf(p: Paper, actor: string): string {
    if Trim(p.signedBy) == "" then actor else Trim(p.signedBy)
  }

  /** The signature left: by the person on the paper, on the day written there, or else
      by the one signed in, now. */
  ghost predicate SignatureMade(p: Paper, actor: string, now: int, company: Option<string>, s: Signature) {
    && s.signer == SignerOf(p, actor) && s.onPaper == (Trim(p.signedBy) != "") && s.company == company
    && s.at == (if s.onPaper && p.signedOn.Day? then p.signedOn.at else now)
    && s.enteredBy == (if s.onPaper && Lower(s.signer) != Lower(actor) then Some(actor) else None)
  }

  /** The person's name is on another signature of the handover. */
  ghost predicate OnAnother(j: Job, p: Party, signer: string) {
    exists q :: q in j.handover && q != p && j.handover[q].signer != "" && Lower(j.handover[q].signer) == Lower(signer)
  }

  /** The name of a party, in whatever case and with blanks around it. */
  predicate Names(party: string, p: Party) {
    Lower(Trim(party)) == (match p
                           case Installer => "installer"
                           case Engineering => "engineering"
                           case Production => "production")
  }

  lemma NamedExactly(party: string, p: Party)
    ensures Names(party, p) <==> PartyNamed(party) == Some(p)
  {}

  lemma SignatureStored(j: Job, party: string, actor: string, now: int, paper: Paper, company: string, p: Party)
    requires Sign(j, party, actor, now, paper, company).Ok? && Names(party, p)
    ensures var h := Sign(j, party, actor, now, paper, company).value.handover;
      && p in h && Sign(j, party, actor, now, paper, company).value == j.(handover := j.handover[p := h[p]])
      && SignatureMade(paper, actor, now, if Trim(company) == "" then None else Some(Trim(company)), h[p])
  {
    NamedExactly(party, p);
  }

  /** A handover is signed exactly for a party, on a commissioning job that is open, by
      someone with no other signature on it, and by the two who accept it only once
      every test is marked and none failed. The row then has the signature, with the
      company if one is given, and is otherwise as it was. */
  lemma SignsExactly(j: Job, party: string, actor: string, now: int, paper: Paper, company: string, p: Party)
    requires Reachable(j) && Names(party, p)
    ensures var r := Sign(j, party, actor, now, paper, company);
      var good := Lower(Trim(j.woType)) == "commissioning";
      var free := j.status != Completed && j.status != Cancelled
                  && (p == Installer || (Steps(j.checklist) != [] && AllMarked(j, ["pass", "na"])));
      && (r.Ok? <==> good && free && DateAllowed(paper, now) && !OnAnother(j, p, SignerOf(paper, actor)))
      && (r.Err? ==> r.error == if good && (!free || DateAllowed(paper, now)) then Conflict else BadInput)
    ensures Sign(j, party, actor, now, paper, company).Ok? ==>
      var row := Sign(j, party, actor, now, paper, company).value;
      && p in row.handover && row == j.(handover := j.handover[p := row.handover[p]])
      && SignatureMade(paper, actor, now, if Trim(company) == "" then None else Some(Trim(company)), row.handover[p])
  {
    NamedExactly(party, p);
    if Sign(j, party, actor, now, paper, company).Ok? {
      SignatureStored(j, party, actor, now, paper, company, p);
    }
    PassedExactly(j);
    SignerExactly(paper, actor, now);
    ElsewhereExactly(j, p, SignerOf(paper, actor));
  }

  lemma SignerExactly(p: Paper, actor: string, now: int)
    ensures var s := Signed(p, actor, now);
      && (s.Ok? <==> DateAllowed(p, now))
      && if s.Ok? then s.value.signer == SignerOf(p, actor) else s.error == BadInput
  {}

  lemma PassedExactly(j: Job)
    requires Reachable(j)
    ensures Passed(j) <==> Steps(j.checklist) != [] && AllMarked(j, ["pass", "na"])
  {
    ReachableIsSound(j);
    forall i | 0 <= i < |Steps(j.checklist)|
      ensures MarkedAs(j.results, i, ["pass", "na"]) <==> !Unmarked(j.results, i) && !Failed(j.results, i)
    {
      MarkedExactly(j, i);
    }
  }

  lemma ElsewhereExactly(j: Job, p: Party, signer: string)
    ensures SignedElsewhere(j.handover, p, signer) <==> OnAnother(j, p, signer)
  {
    forall q ensures SignedBy(j.handover, q, p, signer)
                <==> q in j.handover && q != p && j.handover[q].signer != ""
                     && Lower(j.handover[q].signer) == Lower(signer) {}
  }

  /** Nobody else signs a handover. */
  lemma NoOtherParty(j: Job, party: string, actor: string, now: int, paper: Paper, company: string)
    requires forall p :: !Names(party, p)
    ensures Sign(j, party, actor, now, paper, company) == Err(BadInput)
  {
    forall p ensures PartyNamed(party) != Some(p) { NamedExactly(party, p); }
  }

  /** The technician signs off an order that is open, and the supervisor one that is
      completed, unless it is the technician's name on it. */
  lemma SignsOffExactly(j: Job, role: string, actor: string, now: int, paper: Paper)
    ensures var r, signer := SignOff(j, role, actor, now, paper), SignerOf(paper, actor);
      var own := j.technician.Some? && j.technician.value.signer != ""
                 && Lower(j.technician.value.signer) == Lower(signer);
      && (r.Ok? <==> DateAllowed(paper, now)
                     && ((role == "technician" && j.status != Completed && j.status != Cancelled)
                         || (role == "supervisor" && j.status == Completed && !own)))
      && (r.Err? ==>
            r.error == if DateAllowed(paper, now) && role in ["technician", "supervisor"] then Conflict else BadInput)
      && (r.Ok? && role == "technician" ==>
            && r.value == j.(technician := r.value.technician) && r.value.technician.Some?
            && SignatureMade(paper, actor, now, None, r.value.technician.value))
      && (r.Ok? && role == "supervisor" ==>
            && r.value == j.(supervisor := r.value.supervisor) && r.value.supervisor.Some?
            && SignatureMade(paper, actor, now, None, r.value.supervisor.value))
  {}

  /** An approval is decided exactly once, by another than who asked, and not refused
      without a reason; work refused is cancelled. */
  lemma DecidesExactly(j: Job, approve: bool, reason: string, actor: string, now: int)
    ensures var r := Decide(j, approve, reason, actor, now);
      var waiting := j.approval.Some? && j.approval.value.state == Pending;
      var own := waiting && j.approval.value.requestedBy != ""
                 && Lower(j.approval.value.requestedBy) == Lower(actor);
      && (r.Ok? <==> waiting && !own && (approve || Trim(reason) != ""))
      && (r.Err? ==> r.error == if !waiting || own then Conflict else BadInput)
      && (r.Ok? ==>
            var was := j.approval.value;
            && r.value.approval
               == Some(Approval(if approve then Approved else Rejected, was.requestedBy, Some(actor), Some(now),
                                if Trim(reason) == "" then was.reason else Some(Trim(reason))))
            && r.value == j.(approval := r.value.approval, status := if approve then j.status else Cancelled))
  {}

  /** Work waits for approval exactly when its estimate reaches a threshold that is set. */
  lemma RaisedExactly(woType: string, name: string, checklist: seq<Value>, estimate: real, threshold: real,
                      who: Option<Claims>, actor: string)
    requires actor == ActorName(who)
    ensures Raised(woType, name, checklist, estimate, threshold, who)
         == Job(woType, Waiting(name), checklist, [], map[], None, None, false,
                if 0.0 < threshold <= estimate then Some(Approval(Pending, actor, None, None, None)) else None)
  {}
}
