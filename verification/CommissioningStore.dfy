/**
  The programs behind Commissioning: a work order whose row is read, checked and
  written back (internal/store/maintenance_phase2.go, internal/store/installation.go,
  internal/store/gaps_cmms.go).
 */
module CommissioningStore {
  import opened Wrappers
  import opened Text
  import opened Checklist
  import opened Commissioning

  const ACCEPTING_PARTIES: seq<Party> := [Engineering, Production]

  /** Something a work order still needs. */
  datatype Need =
    | Tests
    | Marks(unmarked: nat, total: nat)
    | Retests(failed: nat)
    | Signatures(parties: seq<Party>)
    | TechnicianSignoff
    | FailureCode

  /** The parties among the first `n` that have not signed. */
  function Unsigned(handover: map<Party, Signature>, n: nat): (r: seq<Party>)
    requires n <= |PARTIES|
    ensures r == [] <==> forall i :: 0 <= i < n ==> PARTIES[i] in handover
  {
    if n == 0 then []
    else Unsigned(handover, n - 1) + (if PARTIES[n - 1] in handover then [] else [PARTIES[n - 1]])
  }

  function UnmarkedNeed(unmarked: nat, total: nat): seq<Need> {
    if unmarked > 0 then [Marks(unmarked, total)] else []
  }

  function RetestNeed(failed: nat): seq<Need> {
    if failed > 0 then [Retests(failed)] else []
  }

  function SignatureNeed(unsigned: seq<Party>): seq<Need> {
    if unsigned != [] then [Signatures(unsigned)] else []
  }

  lemma NothingMissing(j: Job)
    ensures var n := |Steps(j.checklist)|;
      CountUnmarked(j.results, n) == 0 && CountFailed(j.results, n) == 0 && n > 0 <==> Passed(j)
    ensures Unsigned(j.handover, |PARTIES|) == [] <==> forall p :: p in PARTIES ==> p in j.handover
  {}

  method ChecklistResultsOf(list: seq<Entry>) returns (out: map<int, Entry>)
    ensures out == ResultsOf(list)
  {
    out := map[];
    var i := 0;
    while i < |list|
      invariant 0 <= i <= |list| && out == ResultsOf(list[..i])
    {
      out := out[list[i].index := list[i]];
      assert list[..i + 1][..i] == list[..i];
      i := i + 1;
    }
    assert list[..i] == list;
  }

  method FailedOrOpen(checklist: seq<Value>, list: seq<Entry>) returns (unmarked: nat, failed: nat)
    ensures unmarked == CountUnmarked(list, |Steps(checklist)|) && failed == CountFailed(list, |Steps(checklist)|)
  {
    var steps := ChecklistSteps(checklist);
    var results := ChecklistResultsOf(list);
    unmarked, failed := 0, 0;
    var i := 0;
    while i < |steps|
      invariant 0 <= i <= |steps| && unmarked == CountUnmarked(list, i) && failed == CountFailed(list, i)
    {
      if i !in results || results[i].result == "" {
        unmarked := unmarked + 1;
      } else if results[i].result == "fail" {
        failed := failed + 1;
      }
      i := i + 1;
    }
  }

  /** A work order's row. */
  class WorkOrder {
    const woType: string
    const checklist: seq<Value>
    var status: Status
    var results: seq<Entry>
    var handover: map<Party, Signature>
    var technician: Option<Signature>
    var supervisor: Option<Signature>
    var failureCoded: bool
    var approval: Option<Approval>

    function Row(): Job
      reads this
    {
      Job(woType, status, checklist, results, handover, technician, supervisor, failureCoded, approval)
    }

    constructor (woType: string, name: string, checklist: seq<Value>, estimate: real, threshold: real,
                 who: Option<Claims>)
      ensures Row() == Raised(woType, name, checklist, estimate, threshold, who)
    {
      this.woType, this.checklist := woType, checklist;
      status, results, handover, technician, supervisor, failureCoded := Waiting(name), [], map[], None, None, false;
      approval := ApprovalFor(estimate, threshold, ActorName(who));
    }

    method CheckAcceptance(m: Mark, result: string) returns (ok: bool)
      requires result == ResultWord(m)
      ensures ok == AcceptanceOk(woType, checklist, m)
    {
      var limits := ChecklistLimits(checklist);
      if m.index < 0 || m.index >= |limits| || !limits[m.index].Any() {
        return true;
      }
      var l := limits[m.index];
      if m.reading.None? {
        return !(result == "pass" && IsCommissioning(woType));
      }
      return !(result == "pass" && !l.Hold(m.reading.value));
    }

    /** One mark checked and turned into an entry. */
    method EntryFor(steps: seq<string>, m: Mark, actor: string, now: int) returns (r: Result<Entry>)
      requires steps == Steps(checklist)
      ensures r.Ok? <==> MarkOk(woType, checklist, m)
      ensures r == (if MarkOk(woType, checklist, m) then Ok(EntryOf(checklist, m, actor, now)) else Err(BadInput))
    {
      if m.index < 0 || m.index >= |steps| {
        return Err(BadInput);
      }
      var result := Lower(Trim(m.result));
      if result !in ["pass", "fail", "na"] {
        return Err(BadInput);
      }
      if result == "fail" && Trim(m.note) == "" {
        return Err(BadInput);
      }
      var accepted := CheckAcceptance(m, result);
      if !accepted {
        return Err(BadInput);
      }
      var entry := Entry(m.index, steps[m.index], result, actor, None, None, None, now);
      var name := Trim(m.doneBy);
      if name != "" && !EqualFold(name, actor) {
        entry := entry.(doneBy := name, enteredBy := Some(actor));
      }
      if m.reading.Some? {
        entry := entry.(reading := m.reading);
      }
      var note := Trim(m.note);
      if note != "" {
        entry := entry.(note := Some(note));
      }
      r := Ok(entry);
    }

    /** The marks put into the results read from the row, one after the other. */
    method MergeMarks(steps: seq<string>, marks: seq<Mark>, actor: string, now: int)
      returns (r: Result<map<int, Entry>>)
      requires steps == Steps(checklist)
      ensures r.Ok? <==> MarksOk(woType, checklist, marks)
      ensures if r.Ok? then Merged(Row(), marks, actor, now, r.value) else r.error == BadInput
    {
      var results := ChecklistResultsOf(results);
      var k := 0;
      ghost var row := Row();
      while k < |marks|
        invariant 0 <= k <= |marks| && MarksOk(woType, checklist, marks[..k])
        invariant Merged(row, marks[..k], actor, now, results)
      {
        var m := marks[k];
        var entry := EntryFor(steps, m, actor, now);
        if entry.Err? {
          return Err(entry.error);
        }
        assert marks[..k + 1] == marks[..k] + [m];
        MergedMore(row, marks[..k], m, actor, now, results);
        results := results[m.index := entry.value];
        k := k + 1;
      }
      assert marks[..k] == marks;
      r := Ok(results);
    }

    /** The results of all steps as a list. */
    method ListResults(n: nat, results: map<int, Entry>, ghost es: seq<Option<Entry>>) returns (list: seq<Entry>)
      requires |es| == n && forall i :: 0 <= i < n ==> es[i] == (if i in results then Some(results[i]) else None)
      ensures list == Listed(es)
    {
      list := [];
      var i := 0;
      while i < n
        invariant 0 <= i <= n && list == Listed(es[..i])
      {
        assert es[..i + 1] == es[..i] + [es[i]];
        ListedOneMore(es[..i], es[i]);
        if i in results {
          list := list + [results[i]];
        }
        i := i + 1;
      }
      assert es[..i] == es;
    }

    method RecordChecklist(marks: seq<Mark>, actor: string, now: int) returns (r: Result<()>)
      modifies this
      ensures var o := Record(old(Row()), marks, actor, now);
        Row() == (if o.Ok? then o.value else old(Row())) && r == (if o.Ok? then Ok(()) else Err(o.error))
    {
      if status == Completed || status == Cancelled {
        return Err(Conflict);
      }
      var steps := ChecklistSteps(checklist);
      if |steps| == 0 {
        return Err(BadInput);
      }
      var merged := MergeMarks(steps, marks, actor, now);
      if merged.Err? {
        return Err(merged.error);
      }
      results := ListResults(|steps|, merged.value, AfterAll(Row(), marks, actor, now));
      if IsCommissioning(woType) {
        var left, withdrawn := WithdrawAcceptance();
        if withdrawn {
          handover := left;
        }
      }
      r := Ok(());
    }

    method WithdrawAcceptance() returns (left: map<Party, Signature>, changed: bool)
      ensures left == Withdrawn(handover)
      ensures changed <==> left != handover
    {
      left, changed := handover, false;
      var i := 0;
      while i < |ACCEPTING_PARTIES|
        invariant 0 <= i <= |ACCEPTING_PARTIES|
        invariant left == handover - set k | 0 <= k < i :: ACCEPTING_PARTIES[k]
        invariant changed <==> exists k :: 0 <= k < i && ACCEPTING_PARTIES[k] in handover
      {
        var p := ACCEPTING_PARTIES[i];
        if p in left {
          left := left - {p};
          changed := true;
        }
        i := i + 1;
      }
      assert (set k | 0 <= k < i :: ACCEPTING_PARTIES[k]) == {Engineering, Production} by {
        assert ACCEPTING_PARTIES[0] == Engineering && ACCEPTING_PARTIES[1] == Production;
      }
    }

    /** The parties that have not signed, in their order. */
    method FindUnsigned() returns (unsigned: seq<Party>)
      ensures unsigned == Unsigned(handover, |PARTIES|)
    {
      unsigned := [];
      var i := 0;
      while i < |PARTIES|
        invariant 0 <= i <= |PARTIES| && unsigned == Unsigned(handover, i)
      {
        if PARTIES[i] !in handover {
          unsigned := unsigned + [PARTIES[i]];
        }
        i := i + 1;
      }
    }

    /** What a commissioning job lacks before completion. */
    method CheckCommissioning() returns (missing: seq<Need>)
      ensures missing == (if Steps(checklist) == [] then [Tests]
                          else UnmarkedNeed(CountUnmarked(results, |Steps(checklist)|), |Steps(checklist)|)
                               + RetestNeed(CountFailed(results, |Steps(checklist)|)))
                         + SignatureNeed(Unsigned(handover, |PARTIES|))
    {
      missing := [];
      var steps := ChecklistSteps(checklist);
      if |steps| == 0 {
        missing := missing + [Tests];
      } else {
        var unmarked, failed := FailedOrOpen(checklist, results);
        if unmarked > 0 {
          missing := missing + [Marks(unmarked, |steps|)];
        }
        if failed > 0 {
          missing := missing + [Retests(failed)];
        }
      }
      var unsigned := FindUnsigned();
      if |unsigned| > 0 {
        missing := missing + [Signatures(unsigned)];
      }
    }

    method CheckStart() returns (r: Result<()>)
      ensures r == (if StartOk(Row()) then Ok(()) else Err(Conflict))
    {
      if approval.Some? && approval.value.state == Pending {
        return Err(Conflict);
      }
      if approval.Some? && approval.value.state == Rejected {
        return Err(Conflict);
      }
      r := Ok(());
    }

    /** Nothing is missing exactly when the job may be completed. */
    method CheckCompletion() returns (r: Result<()>)
      ensures r == (if CompletionOk(Row()) then Ok(()) else Err(Conflict))
    {
      r := CheckStart();
      if r.Err? {
        return;
      }
      var missing: seq<Need> := [];
      if IsCommissioning(woType) {
        missing := CheckCommissioning();
        NothingMissing(Row());
      } else {
        var steps := ChecklistSteps(checklist);
        if |steps| > 0 {
          var unmarked, _ := FailedOrOpen(checklist, results);
          if unmarked > 0 {
            missing := missing + [Marks(unmarked, |steps|)];
          }
          if technician.None? {
            missing := missing + [TechnicianSignoff];
          }
        }
      }
      assert missing == [] <==> CompletionOk(Row().(failureCoded := true));
      if FailureCodeNeeded(woType) && !failureCoded {
        missing := missing + [FailureCode];
      }
      r := if |missing| > 0 then Err(Conflict) else Ok(());
    }

    method CompleteWorkOrder() returns (r: Result<()>)
      modifies this`status
      ensures var o := Complete(old(Row()));
        Row() == (if o.Ok? then o.value else old(Row())) && r == (if o.Ok? then Ok(()) else Err(o.error))
    {
      r := CheckCompletion();
      if r.Ok? {
        status := Completed;
      }
    }

    method PatchStatus(next: Status) returns (r: Result<()>)
      modifies this`status
      ensures var o := Move(old(Row()), next);
        Row() == (if o.Ok? then o.value else old(Row())) && r == (if o.Ok? then Ok(()) else Err(o.error))
    {
      r := Ok(());
      if next != status {
        if next == InProgress {
          r := CheckStart();
        } else if next == Completed {
          r := CheckCompletion();
        }
      }
      if r.Ok? {
        status := next;
      }
    }

    method StartWorkOrder() returns (r: Result<()>)
      modifies this`status
      ensures var o := Move(old(Row()), InProgress);
        Row() == (if o.Ok? then o.value else old(Row())) && r == (if o.Ok? then Ok(()) else Err(o.error))
    {
      r := PatchStatus(InProgress);
    }

    /** Whether the signer signed for another party already. */
    method SignedForAnother(party: Party, signer: string) returns (clash: bool)
      ensures clash <==> SignedElsewhere(handover, party, signer)
    {
      var i := 0;
      while i < |PARTIES|
        invariant 0 <= i <= |PARTIES|
        invariant forall k :: 0 <= k < i ==> !SignedBy(handover, PARTIES[k], party, signer)
      {
        var other := PARTIES[i];
        i := i + 1;
        if other == party {
          continue;
        }
        if SignedBy(handover, other, party, signer) {
          return true;
        }
      }
      assert PARTIES[0] == Installer && PARTIES[1] == Engineering && PARTIES[2] == Production;
      return false;
    }

    method SignHandover(party: string, actor: string, now: int, paper: Paper, company: string) returns (r: Result<()>)
      modifies this`handover
      ensures var o := Sign(old(Row()), party, actor, now, paper, company);
        Row() == (if o.Ok? then o.value else old(Row())) && r == (if o.Ok? then Ok(()) else Err(o.error))
    {
      var p := PartyNamed(party);
      if p.None? {
        return Err(BadInput);
      }
      if !IsCommissioning(woType) {
        return Err(BadInput);
      }
      if status == Completed || status == Cancelled {
        return Err(Conflict);
      }
      if p.value in ACCEPTING_PARTIES {
        var good := Acceptable();
        if !good {
          return Err(Conflict);
        }
      }
      var entry := Signed(paper, actor, now);
      if entry.Err? {
        return Err(entry.error);
      }
      var clash := SignedForAnother(p.value, entry.value.signer);
      if clash {
        return Err(Conflict);
      }
      var c := Trim(company);
      var s := entry.value.(company := if c != "" then Some(c) else None);
      handover := handover[p.value := s];
      r := Ok(());
    }

    /** There are tests to accept, all marked, none failed. */
    method Acceptable() returns (ok: bool)
      ensures ok <==> Passed(Row())
    {
      var steps := ChecklistSteps(checklist);
      if |steps| == 0 {
        return false;
      }
      var unmarked, failed := FailedOrOpen(checklist, results);
      if unmarked > 0 {
        return false;
      }
      return failed == 0;
    }

    method Signoff(role: string, actor: string, now: int, paper: Paper) returns (r: Result<()>)
      modifies this`technician, this`supervisor
      ensures var o := SignOff(old(Row()), role, actor, now, paper);
        Row() == (if o.Ok? then o.value else old(Row())) && r == (if o.Ok? then Ok(()) else Err(o.error))
    {
      var entry := Signed(paper, actor, now);
      if entry.Err? {
        return Err(entry.error);
      }
      if role == "technician" {
        if status == Completed || status == Cancelled {
          return Err(Conflict);
        }
        technician := Some(entry.value);
      } else if role == "supervisor" {
        if status != Completed {
          return Err(Conflict);
        }
        if technician.Some? && technician.value.signer != "" && EqualFold(technician.value.signer, entry.value.signer) {
          return Err(Conflict);
        }
        supervisor := Some(entry.value);
      } else {
        return Err(BadInput);
      }
      r := Ok(());
    }

    method DecideApproval(approve: bool, reason: string, actor: string, now: int) returns (r: Result<()>)
      modifies this`approval, this`status
      ensures var o := Decide(old(Row()), approve, reason, actor, now);
        Row() == (if o.Ok? then o.value else old(Row())) && r == (if o.Ok? then Ok(()) else Err(o.error))
    {
      if approval.None? || approval.value.state != Pending {
        return Err(Conflict);
      }
      var a := approval.value;
      if a.requestedBy != "" && EqualFold(a.requestedBy, actor) {
        return Err(Conflict);
      }
      var why := Trim(reason);
      if !approve && why == "" {
        return Err(BadInput);
      }
      a := a.(state := if approve then Approved else Rejected, decidedBy := Some(actor), decidedAt := Some(now));
      if why != "" {
        a := a.(reason := Some(why));
      }
      approval := Some(a);
      if !approve {
        status := Cancelled;
      }
      r := Ok(());
    }
  }

  /** The map holds for each step what is on record once the marks are in. */
  ghost predicate Merged(j: Job, marks: seq<Mark>, actor: string, now: int, results: map<int, Entry>) {
    forall i :: 0 <= i < |Steps(j.checklist)| ==>
      After(j, marks, actor, now, i) == (if i in results then Some(results[i]) else None)
  }

  lemma MergedMore(j: Job, marks: seq<Mark>, m: Mark, actor: string, now: int, results: map<int, Entry>)
    requires Merged(j, marks, actor, now, results) && 0 <= m.index < |Steps(j.checklist)|
    ensures Merged(j, marks + [m], actor, now, results[m.index := EntryOf(j.checklist, m, actor, now)])
  {
    assert (marks + [m])[..|marks|] == marks;
    forall i | 0 <= i < |Steps(j.checklist)| && i != m.index
      ensures After(j, marks + [m], actor, now, i) == After(j, marks, actor, now, i) {}
  }
}
