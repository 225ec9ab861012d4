/** Which commands a worker admits and which it rejects, over whole runs and in terms of the command's metadata alone. */
module Admission {
  import opened Wrappers
  import opened Text
  import opened Protocol
  import opened Workers

  /** The command names no target session, a blank one, or the current one. */
  predicate TargetsSession(request: Request, sessionId: string) {
    match request.metadata.targetSessionId
    case None => true
    case Some(target) => IsBlank(target) || target == sessionId
  }

  /** The command has no time limit, or one that lies after now. */
  predicate InTime(request: Request, now: int) {
    match request.metadata.expiresAt
    case None => true
    case Some(limit) => now < limit
  }

  /** Event v validates worker w. */
  ghost predicate Validates(r: Run, v: nat, w: nat) {
    v < |r.events| && r.events[v].Validated? && r.events[v].worker == w
  }

  ghost predicate Passes(r: Run, v: nat, w: nat)
    requires IsRun(r) && Validates(r, v, w)
  {
    assert Next(r.sessionId, r.states[v], r.events[v], r.states[v + 1]);
    TargetsSession(RequestAt(r, v, w), r.sessionId) && InTime(RequestAt(r, v, w), r.events[v].now)
  }

  predicate IsRejected(p: Phase) {
    p.Answered? && p.origin.Rejected?
  }

  /** The answer to a command that is turned away; the target is looked at first. */
  predicate TellsWhy(response: Response, request: Request, sessionId: string) {
    && response.id == request.id && !response.ok && response.result.None? && response.error.Some?
    && response.error.value.code == if TargetsSession(request, sessionId) then "expired_command" else "session_replaced"
  }

  /** The step that validates admits or rejects, as the metadata says. */
  lemma ValidationDecides(r: Run, v: nat, w: nat)
    requires IsRun(r) && Validates(r, v, w)
    ensures w < |r.states[v].workers| && r.states[v].workers[w].phase.Received? && w < |r.states[v + 1].workers|
    ensures RequestAt(r, v + 1, w) == RequestAt(r, v, w)
    ensures var phase := r.states[v + 1].workers[w].phase;
            if Passes(r, v, w) then phase.Admitted?
            else IsRejected(phase) && TellsWhy(phase.response, RequestAt(r, v, w), r.sessionId)
  {
    hide IsBlank;
    assert Next(r.sessionId, r.states[v], r.events[v], r.states[v + 1]);
  }

  /** A worker that got past its reception was validated before. */
  lemma {:induction false} WasValidated(r: Run, n: nat, w: nat) returns (v: nat)
    requires IsRun(r) && n < |r.states| && w < |r.states[n].workers| && !r.states[n].workers[w].phase.Received?
    ensures v < n && Validates(r, v, w) && (IsRejected(r.states[n].workers[w].phase) <==> !Passes(r, v, w))
    ensures IsRejected(r.states[n].workers[w].phase) ==>
              TellsWhy(r.states[n].workers[w].phase.response, RequestAt(r, n, w), r.sessionId)
  {
    hide IsBlank, IdempotencyKey, ValidateCommandMetadata, TellsWhy, Passes;
    assert Next(r.sessionId, r.states[n - 1], r.events[n - 1], r.states[n]);
    if w < |r.states[n - 1].workers| && !r.states[n - 1].workers[w].phase.Received? {
      v := WasValidated(r, n - 1, w);
      KeepsRejection(r, n - 1, w);
    } else {
      v := n - 1;
      assert r.events[v].Validated? && r.events[v].worker == w;
      ValidationDecides(r, v, w);
    }
  }

  /** Once validated, a worker stays rejected, with the same answer, or stays not rejected. */
  lemma KeepsRejection(r: Run, i: nat, w: nat)
    requires IsRun(r) && i < |r.events| && w < |r.states[i].workers| && !r.states[i].workers[w].phase.Received?
    ensures w < |r.states[i + 1].workers| && RequestAt(r, i + 1, w) == RequestAt(r, i, w)
    ensures IsRejected(r.states[i].workers[w].phase) <==> IsRejected(r.states[i + 1].workers[w].phase)
    ensures IsRejected(r.states[i].workers[w].phase) ==> r.states[i + 1].workers[w].phase == r.states[i].workers[w].phase
    ensures !r.states[i + 1].workers[w].phase.Received?
  {
    hide IsBlank, IdempotencyKey, ValidateCommandMetadata;
    assert Next(r.sessionId, r.states[i], r.events[i], r.states[i + 1]);
  }

  lemma {:induction false} StaysRejected(r: Run, i: nat, j: nat, w: nat)
    requires IsRun(r) && i <= j < |r.states| && w < |r.states[i].workers| && IsRejected(r.states[i].workers[w].phase)
    ensures w < |r.states[j].workers| && r.states[j].workers[w] == r.states[i].workers[w]
  {
    if i < j {
      StaysRejected(r, i, j - 1, w);
      KeepsRejection(r, j - 1, w);
    }
  }

  /**
   * A command is executed only if, when it was validated, it named no session, a blank one or the current one, and
   * had no time limit or one that was still to come.
   */
  lemma ExecutedWasAdmitted(r: Run, j: nat) returns (v: nat)
    requires IsRun(r) && j < |r.events| && r.events[j].Ran?
    ensures v < j && Validates(r, v, r.events[j].worker) && Passes(r, v, r.events[j].worker)
  {
    assert Next(r.sessionId, r.states[j], r.events[j], r.states[j + 1]);
    v := WasValidated(r, j, r.events[j].worker);
  }

  /**
   * A worker has been rejected if and only if a validation found it wanting: wrong target session, or time limit
   * reached. It is then answered under its own id, and told which of the two it was.
   */
  lemma RejectedIffInvalid(r: Run, n: nat, w: nat)
    requires IsRun(r) && n < |r.states| && w < |r.states[n].workers|
    ensures IsRejected(r.states[n].workers[w].phase) <==> exists v: nat :: v < n && Validates(r, v, w) && !Passes(r, v, w)
    ensures IsRejected(r.states[n].workers[w].phase) ==>
              TellsWhy(r.states[n].workers[w].phase.response, RequestAt(r, n, w), r.sessionId)
  {
    hide IsBlank, TellsWhy, Passes;
    if IsRejected(r.states[n].workers[w].phase) {
      var v := WasValidated(r, n, w);
    }
    forall v: nat | v < n && Validates(r, v, w) && !Passes(r, v, w) ensures IsRejected(r.states[n].workers[w].phase) {
      ValidationDecides(r, v, w);
      StaysRejected(r, v + 1, n, w);
    }
  }

  /** A rejected command is never executed, never looked up and never stored, before or after. */
  lemma RejectedDoesNothing(r: Run, v: nat, w: nat, k: nat)
    requires IsRun(r) && Validates(r, v, w) && !Passes(r, v, w)
    requires k < |r.events| && !r.events[k].Spawned? && r.events[k].worker == w
    ensures k == v
  {
    hide IsBlank, TellsWhy, Passes, IdempotencyKey, ValidateCommandMetadata;
    ValidationDecides(r, v, w);
    assert Next(r.sessionId, r.states[k], r.events[k], r.states[k + 1]);
    if k > v {
      StaysRejected(r, v + 1, k, w);
    } else if k < v {
      WorkerProgress(r, k + 1, v, w);
    }
  }

  /** An answer that is neither a rejection nor a replay is what the worker's own command returned. */
  lemma {:induction false} FreshAnswerIsOwn(r: Run, n: nat, w: nat) returns (i: nat)
    requires IsRun(r) && n < |r.states| && w < |r.states[n].workers|
    requires r.states[n].workers[w].phase.Answered? && r.states[n].workers[w].phase.origin.Fresh?
    ensures i < n && r.events[i].Ran? && r.events[i].worker == w
    ensures r.events[i].response == r.states[n].workers[w].phase.response
  {
    hide IsBlank, IdempotencyKey, ValidateCommandMetadata;
    assert Next(r.sessionId, r.states[n - 1], r.events[n - 1], r.states[n]);
    var before := r.states[n - 1].workers;
    if w < |before| && before[w].phase.Answered? {
      i := FreshAnswerIsOwn(r, n - 1, w);
    } else {
      i := StoredWasRun(r, n - 1, w);
    }
  }
}
