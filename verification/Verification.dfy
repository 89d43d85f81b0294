/**
 * Verifications among everything else that happens: which steps write a target's status, what a
 * verification leaves behind when it does not succeed, and how long a revocation lasts.
 */
module Verification {
  import opened Model
  import opened Store
  import opened Lifecycle
  import opened Invariants
  import opened Runs
  import Gate
  import Sequential

  // --- The writes of one target's status --------------------------------------------------------------

  /** The status that an effective step at this point gives the target, if it writes it. */
  function StatusWritten(p: Point, id: nat): Option<Status> {
    match p
    case VerifyBegin(t, _) => if t.id == id then Some(Verifying) else None
    case VerifyFailed(t) => if t.id == id then Some(Unverified) else None
    case VerifyDone(t) => if t.id == id then Some(Verified) else None
    case ManualDone(t) => if t.id == id then Some(Verified) else None
    case RevokeDone(t) => if t.id == id then Some(Revoked) else None
    case _ => None
  }

  ghost function WriteOf(s: State, step: Step, id: nat): Option<Status> {
    match Effective(s, step)
    case Some(p) => StatusWritten(p, id)
    case None => None
  }

  /** The target after a step: the written status, or the one it had; everything else as it was. */
  ghost predicate StatusRule(db: Db, db': Db, id: nat, w: Option<Status>) {
    && db.nextTarget <= db'.nextTarget
    && (id < db.nextTarget && id in db'.targets ==>
          && id in db.targets && SameTarget(db.targets[id], db'.targets[id])
          && db'.targets[id].status == (if w.Some? then w.value else db.targets[id].status))
  }

  /** What a step at this point writes when its call has this outcome. */
  function WriteIf(p: Point, o: Outcome, id: nat): Option<Status> {
    if o.Failed? then None else StatusWritten(p, id)
  }

  lemma CreateStatus(cfg: Config, db: Db, now: Time, p: Point, c: Choice, id: nat)
    requires CreatePoint(p)
    ensures StatusRule(db, StepCreate(cfg, db, now, p, c).db, id, None)
  {
  }

  lemma GetStatus(db: Db, now: Time, p: Point, c: Choice, id: nat)
    requires GetPoint(p)
    ensures StatusRule(db, StepGet(db, now, p, c).db, id, None)
  {
  }

  lemma VerifyInsertStatus(db: Db, now: Time, p: Point, c: Choice, id: nat)
    requires VerifyInserting(p)
    ensures StatusRule(db, StepVerifyInsert(db, now, p, c).db, id, None)
  {
  }

  lemma VerifyStatusStatus(db: Db, p: Point, c: Choice, id: nat)
    requires VerifyWriting(p)
    ensures StatusRule(db, StepVerifyStatus(db, p, c).db, id, WriteIf(p, c.outcome, id))
  {
  }

  lemma MarkStatus(db: Db, now: Time, p: Point, c: Choice, id: nat)
    requires p.VerifyMark?
    ensures StatusRule(db, StepVerifyMark(db, now, p, c).db, id, None)
  {
  }

  lemma ProgramPointStatus(cfg: Config, db: Db, now: Time, p: Point, c: Choice, id: nat)
    requires ProgramPoint(p)
    ensures StatusRule(db, StepProgram(cfg, db, now, p, c).db, id, None)
  {
  }

  lemma ManualStatus(db: Db, now: Time, p: Point, c: Choice, id: nat)
    requires ManualWriting(p)
    ensures StatusRule(db, StepManualWrite(db, now, p, c).db, id, WriteIf(p, c.outcome, id))
  {
  }

  lemma RemoveStatus(db: Db, now: Time, p: Point, c: Choice, id: nat)
    requires RemovePoint(p)
    ensures StatusRule(db, StepRemove(db, now, p, c).db, id, WriteIf(p, c.outcome, id))
  {
  }

  lemma StepStatus(cfg: Config, db: Db, now: Time, p: Point, c: Choice, id: nat)
    ensures StatusRule(db, StepPoint(cfg, db, now, p, c).db, id, WriteIf(p, c.outcome, id))
  {
    hide StepCreate, StepGet, StepVerifyInsert, StepVerifyStatus, StepVerifyMark, StepProgram, StepManualWrite;
    hide StepRemove;
    if CreatePoint(p) { CreateStatus(cfg, db, now, p, c, id); }
    else if GetPoint(p) { GetStatus(db, now, p, c, id); }
    else if VerifyReading(p) { VerifyReadChangesNothing(db, now, p, c); }
    else if VerifyInserting(p) { VerifyInsertStatus(db, now, p, c, id); }
    else if VerifyWriting(p) { VerifyStatusStatus(db, p, c, id); }
    else if p.VerifyMark? { MarkStatus(db, now, p, c, id); }
    else if ProgramPoint(p) { ProgramPointStatus(cfg, db, now, p, c, id); }
    else if ManualReading(p) { ManualReadChangesNothing(cfg, db, now, p, c); }
    else if ManualWriting(p) { ManualStatus(db, now, p, c, id); }
    else { RemoveStatus(db, now, p, c, id); }
  }

  /** Each step of the system changes a target's status exactly by its write. */
  lemma ApplyStatus(cfg: Config, s: State, step: Step, id: nat)
    ensures StatusRule(s.db, Apply(cfg, s, step).db, id, WriteOf(s, step, id))
  {
    hide StepPoint, StatusWritten, Strands;
    if step.Run? && step.r in s.requests {
      StepStatus(cfg, s.db, s.now, s.requests[step.r], step.c, id);
    }
  }

  /** Write `k` is the last one on the target since step `n`. */
  ghost predicate LastWrite(cfg: Config, steps: seq<Step>, n: nat, id: nat, k: int) {
    && n <= k < |steps| && WriteOf(StateAt(cfg, steps, k), steps[k], id).Some?
    && forall j :: k < j < |steps| ==> WriteOf(StateAt(cfg, steps, j), steps[j], id).None?
  }

  ghost predicate NoWrite(cfg: Config, steps: seq<Step>, n: nat, id: nat) {
    forall j :: n <= j < |steps| ==> WriteOf(StateAt(cfg, steps, j), steps[j], id).None?
  }

  lemma SameWrites(cfg: Config, steps: seq<Step>, id: nat, j: nat)
    requires j < |steps| - 1
    ensures var front := steps[..|steps| - 1];
            WriteOf(StateAt(cfg, front, j), front[j], id) == WriteOf(StateAt(cfg, steps, j), steps[j], id)
  {
    EarlierStates(cfg, steps, |steps| - 1, j);
  }

  lemma {:induction false} CountersGrow(cfg: Config, steps: seq<Step>, n: nat)
    requires n <= |steps|
    ensures StateAt(cfg, steps, n).db.nextTarget <= Exec(cfg, steps).db.nextTarget
    decreases |steps|
  {
    hide Apply, WriteOf;
    if n == |steps| {
      assert steps[..n] == steps;
    } else {
      var m := |steps| - 1;
      EarlierStates(cfg, steps, m, n);
      CountersGrow(cfg, steps[..m], n);
      ApplyStatus(cfg, Exec(cfg, steps[..m]), steps[m], 0);
    }
  }

  lemma NoWriteExtends(cfg: Config, steps: seq<Step>, n: nat, id: nat)
    requires n < |steps| && NoWrite(cfg, steps[..|steps| - 1], n, id)
    requires WriteOf(StateAt(cfg, steps, |steps| - 1), steps[|steps| - 1], id).None?
    ensures NoWrite(cfg, steps, n, id)
  {
    hide WriteOf, StateAt;
    forall j | n <= j < |steps| ensures WriteOf(StateAt(cfg, steps, j), steps[j], id).None? {
      if j < |steps| - 1 { SameWrites(cfg, steps, id, j); }
    }
  }

  lemma LastWriteExtends(cfg: Config, steps: seq<Step>, n: nat, id: nat, k: int)
    requires n < |steps| && LastWrite(cfg, steps[..|steps| - 1], n, id, k)
    requires WriteOf(StateAt(cfg, steps, |steps| - 1), steps[|steps| - 1], id).None?
    ensures LastWrite(cfg, steps, n, id, k)
  {
    hide WriteOf, StateAt;
    SameWrites(cfg, steps, id, k);
    forall j | k < j < |steps| ensures WriteOf(StateAt(cfg, steps, j), steps[j], id).None? {
      if j < |steps| - 1 { SameWrites(cfg, steps, id, j); }
    }
  }

  /** The status at the end is explained by the writes since step `n`. */
  ghost predicate Explained(cfg: Config, steps: seq<Step>, n: nat, id: nat, before: Status, after: Status) {
    || (NoWrite(cfg, steps, n, id) && after == before)
    || exists k :: LastWrite(cfg, steps, n, id, k) && WriteOf(StateAt(cfg, steps, k), steps[k], id) == Some(after)
  }

  lemma ExplainedExtends(cfg: Config, steps: seq<Step>, n: nat, id: nat, before: Status, middle: Status, after: Status)
    requires n < |steps| && Explained(cfg, steps[..|steps| - 1], n, id, before, middle)
    requires var w := WriteOf(StateAt(cfg, steps, |steps| - 1), steps[|steps| - 1], id);
             after == if w.Some? then w.value else middle
    ensures Explained(cfg, steps, n, id, before, after)
  {
    hide WriteOf, StateAt;
    var m := |steps| - 1;
    var front := steps[..m];
    if WriteOf(StateAt(cfg, steps, m), steps[m], id).Some? {
      assert LastWrite(cfg, steps, n, id, m);
    } else if NoWrite(cfg, front, n, id) && middle == before {
      NoWriteExtends(cfg, steps, n, id);
    } else {
      var k :| LastWrite(cfg, front, n, id, k) && WriteOf(StateAt(cfg, front, k), front[k], id) == Some(middle);
      LastWriteExtends(cfg, steps, n, id, k);
      SameWrites(cfg, steps, id, k);
    }
  }

  /**
   * In every interleaving the status of a target that is still there is what the last effective
   * status write since step `n` wrote, or what it was then.
   */
  lemma {:induction false} StatusIsLastWrite(cfg: Config, steps: seq<Step>, n: nat, id: nat)
    requires n <= |steps| && id < StateAt(cfg, steps, n).db.nextTarget && id in Exec(cfg, steps).db.targets
    ensures id in StateAt(cfg, steps, n).db.targets
    ensures Explained(cfg, steps, n, id, StateAt(cfg, steps, n).db.targets[id].status,
                      Exec(cfg, steps).db.targets[id].status)
    decreases |steps|
  {
    hide Apply, WriteOf, Explained;
    if n == |steps| {
      assert steps[..n] == steps;
      NothingYet(cfg, steps, id, Exec(cfg, steps).db.targets[id].status);
    } else {
      var m := |steps| - 1;
      var s := Exec(cfg, steps[..m]);
      EarlierStates(cfg, steps, m, n);
      CountersGrow(cfg, steps[..m], n);
      ApplyStatus(cfg, s, steps[m], id);
      StatusIsLastWrite(cfg, steps[..m], n, id);
      ExplainedExtends(cfg, steps, n, id, StateAt(cfg, steps, n).db.targets[id].status, s.db.targets[id].status,
                       Exec(cfg, steps).db.targets[id].status);
    }
  }

  lemma NothingYet(cfg: Config, steps: seq<Step>, id: nat, status: Status)
    ensures Explained(cfg, steps, |steps|, id, status, status)
  {
    assert NoWrite(cfg, steps, |steps|, id);
  }

  // --- A verification that does not succeed -----------------------------------------------------------

  /** The points of TriggerVerification after it has written the verifying status. */
  predicate Underway(p: Point) {
    p.VerifyCheck? || p.VerifyFailed? || p.VerifyStamp? || p.VerifyMark? || p.VerifyDone?
  }

  /** Request `r` is such a verification of the target. */
  predicate UnderwayOn(s: State, r: nat, id: nat) {
    r in s.requests && Underway(s.requests[r]) && s.requests[r].t.id == id
  }

  predicate Unproven(db: Db, id: nat) {
    id in db.targets ==> db.targets[id].status == Verifying || db.targets[id].status == Unverified
  }

  /** The verification `r` of the target has written `verifying`, and nothing has overwritten that yet. */
  predicate Attempting(s: State, r: nat, id: nat) {
    UnderwayOn(s, r, id) && Unproven(s.db, id)
  }

  /** Another request writes the target's status. */
  ghost predicate Interferes(s: State, step: Step, r: nat, id: nat) {
    WriteOf(s, step, id).Some? && !(step.r == r && UnderwayOn(s, r, id))
  }

  /** The verification's last status write takes effect. */
  ghost predicate Concludes(s: State, step: Step, r: nat, id: nat) {
    WriteOf(s, step, id).Some? && step.r == r && s.requests[r].VerifyDone?
  }

  /** Since step `n` no other request wrote the target's status. */
  ghost predicate Undisturbed(cfg: Config, steps: seq<Step>, n: nat, r: nat, id: nat) {
    forall k :: n <= k < |steps| ==> !Interferes(StateAt(cfg, steps, k), steps[k], r, id)
  }

  /** An effective and reported write of `verifying` begins the attempt, whatever the status was. */
  lemma AttemptBegins(cfg: Config, s: State, r: nat, c: Choice)
    requires r in s.requests && s.requests[r].VerifyBegin? && c.outcome.Done?
    ensures Attempting(Apply(cfg, s, Run(r, c)), r, s.requests[r].t.id)
  {
    var p := s.requests[r];
    assert StepPoint(cfg, s.db, s.now, p, c) == StepVerifyStatus(s.db, p, c);
  }

  /** There is no other way into an attempt. */
  lemma AttemptsOnlyBegin(cfg: Config, s: State, step: Step, r: nat, id: nat)
    requires UnderwayOn(Apply(cfg, s, step), r, id) && !UnderwayOn(s, r, id)
    ensures WriteOf(s, step, id) == Some(Verifying) && step.r == r
  {
    if step.Run? && step.r in s.requests {
      var p := s.requests[step.r];
      NextUnderway(cfg, s.db, s.now, p, step.c, id);
    }
  }

  lemma NextUnderway(cfg: Config, db: Db, now: Time, p: Point, c: Choice, id: nat)
    requires var e := StepPoint(cfg, db, now, p, c); e.next.Some? && Underway(e.next.value) && e.next.value.t.id == id
    ensures (Underway(p) && p.t.id == id) || (p.VerifyBegin? && p.t.id == id && c.outcome.Done?)
  {
  }

  /** Without a write of another kind an unproven target stays unproven. */
  lemma UnprovenStays(cfg: Config, s: State, step: Step, id: nat)
    requires Unproven(s.db, id) && id < s.db.nextTarget
    requires WriteOf(s, step, id) != Some(Verified) && WriteOf(s, step, id) != Some(Revoked)
    ensures Unproven(Apply(cfg, s, step).db, id) && id < Apply(cfg, s, step).db.nextTarget
  {
    hide Apply, WriteOf;
    ApplyStatus(cfg, s, step, id);
  }

  lemma OwnWrites(s: State, step: Step, r: nat, id: nat)
    requires !Interferes(s, step, r, id) && !Concludes(s, step, r, id)
    ensures WriteOf(s, step, id).None? || WriteOf(s, step, id) == Some(Unverified)
  {
  }

  lemma {:induction false} AttemptStaysUnproven(cfg: Config, steps: seq<Step>, n: nat, r: nat, id: nat)
    requires n <= |steps| && Attempting(StateAt(cfg, steps, n), r, id)
    requires Undisturbed(cfg, steps, n, r, id)
    requires forall k :: n <= k < |steps| ==> !Concludes(StateAt(cfg, steps, k), steps[k], r, id)
    ensures Unproven(Exec(cfg, steps).db, id) && id < Exec(cfg, steps).db.nextTarget
    decreases |steps|
  {
    hide Apply, WriteOf, Unproven, Interferes, Concludes;
    if n == |steps| {
      assert steps[..n] == steps;
      InvariantAlways(cfg, steps);
      AttemptedIdIsKnown(cfg, Exec(cfg, steps), r, id);
    } else {
      var m := |steps| - 1;
      var front := steps[..m];
      EarlierStates(cfg, steps, m, n);
      forall k | n <= k < m
        ensures !Interferes(StateAt(cfg, front, k), front[k], r, id)
            && !Concludes(StateAt(cfg, front, k), front[k], r, id)
      {
        EarlierStates(cfg, steps, m, k);
        assert !Interferes(StateAt(cfg, steps, k), steps[k], r, id);
      }
      AttemptStaysUnproven(cfg, front, n, r, id);
      assert !Interferes(StateAt(cfg, steps, m), steps[m], r, id);
      OwnWrites(Exec(cfg, front), steps[m], r, id);
      UnprovenStays(cfg, Exec(cfg, front), steps[m], id);
    }
  }

  lemma AttemptedIdIsKnown(cfg: Config, s: State, r: nat, id: nat)
    requires Inv(cfg, s) && UnderwayOn(s, r, id)
    ensures id < s.db.nextTarget
  {
    assert PointOk(s.db, s.now, s.requests[r]);
  }

  /**
   * Once a verification has written `verifying`, then whatever fails and whatever happens to other
   * targets: as long as no other request writes this target's status and its own last write has not
   * taken effect, the target is verifying or unverified and the gate denies, even when older
   * authorizations are still active.
   */
  lemma FailedVerificationNeverAuthorizes(cfg: Config, steps: seq<Step>, n: nat, r: nat, id: nat,
                                          w: Gate.World, req: Gate.Request, rows: Option<seq<Authorization>>)
    requires n <= |steps| && Attempting(StateAt(cfg, steps, n), r, id)
    requires Undisturbed(cfg, steps, n, r, id)
    requires forall k :: n <= k < |steps| ==> !Concludes(StateAt(cfg, steps, k), steps[k], r, id)
    ensures Unproven(Exec(cfg, steps).db, id)
    ensures !Gate.Authorized(w, req, FindTarget(Exec(cfg, steps).db, id), rows)
  {
    hide Exec, Concludes, Undisturbed, Attempting;
    AttemptStaysUnproven(cfg, steps, n, r, id);
    Gate.DecideMeans(w, req, FindTarget(Exec(cfg, steps).db, id), rows);
  }

  /** The attempt has concluded: the target is verified and the request is over. */
  predicate Concluded(s: State, r: nat, id: nat) {
    (id in s.db.targets ==> s.db.targets[id].status == Verified) && !UnderwayOn(s, r, id)
  }

  lemma ConclusionConcludes(cfg: Config, s: State, step: Step, r: nat, id: nat)
    requires Concludes(s, step, r, id) && id < s.db.nextTarget
    ensures Concluded(Apply(cfg, s, step), r, id)
  {
    ApplyStatus(cfg, s, step, id);
    var p := s.requests[r];
    assert StepPoint(cfg, s.db, s.now, p, step.c) == StepVerifyStatus(s.db, p, step.c);
  }

  lemma ConcludedStays(cfg: Config, s: State, step: Step, r: nat, id: nat)
    requires Concluded(s, r, id) && !Interferes(s, step, r, id) && id < s.db.nextTarget
    ensures Concluded(Apply(cfg, s, step), r, id)
  {
    hide Apply, WriteOf;
    ApplyStatus(cfg, s, step, id);
    var s' := Apply(cfg, s, step);
    if UnderwayOn(s', r, id) { AttemptsOnlyBegin(cfg, s, step, r, id); }
  }

  ghost predicate HasConcluded(cfg: Config, steps: seq<Step>, n: nat, r: nat, id: nat) {
    exists k :: n <= k < |steps| && Concludes(StateAt(cfg, steps, k), steps[k], r, id)
  }

  lemma {:induction false} ConclusionLasts(cfg: Config, steps: seq<Step>, n: nat, r: nat, id: nat)
    requires n <= |steps| && id < StateAt(cfg, steps, n).db.nextTarget
    requires Undisturbed(cfg, steps, n, r, id) && HasConcluded(cfg, steps, n, r, id)
    ensures Concluded(Exec(cfg, steps), r, id)
    decreases |steps|
  {
    hide Apply, Interferes, Concludes, Concluded;
    var m := |steps| - 1;
    var front := steps[..m];
    EarlierStates(cfg, steps, m, n);
    CountersGrow(cfg, front, n);
    assert !Interferes(StateAt(cfg, steps, m), steps[m], r, id);
    if Concludes(Exec(cfg, front), steps[m], r, id) {
      ConclusionConcludes(cfg, Exec(cfg, front), steps[m], r, id);
    } else {
      var k :| n <= k < |steps| && Concludes(StateAt(cfg, steps, k), steps[k], r, id);
      EarlierStates(cfg, steps, m, k);
      assert Concludes(StateAt(cfg, front, k), front[k], r, id);
      forall j | n <= j < m ensures !Interferes(StateAt(cfg, front, j), front[j], r, id) {
        EarlierStates(cfg, steps, m, j);
        assert !Interferes(StateAt(cfg, steps, j), steps[j], r, id);
      }
      ConclusionLasts(cfg, front, n, r, id);
      ConcludedStays(cfg, Exec(cfg, front), steps[m], r, id);
    }
  }

  /** A verification makes its target verified exactly when its last status write takes effect. */
  lemma VerifiedExactlyWhenConcluded(cfg: Config, steps: seq<Step>, n: nat, r: nat, id: nat)
    requires n <= |steps| && Attempting(StateAt(cfg, steps, n), r, id)
    requires Undisturbed(cfg, steps, n, r, id)
    requires id in Exec(cfg, steps).db.targets
    ensures Exec(cfg, steps).db.targets[id].status == Verified <==> HasConcluded(cfg, steps, n, r, id)
  {
    hide Exec, Concludes, Undisturbed;
    if HasConcluded(cfg, steps, n, r, id) {
      InvariantAlways(cfg, steps[..n]);
      AttemptedIdIsKnown(cfg, StateAt(cfg, steps, n), r, id);
      ConclusionLasts(cfg, steps, n, r, id);
    } else {
      AttemptStaysUnproven(cfg, steps, n, r, id);
    }
  }

  // --- How long a revocation lasts --------------------------------------------------------------------

  /** The step is an administrator's confirmation writing the target's status. */
  ghost predicate Reinstates(s: State, step: Step, id: nat) {
    WriteOf(s, step, id).Some? && s.requests[step.r].ManualDone?
  }

  /** A program target's status is written only by a revocation or by an administrator's confirmation. */
  lemma ProgramWrites(cfg: Config, s: State, step: Step, id: nat)
    requires Inv(cfg, s) && id in s.db.targets && s.db.targets[id].source == ProgramSource
    ensures WriteOf(s, step, id).None? || WriteOf(s, step, id) == Some(Revoked) || Reinstates(s, step, id)
  {
    if WriteOf(s, step, id).Some? {
      assert PointOk(s.db, s.now, s.requests[step.r]);
    }
  }

  ghost predicate RevokedProgram(db: Db, id: nat) {
    id in db.targets ==> db.targets[id].status == Revoked && db.targets[id].source == ProgramSource
  }

  lemma RevokedProgramStays(cfg: Config, s: State, step: Step, id: nat)
    requires Inv(cfg, s) && RevokedProgram(s.db, id) && id < s.db.nextTarget && !Reinstates(s, step, id)
    ensures RevokedProgram(Apply(cfg, s, step).db, id) && id < Apply(cfg, s, step).db.nextTarget
  {
    hide Apply, Inv, WriteOf, Reinstates;
    ApplyStatus(cfg, s, step, id);
    if id in s.db.targets { ProgramWrites(cfg, s, step, id); }
  }

  lemma {:induction false} RevokedProgramRun(cfg: Config, steps: seq<Step>, n: nat, id: nat)
    requires n <= |steps| && RevokedProgram(StateAt(cfg, steps, n).db, id) && id < StateAt(cfg, steps, n).db.nextTarget
    requires forall k :: n <= k < |steps| ==> !Reinstates(StateAt(cfg, steps, k), steps[k], id)
    ensures RevokedProgram(Exec(cfg, steps).db, id) && id < Exec(cfg, steps).db.nextTarget
    decreases |steps|
  {
    hide Apply, Inv, Reinstates, RevokedProgram;
    if n == |steps| {
      assert steps[..n] == steps;
    } else {
      var m := |steps| - 1;
      var front := steps[..m];
      EarlierStates(cfg, steps, m, n);
      forall k | n <= k < m ensures !Reinstates(StateAt(cfg, front, k), front[k], id) {
        EarlierStates(cfg, steps, m, k);
        assert !Reinstates(StateAt(cfg, steps, k), steps[k], id);
      }
      RevokedProgramRun(cfg, front, n, id);
      InvariantAlways(cfg, front);
      assert !Reinstates(StateAt(cfg, steps, m), steps[m], id);
      RevokedProgramStays(cfg, Exec(cfg, front), steps[m], id);
    }
  }

  /**
   * Once revoked, a program target stays revoked and denied, in every interleaving, until an
   * administrator's confirmation writes its status again.
   */
  lemma ProgramRevocationLasts(cfg: Config, steps: seq<Step>, n: nat, id: nat,
                               w: Gate.World, req: Gate.Request, rows: Option<seq<Authorization>>)
    requires n <= |steps| && id in StateAt(cfg, steps, n).db.targets
    requires StateAt(cfg, steps, n).db.targets[id].status == Revoked
    requires StateAt(cfg, steps, n).db.targets[id].source == ProgramSource
    requires forall k :: n <= k < |steps| ==> !Reinstates(StateAt(cfg, steps, k), steps[k], id)
    ensures id in Exec(cfg, steps).db.targets ==> Exec(cfg, steps).db.targets[id].status == Revoked
    ensures !Gate.Authorized(w, req, FindTarget(Exec(cfg, steps).db, id), rows)
  {
    hide Exec, Reinstates;
    InvariantAlways(cfg, steps[..n]);
    assert id < StateAt(cfg, steps, n).db.nextTarget;
    RevokedProgramRun(cfg, steps, n, id);
    Gate.DecideMeans(w, req, FindTarget(Exec(cfg, steps).db, id), rows);
  }

  /** A customer target leaves revocation only by a new verification or an administrator's confirmation. */
  lemma RevocationEndsOnlyBy(cfg: Config, s: State, step: Step, id: nat)
    requires Inv(cfg, s) && id in s.db.targets && s.db.targets[id].status == Revoked
    requires var db' := Apply(cfg, s, step).db; id in db'.targets && db'.targets[id].status != Revoked
    ensures WriteOf(s, step, id).Some?
    ensures Reinstates(s, step, id) || (s.db.targets[id].source == CustomerSource && VerifyWriting(s.requests[step.r]))
  {
    hide Apply, StepPoint;
    assert id < s.db.nextTarget;
    ApplyStatus(cfg, s, step, id);
    if s.db.targets[id].source == ProgramSource { ProgramWrites(cfg, s, step, id); }
  }

  /**
   * TriggerVerification, having read a customer target and its newest row, gives up there exactly
   * when that row's method is program or manual; revoked or not makes no difference.
   */
  lemma RefusedExactlyForAdminMethod(cfg: Config, s: State, r: nat, c: Choice)
    requires r in s.requests && s.requests[r].VerifyAuth? && s.requests[r].t.source == CustomerSource && c.outcome.Done?
    ensures var s' := Apply(cfg, s, Run(r, c));
            && s'.db == s.db
            && (r !in s'.requests <==>
                var a := Latest(s.db, s.requests[r].t.id); a.Some? && IsAdminMethod(a.value.means))
  {
    var p := s.requests[r];
    assert StepPoint(cfg, s.db, s.now, p, c) == StepVerifyRead(s.db, s.now, p, c);
  }
}
