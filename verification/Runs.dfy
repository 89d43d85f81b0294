/** Safety over whole schedules: what an authorization at the end says about the steps before it. */
module Runs {
  import opened Model
  import opened Text
  import opened Domains
  import opened HostScope
  import opened Store
  import opened Lifecycle
  import opened Invariants
  import Gate

  ghost function StateAt(cfg: Config, steps: seq<Step>, j: nat): State
    requires j <= |steps|
  {
    Exec(cfg, steps[..j])
  }

  /** The request a step runs with effect, at its current point. */
  ghost function Effective(s: State, step: Step): Option<Point> {
    if step.Run? && step.r in s.requests && !step.c.outcome.Failed? then Some(s.requests[step.r]) else None
  }

  /** A row is marked verified, or created verified. */
  datatype Proof = Proof(target: nat, row: nat, byChallenge: bool)
  {
    /** How long it may last: 60 days for a challenge, 365 days for an administrator. */
    function Term(): Time { if byChallenge then 60 * DAY else 365 * DAY }
  }

  /** The proof that an effective step at this point records: an existing row is marked, or a new one inserted. */
  function ProofAt(db: Db, p: Point): Option<Proof> {
    if p.VerifyMark? && p.auth.id in db.auths then Some(Proof(p.t.id, p.auth.id, true))
    else if p.ManualMark? && p.auth.id in db.auths then Some(Proof(p.t.id, p.auth.id, false))
    else if (p.ManualCreate? || p.ProgramAuth?) && p.t.id in db.targets then Some(Proof(p.t.id, db.nextAuth, false))
    else None
  }

  ghost function ProofOf(s: State, step: Step): Option<Proof> {
    match Effective(s, step)
    case Some(p) => ProofAt(s.db, p)
    case None => None
  }

  /** The step proves this target. */
  ghost predicate Proves(s: State, step: Step, id: nat) {
    ProofOf(s, step).Some? && ProofOf(s, step).value.target == id
  }

  /** The step is an administrator's proof of this row: it confirms the row, or creates it verified. */
  ghost predicate AdministratorProves(s: State, step: Step, row: nat) {
    ProofOf(s, step).Some? && ProofOf(s, step).value.row == row && !ProofOf(s, step).value.byChallenge
  }

  /** The target whose active authorizations the step expires. */
  ghost function ExpireOn(s: State, step: Step): Option<nat> {
    match Effective(s, step)
    case Some(p) => if p.RevokeExpire? then Some(p.t.id) else None
    case None => None
  }

  // --- Where a verified row comes from --------------------------------------------------------------

  /** The row is as it was, or was active and has been made to expire now. */
  predicate Kept(a: Authorization, b: Authorization, now: Time) {
    b == a || (Active(a, now) && b == a.(expiresAt := Some(now)))
  }

  /** The row is the one this proof is about, and lasts no longer than the proof's term. */
  predicate ProvenBy(pf: Proof, i: nat, b: Authorization, now: Time) {
    && pf.row == i && pf.target == b.targetId
    && b.verifiedAt.Some? && b.verifiedAt.value <= now
    && b.expiresAt.Some? && b.expiresAt.value <= b.verifiedAt.value + pf.Term()
  }

  /** Every verified row was kept, or is the row of the proof. */
  ghost predicate RowRule(db: Db, db': Db, now: Time, pf: Option<Proof>) {
    forall i :: i in db'.auths && db'.auths[i].verifiedAt.Some? ==>
      (i in db.auths && Kept(db.auths[i], db'.auths[i], now)) || (pf.Some? && ProvenBy(pf.value, i, db'.auths[i], now))
  }

  lemma PendingInsertRule(db: Db, d: Draft, now: Time)
    requires d.verifiedAt.None?
    ensures RowRule(db, InsertAuth(db, d, now).0, now, None)
  {
  }

  lemma VerifiedInsertRule(db: Db, d: Draft, now: Time)
    requires d.verifiedAt.Some? && d.verifiedAt.value <= now
    requires d.expiresAt.Some? && d.expiresAt.value <= d.verifiedAt.value + ADMIN_MAX
    ensures RowRule(db, InsertAuth(db, d, now).0, now,
                    if d.targetId in db.targets then Some(Proof(d.targetId, db.nextAuth, false)) else None)
  {
  }

  lemma MarkRule(db: Db, t: Target, a: Authorization, expires: Time, evidence: Evidence, now: Time, byChallenge: bool)
    requires KnownRow(db, t, a) && expires <= now + Proof(t.id, a.id, byChallenge).Term()
    ensures RowRule(db, MarkVerified(db, a.id, expires, evidence, now), now,
                    if a.id in db.auths then Some(Proof(t.id, a.id, byChallenge)) else None)
  {
  }

  lemma ExpireRule(db: Db, id: nat, now: Time)
    ensures var db' := ExpireActive(db, id, now);
            RowRule(db, db', now, None) && forall i :: i in db'.auths && db'.auths[i].targetId == id ==>
                !Active(db'.auths[i], now)
  {
  }

  /** Expiring never moves the end of a row, nor when it was verified, to a later time. */
  lemma ExpiringNeverExtends(db: Db, id: nat, now: Time, i: nat)
    requires i in db.auths && db.auths[i].expiresAt.Some?
    ensures var db' := ExpireActive(db, id, now);
            && i in db'.auths && db'.auths[i].verifiedAt == db.auths[i].verifiedAt
            && db'.auths[i].expiresAt.Some? && db'.auths[i].expiresAt.value <= db.auths[i].expiresAt.value
  {
  }

  lemma DeleteRule(db: Db, id: nat, now: Time)
    ensures RowRule(db, DeleteTarget(db, id), now, None)
  {
  }

  lemma CreateRule(cfg: Config, db: Db, now: Time, p: Point, c: Choice)
    requires CreatePoint(p)
    ensures RowRule(db, StepCreate(cfg, db, now, p, c).db, now, None)
  {
    if p.CreateIssue? {
      PendingInsertRule(db, ChallengeDraft(p.t, DefaultMethod(p.t.kind), c.token), now);
    }
  }

  lemma GetRule(db: Db, now: Time, p: Point, c: Choice)
    requires GetPoint(p)
    ensures RowRule(db, StepGet(db, now, p, c).db, now, None)
  {
    if p.GetIssue? {
      PendingInsertRule(db, ChallengeDraft(p.t, DefaultMethod(p.t.kind), c.token), now);
    }
  }

  lemma VerifyInsertRule(db: Db, now: Time, p: Point, c: Choice)
    requires VerifyInserting(p)
    ensures RowRule(db, StepVerifyInsert(db, now, p, c).db, now, None)
  {
    PendingInsertRule(db, ChallengeDraft(p.t, p.how, if p.VerifyIssue? then c.token else p.auth.token), now);
  }

  /** The proof a step at this point records when its call has this outcome. */
  function ProofIf(db: Db, p: Point, o: Outcome): Option<Proof> {
    if o.Failed? then None else ProofAt(db, p)
  }

  lemma ProgramRule(cfg: Config, db: Db, now: Time, p: Point, c: Choice)
    requires ProgramPoint(p) && PointOk(db, now, p)
    ensures RowRule(db, StepProgram(cfg, db, now, p, c).db, now, ProofIf(db, p, c.outcome))
  {
    if p.ProgramAuth? {
      VerifiedInsertRule(db, AdminDraft(p.t, ProgramMethod, p.stamp, p.expires, p.evidence), now);
    } else if p.ProgramUndo? {
      DeleteRule(db, p.t.id, now);
    }
  }

  lemma ManualRule(db: Db, now: Time, p: Point, c: Choice)
    requires ManualWriting(p) && PointOk(db, now, p)
    ensures RowRule(db, StepManualWrite(db, now, p, c).db, now, ProofIf(db, p, c.outcome))
  {
    if p.ManualMark? {
      MarkRule(db, p.t, p.auth, p.expires, p.evidence, now, false);
    } else if p.ManualCreate? {
      VerifiedInsertRule(db, AdminDraft(p.t, ManualMethod, p.stamp, p.expires, p.evidence), now);
    }
  }

  lemma RemoveRule(db: Db, now: Time, p: Point, c: Choice)
    requires RemovePoint(p)
    ensures var db' := StepRemove(db, now, p, c).db;
            && RowRule(db, db', now, None)
            && (p.RevokeExpire? && !c.outcome.Failed? ==>
                  forall i :: i in db'.auths && db'.auths[i].targetId == p.t.id ==> !Active(db'.auths[i], now))
  {
    if p.RevokeExpire? {
      ExpireRule(db, p.t.id, now);
    } else if p.DeleteOwn? || p.DeleteRow? {
      DeleteRule(db, p.uid, now);
    }
  }

  lemma VerifyReadChangesNothing(db: Db, now: Time, p: Point, c: Choice)
    requires VerifyReading(p)
    ensures StepVerifyRead(db, now, p, c).db == db
  {
  }

  lemma VerifyStatusKeepsRows(db: Db, p: Point, c: Choice)
    requires VerifyWriting(p)
    ensures StepVerifyStatus(db, p, c).db.auths == db.auths
  {
  }

  lemma ManualReadChangesNothing(cfg: Config, db: Db, now: Time, p: Point, c: Choice)
    requires ManualReading(p)
    ensures StepManualRead(cfg, db, now, p, c).db == db
  {
  }

  /** What one step of a request may do to the verified rows. */
  ghost predicate StepRule(db: Db, db': Db, now: Time, p: Point, o: Outcome) {
    && RowRule(db, db', now, ProofIf(db, p, o))
    && (p.RevokeExpire? && !o.Failed? ==>
          forall i :: i in db'.auths && db'.auths[i].targetId == p.t.id ==> !Active(db'.auths[i], now))
  }

  lemma StepObeys(cfg: Config, db: Db, now: Time, p: Point, c: Choice)
    requires PointOk(db, now, p)
    ensures StepRule(db, StepPoint(cfg, db, now, p, c).db, now, p, c.outcome)
  {
    hide StepCreate, StepGet, StepVerifyRead, StepVerifyInsert, StepVerifyStatus, StepProgram, StepManualRead;
    hide StepManualWrite, StepRemove;
    if CreatePoint(p) { CreateRule(cfg, db, now, p, c); }
    else if GetPoint(p) { GetRule(db, now, p, c); }
    else if VerifyReading(p) { VerifyReadChangesNothing(db, now, p, c); }
    else if VerifyInserting(p) { VerifyInsertRule(db, now, p, c); }
    else if VerifyWriting(p) { VerifyStatusKeepsRows(db, p, c); }
    else if p.VerifyMark? { MarkRule(db, p.t, p.auth, p.expires, None, now, true); }
    else if ProgramPoint(p) { ProgramRule(cfg, db, now, p, c); }
    else if ManualReading(p) { ManualReadChangesNothing(cfg, db, now, p, c); }
    else if ManualWriting(p) { ManualRule(db, now, p, c); }
    else { RemoveRule(db, now, p, c); }
  }

  lemma InvPoint(cfg: Config, s: State, step: Step)
    requires Inv(cfg, s)
    ensures step.Run? && step.r in s.requests ==> PointOk(s.db, s.now, s.requests[step.r])
  {
  }

  /** The rule for a step of the whole system. */
  lemma ApplyObeys(cfg: Config, s: State, step: Step)
    requires Inv(cfg, s)
    ensures var s' := Apply(cfg, s, step);
            && RowRule(s.db, s'.db, s.now, ProofOf(s, step)) && s.now <= s'.now
            && (ExpireOn(s, step).Some? ==>
                  s'.now == s.now
                  && forall i :: i in s'.db.auths && s'.db.auths[i].targetId == ExpireOn(s, step).value ==>
                       !Active(s'.db.auths[i], s.now))
  {
    hide StepPoint, Inv, Strands;
    InvPoint(cfg, s, step);
    if step.Run? && step.r in s.requests {
      StepObeys(cfg, s.db, s.now, s.requests[step.r], step.c);
    }
  }

  /** The same row, active before the step, which did not expire the target's rows. */
  ghost predicate Carried(s: State, step: Step, i: nat, a: Authorization) {
    i in s.db.auths && s.db.auths[i] == a && Active(a, s.now) && ExpireOn(s, step) != Some(a.targetId)
  }

  /** The step itself is the proof of this row. */
  ghost predicate JustProven(s: State, step: Step, i: nat, a: Authorization) {
    ProofOf(s, step).Some? && ProvenBy(ProofOf(s, step).value, i, a, s.now)
  }

  /** Where an active row comes from. */
  lemma ActiveOrigin(cfg: Config, s: State, step: Step, i: nat)
    requires Inv(cfg, s)
    requires var s' := Apply(cfg, s, step); i in s'.db.auths && Active(s'.db.auths[i], s'.now)
    ensures var a := Apply(cfg, s, step).db.auths[i]; Carried(s, step, i, a) || JustProven(s, step, i, a)
  {
    hide Apply, Inv, ProofOf;
    ApplyObeys(cfg, s, step);
  }

  /** Only a proof of the row itself can move its end to a later time, or make it verified. */
  lemma OnlyProofExtends(cfg: Config, s: State, step: Step, i: nat)
    requires Inv(cfg, s) && i in s.db.auths
    requires var s' := Apply(cfg, s, step);
             && i in s'.db.auths && s'.db.auths[i].verifiedAt.Some?
             && (s.db.auths[i].verifiedAt.None?
                 || (s.db.auths[i].expiresAt.Some? && s'.db.auths[i].expiresAt.Some?
                     && s'.db.auths[i].expiresAt.value > s.db.auths[i].expiresAt.value))
    ensures ProofOf(s, step).Some? && ProofOf(s, step).value.row == i
  {
    hide Apply, Inv, ProofOf;
    ApplyObeys(cfg, s, step);
  }

  // --- Authority is earned --------------------------------------------------------------------------

  /**
   * Step `j` proved this row of the target for a term that reaches past `expires`, and no later step
   * of the schedule expired the target's authorizations.
   */
  ghost predicate EarnedAt(cfg: Config, steps: seq<Step>, id: nat, row: nat, expires: Time, j: int) {
    && 0 <= j < |steps|
    && Proves(StateAt(cfg, steps, j), steps[j], id)
    && var pf := ProofOf(StateAt(cfg, steps, j), steps[j]).value;
    && pf.row == row && expires <= StateAt(cfg, steps, j).now + pf.Term()
    && forall k :: j < k < |steps| ==> ExpireOn(StateAt(cfg, steps, k), steps[k]) != Some(id)
  }

  lemma EarlierStates(cfg: Config, steps: seq<Step>, n: nat, k: nat)
    requires k <= n <= |steps|
    ensures StateAt(cfg, steps[..n], k) == StateAt(cfg, steps, k)
  {
    assert steps[..n][..k] == steps[..k];
  }

  lemma StillEarned(cfg: Config, steps: seq<Step>, id: nat, row: nat, expires: Time, j: int)
    requires steps != []
    requires EarnedAt(cfg, steps[..|steps| - 1], id, row, expires, j)
    requires ExpireOn(StateAt(cfg, steps, |steps| - 1), steps[|steps| - 1]) != Some(id)
    ensures EarnedAt(cfg, steps, id, row, expires, j)
  {
    hide ProofOf, ExpireOn, StateAt;
    var n := |steps| - 1;
    var front := steps[..n];
    EarlierStates(cfg, steps, n, j);
    forall k | j < k < |steps|
      ensures ExpireOn(StateAt(cfg, steps, k), steps[k]) != Some(id)
    {
      if k < n {
        EarlierStates(cfg, steps, n, k);
        assert ExpireOn(StateAt(cfg, front, k), front[k]) != Some(id);
      }
    }
  }

  /** Every active row, after any schedule, rests on a proof of that row which was not expired since. */
  lemma {:induction false} ActiveRowIsEarned(cfg: Config, steps: seq<Step>, i: nat)
    requires var s := Exec(cfg, steps); i in s.db.auths && Active(s.db.auths[i], s.now)
    ensures var a := Exec(cfg, steps).db.auths[i];
            a.expiresAt.Some? && exists j :: EarnedAt(cfg, steps, a.targetId, i, a.expiresAt.value, j)
    decreases |steps|
  {
    hide Apply, Inv, ProofOf, ExpireOn;
    var n := |steps| - 1;
    var s := StateAt(cfg, steps, n);
    var a := Exec(cfg, steps).db.auths[i];
    InvariantAlways(cfg, steps[..n]);
    ActiveOrigin(cfg, s, steps[n], i);
    if JustProven(s, steps[n], i, a) {
      assert EarnedAt(cfg, steps, a.targetId, i, a.expiresAt.value, n);
    } else {
      ActiveRowIsEarned(cfg, steps[..n], i);
      var j :| EarnedAt(cfg, steps[..n], a.targetId, i, a.expiresAt.value, j);
      StillEarned(cfg, steps, a.targetId, i, a.expiresAt.value, j);
    }
  }

  // --- How long one row lasts -----------------------------------------------------------------------

  /** Step `j` proved row `i`, and the row ends no later than that proof's term after it was verified. */
  ghost predicate TermFrom(cfg: Config, steps: seq<Step>, i: nat, a: Authorization, j: int) {
    && 0 <= j < |steps|
    && ProofOf(StateAt(cfg, steps, j), steps[j]).Some?
    && ProvenBy(ProofOf(StateAt(cfg, steps, j), steps[j]).value, i, a, StateAt(cfg, steps, j).now)
  }

  lemma StillTermed(cfg: Config, steps: seq<Step>, i: nat, a: Authorization, b: Authorization, j: int)
    requires steps != [] && TermFrom(cfg, steps[..|steps| - 1], i, a, j)
    requires b == a || (a.expiresAt.Some? && b.expiresAt.Some? && b == a.(expiresAt := b.expiresAt)
                        && b.expiresAt.value <= a.expiresAt.value)
    ensures TermFrom(cfg, steps, i, b, j)
  {
    hide ProofOf, StateAt;
    EarlierStates(cfg, steps, |steps| - 1, j);
  }

  /** Every verified row, expired or not, got its term from a proof of that row. */
  lemma {:induction false} RowTermIsEarned(cfg: Config, steps: seq<Step>, i: nat)
    requires var s := Exec(cfg, steps); i in s.db.auths && s.db.auths[i].verifiedAt.Some?
    ensures exists j :: TermFrom(cfg, steps, i, Exec(cfg, steps).db.auths[i], j)
    decreases |steps|
  {
    hide Apply, Inv, ProofOf;
    var n := |steps| - 1;
    var s := StateAt(cfg, steps, n);
    var b := Exec(cfg, steps).db.auths[i];
    InvariantAlways(cfg, steps[..n]);
    ApplyObeys(cfg, s, steps[n]);
    if ProofOf(s, steps[n]).Some? && ProvenBy(ProofOf(s, steps[n]).value, i, b, s.now) {
      assert TermFrom(cfg, steps, i, b, n);
    } else {
      RowTermIsEarned(cfg, steps[..n], i);
      var a := s.db.auths[i];
      var j :| TermFrom(cfg, steps[..n], i, a, j);
      StillTermed(cfg, steps, i, a, b, j);
    }
  }

  /**
   * A row that no administrator confirmed or created ends at most 60 days after it was verified;
   * any verified row at most 365 days after.
   */
  lemma RowLifetime(cfg: Config, steps: seq<Step>, i: nat)
    requires var s := Exec(cfg, steps); i in s.db.auths && s.db.auths[i].verifiedAt.Some?
    ensures var a := Exec(cfg, steps).db.auths[i];
            && a.expiresAt.Some? && a.expiresAt.value <= a.verifiedAt.value + 365 * DAY
            && ((forall j :: 0 <= j < |steps| ==> !AdministratorProves(StateAt(cfg, steps, j), steps[j], i)) ==>
                  a.expiresAt.value <= a.verifiedAt.value + 60 * DAY)
  {
    hide ProofOf, StateAt, Exec;
    RowTermIsEarned(cfg, steps, i);
    var j :| TermFrom(cfg, steps, i, Exec(cfg, steps).db.auths[i], j);
  }

  // --- Allows rest on proofs ------------------------------------------------------------------------

  /** The rows the gate may be given for a target: active ones of the current table. */
  ghost predicate CurrentRows(s: State, id: nat, rows: seq<Authorization>) {
    forall a :: a in rows ==> a.id in s.db.auths && s.db.auths[a.id] == a && a.targetId == id && Active(a, s.now)
  }

  /**
   * The gate allows a request on the target, with the rows of this moment, any snapshot of the target
   * and any clock for the program check.
   */
  ghost predicate Allows(s: State, id: nat, w: Gate.World, req: Gate.Request, target: Option<Target>,
                         rows: seq<Authorization>) {
    CurrentRows(s, id, rows) && Gate.Authorized(w, req, target, Some(rows))
  }

  /** The proof an allow rests on: of this row of the target, not yet past its term, and not expired since. */
  ghost predicate ValidProof(cfg: Config, steps: seq<Step>, id: nat, row: nat, j: int) {
    EarnedAt(cfg, steps, id, row, Exec(cfg, steps).now + 1, j)
  }

  /**
   * Whenever the gate allows a request, after any interleaving with failures and crashes anywhere,
   * some earlier step proved one of the rows it was given, within its term (60 days by challenge,
   * 365 days by an administrator), and no later step expired the target's authorizations.
   */
  lemma AuthorityIsEarned(cfg: Config, steps: seq<Step>, id: nat,
                          w: Gate.World, req: Gate.Request, target: Option<Target>, rows: seq<Authorization>)
    requires Allows(Exec(cfg, steps), id, w, req, target, rows)
    ensures exists a, j :: a in rows && ValidProof(cfg, steps, id, a.id, j)
  {
    hide Gate.Authorized, Exec, ProofOf, StateAt, ExpireOn;
    var a := AllowHasActiveRow(w, req, target, rows);
    ActiveRowIsEarned(cfg, steps, a.id);
    var s := Exec(cfg, steps);
    assert s.db.auths[a.id] == a && a.targetId == id && a.expiresAt.value > s.now;
    var j :| EarnedAt(cfg, steps, id, a.id, a.expiresAt.value, j);
    EarnedSooner(cfg, steps, id, a.id, a.expiresAt.value, s.now + 1, j);
    assert ValidProof(cfg, steps, id, a.id, j);
  }

  lemma AllowHasActiveRow(w: Gate.World, req: Gate.Request, target: Option<Target>, rows: seq<Authorization>)
    returns (a: Authorization)
    requires Gate.Authorized(w, req, target, Some(rows))
    ensures a in rows
  {
    Gate.DecideMeans(w, req, target, Some(rows));
    var k :| Gate.FirstDecisive(w, req, rows, k);
    a := rows[k];
  }

  lemma EarnedSooner(cfg: Config, steps: seq<Step>, id: nat, row: nat, later: Time, sooner: Time, j: int)
    requires EarnedAt(cfg, steps, id, row, later, j) && sooner <= later
    ensures EarnedAt(cfg, steps, id, row, sooner, j)
  {
    hide ProofOf, StateAt, ExpireOn;
  }

  /**
   * The kill switch: once a step has expired a target's authorizations, any later allow on that
   * target has a proof of the target after it, whether or not the status was written.
   */
  lemma KillSwitch(cfg: Config, steps: seq<Step>, i: nat, id: nat,
                   w: Gate.World, req: Gate.Request, target: Option<Target>, rows: seq<Authorization>)
    requires i < |steps| && ExpireOn(StateAt(cfg, steps, i), steps[i]) == Some(id)
    requires Allows(Exec(cfg, steps), id, w, req, target, rows)
    ensures exists j :: i < j < |steps| && Proves(StateAt(cfg, steps, j), steps[j], id)
  {
    hide Allows, ProofOf, Exec;
    AuthorityIsEarned(cfg, steps, id, w, req, target, rows);
    var a, j :| a in rows && ValidProof(cfg, steps, id, a.id, j);
    ExpireIsNoProof(StateAt(cfg, steps, i), steps[i], id);
    assert i < j < |steps|;
  }

  lemma ExpireIsNoProof(s: State, step: Step, id: nat)
    requires ExpireOn(s, step) == Some(id)
    ensures !Proves(s, step, id)
  {
  }

  /** A target whose proofs have all run out their terms (at most 365 days) is denied. */
  lemma AuthorityExpires(cfg: Config, steps: seq<Step>, id: nat,
                         w: Gate.World, req: Gate.Request, target: Option<Target>, rows: seq<Authorization>)
    requires var now := Exec(cfg, steps).now;
             forall j | 0 <= j < |steps| && Proves(StateAt(cfg, steps, j), steps[j], id) ::
               StateAt(cfg, steps, j).now + ProofOf(StateAt(cfg, steps, j), steps[j]).value.Term() <= now
    requires CurrentRows(Exec(cfg, steps), id, rows)
    ensures !Gate.Authorized(w, req, target, Some(rows))
  {
    hide ProofOf, Exec, ExpireOn, Gate.Authorized, CurrentRows;
    if Gate.Authorized(w, req, target, Some(rows)) {
      AuthorityIsEarned(cfg, steps, id, w, req, target, rows);
    }
  }

  // --- Status and proof -----------------------------------------------------------------------------

  /** A customer target is only ever verified with a proven row, in every interleaved state. */
  lemma ProofBeforeStatus(cfg: Config, steps: seq<Step>, id: nat)
    requires var s := Exec(cfg, steps);
             id in s.db.targets && s.db.targets[id].status == Verified && s.db.targets[id].source == CustomerSource
    ensures HasProof(Exec(cfg, steps).db, id)
  {
    InvariantAlways(cfg, steps);
    assert StatusBacked(Exec(cfg, steps), id);
  }

  /** A step that breaks off the creation of program target `id`. */
  ghost predicate BreaksOn(s: State, step: Step, id: nat) {
    match step
    case Crash(r) => r in s.requests && Creating(s.requests[r]) && s.requests[r].t.id == id
    case Run(r, c) =>
      && r in s.requests
      && ((s.requests[r].ProgramUndo? && s.requests[r].t.id == id && c.outcome.Failed?)
          || (s.requests[r].ProgramInsert? && id == s.db.nextTarget && c.outcome.Lost?))
    case _ => false
  }

  lemma NewlyStranded(cfg: Config, s: State, step: Step, id: nat)
    requires id in Apply(cfg, s, step).stranded && id !in s.stranded
    ensures BreaksOn(s, step, id)
  {
    if step.Run? && step.r in s.requests {
      var p := s.requests[step.r];
      if p.ProgramInsert? || p.ProgramUndo? {
        assert id in Strands(s.db, p, StepPoint(cfg, s.db, s.now, p, step.c));
      }
    }
  }

  /** Each stranded target was stranded by a step that broke off its own creation. */
  lemma {:induction false} StrandedOnlyByBreaks(cfg: Config, steps: seq<Step>, id: nat)
    requires id in Exec(cfg, steps).stranded
    ensures exists k :: 0 <= k < |steps| && BreaksOn(StateAt(cfg, steps, k), steps[k], id)
    decreases |steps|
  {
    hide Apply, BreaksOn;
    var n := |steps| - 1;
    if id in Exec(cfg, steps[..n]).stranded {
      StrandedOnlyByBreaks(cfg, steps[..n], id);
      var k :| 0 <= k < n && BreaksOn(StateAt(cfg, steps[..n], k), steps[..n][k], id);
      EarlierStates(cfg, steps, n, k);
      assert BreaksOn(StateAt(cfg, steps, k), steps[k], id);
    } else {
      NewlyStranded(cfg, StateAt(cfg, steps, n), steps[n], id);
      assert BreaksOn(StateAt(cfg, steps, n), steps[n], id);
    }
  }

  /**
   * As long as no step broke off the creation of this target (a crash, a failed compensation, or an
   * insert whose success was not reported), whatever happens to other targets: when it is verified
   * it has its proven row, or the request that creates it is still running.
   */
  lemma ProgramTargetHasRow(cfg: Config, steps: seq<Step>, id: nat)
    requires forall k :: 0 <= k < |steps| ==> !BreaksOn(StateAt(cfg, steps, k), steps[k], id)
    requires var s := Exec(cfg, steps); id in s.db.targets && s.db.targets[id].status == Verified
    ensures var s := Exec(cfg, steps); HasProof(s.db, id) || InCreation(s.requests, id)
  {
    hide BreaksOn, Exec, HasProof, InCreation;
    InvariantAlways(cfg, steps);
    if id in Exec(cfg, steps).stranded { StrandedOnlyByBreaks(cfg, steps, id); }
    assert StatusBacked(Exec(cfg, steps), id);
  }

  /** Program targets never enter the customer's challenge path. */
  lemma ProgramTargetsAreClosed(cfg: Config, steps: seq<Step>, id: nat)
    requires id in Exec(cfg, steps).db.targets && Exec(cfg, steps).db.targets[id].source == ProgramSource
    ensures var db := Exec(cfg, steps).db;
            && (db.targets[id].status == Verified || db.targets[id].status == Revoked)
            && forall i :: i in db.auths && db.auths[i].targetId == id ==>
                 && (db.auths[i].means == ProgramMethod || db.auths[i].means == ManualMethod)
                 && db.auths[i].token == "" && db.auths[i].verifiedAt.Some?
  {
    InvariantAlways(cfg, steps);
    var db := Exec(cfg, steps).db;
    assert TargetOk(cfg, db.targets[id]);
    assert forall i :: i in db.auths ==> RowOk(db.targets[db.auths[i].targetId], db.auths[i], Exec(cfg, steps).now);
  }

  // --- Scope provenance -----------------------------------------------------------------------------

  lemma StoredScope(cfg: Config, t: Target)
    requires TargetOk(cfg, t)
    ensures t.kind in {IpKind, CidrKind} ==> cfg.ipTargetsEnabled
    ensures ScopeForTarget(t) == if t.kind in {IpKind, CidrKind} then (IpRange, t.value)
                                 else (RegistrableDomain, OwnScope(cfg.etld, t.value))
    ensures Normal(t.value)
  {
    var raw :| NormalizeTargetValue(cfg.etld, t.kind, raw) == (t.value, t.registrableDomain);
    NormalizedIsNormal(raw);
  }

  /**
   * Every row carries the scope of its own target: the value itself for an address or a block, which
   * exist only while address targets are enabled, and the value's domain otherwise.
   */
  lemma ScopeProvenance(cfg: Config, steps: seq<Step>, i: nat)
    requires i in Exec(cfg, steps).db.auths
    ensures var db := Exec(cfg, steps).db;
            var a := db.auths[i];
            && a.targetId in db.targets
            && var t := db.targets[a.targetId];
            if t.kind in {IpKind, CidrKind}
            then cfg.ipTargetsEnabled && a.scopeKind == IpRange && a.scopeValue == t.value
            else a.scopeKind == RegistrableDomain && a.scopeValue == OwnScope(cfg.etld, t.value)
  {
    InvariantAlways(cfg, steps);
    var s := Exec(cfg, steps);
    var a := s.db.auths[i];
    assert RowOk(s.db.targets[a.targetId], a, s.now);
    StoredScope(cfg, s.db.targets[a.targetId]);
  }

  /**
   * An allow that is not given by a linked program is for a host equal to or under the scope derived
   * from the target's own value, or, for an address or a block, for an address that it is or contains.
   */
  lemma AllowedHostIsInOwnScope(cfg: Config, steps: seq<Step>, id: nat,
                                w: Gate.World, req: Gate.Request, target: Option<Target>, rows: seq<Authorization>)
    requires Allows(Exec(cfg, steps), id, w, req, target, rows)
    requires forall k :: Gate.FirstDecisive(w, req, rows, k) ==> !Gate.Linked(w, rows[k])
    ensures var db := Exec(cfg, steps).db;
            && id in db.targets
            && var t, h, q := db.targets[id], req.QueryHost(), req.QueryIP();
            if t.kind in {IpKind, CidrKind}
            then && cfg.ipTargetsEnabled && w.ipTargetsEnabled && q != ""
                 && (t.value == q || (w.net.parseIP(q).Some? && w.net.cidrContains(t.value, w.net.parseIP(q).value)))
            else h != "" && IsSubdomainOf(h, OwnScope(cfg.etld, t.value))
  {
    Gate.DecideMeans(w, req, target, Some(rows));
    var k :| Gate.FirstDecisive(w, req, rows, k) && Gate.Grants(w, req, rows[k]);
    assert rows[k] in rows;
    ScopeProvenance(cfg, steps, rows[k].id);
  }

  // --- One target for each user, kind and value --------------------------------------------------------

  /** No two targets agree in user, kind and value. */
  ghost predicate UniqueTargets(db: Db) {
    forall i, j :: i in db.targets && j in db.targets && SameThing(db.targets[i], db.targets[j]) ==> i == j
  }

  predicate SameThing(t: Target, u: Target) {
    t.userId == u.userId && t.kind == u.kind && t.value == u.value
  }

  /** No target has come, and no column but the status has changed. */
  ghost predicate NoneAdded(db: Db, db': Db) {
    forall i :: i in db'.targets ==> i in db.targets && SameTarget(db.targets[i], db'.targets[i])
  }

  lemma NoneAddedUnique(db: Db, db': Db)
    requires UniqueTargets(db) && NoneAdded(db, db')
    ensures UniqueTargets(db')
  {
    forall i, j | i in db'.targets && j in db'.targets && SameThing(db'.targets[i], db'.targets[j]) ensures i == j {
      assert SameThing(db.targets[i], db.targets[j]);
    }
  }

  lemma InsertedUnique(etld: SuffixList, db: Db, userId: int, kind: Kind, raw: string, status: Status, source: Source)
    requires UniqueTargets(db)
    ensures UniqueTargets(InsertTarget(etld, db, userId, kind, raw, status, source).0)
  {
    hide NormalizeTargetValue;
    var (db', t) := InsertTarget(etld, db, userId, kind, raw, status, source);
    forall i, j | i in db'.targets && j in db'.targets && SameThing(db'.targets[i], db'.targets[j]) ensures i == j {
      assert i in db.targets && j in db.targets ==> SameThing(db.targets[i], db.targets[j]) || t.Some?;
    }
  }

  lemma CreateStaysUnique(cfg: Config, db: Db, now: Time, p: Point, c: Choice)
    requires UniqueTargets(db) && CreatePoint(p)
    ensures UniqueTargets(StepCreate(cfg, db, now, p, c).db)
  {
    hide InsertTarget, UniqueTargets;
    if p.CreateInsert? {
      InsertedUnique(cfg.etld, db, p.userId, p.kind, p.raw, Unverified, CustomerSource);
    } else {
      NoneAddedUnique(db, StepCreate(cfg, db, now, p, c).db);
    }
  }

  lemma ProgramStaysUnique(cfg: Config, db: Db, now: Time, p: Point, c: Choice)
    requires UniqueTargets(db) && ProgramPoint(p)
    ensures UniqueTargets(StepProgram(cfg, db, now, p, c).db)
  {
    hide InsertTarget, UniqueTargets;
    if p.ProgramInsert? {
      InsertedUnique(cfg.etld, db, p.owner, p.kind, p.raw, Verified, ProgramSource);
    } else {
      NoneAddedUnique(db, StepProgram(cfg, db, now, p, c).db);
    }
  }

  lemma VerifyAddsNone(db: Db, now: Time, p: Point, c: Choice)
    ensures VerifyReading(p) ==> NoneAdded(db, StepVerifyRead(db, now, p, c).db)
    ensures VerifyInserting(p) ==> NoneAdded(db, StepVerifyInsert(db, now, p, c).db)
    ensures VerifyWriting(p) ==> NoneAdded(db, StepVerifyStatus(db, p, c).db)
    ensures p.VerifyMark? ==> NoneAdded(db, StepVerifyMark(db, now, p, c).db)
  {
    hide Latest;
  }

  lemma ManualAddsNone(cfg: Config, db: Db, now: Time, p: Point, c: Choice)
    ensures ManualReading(p) ==> NoneAdded(db, StepManualRead(cfg, db, now, p, c).db)
    ensures ManualWriting(p) ==> NoneAdded(db, StepManualWrite(db, now, p, c).db)
  {
    hide Latest;
  }

  lemma OthersAddNone(db: Db, now: Time, p: Point, c: Choice)
    ensures GetPoint(p) ==> NoneAdded(db, StepGet(db, now, p, c).db)
    ensures RemovePoint(p) ==> NoneAdded(db, StepRemove(db, now, p, c).db)
  {
    hide Latest;
  }

  lemma StepStaysUnique(cfg: Config, db: Db, now: Time, p: Point, c: Choice)
    requires UniqueTargets(db)
    ensures UniqueTargets(StepPoint(cfg, db, now, p, c).db)
  {
    hide StepCreate, StepGet, StepVerifyRead, StepVerifyInsert, StepVerifyStatus, StepVerifyMark, StepProgram;
    hide StepManualRead, StepManualWrite, StepRemove, UniqueTargets, NoneAdded;
    if CreatePoint(p) {
      CreateStaysUnique(cfg, db, now, p, c);
    } else if ProgramPoint(p) {
      ProgramStaysUnique(cfg, db, now, p, c);
    } else {
      VerifyAddsNone(db, now, p, c);
      ManualAddsNone(cfg, db, now, p, c);
      OthersAddNone(db, now, p, c);
      NoneAddedUnique(db, StepPoint(cfg, db, now, p, c).db);
    }
  }

  /** In every reachable state a user has at most one target of a kind with a value, however requests race. */
  lemma {:induction false} TargetsAreUnique(cfg: Config, steps: seq<Step>)
    ensures UniqueTargets(Exec(cfg, steps).db)
    decreases |steps|
  {
    hide StepPoint, Strands;
    if steps != [] {
      var n := |steps| - 1;
      TargetsAreUnique(cfg, steps[..n]);
      var s := Exec(cfg, steps[..n]);
      if steps[n].Run? && steps[n].r in s.requests {
        StepStaysUnique(cfg, s.db, s.now, s.requests[steps[n].r], steps[n].c);
      }
    }
  }
}
