/** One token per target when requests interleave. */
module TokenRaces {
  import opened Model
  import opened Store
  import opened Lifecycle
  import opened Invariants
  import opened Runs
  import Seq = Sequential

  /** The points that record a fresh token. */
  predicate Issuing(p: Point) {
    p.CreateIssue? || p.GetIssue? || p.VerifyIssue?
  }

  /** The step records a fresh token while another request is about to do so for the same target. */
  ghost predicate Races(s: State, step: Step) {
    var e := Effective(s, step);
    && e.Some? && Issuing(e.value)
    && exists q :: q in s.requests && q != step.r && Issuing(s.requests[q]) && s.requests[q].t.id == e.value.t.id
  }

  /** The step is a lookup of the newest row that fails. */
  predicate LookupBreaks(s: State, step: Step) {
    && step.Run? && step.r in s.requests
    && (s.requests[step.r].GetAuth? || s.requests[step.r].VerifyAuth?) && !step.c.outcome.Done?
  }

  /** No lookup fails, no two requests race for one target's token, and tokens are not empty. */
  ghost predicate Orderly(s: State, step: Step) {
    !Races(s, step) && !LookupBreaks(s, step) && (step.Run? ==> step.c.token != "")
  }

  /** A new row with a token belongs to the target of a point that records one. */
  ghost predicate TokenRule(db: Db, db': Db, p: Point) {
    forall i :: i in db'.auths && i >= db.nextAuth && db'.auths[i].token != "" ==>
      && (Issuing(p) || p.VerifySwitch?)
      && db'.auths[i].targetId == p.t.id && p.t.id in db.targets
  }

  // --- Which steps record tokens ----------------------------------------------------------------------

  lemma CreateRecords(cfg: Config, db: Db, now: Time, p: Point, c: Choice)
    requires CreatePoint(p) && Keyed(db)
    ensures TokenRule(db, StepCreate(cfg, db, now, p, c).db, p)
  {
  }

  lemma GetRecords(db: Db, now: Time, p: Point, c: Choice)
    requires GetPoint(p) && Keyed(db)
    ensures TokenRule(db, StepGet(db, now, p, c).db, p)
  {
  }

  lemma VerifyInsertRecords(db: Db, now: Time, p: Point, c: Choice)
    requires VerifyInserting(p) && Keyed(db)
    ensures TokenRule(db, StepVerifyInsert(db, now, p, c).db, p)
  {
  }

  lemma VerifyStatusRecords(db: Db, p: Point, c: Choice)
    requires VerifyWriting(p) && Keyed(db)
    ensures TokenRule(db, StepVerifyStatus(db, p, c).db, p)
  {
  }

  lemma MarkRecords(db: Db, now: Time, p: Point, c: Choice)
    requires p.VerifyMark? && Keyed(db)
    ensures TokenRule(db, StepVerifyMark(db, now, p, c).db, p)
  {
  }

  lemma ProgramRecords(cfg: Config, db: Db, now: Time, p: Point, c: Choice)
    requires ProgramPoint(p) && Keyed(db)
    ensures TokenRule(db, StepProgram(cfg, db, now, p, c).db, p)
  {
  }

  lemma ManualRecords(db: Db, now: Time, p: Point, c: Choice)
    requires ManualWriting(p) && Keyed(db)
    ensures TokenRule(db, StepManualWrite(db, now, p, c).db, p)
  {
  }

  lemma RemoveRecords(db: Db, now: Time, p: Point, c: Choice)
    requires RemovePoint(p) && Keyed(db)
    ensures TokenRule(db, StepRemove(db, now, p, c).db, p)
  {
  }

  lemma StepRecords(cfg: Config, db: Db, now: Time, p: Point, c: Choice)
    requires Keyed(db)
    ensures TokenRule(db, StepPoint(cfg, db, now, p, c).db, p)
  {
    hide StepCreate, StepGet, StepVerifyInsert, StepVerifyStatus, StepVerifyMark, StepProgram, StepManualWrite;
    hide StepRemove;
    if CreatePoint(p) { CreateRecords(cfg, db, now, p, c); }
    else if GetPoint(p) { GetRecords(db, now, p, c); }
    else if VerifyReading(p) { VerifyReadChangesNothing(db, now, p, c); }
    else if VerifyInserting(p) { VerifyInsertRecords(db, now, p, c); }
    else if VerifyWriting(p) { VerifyStatusRecords(db, p, c); }
    else if p.VerifyMark? { MarkRecords(db, now, p, c); }
    else if ProgramPoint(p) { ProgramRecords(cfg, db, now, p, c); }
    else if ManualReading(p) { ManualReadChangesNothing(cfg, db, now, p, c); }
    else if ManualWriting(p) { ManualRecords(db, now, p, c); }
    else { RemoveRecords(db, now, p, c); }
  }

  // --- What the other requests know -------------------------------------------------------------------

  lemma HeldSurvives(db: Db, db': Db, t: Target, a: Authorization)
    requires Evolves(db, db') && Known(db, t) && Seq.HeldRow(db, t, a) && Keyed(db)
    ensures Seq.HeldRow(db', t, a)
  {
  }

  lemma NoTokenSurvives(db: Db, db': Db, p: Point, id: nat)
    requires Evolves(db, db') && TokenRule(db, db', p) && Seq.NoTokenYet(db, id) && Seq.TokenView(db, p)
    requires !(Issuing(p) && p.t.id == id)
    ensures Seq.NoTokenYet(db', id)
  {
    forall i | i in db'.auths && db'.auths[i].targetId == id ensures db'.auths[i].token == "" {
      if i < db.nextAuth { assert LaterRow(db.auths[i], db'.auths[i]); }
    }
  }

  /** A step of `p` leaves another request's knowledge true, unless both record a token for one target. */
  lemma ViewSurvives(db: Db, db': Db, now: Time, p: Point, q: Point)
    requires Keyed(db) && Evolves(db, db') && TokenRule(db, db', p)
    requires Seq.TokenView(db, p) && Seq.TokenView(db, q) && PointOk(db, now, q)
    requires Issuing(p) && Issuing(q) ==> p.t.id != q.t.id
    ensures Seq.TokenView(db', q)
  {
    hide Evolves, TokenRule, Seq.NoTokenYet, Seq.HeldRow;
    if Issuing(q) {
      NoTokenSurvives(db, db', p, q.t.id);
    } else if q.VerifySwitch? || q.VerifyBegin? || q.VerifyCheck? {
      HeldSurvives(db, db', q.t, q.auth);
    }
  }

  // --- Whole schedules --------------------------------------------------------------------------------

  /** Tokens are in order, and every request in flight knows what it needs about them. */
  ghost predicate TokensKnown(s: State) {
    Seq.Tokens(s.db) && forall r :: r in s.requests ==> Seq.TokenView(s.db, s.requests[r])
  }

  lemma OthersKnow(cfg: Config, s: State, r: nat, c: Choice, q: nat)
    requires Inv(cfg, s) && TokensKnown(s) && r in s.requests && q in s.requests && q != r
    requires !(Issuing(s.requests[r]) && Issuing(s.requests[q]) && s.requests[r].t.id == s.requests[q].t.id)
    ensures Seq.TokenView(StepPoint(cfg, s.db, s.now, s.requests[r], c).db, s.requests[q])
  {
    hide StepPoint, DbOk, Seq.TokenView, PointOk, Evolves, TokenRule;
    var p := s.requests[r];
    var e := StepPoint(cfg, s.db, s.now, p, c);
    OkKeyed(cfg, s.db, s.now);
    StepPointKeeps(cfg, s.db, s.now, p, c);
    StepRecords(cfg, s.db, s.now, p, c);
    ViewSurvives(s.db, e.db, s.now, p, s.requests[q]);
  }

  /** An issuing step that fails changes no table. */
  lemma FailedIssueChangesNothing(cfg: Config, db: Db, now: Time, p: Point, c: Choice)
    requires Issuing(p) && c.outcome.Failed?
    ensures StepPoint(cfg, db, now, p, c).db == db
  {
  }

  lemma RunKnows(cfg: Config, s: State, r: nat, c: Choice)
    requires Inv(cfg, s) && TokensKnown(s) && Orderly(s, Run(r, c)) && r in s.requests
    ensures TokensKnown(Apply(cfg, s, Run(r, c)))
  {
    hide StepPoint, DbOk, Seq.TokenView, PointOk, Seq.Tokens, Strands;
    var p := s.requests[r];
    var e := StepPoint(cfg, s.db, s.now, p, c);
    OkKeyed(cfg, s.db, s.now);
    Seq.StepTokens(cfg, s.db, s.now, p, c);
    forall q | q in s.requests && q != r ensures Seq.TokenView(e.db, s.requests[q]) {
      if Issuing(p) && Issuing(s.requests[q]) && p.t.id == s.requests[q].t.id {
        assert c.outcome.Failed?;
        FailedIssueChangesNothing(cfg, s.db, s.now, p, c);
      } else {
        OthersKnow(cfg, s, r, c, q);
      }
    }
  }

  lemma InitialKnows(db: Db, p: Point)
    requires Initial(p)
    ensures Seq.TokenView(db, p)
  {
  }

  lemma ApplyKnows(cfg: Config, s: State, step: Step)
    requires Inv(cfg, s) && TokensKnown(s) && Orderly(s, step)
    ensures TokensKnown(Apply(cfg, s, step))
  {
    hide Inv, Orderly, StepPoint, Seq.TokenView, Seq.Tokens;
    match step
    case Run(r, c) => if r in s.requests { RunKnows(cfg, s, r, c); }
    case Begin(r, p) => if Initial(p) { InitialKnows(s.db, p); }
    case Tick(_) =>
    case Crash(_) =>
  }

  lemma {:induction false} ScheduleKnows(cfg: Config, steps: seq<Step>)
    requires forall k :: 0 <= k < |steps| ==> Orderly(StateAt(cfg, steps, k), steps[k])
    ensures TokensKnown(Exec(cfg, steps))
    decreases |steps|
  {
    hide Apply, Orderly, Inv;
    if steps != [] {
      var m := |steps| - 1;
      var front := steps[..m];
      forall k | 0 <= k < m ensures Orderly(StateAt(cfg, front, k), front[k]) {
        EarlierStates(cfg, steps, m, k);
        assert Orderly(StateAt(cfg, steps, k), steps[k]);
      }
      ScheduleKnows(cfg, front);
      InvariantAlways(cfg, front);
      assert Orderly(StateAt(cfg, steps, m), steps[m]);
      ApplyKnows(cfg, Exec(cfg, front), steps[m]);
    }
  }

  /**
   * In every interleaving in which no lookup fails and no request records a fresh token while another
   * is about to do so for the same target, all rows of a target that carry a token carry the same
   * one, and every challenge check is made with it.
   */
  lemma OneTokenWithoutRaces(cfg: Config, steps: seq<Step>, r: nat)
    requires forall k :: 0 <= k < |steps| ==> Orderly(StateAt(cfg, steps, k), steps[k])
    ensures var s := Exec(cfg, steps);
            && Seq.OneToken(s.db)
            && (r in s.requests && s.requests[r].VerifyCheck? && s.requests[r].t.id in s.db.targets
                && IsChallenge(s.requests[r].auth.means) ==>
                  Seq.ChecksTheToken(s.db, s.requests[r].t, s.requests[r].auth))
  {
    hide Exec, Orderly, DbOk;
    ScheduleKnows(cfg, steps);
    InvariantAlways(cfg, steps);
    var s := Exec(cfg, steps);
    if r in s.requests && s.requests[r].VerifyCheck? && s.requests[r].t.id in s.db.targets
       && IsChallenge(s.requests[r].auth.means) {
      Seq.HeldTokenIsTheToken(s.db, s.now, s.requests[r]);
    }
  }
}
