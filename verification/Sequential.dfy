/** Requests that run alone, one after the other. */
module Sequential {
  import opened Model
  import opened HostScope
  import opened Store
  import opened Lifecycle
  import opened Invariants

  /** The time that passes before a call, and what the environment decides about it. */
  datatype Event = Event(wait: nat, c: Choice)

  /** The tables, the clock, and where the only request stands (`None` once it has ended). */
  datatype Solo = Solo(db: Db, now: Time, at: Option<Point>)

  ghost function SoloStep(cfg: Config, s: Solo, x: Event): Solo {
    var now := s.now + x.wait;
    match s.at
    case None => Solo(s.db, now, None)
    case Some(p) => var e := StepPoint(cfg, s.db, now, p, x.c); Solo(e.db, now, e.next)
  }

  /** The request after the events numbered `a` to `b`. */
  ghost function SoloRun(cfg: Config, s: Solo, env: nat -> Event, a: nat, b: nat): Solo
    decreases b
  {
    if b <= a then s else SoloStep(cfg, SoloRun(cfg, s, env, a, b - 1), env(b - 1))
  }

  // --- A request that runs alone is one of the interleavings ------------------------------------------

  /** The schedule of the whole system that runs only request `r` through these events. */
  function ScheduleOf(r: nat, env: nat -> Event, a: nat, b: nat): seq<Step>
    decreases b
  {
    if b <= a then []
    else ScheduleOf(r, env, a, b - 1) + [Tick(env(b - 1).wait), Run(r, env(b - 1).c)]
  }

  /** The system agrees with the lone request. */
  ghost predicate Matches(s: State, q: Solo, r: nat) {
    s.db == q.db && s.now == q.now
    && (match q.at case Some(p) => r in s.requests && s.requests[r] == p case None => r !in s.requests)
  }

  lemma ExecSnoc(cfg: Config, steps: seq<Step>, step: Step)
    ensures Exec(cfg, steps + [step]) == Apply(cfg, Exec(cfg, steps), step)
  {
    assert (steps + [step])[..|steps|] == steps;
  }

  lemma ExecTwo(cfg: Config, steps: seq<Step>, x: Step, y: Step)
    ensures Exec(cfg, steps + [x, y]) == Apply(cfg, Apply(cfg, Exec(cfg, steps), x), y)
  {
    assert steps + [x, y] == (steps + [x]) + [y];
    ExecSnoc(cfg, steps, x);
    ExecSnoc(cfg, steps + [x], y);
  }

  lemma RunIs(cfg: Config, s: State, r: nat, p: Point, c: Choice, e: Effect)
    requires r in s.requests && s.requests[r] == p && e == StepPoint(cfg, s.db, s.now, p, c)
    ensures var s' := Apply(cfg, s, Run(r, c));
            && s'.db == e.db && s'.now == s.now
            && s'.requests == match e.next { case Some(q) => s.requests[r := q] case None => s.requests - {r} }
  {
  }

  lemma ResumedMatches(s: State, s': State, r: nat, e: Effect)
    requires s'.db == e.db && s'.now == s.now
    requires s'.requests == match e.next { case Some(q) => s.requests[r := q] case None => s.requests - {r} }
    ensures Matches(s', Solo(e.db, s.now, e.next), r)
  {
  }

  lemma TickThenRun(cfg: Config, s: State, r: nat, p: Point, x: Event, e: Effect)
    requires r in s.requests && s.requests[r] == p && e == StepPoint(cfg, s.db, s.now + x.wait, p, x.c)
    ensures Matches(Apply(cfg, Apply(cfg, s, Tick(x.wait)), Run(r, x.c)), Solo(e.db, s.now + x.wait, e.next), r)
  {
    var s1 := Apply(cfg, s, Tick(x.wait));
    assert s1 == s.(now := s.now + x.wait);
    RunIs(cfg, s1, r, p, x.c, e);
    ResumedMatches(s1, Apply(cfg, s1, Run(r, x.c)), r, e);
  }

  lemma MatchStep(cfg: Config, s: State, q: Solo, r: nat, x: Event)
    requires Matches(s, q, r)
    ensures Matches(Apply(cfg, Apply(cfg, s, Tick(x.wait)), Run(r, x.c)), SoloStep(cfg, q, x), r)
  {
    match q.at
    case None =>
      assert Apply(cfg, Apply(cfg, s, Tick(x.wait)), Run(r, x.c)) == s.(now := s.now + x.wait);
    case Some(p) =>
      var e := StepPoint(cfg, s.db, s.now + x.wait, p, x.c);
      TickThenRun(cfg, s, r, p, x, e);
      assert SoloStep(cfg, q, x) == Solo(e.db, s.now + x.wait, e.next);
  }

  /** The system and the lone request agree after the same events. */
  lemma MatchNext(cfg: Config, steps: seq<Step>, start: Solo, r: nat, env: nat -> Event, a: nat, b: nat)
    requires a < b && Matches(Exec(cfg, steps), SoloRun(cfg, start, env, a, b - 1), r)
    ensures Matches(Exec(cfg, steps + [Tick(env(b - 1).wait), Run(r, env(b - 1).c)]), SoloRun(cfg, start, env, a, b), r)
  {
    var x := env(b - 1);
    MatchStep(cfg, Exec(cfg, steps), SoloRun(cfg, start, env, a, b - 1), r, x);
    ExecTwo(cfg, steps, Tick(x.wait), Run(r, x.c));
  }

  lemma MatchBegin(cfg: Config, steps: seq<Step>, r: nat, p: Point)
    requires Initial(p) && r !in Exec(cfg, steps).requests
    ensures var s0 := Exec(cfg, steps); Matches(Exec(cfg, steps + [Begin(r, p)]), Solo(s0.db, s0.now, Some(p)), r)
  {
    ExecSnoc(cfg, steps, Begin(r, p));
  }

  /** Every lone run from a reachable store is a schedule, so all that holds of schedules holds of it. */
  lemma {:induction false} SoloIsSchedule(cfg: Config, steps: seq<Step>, r: nat, p: Point, env: nat -> Event, a: nat,
                                          b: nat)
    requires Initial(p) && r !in Exec(cfg, steps).requests
    ensures var s0 := Exec(cfg, steps);
            Matches(Exec(cfg, steps + [Begin(r, p)] + ScheduleOf(r, env, a, b)),
                    SoloRun(cfg, Solo(s0.db, s0.now, Some(p)), env, a, b), r)
    decreases b
  {
    hide Matches, Exec, SoloStep;
    var s0 := Exec(cfg, steps);
    var start := steps + [Begin(r, p)];
    if b <= a {
      assert start + [] == start;
      MatchBegin(cfg, steps, r, p);
    } else {
      SoloIsSchedule(cfg, steps, r, p, env, a, b - 1);
      var before := start + ScheduleOf(r, env, a, b - 1);
      assert start + ScheduleOf(r, env, a, b) == before + [Tick(env(b - 1).wait), Run(r, env(b - 1).c)];
      MatchNext(cfg, before, Solo(s0.db, s0.now, Some(p)), r, env, a, b);
    }
  }

  /** Some schedule, with any failures and crashes, leads to these tables at this time. */
  ghost predicate Reachable(cfg: Config, db: Db, now: Time) {
    exists steps :: Exec(cfg, steps).db == db && Exec(cfg, steps).now == now
  }

  lemma ReachableOk(cfg: Config, db: Db, now: Time)
    requires Reachable(cfg, db, now)
    ensures DbOk(cfg, db, now)
  {
    hide DbOk;
    var steps :| Exec(cfg, steps).db == db && Exec(cfg, steps).now == now;
    InvariantAlways(cfg, steps);
  }

  lemma EmptyIsReachable(cfg: Config)
    ensures Reachable(cfg, EMPTY_DB, 0)
  {
    assert Exec(cfg, []).db == EMPTY_DB && Exec(cfg, []).now == 0;
  }

  lemma ReachableLater(cfg: Config, db: Db, now: Time, later: Time)
    requires Reachable(cfg, db, now) && now <= later
    ensures Reachable(cfg, db, later)
  {
    var steps :| Exec(cfg, steps).db == db && Exec(cfg, steps).now == now;
    ExecSnoc(cfg, steps, Tick(later - now));
    assert Exec(cfg, steps + [Tick(later - now)]).now == later;
  }

  /** A number above all of these. */
  lemma {:induction false} Above(ids: set<nat>) returns (m: nat)
    ensures forall i :: i in ids ==> i < m
    decreases ids
  {
    if ids == {} {
      m := 0;
    } else {
      var x :| x in ids;
      var k := Above(ids - {x});
      m := if x < k then k else x + 1;
      assert forall i :: i in ids ==> i == x || i in ids - {x};
    }
  }

  /** A request that runs alone, completely or not, leads from reachable tables to reachable ones. */
  lemma SoloStaysReachable(cfg: Config, db: Db, now: Time, p: Point, env: nat -> Event, a: nat, b: nat)
    requires Reachable(cfg, db, now) && Initial(p)
    ensures var s := SoloRun(cfg, Solo(db, now, Some(p)), env, a, b); Reachable(cfg, s.db, s.now)
  {
    hide Exec, SoloRun, Initial;
    var steps :| Exec(cfg, steps).db == db && Exec(cfg, steps).now == now;
    var r := Above(Exec(cfg, steps).requests.Keys);
    assert r !in Exec(cfg, steps).requests;
    SoloIsSchedule(cfg, steps, r, p, env, a, b);
    var all := steps + [Begin(r, p)] + ScheduleOf(r, env, a, b);
    var s := SoloRun(cfg, Solo(db, now, Some(p)), env, a, b);
    assert Exec(cfg, all).db == s.db && Exec(cfg, all).now == s.now;
  }

  // --- One token per target ---------------------------------------------------------------------------

  predicate SameToken(a: Authorization, b: Authorization) {
    a.targetId == b.targetId && a.token != "" && b.token != "" ==> a.token == b.token
  }

  /** All rows of a target that carry a token carry the same one. */
  ghost predicate OneToken(db: Db) {
    forall i, j :: i in db.auths && j in db.auths ==> SameToken(db.auths[i], db.auths[j])
  }

  /** Only administrators' rows come without a token. */
  ghost predicate TokensPresent(db: Db) {
    forall i :: i in db.auths && db.auths[i].token == "" ==>
      db.auths[i].means == ProgramMethod || db.auths[i].means == ManualMethod
  }

  ghost predicate Tokens(db: Db) {
    OneToken(db) && TokensPresent(db)
  }

  /** No row of the target carries a token. */
  ghost predicate NoTokenYet(db: Db, id: nat) {
    forall i :: i in db.auths && db.auths[i].targetId == id ==> db.auths[i].token == ""
  }

  /** The row the request holds is a row of the table. */
  ghost predicate HeldRow(db: Db, t: Target, a: Authorization) {
    t.id in db.targets ==> a.id in db.auths && db.auths[a.id].targetId == t.id && db.auths[a.id].token == a.token
  }

  /** What a lone request knows about tokens at its point. */
  ghost predicate TokenView(db: Db, p: Point) {
    match p
    case CreateIssue(t) => NoTokenYet(db, t.id)
    case GetIssue(t) => NoTokenYet(db, t.id)
    case VerifyIssue(t, _) => NoTokenYet(db, t.id)
    case VerifySwitch(t, a, _) => HeldRow(db, t, a) && a.token != ""
    case VerifyBegin(t, a) => HeldRow(db, t, a)
    case VerifyCheck(t, a) => HeldRow(db, t, a)
    case _ => true
  }

  /** The step is a lookup of the newest row that fails. */
  predicate LookupFails(at: Option<Point>, x: Event) {
    at.Some? && (at.value.GetAuth? || at.value.VerifyAuth?) && !x.c.outcome.Done?
  }

  ghost predicate TokenState(s: Solo) {
    PlaceTokens(s.db, s.at)
  }

  ghost predicate SoloOk(cfg: Config, s: Solo) {
    PlaceOk(cfg, s.db, s.now, s.at)
  }

  /** The tokens after a step are in order. */
  ghost predicate TokenEffect(e: Effect) {
    Tokens(e.db) && (e.next.Some? ==> TokenView(e.db, e.next.value))
  }

  /** The token of a new row is absent, or the one the target's rows already carry. */
  ghost predicate TokenFits(db: Db, d: Draft) {
    && (d.token == "" ==> d.means == ProgramMethod || d.means == ManualMethod)
    && (d.token != "" ==>
          (forall i :: i in db.auths && db.auths[i].targetId == d.targetId && db.auths[i].token != "" ==>
             db.auths[i].token == d.token))
  }

  lemma InsertTokens(db: Db, d: Draft, now: Time)
    requires Keyed(db) && Tokens(db) && TokenFits(db, d)
    ensures Tokens(InsertAuth(db, d, now).0)
  {
  }

  lemma KeptTokens(db: Db, db': Db)
    requires Keyed(db) && Tokens(db) && Evolves(db, db') && db'.nextAuth == db.nextAuth && Keyed(db')
    ensures Tokens(db')
  {
    forall i | i in db'.auths
      ensures i in db.auths && LaterRow(db.auths[i], db'.auths[i])
    {
    }
  }

  lemma CreateTokens(cfg: Config, db: Db, now: Time, p: Point, c: Choice)
    requires Keyed(db) && Tokens(db) && TokenView(db, p) && CreatePoint(p) && c.token != ""
    ensures TokenEffect(StepCreate(cfg, db, now, p, c))
  {
    if p.CreateIssue? {
      InsertTokens(db, ChallengeDraft(p.t, DefaultMethod(p.t.kind), c.token), now);
    } else {
      NewTargetTokens(cfg, db, p);
    }
  }

  lemma NewTargetTokens(cfg: Config, db: Db, p: Point)
    requires Keyed(db) && Tokens(db) && p.CreateInsert?
    ensures var (db', t) := InsertTarget(cfg.etld, db, p.userId, p.kind, p.raw, Unverified, CustomerSource);
            Tokens(db') && (t.Some? ==> NoTokenYet(db', t.value.id))
  {
    InsertTargetChanges(cfg, db, p.userId, p.kind, p.raw, Unverified, CustomerSource);
  }

  lemma GetTokens(db: Db, now: Time, p: Point, c: Choice)
    requires Keyed(db) && Tokens(db) && TokenView(db, p) && GetPoint(p) && c.token != ""
    requires p.GetAuth? ==> c.outcome.Done?
    ensures TokenEffect(StepGet(db, now, p, c))
  {
    if p.GetIssue? {
      InsertTokens(db, ChallengeDraft(p.t, DefaultMethod(p.t.kind), c.token), now);
    }
  }

  lemma VerifyReadTokens(db: Db, now: Time, p: Point, c: Choice)
    requires Keyed(db) && Tokens(db) && TokenView(db, p) && VerifyReading(p)
    requires p.VerifyAuth? ==> c.outcome.Done?
    ensures TokenEffect(StepVerifyRead(db, now, p, c))
  {
  }

  lemma VerifyInsertTokens(db: Db, now: Time, p: Point, c: Choice)
    requires Keyed(db) && Tokens(db) && PointOk(db, now, p) && TokenView(db, p) && VerifyInserting(p) && c.token != ""
    ensures TokenEffect(StepVerifyInsert(db, now, p, c))
  {
    var d := ChallengeDraft(p.t, p.how, if p.VerifyIssue? then c.token else p.auth.token);
    if p.t.id in db.targets {
      assert TokenFits(db, d);
      InsertTokens(db, d, now);
      InsertedHeld(db, d, now, p.t);
    }
  }

  lemma InsertedHeld(db: Db, d: Draft, now: Time, t: Target)
    requires d.targetId == t.id && t.id in db.targets
    ensures var (db', a) := InsertAuth(db, d, now); a.Some? && HeldRow(db', t, a.value)
  {
  }

  lemma VerifyStatusTokens(db: Db, p: Point, c: Choice)
    requires Tokens(db) && TokenView(db, p) && VerifyWriting(p)
    ensures TokenEffect(StepVerifyStatus(db, p, c))
  {
  }

  lemma MarkTokens(db: Db, now: Time, p: Point, c: Choice)
    requires Keyed(db) && Tokens(db) && p.VerifyMark?
    ensures TokenEffect(StepVerifyMark(db, now, p, c))
  {
    MarkVerifiedEvolves(db, p.auth.id, p.expires, None, now);
    KeptTokens(db, MarkVerified(db, p.auth.id, p.expires, None, now));
  }

  /** What a write without a next challenge leaves is in order when both tables are. */
  lemma WriteTokens(db: Db, db': Db, o: Outcome, next: Option<Point>)
    requires Tokens(db) && Tokens(db')
    requires next.Some? ==>
        next.value.VerifyDone? || next.value.ManualDone? || next.value.RevokeDone? || next.value.ProgramStamp?
    ensures TokenEffect(Write(db, db', o, next))
  {
  }

  lemma NewProgramTokens(cfg: Config, db: Db, p: Point)
    requires Keyed(db) && Tokens(db) && p.ProgramInsert?
    ensures Tokens(InsertTarget(cfg.etld, db, p.owner, p.kind, p.raw, Verified, ProgramSource).0)
  {
    InsertTargetChanges(cfg, db, p.owner, p.kind, p.raw, Verified, ProgramSource);
  }

  lemma AdminRowTokens(db: Db, t: Target, m: Method, stamp: Time, expires: Time, evidence: Evidence, now: Time)
    requires Keyed(db) && Tokens(db) && (m == ProgramMethod || m == ManualMethod)
    ensures Tokens(InsertAuth(db, AdminDraft(t, m, stamp, expires, evidence), now).0)
  {
    InsertTokens(db, AdminDraft(t, m, stamp, expires, evidence), now);
  }

  lemma DeleteTokens(db: Db, id: nat)
    requires Keyed(db) && Tokens(db)
    ensures Tokens(DeleteTarget(db, id))
  {
    DeleteTargetEvolves(db, id);
    KeptTokens(db, DeleteTarget(db, id));
  }

  lemma ProgramTokens(cfg: Config, db: Db, now: Time, p: Point, c: Choice)
    requires Keyed(db) && Tokens(db) && ProgramPoint(p)
    ensures TokenEffect(StepProgram(cfg, db, now, p, c))
  {
    if p.ProgramInsert? {
      NewProgramTokens(cfg, db, p);
    } else if p.ProgramAuth? {
      AdminRowTokens(db, p.t, ProgramMethod, p.stamp, p.expires, p.evidence, now);
    } else if p.ProgramUndo? {
      DeleteTokens(db, p.t.id);
      WriteTokens(db, DeleteTarget(db, p.t.id), c.outcome, None);
    }
  }

  lemma ManualReadTokens(cfg: Config, db: Db, now: Time, p: Point, c: Choice)
    requires Tokens(db) && ManualReading(p)
    ensures TokenEffect(StepManualRead(cfg, db, now, p, c))
  {
  }

  lemma ManualWriteTokens(db: Db, now: Time, p: Point, c: Choice)
    requires Keyed(db) && Tokens(db) && ManualWriting(p)
    ensures TokenEffect(StepManualWrite(db, now, p, c))
  {
    if p.ManualMark? {
      var db' := MarkVerified(db, p.auth.id, p.expires, p.evidence, now);
      MarkVerifiedEvolves(db, p.auth.id, p.expires, p.evidence, now);
      KeptTokens(db, db');
      WriteTokens(db, db', c.outcome, Some(ManualDone(p.t)));
    } else if p.ManualCreate? {
      AdminRowTokens(db, p.t, ManualMethod, p.stamp, p.expires, p.evidence, now);
    } else {
      WriteTokens(db, SetStatus(db, p.t.id, Verified), c.outcome, None);
    }
  }

  lemma RemoveTokens(db: Db, now: Time, p: Point, c: Choice)
    requires Keyed(db) && Tokens(db) && RemovePoint(p)
    ensures TokenEffect(StepRemove(db, now, p, c))
  {
    if p.RevokeExpire? {
      ExpireActiveEvolves(db, p.t.id, now);
      KeptTokens(db, ExpireActive(db, p.t.id, now));
      WriteTokens(db, ExpireActive(db, p.t.id, now), c.outcome, Some(RevokeDone(p.t)));
    } else if p.RevokeDone? {
      WriteTokens(db, SetStatus(db, p.t.id, Revoked), c.outcome, None);
    } else if p.DeleteOwn? || p.DeleteRow? {
      DeleteTokens(db, p.uid);
      WriteTokens(db, DeleteTarget(db, p.uid), c.outcome, None);
      WriteTokens(db, db, c.outcome, None);
    }
  }

  lemma StepTokens(cfg: Config, db: Db, now: Time, p: Point, c: Choice)
    requires Keyed(db) && Tokens(db) && PointOk(db, now, p) && TokenView(db, p) && c.token != ""
    requires p.GetAuth? || p.VerifyAuth? ==> c.outcome.Done?
    ensures TokenEffect(StepPoint(cfg, db, now, p, c))
  {
    if CreatePoint(p) { CreateTokens(cfg, db, now, p, c); }
    else if GetPoint(p) { GetTokens(db, now, p, c); }
    else if VerifyReading(p) { VerifyReadTokens(db, now, p, c); }
    else if VerifyInserting(p) { VerifyInsertTokens(db, now, p, c); }
    else if VerifyWriting(p) { VerifyStatusTokens(db, p, c); }
    else if p.VerifyMark? { MarkTokens(db, now, p, c); }
    else if ProgramPoint(p) { ProgramTokens(cfg, db, now, p, c); }
    else if ManualReading(p) { ManualReadTokens(cfg, db, now, p, c); }
    else if ManualWriting(p) { ManualWriteTokens(db, now, p, c); }
    else { RemoveTokens(db, now, p, c); }
  }

  /** Time passing disturbs nothing. */
  lemma LaterOk(cfg: Config, db: Db, now: Time, now': Time)
    requires DbOk(cfg, db, now) && now <= now'
    ensures DbOk(cfg, db, now')
  {
    forall i | i in db.auths
      ensures RowOk(db.targets[db.auths[i].targetId], db.auths[i], now')
    {
      assert RowOk(db.targets[db.auths[i].targetId], db.auths[i], now);
    }
  }

  lemma LaterPoint(db: Db, now: Time, now': Time, p: Point)
    requires Keyed(db) && now <= now' && PointOk(db, now, p)
    ensures PointOk(db, now', p)
  {
    EvolvesReflexive(db);
    PointStable(db, db, now, now', p);
  }

  ghost predicate PlaceOk(cfg: Config, db: Db, now: Time, at: Option<Point>) {
    DbOk(cfg, db, now) && (at.Some? ==> PointOk(db, now, at.value))
  }

  lemma PlaceLater(cfg: Config, db: Db, now: Time, now': Time, at: Option<Point>)
    requires PlaceOk(cfg, db, now, at) && now <= now'
    ensures PlaceOk(cfg, db, now', at)
  {
    LaterOk(cfg, db, now, now');
    if at.Some? { LaterPoint(db, now, now', at.value); }
  }

  lemma PlaceStep(cfg: Config, db: Db, now: Time, p: Point, c: Choice)
    requires PlaceOk(cfg, db, now, Some(p))
    ensures var e := StepPoint(cfg, db, now, p, c); PlaceOk(cfg, e.db, now, e.next)
  {
    StepPointKeeps(cfg, db, now, p, c);
  }

  lemma PlaceSolo(cfg: Config, db: Db, now: Time, at: Option<Point>)
    requires PlaceOk(cfg, db, now, at)
    ensures SoloOk(cfg, Solo(db, now, at))
  {
  }

  lemma StepStaysOk(cfg: Config, s: Solo, x: Event)
    requires SoloOk(cfg, s)
    ensures SoloOk(cfg, SoloStep(cfg, s, x))
  {
    hide StepPoint;
    var now := s.now + x.wait;
    PlaceLater(cfg, s.db, s.now, now, s.at);
    match s.at
    case None =>
    case Some(p) =>
      PlaceStep(cfg, s.db, now, p, x.c);
      var e := StepPoint(cfg, s.db, now, p, x.c);
      assert SoloStep(cfg, s, x) == Solo(e.db, now, e.next);
      PlaceSolo(cfg, e.db, now, e.next);
  }

  /** Tokens in order at a place. */
  ghost predicate PlaceTokens(db: Db, at: Option<Point>) {
    Tokens(db) && (at.Some? ==> TokenView(db, at.value))
  }

  lemma PlaceTokenStep(cfg: Config, db: Db, now: Time, p: Point, c: Choice)
    requires PlaceOk(cfg, db, now, Some(p)) && PlaceTokens(db, Some(p)) && c.token != ""
    requires p.GetAuth? || p.VerifyAuth? ==> c.outcome.Done?
    ensures var e := StepPoint(cfg, db, now, p, c); PlaceTokens(e.db, e.next)
  {
    StepTokens(cfg, db, now, p, c);
  }

  lemma PlaceTokenState(db: Db, now: Time, at: Option<Point>)
    requires PlaceTokens(db, at)
    ensures TokenState(Solo(db, now, at))
  {
  }

  lemma RunningKeepsTokens(cfg: Config, s: Solo, p: Point, x: Event)
    requires s.at == Some(p) && PlaceOk(cfg, s.db, s.now, Some(p)) && PlaceTokens(s.db, Some(p)) && x.c.token != ""
    requires p.GetAuth? || p.VerifyAuth? ==> x.c.outcome.Done?
    ensures var e := StepPoint(cfg, s.db, s.now + x.wait, p, x.c); PlaceTokens(e.db, e.next)
  {
    hide StepPoint, PlaceTokens, PlaceOk;
    PlaceLater(cfg, s.db, s.now, s.now + x.wait, Some(p));
    PlaceTokenStep(cfg, s.db, s.now + x.wait, p, x.c);
  }

  lemma StepKeepsTokens(cfg: Config, s: Solo, x: Event)
    requires SoloOk(cfg, s) && TokenState(s) && !LookupFails(s.at, x) && x.c.token != ""
    ensures TokenState(SoloStep(cfg, s, x))
  {
    hide StepPoint;
    var now := s.now + x.wait;
    match s.at
    case None =>
      PlaceTokenState(s.db, now, None);
    case Some(p) =>
      RunningKeepsTokens(cfg, s, p, x);
      var e := StepPoint(cfg, s.db, now, p, x.c);
      assert SoloStep(cfg, s, x) == Solo(e.db, now, e.next);
      PlaceTokenState(e.db, now, e.next);
  }

  /** A call of an operation and the number of its steps that are executed. */
  datatype Call = Call(p: Point, steps: nat)

  /** Tables, clock and next event after a session of calls made one after the other. */
  ghost function Session(cfg: Config, calls: seq<Call>, env: nat -> Event): (Db, Time, nat) {
    if calls == [] then (EMPTY_DB, 0, 0)
    else
      var (db, now, pos) := Session(cfg, calls[..|calls| - 1], env);
      var last := calls[|calls| - 1];
      var end := SoloRun(cfg, Solo(db, now, Some(last.p)), env, pos, pos + last.steps);
      (end.db, end.now, pos + last.steps)
  }

  /** Sequential use is one of the schedules too. */
  lemma {:induction false} SessionIsSchedule(cfg: Config, calls: seq<Call>, env: nat -> Event)
    requires forall k :: 0 <= k < |calls| ==> Initial(calls[k].p)
    ensures var (db, now, pos) := Session(cfg, calls, env); Reachable(cfg, db, now)
  {
    hide Reachable, SoloRun;
    if calls == [] {
      EmptyIsReachable(cfg);
    } else {
      var front, last := calls[..|calls| - 1], calls[|calls| - 1];
      SessionIsSchedule(cfg, front, env);
      var (db, now, pos) := Session(cfg, front, env);
      SoloStaysReachable(cfg, db, now, last.p, env, pos, pos + last.steps);
    }
  }

  /** No lookup of the newest row fails in this run. */
  ghost predicate LookupsSucceed(cfg: Config, s: Solo, env: nat -> Event, a: nat, b: nat)
    decreases b
  {
    b <= a || (LookupsSucceed(cfg, s, env, a, b - 1) && !LookupFails(SoloRun(cfg, s, env, a, b - 1).at, env(b - 1)))
  }

  ghost predicate SessionLookupsSucceed(cfg: Config, calls: seq<Call>, env: nat -> Event) {
    calls != [] ==>
      var front := calls[..|calls| - 1];
      var (db, now, pos) := Session(cfg, front, env);
      var last := calls[|calls| - 1];
      && SessionLookupsSucceed(cfg, front, env)
      && LookupsSucceed(cfg, Solo(db, now, Some(last.p)), env, pos, pos + last.steps)
  }

  /** Every issued token is a non-empty text. */
  ghost predicate RealTokens(env: nat -> Event) {
    forall k :: env(k).c.token != ""
  }

  lemma {:induction false} RunTokens(cfg: Config, s: Solo, env: nat -> Event, a: nat, b: nat)
    requires SoloOk(cfg, s) && TokenState(s) && LookupsSucceed(cfg, s, env, a, b) && RealTokens(env)
    ensures var s' := SoloRun(cfg, s, env, a, b); SoloOk(cfg, s') && TokenState(s')
    decreases b
  {
    if b > a {
      var m := SoloRun(cfg, s, env, a, b - 1);
      RunTokens(cfg, s, env, a, b - 1);
      StepStaysOk(cfg, m, env(b - 1));
      StepKeepsTokens(cfg, m, env(b - 1));
    }
  }

  ghost predicate Wellformed(calls: seq<Call>) {
    forall k :: 0 <= k < |calls| ==> Initial(calls[k].p)
  }

  lemma StartOfCall(cfg: Config, db: Db, now: Time, p: Point)
    requires DbOk(cfg, db, now) && Tokens(db) && Initial(p)
    ensures SoloOk(cfg, Solo(db, now, Some(p))) && TokenState(Solo(db, now, Some(p)))
  {
    InitialOk(db, now, p);
  }

  lemma {:induction false} SessionTokens(cfg: Config, calls: seq<Call>, env: nat -> Event)
    requires Wellformed(calls) && SessionLookupsSucceed(cfg, calls, env) && RealTokens(env)
    ensures var (db, now, pos) := Session(cfg, calls, env); DbOk(cfg, db, now) && Tokens(db)
  {
    if calls != [] {
      var front, last := calls[..|calls| - 1], calls[|calls| - 1];
      SessionTokens(cfg, front, env);
      var (db, now, pos) := Session(cfg, front, env);
      StartOfCall(cfg, db, now, last.p);
      RunTokens(cfg, Solo(db, now, Some(last.p)), env, pos, pos + last.steps);
    }
  }

  /**
   * In sequential use whose lookups do not fail, all rows of a target that carry a token carry the
   * same one, through re-reads, method switches, confirmations, revocations and re-verification.
   */
  lemma OneTokenPerTarget(cfg: Config, calls: seq<Call>, env: nat -> Event)
    requires Wellformed(calls) && SessionLookupsSucceed(cfg, calls, env) && RealTokens(env)
    ensures OneToken(Session(cfg, calls, env).0)
  {
    SessionTokens(cfg, calls, env);
  }

  /** The check is made with the token that all of the target's rows carry. */
  ghost predicate ChecksTheToken(db: Db, t: Target, a: Authorization) {
    && a.token != ""
    && forall i :: i in db.auths && db.auths[i].targetId == t.id && db.auths[i].token != "" ==>
        db.auths[i].token == a.token
  }

  lemma HeldTokenIsTheToken(db: Db, now: Time, p: Point)
    requires Tokens(db) && PointOk(db, now, p) && TokenView(db, p) && p.VerifyCheck?
    requires p.t.id in db.targets && IsChallenge(p.auth.means)
    ensures ChecksTheToken(db, p.t, p.auth)
  {
    assert LaterRow(p.auth, db.auths[p.auth.id]);
  }

  /** And every challenge check made in such a session runs with that token. */
  lemma CheckUsesTheToken(cfg: Config, calls: seq<Call>, env: nat -> Event, p: Point, b: nat)
    requires Wellformed(calls) && SessionLookupsSucceed(cfg, calls, env) && Initial(p) && RealTokens(env)
    requires var (db, now, pos) := Session(cfg, calls, env);
             LookupsSucceed(cfg, Solo(db, now, Some(p)), env, pos, b)
    ensures var (db, now, pos) := Session(cfg, calls, env);
            var s := SoloRun(cfg, Solo(db, now, Some(p)), env, pos, b);
            s.at.Some? && s.at.value.VerifyCheck? && s.at.value.t.id in s.db.targets
                && IsChallenge(s.at.value.auth.means)
            ==> ChecksTheToken(s.db, s.at.value.t, s.at.value.auth)
  {
    SessionTokens(cfg, calls, env);
    var (db, now, pos) := Session(cfg, calls, env);
    StartOfCall(cfg, db, now, p);
    RunTokens(cfg, Solo(db, now, Some(p)), env, pos, b);
    var s := SoloRun(cfg, Solo(db, now, Some(p)), env, pos, b);
    if s.at.Some? && s.at.value.VerifyCheck? && s.at.value.t.id in s.db.targets && IsChallenge(s.at.value.auth.means) {
      HeldTokenIsTheToken(s.db, s.now, s.at.value);
    }
  }

  /** A failed lookup breaks it: re-reading an unverified target then issues a second token. */
  lemma FailedLookupSplitsToken(cfg: Config, db: Db, now: Time, t: Target, i: nat, x: Event, y: Event)
    requires Keyed(db) && t.id in db.targets && db.targets[t.id] == t
    requires t.status != Verified && t.source == CustomerSource
    requires i in db.auths && db.auths[i].targetId == t.id && db.auths[i].token != ""
    requires !x.c.outcome.Done? && y.c.outcome.Done? && y.c.token != "" && y.c.token != db.auths[i].token
    ensures !OneToken(SoloStep(cfg, SoloStep(cfg, Solo(db, now, Some(GetAuth(t))), x), y).db)
  {
    var s1 := SoloStep(cfg, Solo(db, now, Some(GetAuth(t))), x);
    assert s1.at == Some(GetIssue(t)) && s1.db == db;
    var s2 := SoloStep(cfg, s1, y);
    var k := db.nextAuth;
    assert k in s2.db.auths && s2.db.auths[k].token == y.c.token && s2.db.auths[k].targetId == t.id;
    assert i in s2.db.auths && s2.db.auths[i] == db.auths[i];
  }
}
