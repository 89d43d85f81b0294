/** Concrete schedules: an authorization is reachable, and so is a verified target without its row. */
module Witness {
  import opened Model
  import opened HostScope
  import opened Store
  import opened Lifecycle
  import opened Invariants
  import Gate
  import Runs
  import Sequential
  import Text

  const FINE := Choice(Done, "", {})
  const BROKEN := Choice(Failed, "", {})

  function Draw(token: string): Choice { Choice(Done, token, {}) }

  /** The target that a first program request creates. */
  function FirstTarget(cfg: Config, raw: string): Target {
    var (value, domain) := NormalizeTargetValue(cfg.etld, DomainKind, raw);
    Target(0, 7, DomainKind, value, domain, Verified, ProgramSource)
  }

  function FirstRow(cfg: Config, raw: string, evidence: Evidence): Authorization {
    var t := FirstTarget(cfg, raw);
    Authorization(0, 0, ProgramMethod, "", ScopeForTarget(t).0, ScopeForTarget(t).1, Some(0), Some(90 * DAY),
                  evidence, 0)
  }

  /** The request has inserted its target and read the clock. */
  function Halfway(raw: string, evidence: Evidence): seq<Step> {
    [Begin(0, ProgramInsert(7, DomainKind, raw, 0, evidence)), Run(0, FINE), Run(0, FINE)]
  }

  lemma HalfwayState(cfg: Config, raw: string, evidence: Evidence)
    ensures var t := FirstTarget(cfg, raw);
            Exec(cfg, Halfway(raw, evidence)) ==
            State(Db(map[0 := t], map[], 1, 0), 0, map[0 := ProgramAuth(t, 0, 90 * DAY, evidence)], {})
  {
    hide NormalizeTargetValue, ScopeForTarget;
    var b, r := Begin(0, ProgramInsert(7, DomainKind, raw, 0, evidence)), Run(0, FINE);
    var t := FirstTarget(cfg, raw);
    assert Halfway(raw, evidence) == [b] + [r, r] && [] + [b] == [b];
    Sequential.ExecSnoc(cfg, [], b);
    Sequential.ExecTwo(cfg, [b], r, r);
    var s1 := State(EMPTY_DB, 0, map[0 := b.p], {});
    assert Exec(cfg, [b]) == s1;
    Inserted(cfg, s1, raw, evidence);
    var s2 := State(Db(map[0 := t], map[], 1, 0), 0, map[0 := ProgramStamp(t, 90, evidence)], {});
    assert Apply(cfg, s1, r) == s2;
    Stamped(cfg, s2, t, evidence);
  }

  lemma Inserted(cfg: Config, s: State, raw: string, evidence: Evidence)
    requires s == State(EMPTY_DB, 0, map[0 := ProgramInsert(7, DomainKind, raw, 0, evidence)], {})
    ensures var t := FirstTarget(cfg, raw);
            Apply(cfg, s, Run(0, FINE))
                == State(Db(map[0 := t], map[], 1, 0), 0, map[0 := ProgramStamp(t, 90, evidence)], {})
  {
    hide NormalizeTargetValue;
    var p := ProgramInsert(7, DomainKind, raw, 0, evidence);
    var t := FirstTarget(cfg, raw);
    assert InsertTarget(cfg.etld, EMPTY_DB, 7, DomainKind, raw, Verified, ProgramSource)
        == (Db(map[0 := t], map[], 1, 0), Some(t));
    assert StepPoint(cfg, s.db, 0, p, FINE)
        == Effect(Db(map[0 := t], map[], 1, 0), Some(ProgramStamp(t, 90, evidence)));
  }

  lemma Stamped(cfg: Config, s: State, t: Target, evidence: Evidence)
    requires s.requests == map[0 := ProgramStamp(t, 90, evidence)] && s.now == 0
    ensures Apply(cfg, s, Run(0, FINE)) == s.(requests := map[0 := ProgramAuth(t, 0, 90 * DAY, evidence)])
  {
    assert StepPoint(cfg, s.db, 0, ProgramStamp(t, 90, evidence), FINE)
        == Effect(s.db, Some(ProgramAuth(t, 0, 90 * DAY, evidence)));
  }

  /**
   * When the second insert and its compensation both fail, a verified program target is left without
   * any authorization, and no request is at work on it any more.
   */
  lemma VerifiedWithoutRow(cfg: Config, raw: string, evidence: Evidence)
    ensures var s := Exec(cfg, Halfway(raw, evidence) + [Run(0, BROKEN), Run(0, BROKEN)]);
            && 0 in s.db.targets && s.db.targets[0].status == Verified
            && !HasProof(s.db, 0) && s.requests == map[] && s.stranded == {0}
  {
    hide FirstTarget;
    var t := FirstTarget(cfg, raw);
    TargetZero(cfg, raw);
    HalfwayState(cfg, raw, evidence);
    Sequential.ExecTwo(cfg, Halfway(raw, evidence), Run(0, BROKEN), Run(0, BROKEN));
    var s := Exec(cfg, Halfway(raw, evidence));
    assert StepPoint(cfg, s.db, 0, ProgramAuth(t, 0, 90 * DAY, evidence), BROKEN) == Effect(s.db, Some(ProgramUndo(t)));
    var s1 := s.(requests := map[0 := ProgramUndo(t)]);
    assert Apply(cfg, s, Run(0, BROKEN)) == s1;
    assert StepPoint(cfg, s.db, 0, ProgramUndo(t), BROKEN) == Effect(s.db, None);
  }

  lemma TargetZero(cfg: Config, raw: string)
    ensures var t := FirstTarget(cfg, raw);
            t.id == 0 && t.kind == DomainKind && t.status == Verified && t.source == ProgramSource
  {
  }

  /** The store with only this target and this row of it. */
  function OneRow(t: Target, a: Authorization): State {
    State(Db(map[0 := t], map[0 := a], 1, 1), 0, map[], {})
  }

  lemma AuthorizedState(cfg: Config, raw: string, evidence: Evidence)
    ensures Exec(cfg, Halfway(raw, evidence) + [Run(0, FINE)])
            == OneRow(FirstTarget(cfg, raw), FirstRow(cfg, raw, evidence))
  {
    hide ScopeForTarget, NormalizeTargetValue;
    var t := FirstTarget(cfg, raw);
    HalfwayState(cfg, raw, evidence);
    Sequential.ExecSnoc(cfg, Halfway(raw, evidence), Run(0, FINE));
    var s := Exec(cfg, Halfway(raw, evidence));
    var db' := Db(map[0 := t], map[0 := FirstRow(cfg, raw, evidence)], 1, 1);
    assert InsertAuth(s.db, AdminDraft(t, ProgramMethod, 0, 90 * DAY, evidence), 0)
        == (db', Some(FirstRow(cfg, raw, evidence)));
    assert StepPoint(cfg, s.db, 0, ProgramAuth(t, 0, 90 * DAY, evidence), FINE) == Effect(db', None);
  }

  lemma RowAllows(w: Gate.World, req: Gate.Request, t: Target, a: Authorization)
    requires t.status == Verified && a.scopeKind == RegistrableDomain && a.scopeValue == req.QueryHost() != ""
    requires w.programs.None? && req.QueryIP() == "" && Gate.HostOk(w, req) && !Gate.IsAuthPhase(req.phase)
    ensures Gate.Authorized(w, req, Some(t), Some([a]))
  {
    assert Gate.FirstDecisive(w, req, [a], 0) && Gate.Grants(w, req, [a][0]);
    Gate.DecideMeans(w, req, Some(t), Some([a]));
  }

  /** After a completed creation the gate allows every vetted request for the target's own scope. */
  lemma AllowIsReachable(cfg: Config, raw: string, evidence: Evidence, w: Gate.World, req: Gate.Request)
    requires var t := FirstTarget(cfg, raw);
             ScopeForTarget(t) == (RegistrableDomain, req.QueryHost()) && req.QueryHost() != "" && req.QueryIP() == ""
    requires w.programs.None? && Gate.HostOk(w, req) && !Gate.IsAuthPhase(req.phase)
    ensures Runs.Allows(Exec(cfg, Halfway(raw, evidence) + [Run(0, FINE)]), 0, w, req, Some(FirstTarget(cfg, raw)),
        [FirstRow(cfg, raw, evidence)])
  {
    hide FirstTarget, StepPoint, Exec, ScopeForTarget, Gate.Authorized, Gate.HostOk;
    AuthorizedState(cfg, raw, evidence);
    TargetZero(cfg, raw);
    RowAllows(w, req, FirstTarget(cfg, raw), FirstRow(cfg, raw, evidence));
  }

  // --- A revoked customer target is verified again ------------------------------------------------------

  /** The token is published where this method looks for it. */
  function Published(t: Target, how: Method, token: string): Choice {
    Choice(Done, "", {Publication(NormalizeHost(t.value), how, token)})
  }

  ghost function Continue(cfg: Config, s: State, more: seq<Step>): State
    decreases |more|
  {
    if more == [] then s else Continue(cfg, Apply(cfg, s, more[0]), more[1..])
  }

  lemma {:induction false} ExecContinue(cfg: Config, steps: seq<Step>, more: seq<Step>)
    ensures Exec(cfg, steps + more) == Continue(cfg, Exec(cfg, steps), more)
    decreases |more|
  {
    hide Apply;
    if more == [] {
      assert steps + more == steps;
    } else {
      assert steps + more == (steps + [more[0]]) + more[1..];
      Sequential.ExecSnoc(cfg, steps, more[0]);
      ExecContinue(cfg, steps + [more[0]], more[1..]);
    }
  }

  /** The system with request `r` at a point and these tables. */
  function At(s: State, r: nat, p: Point, db: Db): State {
    s.(db := db, requests := s.requests[r := p])
  }

  lemma Advances(cfg: Config, s: State, r: nat, p: Point, db: Db, c: Choice, e: Effect)
    requires r !in s.requests && e == StepPoint(cfg, db, s.now, p, c) && !p.ProgramInsert? && !p.ProgramUndo?
    ensures Apply(cfg, At(s, r, p, db), Run(r, c)) ==
            match e.next { case Some(q) => At(s, r, q, e.db) case None => s.(db := e.db) }
  {
    hide StepPoint;
    assert At(s, r, p, db).requests[r := p] == s.requests[r := p];
    assert s.requests[r := p] - {r} == s.requests;
  }

  /** The owner asks for a verification, and the proof is published. */
  function VerifySchedule(r: nat, t: Target, how: Method, token: string): seq<Step> {
    [Begin(r, VerifyRead(t.userId, t.id, how))] + seq(7, _ => Run(r, Published(t, how, token)))
  }

  function VerifiedDb(db: Db, id: nat, row: nat, now: Time): Db {
    SetStatus(MarkVerified(SetStatus(db, id, Verifying), row, now + CHALLENGE_TTL, None, now), id, Verified)
  }

  lemma VerifyFirst(cfg: Config, s: State, r: nat, t: Target, a: Authorization)
    requires r !in s.requests && t.id in s.db.targets && s.db.targets[t.id] == t && t.source == CustomerSource
    requires Latest(s.db, t.id) == Some(a) && IsChallenge(a.means)
    ensures var b := Begin(r, VerifyRead(t.userId, t.id, a.means));
            Apply(cfg, Apply(cfg, Apply(cfg, s, b), Run(r, Published(t, a.means, a.token))), Run(r, Published(t,
                a.means, a.token)))
                == At(s, r, VerifyBegin(t, a), s.db)
  {
    hide StepPoint, Latest;
    var p := VerifyRead(t.userId, t.id, a.means);
    assert Apply(cfg, s, Begin(r, p)) == At(s, r, p, s.db);
    ReadsTarget(cfg, s, t, a);
    Advances(cfg, s, r, p, s.db, Published(t, a.means, a.token), Effect(s.db, Some(VerifyAuth(t, a.means))));
    Advances(cfg, s, r, VerifyAuth(t, a.means), s.db, Published(t, a.means, a.token), Effect(s.db,
        Some(VerifyBegin(t, a))));
  }

  lemma ReadsTarget(cfg: Config, s: State, t: Target, a: Authorization)
    requires t.id in s.db.targets && s.db.targets[t.id] == t && t.source == CustomerSource
    requires Latest(s.db, t.id) == Some(a) && IsChallenge(a.means)
    ensures StepPoint(cfg, s.db, s.now, VerifyRead(t.userId, t.id, a.means), Published(t, a.means, a.token))
            == Effect(s.db, Some(VerifyAuth(t, a.means)))
    ensures StepPoint(cfg, s.db, s.now, VerifyAuth(t, a.means), Published(t, a.means, a.token))
        == Effect(s.db, Some(VerifyBegin(t, a)))
  {
    hide Latest;
  }

  lemma ChecksProof(cfg: Config, db: Db, now: Time, t: Target, a: Authorization)
    requires IsChallenge(a.means)
    ensures StepPoint(cfg, db, now, VerifyCheck(t, a), Published(t, a.means, a.token))
        == Effect(db, Some(VerifyStamp(t, a)))
    ensures StepPoint(cfg, db, now, VerifyStamp(t, a), Published(t, a.means, a.token))
        == Effect(db, Some(VerifyMark(t, a, now + CHALLENGE_TTL)))
  {
  }

  lemma WritesProof(cfg: Config, db: Db, now: Time, t: Target, a: Authorization, expires: Time)
    ensures StepPoint(cfg, db, now, VerifyBegin(t, a), Published(t, a.means, a.token))
            == Effect(SetStatus(db, t.id, Verifying), Some(VerifyCheck(t, a)))
    ensures StepPoint(cfg, db, now, VerifyMark(t, a, expires), Published(t, a.means, a.token))
            == Effect(MarkVerified(db, a.id, expires, None, now), Some(VerifyDone(t)))
    ensures StepPoint(cfg, db, now, VerifyDone(t), Published(t, a.means, a.token))
        == Effect(SetStatus(db, t.id, Verified), None)
  {
    hide SetStatus, MarkVerified;
  }

  lemma VerifyRest(cfg: Config, s: State, r: nat, t: Target, a: Authorization)
    requires r !in s.requests && IsChallenge(a.means)
    ensures Continue(cfg, At(s, r, VerifyBegin(t, a), s.db), seq(5, _ => Run(r, Published(t, a.means, a.token))))
            == s.(db := VerifiedDb(s.db, t.id, a.id, s.now))
  {
    hide StepPoint, SetStatus, MarkVerified, Apply, At;
    var run := Run(r, Published(t, a.means, a.token));
    var expires := s.now + CHALLENGE_TTL;
    var db1 := SetStatus(s.db, t.id, Verifying);
    var db2 := MarkVerified(db1, a.id, expires, None, s.now);
    var db3 := SetStatus(db2, t.id, Verified);
    WritesProof(cfg, s.db, s.now, t, a, expires);
    WritesProof(cfg, db1, s.now, t, a, expires);
    WritesProof(cfg, db2, s.now, t, a, expires);
    ChecksProof(cfg, db1, s.now, t, a);
    Advances(cfg, s, r, VerifyBegin(t, a), s.db, Published(t, a.means, a.token), Effect(db1, Some(VerifyCheck(t, a))));
    Advances(cfg, s, r, VerifyCheck(t, a), db1, Published(t, a.means, a.token), Effect(db1, Some(VerifyStamp(t, a))));
    Advances(cfg, s, r, VerifyStamp(t, a), db1, Published(t, a.means, a.token), Effect(db1, Some(VerifyMark(t, a,
        expires))));
    Advances(cfg, s, r, VerifyMark(t, a, expires), db1, Published(t, a.means, a.token), Effect(db2,
        Some(VerifyDone(t))));
    Advances(cfg, s, r, VerifyDone(t), db2, Published(t, a.means, a.token), Effect(db3, None));
    FiveRuns(cfg, At(s, r, VerifyBegin(t, a), s.db), run);
  }

  lemma FiveRuns(cfg: Config, s: State, x: Step)
    ensures Continue(cfg, s, seq(5, _ => x))
            == Apply(cfg, Apply(cfg, Apply(cfg, Apply(cfg, Apply(cfg, s, x), x), x), x), x)
  {
    hide Apply;
    assert seq(5, _ => x)[1..] == [x, x, x, x] && [x, x, x, x][1..] == [x, x, x] && [x, x, x][1..] == [x, x];
    assert [x, x][1..] == [x] && [x][1..] == [];
    var s1 := Apply(cfg, s, x);
    var s2 := Apply(cfg, s1, x);
    assert Continue(cfg, s, seq(5, _ => x)) == Continue(cfg, s1, [x, x, x, x]);
    assert Continue(cfg, s1, [x, x, x, x]) == Continue(cfg, s2, [x, x, x]);
    var s3 := Apply(cfg, s2, x);
    assert Continue(cfg, s2, [x, x, x]) == Continue(cfg, s3, [x, x]);
    assert Continue(cfg, s3, [x, x]) == Continue(cfg, Apply(cfg, s3, x), [x]);
  }

  /**
   * From any state, whatever the target's status: a customer target whose newest row is a challenge
   * becomes verified, and that row active, once its proof is published.
   */
  lemma VerifyRun(cfg: Config, s: State, r: nat, t: Target, a: Authorization)
    requires r !in s.requests && t.id in s.db.targets && s.db.targets[t.id] == t && t.source == CustomerSource
    requires Latest(s.db, t.id) == Some(a) && IsChallenge(a.means)
    ensures Continue(cfg, s, VerifySchedule(r, t, a.means, a.token)) == s.(db := VerifiedDb(s.db, t.id, a.id, s.now))
  {
    hide Apply, At, Latest, VerifiedDb;
    VerifyFirst(cfg, s, r, t, a);
    VerifyRest(cfg, s, r, t, a);
    var x := Run(r, Published(t, a.means, a.token));
    var b := Begin(r, VerifyRead(t.userId, t.id, a.means));
    var steps := VerifySchedule(r, t, a.means, a.token);
    assert steps[0] == b && steps[1..] == seq(7, _ => x);
    assert seq(7, _ => x)[1..] == seq(6, _ => x) && seq(6, _ => x)[1..] == seq(5, _ => x);
    var s1 := Apply(cfg, s, b);
    var s2 := Apply(cfg, s1, x);
    assert Continue(cfg, s, steps) == Continue(cfg, s1, seq(7, _ => x));
    assert Continue(cfg, s1, seq(7, _ => x)) == Continue(cfg, s2, seq(6, _ => x));
    assert Continue(cfg, s2, seq(6, _ => x)) == Continue(cfg, Apply(cfg, s2, x), seq(5, _ => x));
  }

  /** The kill switch. */
  function RevokeSchedule(r: nat, id: nat): seq<Step> {
    [Begin(r, RevokeRead(id)), Run(r, FINE), Run(r, FINE), Run(r, FINE)]
  }

  function RevokedDb(db: Db, id: nat, now: Time): Db {
    SetStatus(ExpireActive(db, id, now), id, Revoked)
  }

  lemma RevokeEffects(cfg: Config, db: Db, now: Time, t: Target)
    requires t.id in db.targets && db.targets[t.id] == t
    ensures StepPoint(cfg, db, now, RevokeRead(t.id), FINE) == Effect(db, Some(RevokeExpire(t)))
    ensures StepPoint(cfg, db, now, RevokeExpire(t), FINE) == Effect(ExpireActive(db, t.id, now), Some(RevokeDone(t)))
  {
    hide ExpireActive;
  }

  lemma RevokeLast(cfg: Config, db: Db, now: Time, t: Target)
    ensures StepPoint(cfg, db, now, RevokeDone(t), FINE) == Effect(SetStatus(db, t.id, Revoked), None)
  {
    hide SetStatus;
  }

  lemma RevokeRun(cfg: Config, s: State, r: nat, t: Target)
    requires r !in s.requests && t.id in s.db.targets && s.db.targets[t.id] == t
    ensures Continue(cfg, s, RevokeSchedule(r, t.id)) == s.(db := RevokedDb(s.db, t.id, s.now))
  {
    hide StepPoint, SetStatus, ExpireActive;
    var db1 := ExpireActive(s.db, t.id, s.now);
    RevokeEffects(cfg, s.db, s.now, t);
    RevokeLast(cfg, db1, s.now, t);
    var b, x := Begin(r, RevokeRead(t.id)), Run(r, FINE);
    assert Apply(cfg, s, b) == At(s, r, RevokeRead(t.id), s.db);
    Advances(cfg, s, r, RevokeRead(t.id), s.db, FINE, Effect(s.db, Some(RevokeExpire(t))));
    Advances(cfg, s, r, RevokeExpire(t), s.db, FINE, Effect(db1, Some(RevokeDone(t))));
    Advances(cfg, s, r, RevokeDone(t), db1, FINE, Effect(SetStatus(db1, t.id, Revoked), None));
    BeginAndThree(cfg, s, b, x);
  }

  lemma BeginAndThree(cfg: Config, s: State, b: Step, x: Step)
    ensures Continue(cfg, s, [b, x, x, x]) == Apply(cfg, Apply(cfg, Apply(cfg, Apply(cfg, s, b), x), x), x)
  {
    hide Apply;
    assert [b, x, x, x][1..] == [x, x, x] && [x, x, x][1..] == [x, x] && [x, x][1..] == [x] && [x][1..] == [];
    var s1 := Apply(cfg, s, b);
    assert Continue(cfg, s, [b, x, x, x]) == Continue(cfg, s1, [x, x, x]);
    var s2 := Apply(cfg, s1, x);
    assert Continue(cfg, s1, [x, x, x]) == Continue(cfg, s2, [x, x]);
    assert Continue(cfg, s2, [x, x]) == Continue(cfg, Apply(cfg, s2, x), [x]);
  }

  /** User 7 registers a domain and gets its challenge. */
  function RegisterSchedule(raw: string): seq<Step> {
    [Begin(0, CreateInsert(7, DomainKind, raw)), Run(0, Draw("token")), Run(0, Draw("token"))]
  }

  function CustomerTarget(cfg: Config, raw: string): Target {
    FirstTarget(cfg, raw).(status := Unverified, source := CustomerSource)
  }

  function ChallengeRow(cfg: Config, raw: string): Authorization {
    var t := CustomerTarget(cfg, raw);
    Authorization(0, 0, DnsTxt, "token", ScopeForTarget(t).0, ScopeForTarget(t).1, None, None, None, 0)
  }

  lemma CreatedState(cfg: Config, raw: string)
    ensures var t, a := CustomerTarget(cfg, raw), ChallengeRow(cfg, raw);
            Exec(cfg, RegisterSchedule(raw)) == State(Db(map[0 := t], map[0 := a], 1, 1), 0, map[], {})
  {
    hide NormalizeTargetValue, ScopeForTarget;
    var b, x := Begin(0, CreateInsert(7, DomainKind, raw)), Run(0, Draw("token"));
    var t, a := CustomerTarget(cfg, raw), ChallengeRow(cfg, raw);
    assert RegisterSchedule(raw) == [b] + [x, x] && [] + [b] == [b];
    Sequential.ExecSnoc(cfg, [], b);
    Sequential.ExecTwo(cfg, [b], x, x);
    var db1, db2 := Db(map[0 := t], map[], 1, 0), Db(map[0 := t], map[0 := a], 1, 1);
    assert Exec(cfg, [b]) == At(START, 0, b.p, EMPTY_DB);
    CustomerInserted(cfg, raw);
    AdvancesFromStart(cfg, b.p, EMPTY_DB, Effect(db1, Some(CreateIssue(t))));
    assert InsertAuth(db1, ChallengeDraft(t, DnsTxt, "token"), 0) == (db2, Some(a));
    assert StepPoint(cfg, db1, 0, CreateIssue(t), Draw("token")) == Effect(db2, None);
    AdvancesFromStart(cfg, CreateIssue(t), db1, Effect(db2, None));
  }

  lemma AdvancesFromStart(cfg: Config, p: Point, db: Db, e: Effect)
    requires e == StepPoint(cfg, db, 0, p, Draw("token")) && !p.ProgramInsert? && !p.ProgramUndo?
    ensures Apply(cfg, At(START, 0, p, db), Run(0, Draw("token"))) ==
            match e.next { case Some(q) => At(START, 0, q, e.db) case None => START.(db := e.db) }
  {
    Advances(cfg, START, 0, p, db, Draw("token"), e);
  }

  lemma CustomerInserted(cfg: Config, raw: string)
    ensures var t := CustomerTarget(cfg, raw);
            StepPoint(cfg, EMPTY_DB, 0, CreateInsert(7, DomainKind, raw), Draw("token"))
            == Effect(Db(map[0 := t], map[], 1, 0), Some(CreateIssue(t)))
  {
    hide NormalizeTargetValue;
    var t := CustomerTarget(cfg, raw);
    assert InsertTarget(cfg.etld, EMPTY_DB, 7, DomainKind, raw, Unverified, CustomerSource)
           == (Db(map[0 := t], map[], 1, 0), Some(t));
  }

  lemma OneRowIsLatest(t: Target, a: Authorization)
    requires t.id == 0 && a.id == 0 && a.targetId == 0
    ensures Latest(OneRow(t, a).db, 0) == Some(a)
  {
    var db := OneRow(t, a).db;
    assert IsLatest(db, 0, 0);
    NewestIsLatest(db, 0, 0);
  }

  lemma OneRowVerified(cfg: Config, r: nat, t: Target, a: Authorization)
    requires t.id == 0 && a.id == 0 && a.targetId == 0 && t.source == CustomerSource && IsChallenge(a.means)
    ensures Continue(cfg, OneRow(t, a), VerifySchedule(r, t, a.means, a.token)) ==
            OneRow(t.(status := Verified), a.(verifiedAt := Some(0), expiresAt := Some(CHALLENGE_TTL)))
  {
    hide Latest;
    OneRowIsLatest(t, a);
    VerifyRun(cfg, OneRow(t, a), r, t, a);
  }

  lemma OneRowRevoked(cfg: Config, r: nat, t: Target, a: Authorization)
    requires t.id == 0 && a.id == 0 && a.targetId == 0 && Active(a, 0)
    ensures Continue(cfg, OneRow(t, a), RevokeSchedule(r, 0)) == OneRow(t.(status := Revoked), a.(expiresAt := Some(0)))
  {
    RevokeRun(cfg, OneRow(t, a), r, t);
  }

  /** Created, verified, and revoked. */
  function RevokedRun(cfg: Config, raw: string): seq<Step> {
    var t := CustomerTarget(cfg, raw);
    RegisterSchedule(raw) + VerifySchedule(1, t, DnsTxt, "token") + RevokeSchedule(2, 0)
  }

  /**
   * Revocation is not final for a customer target: in this schedule it is verified, revoked with no
   * row left active, and then verified again with its row active, by the challenge alone.
   */
  lemma RevokedIsVerifiedAgain(cfg: Config, raw: string)
    ensures var t := CustomerTarget(cfg, raw);
            var s1 := Exec(cfg, RevokedRun(cfg, raw));
            var s2 := Exec(cfg, RevokedRun(cfg, raw) + VerifySchedule(3, t.(status := Revoked), DnsTxt, "token"));
            && 0 in s1.db.targets && s1.db.targets[0].status == Revoked
            && (forall i :: i in s1.db.auths ==> !Active(s1.db.auths[i], s1.now))
            && 0 in s2.db.targets && s2.db.targets[0].status == Verified && 0 in s2.db.auths
                && Active(s2.db.auths[0], s2.now)
  {
    hide Exec, Continue, CustomerTarget, ChallengeRow;
    var t, a := CustomerTarget(cfg, raw), ChallengeRow(cfg, raw);
    CustomerShape(cfg, raw);
    CreatedState(cfg, raw);
    var v := a.(verifiedAt := Some(0), expiresAt := Some(CHALLENGE_TTL));
    var u := v.(expiresAt := Some(0));
    ExecContinue(cfg, RegisterSchedule(raw), VerifySchedule(1, t, DnsTxt, "token"));
    OneRowVerified(cfg, 1, t, a);
    ExecContinue(cfg, RegisterSchedule(raw) + VerifySchedule(1, t, DnsTxt, "token"), RevokeSchedule(2, 0));
    OneRowRevoked(cfg, 2, t.(status := Verified), v);
    ExecContinue(cfg, RevokedRun(cfg, raw), VerifySchedule(3, t.(status := Revoked), DnsTxt, "token"));
    OneRowVerified(cfg, 3, t.(status := Revoked), u);
  }

  lemma CustomerShape(cfg: Config, raw: string)
    ensures var t, a := CustomerTarget(cfg, raw), ChallengeRow(cfg, raw);
            && t.id == 0 && t.userId == 7 && t.kind == DomainKind && t.status == Unverified
                && t.source == CustomerSource
            && a.id == 0 && a.targetId == 0 && a.means == DnsTxt && a.token == "token" && a.verifiedAt.None?
  {
  }

  // --- A manual authorization and a later verification --------------------------------------------------

  /** An administrator authorizes the target; `c` is how the lookup of its newest row goes. */
  function ManualSchedule(r: nat, uid: nat, days: nat, evidence: Evidence, c: Choice): seq<Step> {
    [Begin(r, ManualRead(uid, days, evidence)), Run(r, FINE), Run(r, FINE), Run(r, c), Run(r, FINE), Run(r, FINE)]
  }

  function ManualExpiry(now: Time, days: nat): Time {
    now + DaysOrDefault(days) * DAY
  }

  /** The row that the administrator's request confirms, if it finds a pending one. */
  ghost function Confirmable(db: Db, uid: nat, found: bool): Option<Authorization> {
    if found && NewestIsPending(db, uid) then Latest(db, uid) else None
  }

  /** The rows afterwards: the pending one confirmed, or a new one. */
  ghost function ManualRows(db: Db, t: Target, now: Time, days: nat, evidence: Evidence, found: bool): Db {
    match Confirmable(db, t.id, found)
    case Some(a) => MarkVerified(db, a.id, ManualExpiry(now, days), evidence, now)
    case None => InsertAuth(db, AdminDraft(t, ManualMethod, now, ManualExpiry(now, days), evidence), now).0
  }

  lemma ManualReads(cfg: Config, db: Db, now: Time, t: Target, days: nat, evidence: Evidence)
    requires t.id in db.targets && db.targets[t.id] == t && KindAllowed(cfg, t.kind)
    ensures StepPoint(cfg, db, now, ManualRead(t.id, days, evidence), FINE)
            == Effect(db, Some(ManualStamp(t, DaysOrDefault(days), evidence)))
    ensures StepPoint(cfg, db, now, ManualStamp(t, DaysOrDefault(days), evidence), FINE)
            == Effect(db, Some(ManualAuth(t, now, ManualExpiry(now, days), evidence)))
  {
  }

  lemma ManualLooks(cfg: Config, db: Db, now: Time, t: Target, expires: Time, evidence: Evidence, c: Choice)
    ensures StepPoint(cfg, db, now, ManualAuth(t, now, expires, evidence), c)
            == Effect(db, match Confirmable(db, t.id, c.outcome.Done?)
                          case Some(a) => Some(ManualMark(t, a, expires, evidence))
                          case None => Some(ManualCreate(t, now, expires, evidence)))
  {
    hide Latest;
  }

  lemma ManualGrants(cfg: Config, db: Db, now: Time, t: Target, days: nat, evidence: Evidence, found: bool)
    requires t.id in db.targets
    ensures var p := match Confirmable(db, t.id, found)
                     case Some(a) => ManualMark(t, a, ManualExpiry(now, days), evidence)
                     case None => ManualCreate(t, now, ManualExpiry(now, days), evidence);
            StepPoint(cfg, db, now, p, FINE)
                == Effect(ManualRows(db, t, now, days, evidence, found), Some(ManualDone(t)))
  {
    hide Confirmable, MarkVerified;
  }

  lemma ManualEnds(cfg: Config, db: Db, now: Time, t: Target)
    ensures StepPoint(cfg, db, now, ManualDone(t), FINE) == Effect(SetStatus(db, t.id, Verified), None)
  {
    hide SetStatus;
  }

  /** What a completed manual authorization does. */
  lemma ManualRun(cfg: Config, s: State, r: nat, t: Target, days: nat, evidence: Evidence, c: Choice)
    requires r !in s.requests && t.id in s.db.targets && s.db.targets[t.id] == t && KindAllowed(cfg, t.kind)
        && days <= 365
    ensures Continue(cfg, s, ManualSchedule(r, t.id, days, evidence, c))
            == s.(db := SetStatus(ManualRows(s.db, t, s.now, days, evidence, c.outcome.Done?), t.id, Verified))
  {
    hide StepPoint, SetStatus, ManualRows, Confirmable, ManualExpiry, DaysOrDefault;
    var now, expires := s.now, ManualExpiry(s.now, days);
    var stamp, lookup := ManualStamp(t, DaysOrDefault(days), evidence), ManualAuth(t, now, expires, evidence);
    var grant := match Confirmable(s.db, t.id, c.outcome.Done?)
                 case Some(a) => ManualMark(t, a, expires, evidence)
                 case None => ManualCreate(t, now, expires, evidence);
    var db1 := ManualRows(s.db, t, now, days, evidence, c.outcome.Done?);
    ManualReads(cfg, s.db, now, t, days, evidence);
    ManualLooks(cfg, s.db, now, t, expires, evidence, c);
    ManualGrants(cfg, s.db, now, t, days, evidence, c.outcome.Done?);
    ManualEnds(cfg, db1, now, t);
    var b := Begin(r, ManualRead(t.id, days, evidence));
    assert Apply(cfg, s, b) == At(s, r, b.p, s.db);
    Advances(cfg, s, r, b.p, s.db, FINE, Effect(s.db, Some(stamp)));
    Advances(cfg, s, r, stamp, s.db, FINE, Effect(s.db, Some(lookup)));
    Advances(cfg, s, r, lookup, s.db, c, Effect(s.db, Some(grant)));
    Advances(cfg, s, r, grant, s.db, FINE, Effect(db1, Some(ManualDone(t))));
    Advances(cfg, s, r, ManualDone(t), db1, FINE, Effect(SetStatus(db1, t.id, Verified), None));
    SixSteps(cfg, s, b, Run(r, FINE), Run(r, FINE), Run(r, c), Run(r, FINE), Run(r, FINE));
  }

  lemma SixSteps(cfg: Config, s: State, a: Step, b: Step, c: Step, d: Step, e: Step, f: Step)
    ensures Continue(cfg, s, [a, b, c, d, e, f])
            == Apply(cfg, Apply(cfg, Apply(cfg, Apply(cfg, Apply(cfg, Apply(cfg, s, a), b), c), d), e), f)
  {
    hide Apply;
    ThreeSteps(cfg, s, a, b, c);
    var s3 := Apply(cfg, Apply(cfg, Apply(cfg, s, a), b), c);
    ThreeSteps(cfg, s3, d, e, f);
    assert [a, b, c, d, e, f] == [a, b, c] + [d, e, f];
    ContinueConcat(cfg, s, [a, b, c], [d, e, f]);
  }

  lemma ThreeSteps(cfg: Config, s: State, a: Step, b: Step, c: Step)
    ensures Continue(cfg, s, [a, b, c]) == Apply(cfg, Apply(cfg, Apply(cfg, s, a), b), c)
  {
    hide Apply;
    assert [a, b, c][1..] == [b, c] && [b, c][1..] == [c] && [c][1..] == [];
    var s1 := Apply(cfg, s, a);
    assert Continue(cfg, s, [a, b, c]) == Continue(cfg, s1, [b, c]);
    assert Continue(cfg, s1, [b, c]) == Continue(cfg, Apply(cfg, s1, b), [c]);
  }

  lemma {:induction false} ContinueConcat(cfg: Config, s: State, x: seq<Step>, y: seq<Step>)
    ensures Continue(cfg, s, x + y) == Continue(cfg, Continue(cfg, s, x), y)
    decreases |x|
  {
    hide Apply;
    if x == [] {
      assert x + y == y;
    } else {
      assert (x + y)[0] == x[0] && (x + y)[1..] == x[1..] + y;
      ContinueConcat(cfg, Apply(cfg, s, x[0]), x[1..], y);
    }
  }

  /** The owner asks for a verification, up to the point where the newest row has been read. */
  function AskSchedule(r: nat, t: Target, how: Method): seq<Step> {
    [Begin(r, VerifyRead(t.userId, t.id, how)), Run(r, FINE), Run(r, FINE)]
  }

  lemma AskReads(cfg: Config, db: Db, now: Time, t: Target, how: Method)
    requires t.id in db.targets && db.targets[t.id] == t
    ensures StepPoint(cfg, db, now, VerifyRead(t.userId, t.id, how), FINE) == Effect(db, Some(VerifyAuth(t, how)))
    ensures StepPoint(cfg, db, now, VerifyAuth(t, how), FINE) == Effect(db, AfterVerifyAuth(t, how, Latest(db, t.id)))
  {
    hide Latest, AfterVerifyAuth;
  }

  lemma AskRun(cfg: Config, s: State, r: nat, t: Target, how: Method)
    requires r !in s.requests && t.id in s.db.targets && s.db.targets[t.id] == t && !IsAdminMethod(how)
    ensures r !in Continue(cfg, s, AskSchedule(r, t, how)).requests
            <==> AfterVerifyAuth(t, how, Latest(s.db, t.id)).None?
  {
    hide StepPoint, Latest, AfterVerifyAuth;
    var b := Begin(r, VerifyRead(t.userId, t.id, how));
    AskReads(cfg, s.db, s.now, t, how);
    assert Apply(cfg, s, b) == At(s, r, b.p, s.db);
    Advances(cfg, s, r, b.p, s.db, FINE, Effect(s.db, Some(VerifyAuth(t, how))));
    Advances(cfg, s, r, VerifyAuth(t, how), s.db, FINE, Effect(s.db, AfterVerifyAuth(t, how, Latest(s.db, t.id))));
    ThreeSteps(cfg, s, b, Run(r, FINE), Run(r, FINE));
  }

  lemma ManualNewest(cfg: Config, db: Db, t: Target, now: Time, days: nat, evidence: Evidence, found: bool)
    requires DbOk(cfg, db, now) && t.id in db.targets
    ensures NewestHasAdminMethod(SetStatus(ManualRows(db, t, now, days, evidence, found), t.id, Verified), t.id)
            <==> !(found && NewestIsPending(db, t.id))
  {
    hide DbOk, NewestHasAdminMethod, MarkVerified, Latest;
    var rows := ManualRows(db, t, now, days, evidence, found);
    SameRowsSameMethod(rows, SetStatus(rows, t.id, Verified), t.id);
    match Confirmable(db, t.id, found)
    case Some(a) =>
      PendingStaysNewest(cfg, db, now, t.id, a, ManualExpiry(now, days), evidence, now);
    case None =>
      CreatedIsNewest(cfg, db, now, AdminDraft(t, ManualMethod, now, ManualExpiry(now, days), evidence), now);
  }

  lemma ManualTarget(db: Db, t: Target, now: Time, days: nat, evidence: Evidence, found: bool)
    requires t.id in db.targets && db.targets[t.id] == t
    ensures var db' := SetStatus(ManualRows(db, t, now, days, evidence, found), t.id, Verified);
            t.id in db'.targets && db'.targets[t.id] == t.(status := Verified)
  {
    hide Confirmable;
  }

  /**
   * From every reachable state: after a manual authorization of a customer target, the owner's
   * verification is refused exactly when the administrator's request found no pending newest row:
   * there was no row, the newest one was verified already, or the lookup failed. A pending row is
   * confirmed in place and keeps its method, and the challenge then applies to it.
   */
  lemma ManualThenVerification(cfg: Config, s: State, r: nat, q: nat, t: Target, days: nat, evidence: Evidence,
                               c: Choice, how: Method)
    requires Inv(cfg, s) && r !in s.requests && q !in s.requests && days <= 365 && !IsAdminMethod(how)
    requires t.id in s.db.targets && s.db.targets[t.id] == t && t.source == CustomerSource
    ensures var granted := Continue(cfg, s, ManualSchedule(r, t.id, days, evidence, c));
            var v := t.(status := Verified);
            && t.id in granted.db.targets && granted.db.targets[t.id] == v
            && (q !in Continue(cfg, granted, AskSchedule(q, v, how)).requests
                <==> !(c.outcome.Done? && NewestIsPending(s.db, t.id)))
  {
    hide Continue, ManualSchedule, AskSchedule, ManualRows, SetStatus, NewestIsPending, DbOk;
    var found := c.outcome.Done?;
    var v := t.(status := Verified);
    assert TargetOk(cfg, t) by { KnownTargetOk(cfg, s.db, s.now, t.id); }
    ManualRun(cfg, s, r, t, days, evidence, c);
    ManualTarget(s.db, t, s.now, days, evidence, found);
    ManualNewest(cfg, s.db, t, s.now, days, evidence, found);
    var granted := s.(db := SetStatus(ManualRows(s.db, t, s.now, days, evidence, found), t.id, Verified));
    AskRun(cfg, granted, q, v, how);
  }

  lemma KnownTargetOk(cfg: Config, db: Db, now: Time, id: nat)
    requires DbOk(cfg, db, now) && id in db.targets
    ensures TargetOk(cfg, db.targets[id])
  {
  }

  // --- A manually authorized target is demoted ----------------------------------------------------------

  /** The owner asks for a verification, with nothing published. */
  function UnprovenSchedule(r: nat, t: Target, how: Method): seq<Step> {
    [Begin(r, VerifyRead(t.userId, t.id, how))] + seq(5, _ => Run(r, FINE))
  }

  lemma FailsProof(cfg: Config, db: Db, now: Time, t: Target, a: Authorization)
    requires IsChallenge(a.means)
    ensures StepPoint(cfg, db, now, VerifyBegin(t, a), FINE)
            == Effect(SetStatus(db, t.id, Verifying), Some(VerifyCheck(t, a)))
    ensures StepPoint(cfg, db, now, VerifyCheck(t, a), FINE) == Effect(db, Some(VerifyFailed(t)))
    ensures StepPoint(cfg, db, now, VerifyFailed(t), FINE) == Effect(SetStatus(db, t.id, Unverified), None)
  {
    hide SetStatus;
  }

  lemma UnprovenRun(cfg: Config, s: State, r: nat, t: Target, a: Authorization)
    requires r !in s.requests && t.id in s.db.targets && s.db.targets[t.id] == t && t.source == CustomerSource
    requires Latest(s.db, t.id) == Some(a) && IsChallenge(a.means)
    ensures Continue(cfg, s, UnprovenSchedule(r, t, a.means))
            == s.(db := SetStatus(SetStatus(s.db, t.id, Verifying), t.id, Unverified))
  {
    hide StepPoint, Latest, SetStatus;
    var b, x := Begin(r, VerifyRead(t.userId, t.id, a.means)), Run(r, FINE);
    var db1 := SetStatus(s.db, t.id, Verifying);
    AskReads(cfg, s.db, s.now, t, a.means);
    FailsProof(cfg, s.db, s.now, t, a);
    FailsProof(cfg, db1, s.now, t, a);
    assert Apply(cfg, s, b) == At(s, r, b.p, s.db);
    Advances(cfg, s, r, b.p, s.db, FINE, Effect(s.db, Some(VerifyAuth(t, a.means))));
    Advances(cfg, s, r, VerifyAuth(t, a.means), s.db, FINE, Effect(s.db, Some(VerifyBegin(t, a))));
    Advances(cfg, s, r, VerifyBegin(t, a), s.db, FINE, Effect(db1, Some(VerifyCheck(t, a))));
    Advances(cfg, s, r, VerifyCheck(t, a), db1, FINE, Effect(db1, Some(VerifyFailed(t))));
    Advances(cfg, s, r, VerifyFailed(t), db1, FINE, Effect(SetStatus(db1, t.id, Unverified), None));
    SixSteps(cfg, s, b, x, x, x, x, x);
    assert UnprovenSchedule(r, t, a.means) == [b, x, x, x, x, x];
  }

  lemma OneRowConfirmed(cfg: Config, r: nat, t: Target, a: Authorization)
    requires t.id == 0 && a.id == 0 && a.targetId == 0 && a.verifiedAt.None? && t.kind == DomainKind
    ensures Continue(cfg, OneRow(t, a), ManualSchedule(r, 0, 0, None, FINE)) ==
            OneRow(t.(status := Verified), a.(verifiedAt := Some(0), expiresAt := Some(90 * DAY)))
  {
    hide Latest, Continue;
    OneRowIsLatest(t, a);
    ManualRun(cfg, OneRow(t, a), r, t, 0, None, FINE);
  }

  lemma OneRowDemoted(cfg: Config, r: nat, t: Target, a: Authorization)
    requires t.id == 0 && a.id == 0 && a.targetId == 0 && t.source == CustomerSource && IsChallenge(a.means)
    ensures Continue(cfg, OneRow(t, a), UnprovenSchedule(r, t, a.means)) == OneRow(t.(status := Unverified), a)
  {
    hide Latest, Continue;
    OneRowIsLatest(t, a);
    UnprovenRun(cfg, OneRow(t, a), r, t, a);
  }

  /** Registered, and authorized by an administrator who confirms the pending challenge. */
  function ConfirmedRun(raw: string): seq<Step> {
    RegisterSchedule(raw) + ManualSchedule(1, 0, 0, None, FINE)
  }

  /**
   * A manually authorized target can be demoted by its owner: in this schedule it is verified for 90
   * days, and one verification request with nothing published leaves it unverified and denied,
   * although the administrator's authorization is still active.
   */
  lemma ConfirmedIsDemoted(cfg: Config, raw: string, w: Gate.World, req: Gate.Request, rows: Option<seq<Authorization>>)
    ensures var t := CustomerTarget(cfg, raw).(status := Verified);
            var s1 := Exec(cfg, ConfirmedRun(raw));
            var s2 := Exec(cfg, ConfirmedRun(raw) + UnprovenSchedule(2, t, DnsTxt));
            && s1.db.targets == map[0 := t] && 0 in s1.db.auths && Active(s1.db.auths[0], s1.now)
            && 0 in s2.db.targets && s2.db.targets[0].status == Unverified
            && s2.db.auths == s1.db.auths && s2.now == s1.now
            && !Gate.Authorized(w, req, FindTarget(s2.db, 0), rows)
  {
    hide Exec, Continue, CustomerTarget, ChallengeRow, ManualSchedule, Gate.Decide;
    var t, a := CustomerTarget(cfg, raw), ChallengeRow(cfg, raw);
    CustomerShape(cfg, raw);
    CreatedState(cfg, raw);
    var v := a.(verifiedAt := Some(0), expiresAt := Some(90 * DAY));
    ExecContinue(cfg, RegisterSchedule(raw), ManualSchedule(1, 0, 0, None, FINE));
    OneRowConfirmed(cfg, 1, t, a);
    ExecContinue(cfg, ConfirmedRun(raw), UnprovenSchedule(2, t.(status := Verified), DnsTxt));
    OneRowDemoted(cfg, 2, t.(status := Verified), v);
    Gate.DecideMeans(w, req, FindTarget(Exec(cfg, ConfirmedRun(raw) + UnprovenSchedule(2, t.(status := Verified),
        DnsTxt)).db, 0), rows);
  }

  // --- The order of a linked and a manual row -----------------------------------------------------------

  const LINKED: Evidence := Some(map["platform" := "hackerone", "handle" := "h"])

  /** A program target whose program is linked, then authorized manually as well. */
  function LinkedAndManual(raw: string): seq<Step> {
    Halfway(raw, LINKED) + [Run(0, FINE)] + ManualSchedule(1, 0, 0, None, FINE)
  }

  function ManualRow(cfg: Config, raw: string): Authorization {
    var t := FirstTarget(cfg, raw);
    Authorization(1, 0, ManualMethod, "", ScopeForTarget(t).0, ScopeForTarget(t).1, Some(0), Some(90 * DAY), None, 0)
  }

  lemma LinkedAndManualState(cfg: Config, raw: string)
    ensures var t, a, b := FirstTarget(cfg, raw), FirstRow(cfg, raw, LINKED), ManualRow(cfg, raw);
            var s := Exec(cfg, LinkedAndManual(raw));
            s.db == Db(map[0 := t], map[0 := a, 1 := b], 1, 2) && s.now == 0
  {
    hide Exec, Continue, Latest, FirstTarget, ScopeForTarget;
    var t, a := FirstTarget(cfg, raw), FirstRow(cfg, raw, LINKED);
    TargetZero(cfg, raw);
    AuthorizedState(cfg, raw, LINKED);
    ExecContinue(cfg, Halfway(raw, LINKED) + [Run(0, FINE)], ManualSchedule(1, 0, 0, None, FINE));
    OneRowIsLatest(t, a);
    ManualRun(cfg, OneRow(t, a), 1, t, 0, None, FINE);
  }

  /**
   * The linked program's denial is final only if its row comes first: this target has both rows, and
   * while the program's policy cannot be loaded a request in its scope is allowed in one order of
   * the rows and denied in the other.
   */
  lemma LinkedDenialIsNotFinal(cfg: Config, raw: string, w: Gate.World, req: Gate.Request)
    requires ScopeForTarget(FirstTarget(cfg, raw)) == (RegistrableDomain, req.QueryHost())
    requires req.QueryHost() != "" && req.QueryIP() == "" && Gate.HostOk(w, req) && !Gate.IsAuthPhase(req.phase)
    requires w.programs.Some? && forall p, h :: w.programs.value.policy(p, h).None?
    ensures var s := Exec(cfg, LinkedAndManual(raw));
            var a, b := FirstRow(cfg, raw, LINKED), ManualRow(cfg, raw);
            && Runs.Allows(s, 0, w, req, FindTarget(s.db, 0), [b, a])
            && Runs.CurrentRows(s, 0, [a, b]) && !Gate.Authorized(w, req, FindTarget(s.db, 0), Some([a, b]))
  {
    hide FirstTarget, Exec, ScopeForTarget, Gate.Authorized, Gate.HostOk;
    LinkedAndManualState(cfg, raw);
    TargetZero(cfg, raw);
    OrderInGate(w, req, FirstTarget(cfg, raw), FirstRow(cfg, raw, LINKED), ManualRow(cfg, raw));
  }

  lemma OrderInGate(w: Gate.World, req: Gate.Request, t: Target, a: Authorization, b: Authorization)
    requires t.status == Verified && a.means == ProgramMethod && a.evidence == LINKED && b.means == ManualMethod
    requires b.scopeKind == RegistrableDomain && b.scopeValue == req.QueryHost() != ""
    requires req.QueryIP() == "" && Gate.HostOk(w, req) && !Gate.IsAuthPhase(req.phase)
    requires w.programs.Some? && forall p, h :: w.programs.value.policy(p, h).None?
    ensures Gate.Authorized(w, req, Some(t), Some([b, a])) && !Gate.Authorized(w, req, Some(t), Some([a, b]))
  {
    hide Gate.Authorized, Gate.LinkedVerdict;
    LinkedRowRefuses(w, req, a);
    Gate.RefusalsMean(w, req, Some(t));
    Gate.LinkedDenialNeedsToComeFirst(w, req, Some(t), a, b);
  }

  lemma LinkedRowRefuses(w: Gate.World, req: Gate.Request, a: Authorization)
    requires a.means == ProgramMethod && a.evidence == LINKED
    requires w.programs.Some? && forall p, h :: w.programs.value.policy(p, h).None?
    ensures Gate.Linked(w, a) && !Gate.Grants(w, req, a)
  {
    assert Text.TrimSpace("h") == "h";
  }

  // --- Two reads of a new target issue two tokens -------------------------------------------------------

  /** The owner reads a target while its registration is still about to record the challenge. */
  function RaceSchedule(raw: string): seq<Step> {
    [Begin(0, CreateInsert(7, DomainKind, raw)), Run(0, Draw("token"))]
    + [Begin(1, GetRead(7, 0)), Run(1, FINE), Run(1, FINE)]
    + [Run(0, Draw("x")), Run(1, Draw("y")), Tick(0)]
  }

  lemma RaceReads(cfg: Config, t: Target)
    requires t.id == 0 && t.userId == 7 && t.status == Unverified && t.source == CustomerSource
    ensures var db := Db(map[0 := t], map[], 1, 0);
            && StepPoint(cfg, db, 0, GetRead(7, 0), FINE) == Effect(db, Some(GetAuth(t)))
            && StepPoint(cfg, db, 0, GetAuth(t), FINE) == Effect(db, Some(GetIssue(t)))
  {
    var db := Db(map[0 := t], map[], 1, 0);
    assert RowsOf(db, 0) == {};
    assert Latest(db, 0) == None;
  }

  /** The table after the first of the two challenges has been recorded, and after both. */
  function RaceRow(t: Target, i: nat, token: string): Authorization {
    Authorization(i, 0, DnsTxt, token, ScopeForTarget(t).0, ScopeForTarget(t).1, None, None, None, 0)
  }

  lemma RaceInserts(cfg: Config, t: Target)
    requires t.id == 0 && t.kind == DomainKind
    ensures var db0, db1 := Db(map[0 := t], map[], 1, 0), Db(map[0 := t], map[0 := RaceRow(t, 0, "x")], 1, 1);
            var db2 := Db(map[0 := t], map[0 := RaceRow(t, 0, "x"), 1 := RaceRow(t, 1, "y")], 1, 2);
            && StepPoint(cfg, db0, 0, CreateIssue(t), Draw("x")) == Effect(db1, None)
            && StepPoint(cfg, db1, 0, GetIssue(t), Draw("y")) == Effect(db2, None)
  {
    hide ScopeForTarget;
    var db0, db1 := Db(map[0 := t], map[], 1, 0), Db(map[0 := t], map[0 := RaceRow(t, 0, "x")], 1, 1);
    var db2 := Db(map[0 := t], map[0 := RaceRow(t, 0, "x"), 1 := RaceRow(t, 1, "y")], 1, 2);
    assert InsertAuth(db0, ChallengeDraft(t, DnsTxt, "x"), 0) == (db1, Some(RaceRow(t, 0, "x")));
    assert InsertAuth(db1, ChallengeDraft(t, DnsTxt, "y"), 0) == (db2, Some(RaceRow(t, 1, "y")));
  }

  /** Interleaved requests can give a target two tokens, although no lookup and no insert fails. */
  lemma RaceSplitsToken(cfg: Config, raw: string)
    ensures !Sequential.OneToken(Exec(cfg, RaceSchedule(raw)).db)
  {
    hide StepPoint, CustomerTarget;
    var t := CustomerTarget(cfg, raw);
    CustomerShape(cfg, raw);
    var db0, db1 := Db(map[0 := t], map[], 1, 0), Db(map[0 := t], map[0 := RaceRow(t, 0, "x")], 1, 1);
    var db2 := Db(map[0 := t], map[0 := RaceRow(t, 0, "x"), 1 := RaceRow(t, 1, "y")], 1, 2);
    var b := Begin(0, CreateInsert(7, DomainKind, raw));
    CustomerInserted(cfg, raw);
    RaceReads(cfg, t);
    RaceInserts(cfg, t);
    var s1 := At(START, 0, CreateIssue(t), db0);
    assert Apply(cfg, START, b) == At(START, 0, b.p, EMPTY_DB);
    AdvancesFromStart(cfg, b.p, EMPTY_DB, Effect(db0, Some(CreateIssue(t))));
    Advances(cfg, s1, 1, GetRead(7, 0), db0, FINE, Effect(db0, Some(GetAuth(t))));
    Advances(cfg, s1, 1, GetAuth(t), db0, FINE, Effect(db0, Some(GetIssue(t))));
    assert Apply(cfg, s1, Begin(1, GetRead(7, 0))) == At(s1, 1, GetRead(7, 0), db0);
    var s2 := At(START, 1, GetIssue(t), db0);
    assert At(s1, 1, GetIssue(t), db0) == At(s2, 0, CreateIssue(t), db0);
    Advances(cfg, s2, 0, CreateIssue(t), db0, Draw("x"), Effect(db1, None));
    assert s2.(db := db1) == At(START, 1, GetIssue(t), db1);
    Advances(cfg, START, 1, GetIssue(t), db1, Draw("y"), Effect(db2, None));
    RaceUnfolds(cfg, raw);
    SplitInDb(t, db2);
  }

  lemma SplitInDb(t: Target, db: Db)
    requires db.auths == map[0 := RaceRow(t, 0, "x"), 1 := RaceRow(t, 1, "y")]
    ensures !Sequential.OneToken(db)
  {
    assert !Sequential.SameToken(db.auths[0], db.auths[1]);
  }

  lemma RaceUnfolds(cfg: Config, raw: string)
    ensures var s := Apply(cfg, Apply(cfg, START, Begin(0, CreateInsert(7, DomainKind, raw))), Run(0, Draw("token")));
            var s' := Apply(cfg, Apply(cfg, Apply(cfg, s, Begin(1, GetRead(7, 0))), Run(1, FINE)), Run(1, FINE));
            Exec(cfg, RaceSchedule(raw)).db
            == Apply(cfg, Apply(cfg, s', Run(0, Draw("x"))), Run(1, Draw("y"))).db
  {
    hide StepPoint;
    var x := [Begin(0, CreateInsert(7, DomainKind, raw)), Run(0, Draw("token"))];
    var y := [Begin(1, GetRead(7, 0)), Run(1, FINE), Run(1, FINE)];
    var z := [Run(0, Draw("x")), Run(1, Draw("y")), Tick(0)];
    assert RaceSchedule(raw) == x + y + z && [] + x == x;
    Sequential.ExecTwo(cfg, [], x[0], x[1]);
    ExecContinue(cfg, x, y);
    ThreeSteps(cfg, Exec(cfg, x), y[0], y[1], y[2]);
    ExecContinue(cfg, x + y, z);
    ThreeSteps(cfg, Exec(cfg, x + y), z[0], z[1], z[2]);
  }
}
