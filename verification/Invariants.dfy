/** What every schedule of the interleaved operations keeps. */
module Invariants {
  import opened Model
  import opened Text
  import opened HostScope
  import opened Store
  import opened Lifecycle

  // --- What never changes ---------------------------------------------------------------------------

  /** The columns of a target that no statement updates. */
  predicate SameTarget(t: Target, u: Target) {
    t == u.(status := t.status)
  }

  /** The columns of an authorization that no statement updates; and once verified, always verified. */
  predicate LaterRow(a: Authorization, b: Authorization) {
    && b == a.(verifiedAt := b.verifiedAt, expiresAt := b.expiresAt, evidence := b.evidence)
    && (a.verifiedAt.Some? ==> b.verifiedAt.Some?)
  }

  /** `db'` is a possible future of `db`: ids are not reused, and rows go only with their target. */
  ghost predicate Evolves(db: Db, db': Db) {
    && db.nextTarget <= db'.nextTarget && db.nextAuth <= db'.nextAuth
    && (forall i :: i in db'.targets && i < db.nextTarget ==>
        i in db.targets && SameTarget(db.targets[i], db'.targets[i]))
    && (forall i :: i in db'.auths && i < db.nextAuth ==> i in db.auths && LaterRow(db.auths[i], db'.auths[i]))
    && (forall i :: i in db.auths && db.auths[i].targetId in db'.targets ==> i in db'.auths)
  }

  // --- The invariant --------------------------------------------------------------------------------

  /** Keys are ids, ids are below the counters, and every row has its target. */
  ghost predicate Keyed(db: Db) {
    && (forall i :: i in db.targets ==> db.targets[i].id == i && i < db.nextTarget)
    && (forall i :: i in db.auths ==> db.auths[i].id == i && i < db.nextAuth && db.auths[i].targetId in db.targets)
  }

  /** The value and domain are what normalising some input gives. */
  ghost predicate Normalized(cfg: Config, kind: Kind, value: string, domain: Option<string>) {
    exists raw :: NormalizeTargetValue(cfg.etld, kind, raw) == (value, domain)
  }

  ghost predicate TargetOk(cfg: Config, t: Target) {
    && KindAllowed(cfg, t.kind)
    && Normalized(cfg, t.kind, t.value, t.registrableDomain)
    && (t.source == ProgramSource ==> t.status == Verified || t.status == Revoked)
  }

  /** A verified row expires, at most 365 days after it was verified, and was verified in the past. */
  predicate BoundedRow(a: Authorization, now: Time) {
    a.verifiedAt.Some? ==>
      && a.expiresAt.Some?
      && a.expiresAt.value <= a.verifiedAt.value + ADMIN_MAX
      && a.verifiedAt.value <= now
  }

  predicate RowOk(t: Target, a: Authorization, now: Time) {
    && a.createdAt <= now
    && (a.verifiedAt.None? ==> a.means != ProgramMethod && a.means != ManualMethod)
    && (a.scopeKind, a.scopeValue) == ScopeForTarget(t)
    && BoundedRow(a, now)
    && (t.source == ProgramSource ==>
          (a.means == ProgramMethod || a.means == ManualMethod) && a.token == "" && a.verifiedAt.Some?)
  }

  ghost predicate TargetsOk(cfg: Config, db: Db) {
    forall i :: i in db.targets ==> TargetOk(cfg, db.targets[i])
  }

  ghost predicate RowsOk(db: Db, now: Time)
    requires Keyed(db)
  {
    forall i :: i in db.auths ==> RowOk(db.targets[db.auths[i].targetId], db.auths[i], now)
  }

  ghost predicate DbOk(cfg: Config, db: Db, now: Time) {
    Keyed(db) && TargetsOk(cfg, db) && RowsOk(db, now)
  }

  /** Some row of the target has been verified. */
  ghost predicate HasProof(db: Db, id: nat) {
    exists i :: i in db.auths && db.auths[i].targetId == id && db.auths[i].verifiedAt.Some?
  }

  /** A target the request has read: still the same target, unless it has been deleted. */
  predicate Known(db: Db, t: Target) {
    t.id < db.nextTarget && (t.id in db.targets ==> SameTarget(t, db.targets[t.id]))
  }

  /** An authorization of that target which the request has read. */
  predicate KnownRow(db: Db, t: Target, a: Authorization) {
    && a.targetId == t.id && a.id < db.nextAuth
    && (t.id in db.targets ==> a.id in db.auths)
    && (a.id in db.auths ==> LaterRow(a, db.auths[a.id]))
  }

  ghost predicate ProvenOrGone(db: Db, t: Target) {
    t.id in db.targets ==> HasProof(db, t.id)
  }

  /** What a request may rely on at its program point, whatever the other requests do. */
  ghost predicate PointOk(db: Db, now: Time, p: Point) {
    match p
    case CreateInsert(_, _, _) => true
    case CreateIssue(t) => Known(db, t) && t.source == CustomerSource
    case GetRead(_, _) => true
    case GetAuth(t) => Known(db, t)
    case GetIssue(t) => Known(db, t) && t.source == CustomerSource
    case VerifyRead(_, _, how) => how != ProgramMethod && how != ManualMethod
    case VerifyAuth(t, how) => Known(db, t) && how != ProgramMethod && how != ManualMethod
    case VerifyIssue(t, how) => Known(db, t) && t.source == CustomerSource && how != ProgramMethod
        && how != ManualMethod
    case VerifySwitch(t, a, how) => Known(db, t) && t.source == CustomerSource && KnownRow(db, t, a) && IsChallenge(how)
    case VerifyBegin(t, a) => Known(db, t) && t.source == CustomerSource && KnownRow(db, t, a)
    case VerifyCheck(t, a) => Known(db, t) && t.source == CustomerSource && KnownRow(db, t, a)
    case VerifyFailed(t) => Known(db, t) && t.source == CustomerSource
    case VerifyStamp(t, a) => Known(db, t) && t.source == CustomerSource && KnownRow(db, t, a)
    case VerifyMark(t, a, expires) =>
      Known(db, t) && t.source == CustomerSource && KnownRow(db, t, a) && expires <= now + CHALLENGE_TTL
    case VerifyDone(t) => Known(db, t) && t.source == CustomerSource && ProvenOrGone(db, t)
    case ProgramInsert(_, _, _, days, _) => days <= 365
    case ProgramStamp(t, days, _) => Known(db, t) && t.source == ProgramSource && days <= 365
    case ProgramAuth(t, stamp, expires, _) =>
      Known(db, t) && t.source == ProgramSource && stamp <= now && expires <= stamp + ADMIN_MAX
    case ProgramUndo(t) => Known(db, t) && t.source == ProgramSource
    case ManualRead(_, days, _) => days <= 365
    case ManualStamp(t, days, _) => Known(db, t) && days <= 365
    case ManualAuth(t, stamp, expires, _) => Known(db, t) && stamp <= now && expires <= stamp + ADMIN_MAX
    case ManualMark(t, a, expires, _) => Known(db, t) && KnownRow(db, t, a) && expires <= now + ADMIN_MAX
    case ManualCreate(t, stamp, expires, _) => Known(db, t) && stamp <= now && expires <= stamp + ADMIN_MAX
    case ManualDone(t) => Known(db, t) && ProvenOrGone(db, t)
    case RevokeRead(_) => true
    case RevokeExpire(t) => Known(db, t)
    case RevokeDone(t) => Known(db, t)
    case DeleteOwn(_, _) => true
    case DeleteRead(_) => true
    case DeleteRow(_) => true
  }

  /** Some request in flight is still creating this program target. */
  ghost predicate InCreation(requests: map<nat, Point>, id: nat) {
    exists r :: r in requests && Creating(requests[r]) && requests[r].t.id == id
  }

  /** A verified target has proof, or is a program target whose creation is unfinished or broke off. */
  ghost predicate StatusBacked(s: State, id: nat)
    requires id in s.db.targets
  {
    s.db.targets[id].status == Verified ==>
      HasProof(s.db, id)
      || (s.db.targets[id].source == ProgramSource && (InCreation(s.requests, id) || id in s.stranded))
  }

  ghost predicate Inv(cfg: Config, s: State) {
    && DbOk(cfg, s.db, s.now)
    && (forall r :: r in s.requests ==> PointOk(s.db, s.now, s.requests[r]))
    && (forall i :: i in s.db.targets ==> StatusBacked(s, i))
  }

  // --- Statements keep the tables well-formed -------------------------------------------------------

  lemma EvolvesReflexive(db: Db)
    ensures Evolves(db, db)
  {
  }

  lemma ProofSurvives(db: Db, db': Db, id: nat)
    requires Keyed(db) && Evolves(db, db') && HasProof(db, id) && id in db'.targets
    ensures HasProof(db', id)
  {
    var i :| i in db.auths && db.auths[i].targetId == id && db.auths[i].verifiedAt.Some?;
    assert i in db'.auths && LaterRow(db.auths[i], db'.auths[i]);
  }

  /** What a request relies on is stable under anything the others may do. */
  lemma PointStable(db: Db, db': Db, now: Time, now': Time, p: Point)
    requires Keyed(db) && Evolves(db, db') && now <= now' && PointOk(db, now, p)
    ensures PointOk(db', now', p)
  {
    if (p.VerifyDone? || p.ManualDone?) && p.t.id in db'.targets {
      assert p.t.id in db.targets;
      ProofSurvives(db, db', p.t.id);
    }
  }

  /** A statement that keeps the tables well-formed and leads to a possible future. */
  ghost predicate Safe(cfg: Config, db: Db, now: Time, db': Db) {
    DbOk(cfg, db', now) && Evolves(db, db')
  }

  lemma SameScope(t: Target, u: Target, a: Authorization, now: Time)
    requires SameTarget(t, u) && RowOk(t, a, now)
    ensures RowOk(u, a, now)
  {
  }

  // Evolution, statement by statement.

  lemma InsertTargetEvolves(etld: SuffixList, db: Db, userId: int, kind: Kind, raw: string, status: Status,
                            source: Source)
    requires Keyed(db)
    ensures var db' := InsertTarget(etld, db, userId, kind, raw, status, source).0; Keyed(db') && Evolves(db, db')
  {
  }

  lemma InsertAuthEvolves(db: Db, d: Draft, now: Time)
    requires Keyed(db)
    ensures var db' := InsertAuth(db, d, now).0; Keyed(db') && Evolves(db, db')
  {
  }

  lemma SetStatusEvolves(db: Db, id: nat, status: Status)
    requires Keyed(db)
    ensures var db' := SetStatus(db, id, status); Keyed(db') && Evolves(db, db')
  {
  }

  lemma MarkVerifiedEvolves(db: Db, id: nat, expires: Time, evidence: Evidence, now: Time)
    requires Keyed(db)
    ensures var db' := MarkVerified(db, id, expires, evidence, now); Keyed(db') && Evolves(db, db')
  {
  }

  lemma ExpireActiveEvolves(db: Db, id: nat, now: Time)
    requires Keyed(db)
    ensures var db' := ExpireActive(db, id, now); Keyed(db') && Evolves(db, db')
  {
    var db' := ExpireActive(db, id, now);
    assert forall i :: i in db'.auths ==> LaterRow(db.auths[i], db'.auths[i]);
  }

  lemma DeleteTargetEvolves(db: Db, id: nat)
    requires Keyed(db)
    ensures var db' := DeleteTarget(db, id); Keyed(db') && Evolves(db, db')
  {
  }

  // Well-formedness, statement by statement.

  lemma InsertTargetSafe(cfg: Config, db: Db, now: Time, userId: int, kind: Kind, raw: string, status: Status,
                         source: Source)
    requires DbOk(cfg, db, now) && KindAllowed(cfg, kind)
    requires source == ProgramSource ==> status == Verified
    ensures Safe(cfg, db, now, InsertTarget(cfg.etld, db, userId, kind, raw, status, source).0)
  {
    hide Evolves, RowOk, Taken, NormalizeTargetValue;
    var (db', t) := InsertTarget(cfg.etld, db, userId, kind, raw, status, source);
    InsertTargetEvolves(cfg.etld, db, userId, kind, raw, status, source);
    if t.Some? {
      assert Normalized(cfg, kind, t.value.value, t.value.registrableDomain);
      assert TargetOk(cfg, t.value);
    }
  }

  lemma InsertTargetChanges(cfg: Config, db: Db, userId: int, kind: Kind, raw: string, status: Status, source: Source)
    requires Keyed(db)
    ensures var (db', t) := InsertTarget(cfg.etld, db, userId, kind, raw, status, source);
            && db'.auths == db.auths
            && (t.None? ==> db' == db)
            && (t.Some? ==> && db'.targets == db.targets[db.nextTarget := t.value] && t.value.id == db.nextTarget
                            && db'.nextTarget == db.nextTarget + 1
                            && t.value.status == status && t.value.source == source && Known(db', t.value))
  {
  }

  /** What an inserted row must satisfy for its target. */
  predicate DraftOk(t: Target, d: Draft, now: Time) {
    && d.targetId == t.id && d.scope == ScopeForTarget(t)
    && (d.verifiedAt.None? ==> d.means != ProgramMethod && d.means != ManualMethod)
    && (d.verifiedAt.Some? ==>
          d.expiresAt.Some? && d.expiresAt.value <= d.verifiedAt.value + ADMIN_MAX && d.verifiedAt.value <= now)
    && (t.source == ProgramSource ==>
          (d.means == ProgramMethod || d.means == ManualMethod) && d.token == "" && d.verifiedAt.Some?)
  }

  lemma DraftRowOk(db: Db, t: Target, d: Draft, now: Time)
    requires DraftOk(t, d, now)
    ensures var a := InsertAuth(db, d, now).1; a.Some? ==> RowOk(t, a.value, now)
  {
  }

  lemma InsertAuthSafe(cfg: Config, db: Db, now: Time, t: Target, d: Draft)
    requires DbOk(cfg, db, now) && Known(db, t) && DraftOk(t, d, now)
    ensures Safe(cfg, db, now, InsertAuth(db, d, now).0)
  {
    hide Evolves, RowOk, TargetOk;
    var (db', a) := InsertAuth(db, d, now);
    InsertAuthEvolves(db, d, now);
    if a.Some? {
      DraftRowOk(db, t, d, now);
      assert SameTarget(t, db.targets[t.id]);
      SameScope(t, db.targets[t.id], a.value, now);
      assert RowsOk(db', now);
    }
  }

  lemma InsertAuthChanges(db: Db, now: Time, t: Target, d: Draft)
    requires Keyed(db) && d.targetId == t.id
    ensures var (db', a) := InsertAuth(db, d, now);
            && db'.targets == db.targets && db'.nextTarget == db.nextTarget
            && (a.Some? ==> KnownRow(db', t, a.value))
            && (a.Some? && d.verifiedAt.Some? ==> HasProof(db', t.id))
            && (a.None? ==> t.id !in db.targets && db' == db)
  {
    var (db', a) := InsertAuth(db, d, now);
    if a.Some? {
      assert db'.auths[a.value.id] == a.value;
    }
  }

  lemma SetStatusSafe(cfg: Config, db: Db, now: Time, t: Target, status: Status)
    requires DbOk(cfg, db, now) && Known(db, t)
    requires t.source == ProgramSource ==> status == Verified || status == Revoked
    ensures Safe(cfg, db, now, SetStatus(db, t.id, status))
  {
    var db' := SetStatus(db, t.id, status);
    SetStatusEvolves(db, t.id, status);
    SetStatusTargets(cfg, db, t, status);
    SetStatusRows(db, now, t.id, status);
  }

  lemma SetStatusTargets(cfg: Config, db: Db, t: Target, status: Status)
    requires TargetsOk(cfg, db) && Known(db, t)
    requires t.source == ProgramSource ==> status == Verified || status == Revoked
    ensures TargetsOk(cfg, SetStatus(db, t.id, status))
  {
  }

  lemma SetStatusRows(db: Db, now: Time, id: nat, status: Status)
    requires Keyed(db) && RowsOk(db, now) && Keyed(SetStatus(db, id, status))
    ensures RowsOk(SetStatus(db, id, status), now)
  {
    var db' := SetStatus(db, id, status);
    forall i | i in db'.auths
      ensures RowOk(db'.targets[db'.auths[i].targetId], db'.auths[i], now)
    {
      var k := db.auths[i].targetId;
      SameScope(db.targets[k], db'.targets[k], db.auths[i], now);
    }
  }

  lemma SetStatusChanges(db: Db, id: nat, status: Status)
    ensures var db' := SetStatus(db, id, status);
            && db'.auths == db.auths && db'.targets.Keys == db.targets.Keys && db'.nextTarget == db.nextTarget
            && (forall i :: i in db.targets && i != id ==> db'.targets[i] == db.targets[i])
            && (id in db.targets ==> db'.targets[id] == db.targets[id].(status := status))
  {
  }

  lemma MarkedRowOk(t: Target, a: Authorization, expires: Time, evidence: Evidence, now: Time)
    requires RowOk(t, a, now) && expires <= now + ADMIN_MAX
    ensures RowOk(t, a.(verifiedAt := Some(now), expiresAt := Some(expires), evidence := evidence), now)
  {
  }

  lemma MarkVerifiedSafe(cfg: Config, db: Db, now: Time, id: nat, expires: Time, evidence: Evidence)
    requires DbOk(cfg, db, now) && expires <= now + ADMIN_MAX
    ensures Safe(cfg, db, now, MarkVerified(db, id, expires, evidence, now))
  {
    hide Evolves, RowOk, TargetOk;
    var db' := MarkVerified(db, id, expires, evidence, now);
    MarkVerifiedEvolves(db, id, expires, evidence, now);
    if id in db.auths {
      MarkedRowOk(db.targets[db.auths[id].targetId], db.auths[id], expires, db'.auths[id].evidence, now);
      forall i | i in db'.auths
        ensures RowOk(db'.targets[db'.auths[i].targetId], db'.auths[i], now)
      {
        if i != id { assert db'.auths[i] == db.auths[i]; }
      }
    }
  }

  lemma MarkVerifiedChanges(db: Db, now: Time, t: Target, a: Authorization, expires: Time, evidence: Evidence)
    requires Keyed(db) && KnownRow(db, t, a)
    ensures var db' := MarkVerified(db, a.id, expires, evidence, now);
            db'.targets == db.targets && db'.nextTarget == db.nextTarget && ProvenOrGone(db', t)
  {
    var db' := MarkVerified(db, a.id, expires, evidence, now);
    if t.id in db.targets {
      assert a.id in db'.auths && db'.auths[a.id].targetId == t.id && db'.auths[a.id].verifiedAt.Some?;
    }
  }

  lemma ExpiredRowOk(t: Target, a: Authorization, now: Time)
    requires RowOk(t, a, now) && Active(a, now)
    ensures RowOk(t, a.(expiresAt := Some(now)), now)
  {
  }

  lemma ExpireActiveSafe(cfg: Config, db: Db, now: Time, id: nat)
    requires DbOk(cfg, db, now)
    ensures Safe(cfg, db, now, ExpireActive(db, id, now))
  {
    hide Evolves, RowOk, TargetOk;
    var db' := ExpireActive(db, id, now);
    ExpireActiveEvolves(db, id, now);
    forall i | i in db'.auths
      ensures RowOk(db'.targets[db'.auths[i].targetId], db'.auths[i], now)
    {
      var a := db.auths[i];
      if Active(a, now) { ExpiredRowOk(db.targets[a.targetId], a, now); }
    }
  }

  lemma DeleteTargetSafe(cfg: Config, db: Db, now: Time, id: nat)
    requires DbOk(cfg, db, now)
    ensures Safe(cfg, db, now, DeleteTarget(db, id))
  {
    hide Evolves, RowOk, TargetOk;
    DeleteTargetEvolves(db, id);
  }

  lemma LatestKnown(db: Db, t: Target)
    requires Keyed(db) && Known(db, t)
    ensures Latest(db, t.id).Some? ==> KnownRow(db, t, Latest(db, t.id).value)
  {
  }

  lemma OkKeyed(cfg: Config, db: Db, now: Time)
    requires DbOk(cfg, db, now)
    ensures Keyed(db)
  {
  }

  // --- The newest row after an administrator's step --------------------------------------------------

  lemma SameRowsSameMethod(db: Db, db': Db, uid: nat)
    requires db'.auths == db.auths
    ensures NewestHasAdminMethod(db', uid) == NewestHasAdminMethod(db, uid)
  {
    SameRowsSameNewest(db, db', uid);
  }

  /** A pending row that is the newest has a customer's method, and keeps both when it is confirmed. */
  lemma PendingStaysNewest(cfg: Config, db: Db, before: Time, uid: nat, a: Authorization, expires: Time,
                           evidence: Evidence, now: Time)
    requires DbOk(cfg, db, before) && Latest(db, uid) == Some(a) && a.verifiedAt.None?
    ensures a.id in db.auths && db.auths[a.id] == a && a.targetId == uid
    ensures !NewestHasAdminMethod(MarkVerified(db, a.id, expires, evidence, now), uid)
  {
    var i := NewestIsRow(db, uid);
    assert RowOk(db.targets[uid], a, before);
    MarkedStaysNewest(db, uid, a, expires, evidence, now);
  }

  lemma CreatedIsNewest(cfg: Config, db: Db, before: Time, d: Draft, now: Time)
    requires DbOk(cfg, db, before) && before <= now && IsAdminMethod(d.means)
    ensures var (db', a) := InsertAuth(db, d, now); a.Some? ==> NewestHasAdminMethod(db', d.targetId)
  {
    forall i | i in db.auths ensures i < db.nextAuth && db.auths[i].createdAt <= now {
      assert RowOk(db.targets[db.auths[i].targetId], db.auths[i], before);
    }
    if d.targetId in db.targets { InsertedIsNewest(db, d, now); }
  }

  // --- Steps keep the invariant -----------------------------------------------------------------------

  /** The target whose creation continues at the next point. */
  predicate ContinuesCreating(next: Option<Point>, i: nat) {
    next.Some? && Creating(next.value) && next.value.t.id == i
  }

  /** Why target `i`, verified after the step, is no less backed than before. */
  ghost predicate Backed(db: Db, p: Point, e: Effect, i: nat)
    requires i in e.db.targets
  {
    e.db.targets[i].status == Verified ==>
      || HasProof(e.db, i)
      || (&& i in db.targets && db.targets[i] == e.db.targets[i]
          && (Creating(p) && p.t.id == i ==> i in Strands(db, p, e) || ContinuesCreating(e.next, i)))
      || (&& e.db.targets[i].source == ProgramSource
          && (i in Strands(db, p, e) || ContinuesCreating(e.next, i)))
  }

  ghost predicate AllBacked(db: Db, p: Point, e: Effect) {
    forall i :: i in e.db.targets ==> Backed(db, p, e, i)
  }

  /** What every step of a request guarantees about its effect. */
  ghost predicate StepKeeps(cfg: Config, db: Db, now: Time, p: Point, e: Effect) {
    && Safe(cfg, db, now, e.db)
    && (e.next.Some? ==> PointOk(e.db, now, e.next.value))
    && AllBacked(db, p, e)
  }

  /** A step that leaves the tables alone. */
  lemma ReadKeeps(cfg: Config, db: Db, now: Time, p: Point, next: Option<Point>)
    requires DbOk(cfg, db, now) && (next.Some? ==> PointOk(db, now, next.value))
    requires !Creating(p) || (next.Some? && Creating(next.value) && next.value.t.id == p.t.id)
    ensures StepKeeps(cfg, db, now, p, Effect(db, next))
  {
    EvolvesReflexive(db);
  }

  /** A statement that leaves the targets alone, in an operation that is not creating a program target. */
  lemma RowWriteKeeps(cfg: Config, db: Db, now: Time, p: Point, db': Db, o: Outcome, next: Option<Point>)
    requires DbOk(cfg, db, now) && Safe(cfg, db, now, db') && db'.targets == db.targets && !Creating(p)
    requires next.Some? ==> PointOk(db', now, next.value)
    ensures StepKeeps(cfg, db, now, p, Write(db, db', o, next))
  {
    hide DbOk, Evolves, PointOk, HasProof;
    EvolvesReflexive(db);
  }

  /** A statement whose three outcomes are checked separately. */
  lemma WriteKeeps(cfg: Config, db: Db, now: Time, p: Point, db': Db, o: Outcome, next: Option<Point>)
    requires StepKeeps(cfg, db, now, p, Effect(db', next))
    requires StepKeeps(cfg, db, now, p, Effect(db', None))
    requires StepKeeps(cfg, db, now, p, Effect(db, None))
    ensures StepKeeps(cfg, db, now, p, Write(db, db', o, next))
  {
  }

  lemma StatusWriteKeeps(cfg: Config, db: Db, now: Time, p: Point, t: Target, status: Status, o: Outcome,
                         next: Option<Point>)
    requires DbOk(cfg, db, now) && Known(db, t) && !Creating(p)
    requires t.source == ProgramSource ==> status == Verified || status == Revoked
    requires status == Verified ==> ProvenOrGone(db, t)
    requires next.Some? ==> PointOk(db, now, next.value)
    ensures StepKeeps(cfg, db, now, p, Write(db, SetStatus(db, t.id, status), o, next))
  {
    var db' := SetStatus(db, t.id, status);
    SetStatusSafe(cfg, db, now, t, status);
    if next.Some? { PointStable(db, db', now, now, next.value); }
    StatusBackedAfter(db, p, t, status, Effect(db', next));
    StatusBackedAfter(db, p, t, status, Effect(db', None));
    ReadKeeps(cfg, db, now, p, None);
    WriteKeeps(cfg, db, now, p, db', o, next);
  }

  lemma StatusBackedAfter(db: Db, p: Point, t: Target, status: Status, e: Effect)
    requires Keyed(db) && !Creating(p) && e.db == SetStatus(db, t.id, status) && Evolves(db, e.db)
    requires status == Verified ==> ProvenOrGone(db, t)
    ensures AllBacked(db, p, e)
  {
    SetStatusChanges(db, t.id, status);
    if status == Verified && t.id in db.targets { ProofSurvives(db, e.db, t.id); }
  }

  lemma DeleteKeeps(cfg: Config, db: Db, now: Time, p: Point, id: nat, o: Outcome)
    requires DbOk(cfg, db, now) && (Creating(p) ==> p.ProgramUndo? && p.t.id == id)
    ensures StepKeeps(cfg, db, now, p, Write(db, DeleteTarget(db, id), o, None))
  {
    hide DbOk, Evolves;
    DeleteTargetSafe(cfg, db, now, id);
    EvolvesReflexive(db);
  }

  lemma InsertTargetKeeps(cfg: Config, db: Db, now: Time, p: Point, kind: Kind, raw: string, userId: int, o: Outcome)
    requires DbOk(cfg, db, now) && KindAllowed(cfg, kind) && p.CreateInsert?
    ensures var (db', t) := InsertTarget(cfg.etld, db, userId, kind, raw, Unverified, CustomerSource);
            StepKeeps(cfg, db, now, p, Write(db, db', o, if t.Some? then Some(CreateIssue(t.value)) else None))
  {
    hide DbOk, Evolves;
    OkKeyed(cfg, db, now);
    EvolvesReflexive(db);
    InsertTargetSafe(cfg, db, now, userId, kind, raw, Unverified, CustomerSource);
    InsertTargetChanges(cfg, db, userId, kind, raw, Unverified, CustomerSource);
  }

  /** Recording an authorization in an operation that is not creating a program target. */
  lemma InsertKeeps(cfg: Config, db: Db, now: Time, p: Point, t: Target, d: Draft, o: Outcome,
                    next: Authorization -> Option<Point>)
    requires DbOk(cfg, db, now) && Known(db, t) && DraftOk(t, d, now) && !Creating(p)
    requires var (db', a) := InsertAuth(db, d, now);
             a.Some? && next(a.value).Some? && KnownRow(db', t, a.value)
             && (d.verifiedAt.Some? ==> HasProof(db', t.id)) && Known(db', t)
             ==> PointOk(db', now, next(a.value).value)
    ensures StepKeeps(cfg, db, now, p, Insert(db, d, now, o, next))
  {
    var (db', a) := InsertAuth(db, d, now);
    InsertAuthSafe(cfg, db, now, t, d);
    InsertAuthChanges(db, now, t, d);
    RowWriteKeeps(cfg, db, now, p, db', o, if a.Some? then next(a.value) else None);
  }

  lemma CreateKeeps(cfg: Config, db: Db, now: Time, p: Point, c: Choice)
    requires DbOk(cfg, db, now) && PointOk(db, now, p) && CreatePoint(p)
    ensures StepKeeps(cfg, db, now, p, StepCreate(cfg, db, now, p, c))
  {
    if p.CreateIssue? {
      InsertKeeps(cfg, db, now, p, p.t, ChallengeDraft(p.t, DefaultMethod(p.t.kind), c.token), c.outcome, a => None);
    } else if KindAllowed(cfg, p.kind) {
      InsertTargetKeeps(cfg, db, now, p, p.kind, p.raw, p.userId, c.outcome);
    } else {
      ReadKeeps(cfg, db, now, p, None);
    }
  }

  lemma GetKeeps(cfg: Config, db: Db, now: Time, p: Point, c: Choice)
    requires DbOk(cfg, db, now) && PointOk(db, now, p) && GetPoint(p)
    ensures StepKeeps(cfg, db, now, p, StepGet(db, now, p, c))
  {
    if p.GetIssue? {
      InsertKeeps(cfg, db, now, p, p.t, ChallengeDraft(p.t, DefaultMethod(p.t.kind), c.token), c.outcome, a => None);
    } else {
      ReadKeeps(cfg, db, now, p, StepGet(db, now, p, c).next);
    }
  }

  lemma VerifyReadKeeps(cfg: Config, db: Db, now: Time, p: Point, c: Choice)
    requires DbOk(cfg, db, now) && PointOk(db, now, p) && VerifyReading(p)
    ensures StepKeeps(cfg, db, now, p, StepVerifyRead(db, now, p, c))
  {
    VerifyReadNext(db, now, p, c);
    ReadKeeps(cfg, db, now, p, StepVerifyRead(db, now, p, c).next);
  }

  lemma VerifyReadNext(db: Db, now: Time, p: Point, c: Choice)
    requires Keyed(db) && PointOk(db, now, p) && VerifyReading(p)
    ensures var e := StepVerifyRead(db, now, p, c); e.db == db && (e.next.Some? ==> PointOk(db, now, e.next.value))
  {
    if p.VerifyAuth? { LatestKnown(db, p.t); }
  }

  lemma VerifyInsertKeeps(cfg: Config, db: Db, now: Time, p: Point, c: Choice)
    requires DbOk(cfg, db, now) && PointOk(db, now, p) && VerifyInserting(p)
    ensures StepKeeps(cfg, db, now, p, StepVerifyInsert(db, now, p, c))
  {
    var d := ChallengeDraft(p.t, p.how, if p.VerifyIssue? then c.token else p.auth.token);
    InsertKeeps(cfg, db, now, p, p.t, d, c.outcome, a => Some(VerifyBegin(p.t, a)));
  }

  lemma VerifyStatusKeeps(cfg: Config, db: Db, now: Time, p: Point, c: Choice)
    requires DbOk(cfg, db, now) && PointOk(db, now, p) && VerifyWriting(p)
    ensures StepKeeps(cfg, db, now, p, StepVerifyStatus(db, p, c))
  {
    match p
    case VerifyBegin(t, a) => StatusWriteKeeps(cfg, db, now, p, t, Verifying, c.outcome, Some(VerifyCheck(t, a)));
    case VerifyFailed(t) => StatusWriteKeeps(cfg, db, now, p, t, Unverified, c.outcome, None);
    case VerifyDone(t) => StatusWriteKeeps(cfg, db, now, p, t, Verified, c.outcome, None);
  }

  lemma VerifyMarkKeeps(cfg: Config, db: Db, now: Time, p: Point, c: Choice)
    requires DbOk(cfg, db, now) && PointOk(db, now, p) && p.VerifyMark?
    ensures StepKeeps(cfg, db, now, p, StepVerifyMark(db, now, p, c))
  {
    hide DbOk, Evolves, StepKeeps;
    OkKeyed(cfg, db, now);
    MarkVerifiedSafe(cfg, db, now, p.auth.id, p.expires, None);
    MarkVerifiedChanges(db, now, p.t, p.auth, p.expires, None);
    var db' := MarkVerified(db, p.auth.id, p.expires, None, now);
    RowWriteKeeps(cfg, db, now, p, db', c.outcome, Some(VerifyDone(p.t)));
  }

  lemma ProgramAuthKeeps(cfg: Config, db: Db, now: Time, p: Point, c: Choice)
    requires DbOk(cfg, db, now) && PointOk(db, now, p) && p.ProgramAuth?
    ensures StepKeeps(cfg, db, now, p, StepProgram(cfg, db, now, p, c))
  {
    hide DbOk, Evolves;
    OkKeyed(cfg, db, now);
    var d := AdminDraft(p.t, ProgramMethod, p.stamp, p.expires, p.evidence);
    var (db', a) := InsertAuth(db, d, now);
    InsertAuthSafe(cfg, db, now, p.t, d);
    InsertAuthChanges(db, now, p.t, d);
    ProgramAuthBacked(db, p, db', a);
    ReadKeeps(cfg, db, now, p, Some(ProgramUndo(p.t)));
  }

  /** The authorization of a program target either exists afterwards or its creation is undone next. */
  lemma ProgramAuthBacked(db: Db, p: Point, db': Db, a: Option<Authorization>)
    requires p.ProgramAuth? && db'.targets == db.targets
    requires a.Some? ==> HasProof(db', p.t.id)
    requires a.None? ==> p.t.id !in db.targets
    ensures AllBacked(db, p, Effect(db', None))
    ensures AllBacked(db, p, Effect(db', Some(ProgramUndo(p.t))))
  {
  }

  /** The insert that starts a program target, as one write. */
  function ProgramInsertEffect(cfg: Config, db: Db, p: Point, o: Outcome): Effect
    requires p.ProgramInsert?
  {
    var (db', t) := InsertTarget(cfg.etld, db, p.owner, p.kind, p.raw, Verified, ProgramSource);
    Write(db, db', o, if t.Some? then Some(ProgramStamp(t.value, DaysOrDefault(p.days), p.evidence)) else None)
  }

  lemma ProgramInsertBacked(cfg: Config, db: Db, p: Point, o: Outcome)
    requires Keyed(db) && p.ProgramInsert?
    ensures AllBacked(db, p, ProgramInsertEffect(cfg, db, p, o))
  {
    InsertTargetChanges(cfg, db, p.owner, p.kind, p.raw, Verified, ProgramSource);
  }

  lemma ProgramInsertKeeps(cfg: Config, db: Db, now: Time, p: Point, o: Outcome)
    requires DbOk(cfg, db, now) && PointOk(db, now, p) && p.ProgramInsert? && KindAllowed(cfg, p.kind)
    ensures StepKeeps(cfg, db, now, p, ProgramInsertEffect(cfg, db, p, o))
  {
    hide DbOk, Evolves;
    OkKeyed(cfg, db, now);
    EvolvesReflexive(db);
    InsertTargetSafe(cfg, db, now, p.owner, p.kind, p.raw, Verified, ProgramSource);
    InsertTargetChanges(cfg, db, p.owner, p.kind, p.raw, Verified, ProgramSource);
    ProgramInsertBacked(cfg, db, p, o);
  }

  lemma ProgramKeeps(cfg: Config, db: Db, now: Time, p: Point, c: Choice)
    requires DbOk(cfg, db, now) && PointOk(db, now, p) && ProgramPoint(p)
    ensures StepKeeps(cfg, db, now, p, StepProgram(cfg, db, now, p, c))
  {
    if p.ProgramInsert? {
      if KindAllowed(cfg, p.kind) {
        ProgramInsertKeeps(cfg, db, now, p, c.outcome);
      } else {
        ReadKeeps(cfg, db, now, p, None);
      }
    } else if p.ProgramStamp? {
      ReadKeeps(cfg, db, now, p, Some(ProgramAuth(p.t, now, now + p.days * DAY, p.evidence)));
    } else if p.ProgramAuth? {
      ProgramAuthKeeps(cfg, db, now, p, c);
    } else {
      DeleteKeeps(cfg, db, now, p, p.t.id, c.outcome);
    }
  }

  lemma ManualReadKeeps(cfg: Config, db: Db, now: Time, p: Point, c: Choice)
    requires DbOk(cfg, db, now) && PointOk(db, now, p) && ManualReading(p)
    ensures StepKeeps(cfg, db, now, p, StepManualRead(cfg, db, now, p, c))
  {
    ManualReadNext(cfg, db, now, p, c);
    ReadKeeps(cfg, db, now, p, StepManualRead(cfg, db, now, p, c).next);
  }

  lemma ManualReadNext(cfg: Config, db: Db, now: Time, p: Point, c: Choice)
    requires Keyed(db) && PointOk(db, now, p) && ManualReading(p)
    ensures var e := StepManualRead(cfg, db, now, p, c); e.db == db && (e.next.Some? ==> PointOk(db, now, e.next.value))
  {
    if p.ManualAuth? { LatestKnown(db, p.t); }
  }

  lemma ManualWriteKeeps(cfg: Config, db: Db, now: Time, p: Point, c: Choice)
    requires DbOk(cfg, db, now) && PointOk(db, now, p) && ManualWriting(p)
    ensures StepKeeps(cfg, db, now, p, StepManualWrite(db, now, p, c))
  {
    hide DbOk, Evolves, StepKeeps;
    OkKeyed(cfg, db, now);
    if p.ManualMark? {
      MarkVerifiedSafe(cfg, db, now, p.auth.id, p.expires, p.evidence);
      MarkVerifiedChanges(db, now, p.t, p.auth, p.expires, p.evidence);
      RowWriteKeeps(cfg, db, now, p, MarkVerified(db, p.auth.id, p.expires, p.evidence, now), c.outcome,
          Some(ManualDone(p.t)));
    } else if p.ManualCreate? {
      var d := AdminDraft(p.t, ManualMethod, p.stamp, p.expires, p.evidence);
      InsertKeeps(cfg, db, now, p, p.t, d, c.outcome, a => Some(ManualDone(p.t)));
    } else {
      StatusWriteKeeps(cfg, db, now, p, p.t, Verified, c.outcome, None);
    }
  }

  lemma RemoveKeeps(cfg: Config, db: Db, now: Time, p: Point, c: Choice)
    requires DbOk(cfg, db, now) && PointOk(db, now, p) && RemovePoint(p)
    ensures StepKeeps(cfg, db, now, p, StepRemove(db, now, p, c))
  {
    hide DbOk, Evolves, StepKeeps;
    OkKeyed(cfg, db, now);
    if p.RevokeExpire? {
      ExpireActiveSafe(cfg, db, now, p.t.id);
      RowWriteKeeps(cfg, db, now, p, ExpireActive(db, p.t.id, now), c.outcome, Some(RevokeDone(p.t)));
    } else if p.RevokeDone? {
      StatusWriteKeeps(cfg, db, now, p, p.t, Revoked, c.outcome, None);
    } else if p.DeleteOwn? || p.DeleteRow? {
      DeleteKeeps(cfg, db, now, p, p.uid, c.outcome);
      DeleteNothingKeeps(cfg, db, now, p, c.outcome);
    } else {
      ReadKeeps(cfg, db, now, p, StepRemove(db, now, p, c).next);
    }
  }

  lemma DeleteNothingKeeps(cfg: Config, db: Db, now: Time, p: Point, o: Outcome)
    requires DbOk(cfg, db, now) && !Creating(p)
    ensures StepKeeps(cfg, db, now, p, Write(db, db, o, None))
  {
    ReadKeeps(cfg, db, now, p, None);
  }

  /** Every step of every operation, whatever the environment chooses. */
  lemma StepPointKeeps(cfg: Config, db: Db, now: Time, p: Point, c: Choice)
    requires DbOk(cfg, db, now) && PointOk(db, now, p)
    ensures StepKeeps(cfg, db, now, p, StepPoint(cfg, db, now, p, c))
  {
    hide DbOk, PointOk, StepKeeps, StepCreate, StepGet, StepVerifyRead, StepVerifyInsert, StepVerifyStatus;
    hide StepVerifyMark, StepProgram, StepManualRead, StepManualWrite, StepRemove;
    if CreatePoint(p) { CreateKeeps(cfg, db, now, p, c); }
    else if GetPoint(p) { GetKeeps(cfg, db, now, p, c); }
    else if VerifyReading(p) { VerifyReadKeeps(cfg, db, now, p, c); }
    else if VerifyInserting(p) { VerifyInsertKeeps(cfg, db, now, p, c); }
    else if VerifyWriting(p) { VerifyStatusKeeps(cfg, db, now, p, c); }
    else if p.VerifyMark? { VerifyMarkKeeps(cfg, db, now, p, c); }
    else if ProgramPoint(p) { ProgramKeeps(cfg, db, now, p, c); }
    else if ManualReading(p) { ManualReadKeeps(cfg, db, now, p, c); }
    else if ManualWriting(p) { ManualWriteKeeps(cfg, db, now, p, c); }
    else { RemoveKeeps(cfg, db, now, p, c); }
  }

  lemma RunKeeps(cfg: Config, s: State, r: nat, c: Choice)
    requires Inv(cfg, s) && r in s.requests
    ensures Inv(cfg, Apply(cfg, s, Run(r, c)))
  {
    var p := s.requests[r];
    var e := StepPoint(cfg, s.db, s.now, p, c);
    var s' := Apply(cfg, s, Run(r, c));
    StepPointKeeps(cfg, s.db, s.now, p, c);
    forall q | q in s'.requests ensures PointOk(s'.db, s'.now, s'.requests[q]) {
      if q != r { PointStable(s.db, s'.db, s.now, s.now, s.requests[q]); }
    }
    forall i | i in s'.db.targets ensures StatusBacked(s', i) {
      assert Backed(s.db, p, e, i);
      if s'.db.targets[i].status == Verified && !HasProof(s'.db, i) {
        BackedAfterRun(cfg, s, r, c, i);
      }
    }
  }

  lemma BackedAfterRun(cfg: Config, s: State, r: nat, c: Choice, i: nat)
    requires Inv(cfg, s) && r in s.requests
    requires var e := StepPoint(cfg, s.db, s.now, s.requests[r], c);
             && Evolves(s.db, e.db)
             && i in e.db.targets && e.db.targets[i].status == Verified && !HasProof(e.db, i)
             && Backed(s.db, s.requests[r], e, i)
    ensures StatusBacked(Apply(cfg, s, Run(r, c)), i)
  {
    hide StepPoint, DbOk, PointOk;
    OkKeyed(cfg, s.db, s.now);
    var p := s.requests[r];
    var e := StepPoint(cfg, s.db, s.now, p, c);
    var s' := Apply(cfg, s, Run(r, c));
    if e.next.Some? && Creating(e.next.value) && e.next.value.t.id == i {
      assert s'.requests[r] == e.next.value;
      assert InCreation(s'.requests, i);
    }
    if i in s.db.targets && s.db.targets[i].status == Verified {
      assert StatusBacked(s, i);
      if HasProof(s.db, i) { ProofSurvives(s.db, e.db, i); }
      if InCreation(s.requests, i) && i !in s'.stranded {
        var q :| q in s.requests && Creating(s.requests[q]) && s.requests[q].t.id == i;
        if q != r { assert q in s'.requests && s'.requests[q] == s.requests[q]; }
      }
    }
  }

  lemma TickKeeps(cfg: Config, s: State, d: nat)
    requires Inv(cfg, s)
    ensures Inv(cfg, Apply(cfg, s, Tick(d)))
  {
    var s' := Apply(cfg, s, Tick(d));
    EvolvesReflexive(s.db);
    forall r | r in s'.requests ensures PointOk(s'.db, s'.now, s'.requests[r]) {
      PointStable(s.db, s.db, s.now, s'.now, s.requests[r]);
    }
    forall i | i in s'.db.targets ensures StatusBacked(s', i) { assert StatusBacked(s, i); }
  }

  lemma InitialOk(db: Db, now: Time, p: Point)
    requires Initial(p)
    ensures PointOk(db, now, p)
  {
  }

  lemma BeginKeeps(cfg: Config, s: State, r: nat, p: Point)
    requires Inv(cfg, s)
    ensures Inv(cfg, Apply(cfg, s, Begin(r, p)))
  {
    hide DbOk, PointOk;
    var s' := Apply(cfg, s, Begin(r, p));
    if Initial(p) { InitialOk(s.db, s.now, p); }
    forall i | i in s'.db.targets ensures StatusBacked(s', i) {
      assert StatusBacked(s, i);
      if InCreation(s.requests, i) {
        var q :| q in s.requests && Creating(s.requests[q]) && s.requests[q].t.id == i;
        assert q in s'.requests && s'.requests[q] == s.requests[q];
      }
    }
  }

  lemma CrashKeeps(cfg: Config, s: State, r: nat)
    requires Inv(cfg, s)
    ensures Inv(cfg, Apply(cfg, s, Crash(r)))
  {
    hide DbOk, PointOk;
    var s' := Apply(cfg, s, Crash(r));
    forall i | i in s'.db.targets ensures StatusBacked(s', i) {
      assert StatusBacked(s, i);
      if InCreation(s.requests, i) && i !in s'.stranded {
        var q :| q in s.requests && Creating(s.requests[q]) && s.requests[q].t.id == i;
        assert q in s'.requests && s'.requests[q] == s.requests[q];
      }
    }
  }

  lemma ApplyKeeps(cfg: Config, s: State, step: Step)
    requires Inv(cfg, s)
    ensures Inv(cfg, Apply(cfg, s, step))
  {
    match step
    case Tick(d) => TickKeeps(cfg, s, d);
    case Begin(r, p) => BeginKeeps(cfg, s, r, p);
    case Crash(r) => CrashKeeps(cfg, s, r);
    case Run(r, c) => if r in s.requests { RunKeeps(cfg, s, r, c); }
  }

  /** The invariant holds after every schedule, with failures and crashes anywhere. */
  lemma {:induction false} InvariantAlways(cfg: Config, steps: seq<Step>)
    ensures Inv(cfg, Exec(cfg, steps))
    decreases |steps|
  {
    if steps != [] {
      var n := |steps| - 1;
      InvariantAlways(cfg, steps[..n]);
      ApplyKeeps(cfg, Exec(cfg, steps[..n]), steps[n]);
    }
  }
}
