/**
 * The target service as it is written: methods that make one repository call after another and
 * return early on errors. Each method is proved to be a run of the program points of Lifecycle, so
 * everything proved of schedules holds of these methods, and to do what its callers are promised.
 */
module Service {
  import opened Model
  import opened Text
  import opened HostScope
  import opened Store
  import opened Lifecycle
  import opened Invariants
  import opened Sequential
  import Gate
  import Program
  import Runs

  /** The repositories, the clock and the network probes: everything a service method calls. */
  class Backend {
    const cfg: Config
    /** What the environment does at each call. */
    const env: nat -> Event
    var targets: map<nat, Target>
    var auths: map<nat, Authorization>
    var nextTarget: nat
    var nextAuth: nat
    var now: Time
    /** The number of calls made so far. */
    var pos: nat

    constructor (cfg: Config, env: nat -> Event)
      ensures this.cfg == cfg && this.env == env && Contents() == EMPTY_DB && now == 0 && pos == 0 && Valid()
    {
      this.cfg, this.env := cfg, env;
      targets, auths, nextTarget, nextAuth, now, pos := map[], map[], 0, 0, 0, 0;
      EmptyIsReachable(cfg);
    }

    ghost function Contents(): Db
      reads this
    {
      Db(targets, auths, nextTarget, nextAuth)
    }

    /** Some schedule leads to these tables at this time, so what holds of schedules holds of them. */
    ghost predicate Valid()
      reads this
    {
      Reachable(cfg, Contents(), now)
    }

    /** The lone request that stands at `p` now. */
    ghost function At(p: Option<Point>): Solo
      reads this
    {
      Solo(Contents(), now, p)
    }

    /** The method was a complete run of the operation that starts at `p`. */
    twostate predicate Ran(p: Point)
      reads this
    {
      Stands(Trace(cfg, old(At(Some(p))), env, old(pos)), pos, At(None))
    }

    /** Exactly one call has been made: its time has passed. */
    twostate predicate Called()
      reads this
    {
      pos == old(pos) + 1 && now == old(now) + env(old(pos)).wait
    }

    /** A call that runs a statement: it takes effect unless it failed, and reports only success. */
    twostate predicate Wrote(ok: bool, after: Db)
      reads this
    {
      var o := env(old(pos)).c.outcome;
      Called() && (ok <==> o.Done?) && Contents() == if o.Failed? then old(Contents()) else after
    }

    /** A call that only reads. */
    twostate predicate Read()
      reads this
    {
      Called() && Contents() == old(Contents())
    }

    /** Time passes and the environment decides about the call. */
    method Call() returns (c: Choice)
      modifies `now, `pos
      ensures Read() && c == env(old(pos)).c
    {
      var x := env(pos);
      now, pos := now + x.wait, pos + 1;
      c := x.c;
    }

    /** The token drawn for the next call. */
    method FreshToken() returns (token: string)
      ensures token == env(pos).c.token
    {
      token := env(pos).c.token;
    }

    /** One challenge check over the network. */
    method Probe(t: Target, auth: Authorization) returns (r: CheckResult)
      modifies this
      ensures Read() && r == RunCheck(t, auth, env(old(pos)).c.published)
    {
      var c := Call();
      r := RunCheck(t, auth, c.published);
    }

    method Clock() returns (t: Time)
      modifies this
      ensures Read() && t == now
    {
      var c := Call();
      t := now;
    }

    method InsertTargetRow(userId: int, kind: Kind, raw: string, status: Status, source: Source)
      returns (ok: bool, t: Option<Target>)
      modifies this
      ensures var r := InsertTarget(cfg.etld, old(Contents()), userId, kind, raw, status, source);
              Wrote(ok, r.0) && (ok ==> t == r.1)
    {
      var c := Call();
      ok, t := c.outcome.Done?, None;
      if c.outcome.Failed? { return; }
      var (value, domain) := NormalizeTargetValue(cfg.etld, kind, raw);
      if !Taken(Db(targets, auths, nextTarget, nextAuth), userId, kind, value) {
        var row := Target(nextTarget, userId, kind, value, domain, status, source);
        targets, nextTarget := targets[row.id := row], nextTarget + 1;
        t := Some(row);
      }
    }

    method GetByUID(userId: int, uid: nat) returns (t: Option<Target>)
      modifies this
      ensures Read()
      ensures t == if env(old(pos)).c.outcome.Done? then FindOwned(old(Contents()), userId, uid) else None
    {
      var c := Call();
      t := if c.outcome.Done? && uid in targets && targets[uid].userId == userId then Some(targets[uid]) else None;
    }

    method GetByUIDInternal(uid: nat) returns (t: Option<Target>)
      modifies this
      ensures Read()
      ensures t == if env(old(pos)).c.outcome.Done? then FindTarget(old(Contents()), uid) else None
    {
      var c := Call();
      t := if c.outcome.Done? && uid in targets then Some(targets[uid]) else None;
    }

    method UpdateStatus(id: nat, status: Status) returns (ok: bool)
      modifies this
      ensures Wrote(ok, SetStatus(old(Contents()), id, status))
    {
      var c := Call();
      ok := c.outcome.Done?;
      if !c.outcome.Failed? && id in targets {
        targets := targets[id := targets[id].(status := status)];
      }
    }

    method Remove(id: nat)
      modifies this
      ensures Contents() == DeleteTarget(old(Contents()), id) && now == old(now) && pos == old(pos)
    {
      targets := targets - {id};
      auths := map i | i in auths && auths[i].targetId != id :: auths[i];
    }

    method Delete(userId: int, uid: nat) returns (ok: bool)
      modifies this
      ensures Wrote(ok, DeleteOwned(old(Contents()), userId, uid))
    {
      var c := Call();
      ok := c.outcome.Done?;
      if !c.outcome.Failed? && uid in targets && targets[uid].userId == userId { Remove(uid); }
    }

    method DeleteByUID(uid: nat) returns (ok: bool)
      modifies this
      ensures Wrote(ok, DeleteTarget(old(Contents()), uid))
    {
      var c := Call();
      ok := c.outcome.Done?;
      if !c.outcome.Failed? { Remove(uid); }
    }

    method CreateAuthorization(d: Draft) returns (a: Option<Authorization>)
      modifies this
      ensures var r := InsertAuth(old(Contents()), d, now);
              && Called()
              && Contents() == (if env(old(pos)).c.outcome.Failed? then old(Contents()) else r.0)
              && a == (if env(old(pos)).c.outcome.Done? then r.1 else None)
    {
      var c := Call();
      a := None;
      if !c.outcome.Failed? && d.targetId in targets {
        var row := Authorization(nextAuth, d.targetId, d.means, d.token, d.scope.0, d.scope.1,
                                 d.verifiedAt, d.expiresAt, d.evidence, now);
        auths, nextAuth := auths[row.id := row], nextAuth + 1;
        if c.outcome.Done? { a := Some(row); }
      }
    }

    method MarkRow(id: nat, expires: Time, evidence: Evidence) returns (ok: bool)
      modifies this
      ensures Wrote(ok, MarkVerified(old(Contents()), id, expires, evidence, now))
    {
      var c := Call();
      ok := c.outcome.Done?;
      if !c.outcome.Failed? && id in auths {
        var kept := if evidence.Some? then evidence else auths[id].evidence;
        auths := auths[id := auths[id].(verifiedAt := Some(now), expiresAt := Some(expires), evidence := kept)];
      }
    }

    method ExpireActiveAuthorizations(targetId: nat) returns (ok: bool)
      modifies this
      ensures Wrote(ok, ExpireActive(old(Contents()), targetId, now))
    {
      var c := Call();
      ok := c.outcome.Done?;
      if !c.outcome.Failed? {
        auths := map i | i in auths ::
          if auths[i].targetId == targetId && Active(auths[i], now)
          then auths[i].(expiresAt := Some(now)) else auths[i];
      }
    }

    /** Every other row of the target was created earlier, or at the same time with a lower id. */
    ghost predicate Newest(i: nat, targetId: nat)
      reads this
    {
      && i in auths && auths[i].targetId == targetId
      && forall j :: j in auths && auths[j].targetId == targetId && j != i ==>
          auths[j].createdAt < auths[i].createdAt || (auths[j].createdAt == auths[i].createdAt && j < i)
    }

    /** The newest row of a target: latest creation time, then highest id. */
    method NewestRow(targetId: nat) returns (a: Option<Authorization>)
      ensures a == Latest(Contents(), targetId)
      ensures a.None? <==> forall j :: j in auths ==> auths[j].targetId != targetId
      ensures a.Some? ==> exists i :: Newest(i, targetId) && auths[i] == a.value
    {
      ghost var db := Contents();
      var left := set i | i in auths && auths[i].targetId == targetId;
      if left == {} {
        assert RowsOf(db, targetId) == left;
        return None;
      }
      var best: nat :| best in left;
      left := left - {best};
      while left != {}
        invariant forall i :: i in left ==> i in auths && auths[i].targetId == targetId
        invariant best in auths && auths[best].targetId == targetId
        invariant forall j :: j in auths && auths[j].targetId == targetId && j !in left ==> NotNewer(db, j, best)
        decreases |left|
      {
        var i: nat :| i in left;
        left := left - {i};
        if auths[i].createdAt > auths[best].createdAt
           || (auths[i].createdAt == auths[best].createdAt && i > best) {
          best := i;
        }
      }
      a := Some(auths[best]);
      NewestIsLatest(db, targetId, best);
    }

    method GetByTargetID(targetId: nat) returns (a: Option<Authorization>)
      modifies this
      ensures Read()
      ensures a == if env(old(pos)).c.outcome.Done? then Latest(old(Contents()), targetId) else None
    {
      var c := Call();
      a := None;
      if c.outcome.Done? { a := NewestRow(targetId); }
    }

    /** Exactly the rows of the target that are verified and not expired, in some order. */
    method ActiveRows(targetId: nat) returns (rows: seq<Authorization>)
      ensures forall a :: a in rows <==>
          exists i :: i in auths && auths[i] == a && a.targetId == targetId && Active(a, now)
    {
      var left := set i | i in auths && auths[i].targetId == targetId && Active(auths[i], now);
      rows := [];
      while left != {}
        invariant forall i :: i in left ==> i in auths && auths[i].targetId == targetId && Active(auths[i], now)
        invariant forall i :: i in auths && auths[i].targetId == targetId && Active(auths[i], now) ==>
            i in left || auths[i] in rows
        invariant forall a :: a in rows ==>
            exists i :: i in auths && auths[i] == a && a.targetId == targetId && Active(a, now)
        decreases |left|
      {
        var i: nat :| i in left;
        left := left - {i};
        rows := rows + [auths[i]];
      }
    }

    method GetActiveAuthorizations(targetId: nat) returns (rows: Option<seq<Authorization>>)
      modifies this
      ensures Read()
      ensures rows.Some? <==> env(old(pos)).c.outcome.Done?
      ensures rows.Some? ==> forall a :: a in rows.value <==>
                exists i :: i in auths && auths[i] == a && a.targetId == targetId && Active(a, now)
    {
      var c := Call();
      rows := None;
      if c.outcome.Done? {
        var active := ActiveRows(targetId);
        rows := Some(active);
      }
    }
  }

  /** Why a request was refused. */
  datatype Fault = KindUnsupported | TargetExists | NotFound | AdminAuthorized | NotProven | StorageFault

  datatype Reply = Fine | Refused(fault: Fault)

  class TargetService {
    const db: Backend

    constructor (db: Backend)
      ensures this.db == db
    {
      this.db := db;
    }

    /** A challenge was recorded now, unless the call failed, and is returned if it was reported done. */
    ghost predicate Issued(before: Db, t: Target, m: Method, token: string, o: Outcome, a: Option<Authorization>)
      reads db
    {
      var row := PendingRow(before.nextAuth, t, m, token, db.now);
      && db.auths == (if o.Failed? then before.auths else before.auths[row.id := row])
      && a == if o.Done? then Some(row) else None
    }

    /** Records a challenge with a fresh token. */
    method IssueChallenge(t: Target, m: Method) returns (a: Option<Authorization>)
      modifies db
      ensures db.Called()
      ensures var r := InsertAuth(old(db.Contents()), ChallengeDraft(t, m, db.env(old(db.pos)).c.token), db.now);
              && db.Contents() == (if db.env(old(db.pos)).c.outcome.Failed? then old(db.Contents()) else r.0)
              && a == (if db.env(old(db.pos)).c.outcome.Done? then r.1 else None)
      ensures t.id in db.targets ==>
                Issued(old(db.Contents()), t, m, db.env(old(db.pos)).c.token, db.env(old(db.pos)).c.outcome, a)
      ensures db.targets == old(db.targets)
    {
      var token := db.FreshToken();
      a := db.CreateAuthorization(ChallengeDraft(t, m, token));
    }

    method CreateTarget(userId: int, kind: Kind, raw: string)
      returns (r: Reply, t: Option<Target>, shown: Option<string>)
      requires db.Valid()
      modifies db
      ensures db.Valid()
      ensures r == Refused(KindUnsupported) <==> kind in {IpKind, CidrKind} && !db.cfg.ipTargetsEnabled
      ensures r == Refused(KindUnsupported) ==> unchanged(db)
      ensures r != Refused(KindUnsupported) ==>
                && db.Ran(CreateInsert(userId, kind, raw))
                && Created(old(db.Contents()), old(db.pos), r, t, shown, userId, kind, raw)
    {
      hide StepPoint, Stands, Reachable, InsertTarget, NewTarget, HasTarget;
      r, t, shown := Refused(KindUnsupported), None, None;
      if !KindAllowed(db.cfg, kind) { return; }
      ghost var s0 := db.At(Some(CreateInsert(userId, kind, raw)));
      ghost var tr := Trace(db.cfg, s0, db.env, db.pos);
      Starts(tr);
      InsertedIs(db.cfg.etld, s0.db, userId, kind, raw, Unverified, CustomerSource);
      var ok;
      ok, t := db.InsertTargetRow(userId, kind, raw, Unverified, CustomerSource);
      CreateStep(tr, tr.a, s0, CreateInsert(userId, kind, raw));
      if !ok || t.None? {
        RanValid(tr, db.pos, db.At(None));
        r := Refused(if ok then TargetExists else StorageFault);
        return;
      }
      ghost var s1 := db.At(Some(CreateIssue(t.value)));
      var auth := IssueChallenge(t.value, DefaultMethod(kind));
      CreateStep(tr, tr.a + 1, s1, CreateIssue(t.value));
      RanValid(tr, db.pos, db.At(None));
      r := Fine;
      if auth.Some? { shown := Some(auth.value.token); }
    }

    /**
     * How a registration ended that started with call `a`. It succeeds exactly if the target is new and
     * the insert did not fail; then a challenge with a fresh token is recorded, if that call does not
     * fail, and its token shown if that call is reported done.
     */
    ghost predicate Created(before: Db, a: nat, r: Reply, t: Option<Target>, shown: Option<string>, userId: int,
                            kind: Kind, raw: string)
      reads db
    {
      var row := NewTarget(db.cfg.etld, before.nextTarget, userId, kind, raw, Unverified, CustomerSource);
      var isNew := !HasTarget(before.targets, userId, kind, row.value);
      var n, x, y := before.nextAuth, db.env(a).c.outcome, db.env(a + 1).c;
      var means := if kind in {IpKind, CidrKind} then IpRegistry else DnsTxt;
      && (r == Refused(TargetExists) <==> x.Done? && !isNew)
      && (r.Fine? <==> x.Done? && isNew) && (r.Fine? ==> t == Some(row))
      && db.targets == (if isNew && !x.Failed? then before.targets[row.id := row] else before.targets)
      && (!r.Fine? ==> db.auths == before.auths && shown == None)
      && (r.Fine? ==>
          && db.auths == (if y.outcome.Failed? then before.auths
                          else before.auths[n := PendingRow(n, row, means, y.token, db.now)])
          && shown == if y.outcome.Done? then Some(y.token) else None)
    }

    method GetTarget(userId: int, uid: nat)
      returns (r: Reply, t: Option<Target>, auth: Option<Authorization>, shown: Option<string>)
      requires db.Valid()
      modifies db
      ensures db.Valid() && db.Ran(GetRead(userId, uid)) && db.targets == old(db.targets)
      ensures r == if t.Some? then Fine else Refused(NotFound)
      ensures t.Some? <==> db.env(old(db.pos)).c.outcome.Done? && Owned(old(db.Contents()), userId, uid)
      ensures t.Some? ==> t.value == old(db.targets)[uid] && Read(old(db.Contents()), old(db.pos) + 1, t.value, auth)
      ensures t.None? ==> auth.None? && db.auths == old(db.auths)
      ensures shown == if auth.Some? && t.value.status != Verified && auth.value.means in CHALLENGES
                          && auth.value.token != ""
                       then Some(auth.value.token) else None
    {
      hide StepPoint, Stands, Reachable, InsertAuth, Latest, PendingRow;
      r, t, auth, shown := Refused(NotFound), None, None, None;
      ghost var s0 := db.At(Some(GetRead(userId, uid)));
      ghost var tr := Trace(db.cfg, s0, db.env, db.pos);
      Starts(tr);
      t := db.GetByUID(userId, uid);
      GetStep(tr, tr.a, s0, GetRead(userId, uid));
      OwnId(db.cfg, s0.db, s0.now, uid);
      if t.None? { RanValid(tr, db.pos, db.At(None)); return; }
      r := Fine;
      auth := ReadAuth(tr, t.value);
      RanValid(tr, db.pos, db.At(None));
      if t.value.status != Verified && auth.Some? && IsChallenge(auth.value.means) && auth.value.token != "" {
        shown := Some(auth.value.token);
      }
    }

    /**
     * What is read of the target's rows by call `k`: the newest one; or, if none is found and the target
     * is a customer's and not verified, a challenge with a fresh token that is recorded now.
     */
    ghost predicate Read(before: Db, k: nat, t: Target, auth: Option<Authorization>)
      reads db
    {
      var newest := Seen(before, t.id, db.env(k).c.outcome);
      if newest.Some? || t.status == Verified || t.source == ProgramSource
      then db.auths == before.auths && auth == newest
      else
        var means := if t.kind in {IpKind, CidrKind} then IpRegistry else DnsTxt;
        Issued(before, t, means, db.env(k + 1).c.token, db.env(k + 1).c.outcome, auth)
    }

    method ReadAuth(ghost tr: Trace, t: Target) returns (auth: Option<Authorization>)
      requires Stands(tr, db.pos, db.At(Some(GetAuth(t))))
      requires tr.env == db.env && tr.cfg == db.cfg && t.id in db.targets
      modifies db
      ensures Stands(tr, db.pos, db.At(None)) && db.targets == old(db.targets)
      ensures Read(old(db.Contents()), old(db.pos), t, auth)
    {
      hide StepPoint, Stands, Latest, PendingRow;
      ghost var a, s0 := db.pos, db.At(Some(GetAuth(t)));
      auth := db.GetByTargetID(t.id);
      GetStep(tr, a, s0, GetAuth(t));
      if auth.None? && t.status != Verified && t.source != ProgramSource {
        ghost var s1 := db.At(Some(GetIssue(t)));
        auth := IssueChallenge(t, DefaultMethod(t.kind));
        GetStep(tr, a + 1, s1, GetIssue(t));
      }
    }

    /** The row was marked by call `m`, next to last, and lasts 60 days from the clock read before it. */
    ghost predicate MarkedFor60Days(row: nat, m: nat)
      reads db
    {
      var marked := db.now - db.env(m + 1).wait;
      && row in db.auths && db.auths[row].verifiedAt == Some(marked)
      && db.auths[row].expiresAt == Some(marked - db.env(m).wait + 60 * DAY)
    }

    /** Call `k`, a check, finds the token published in this way on the host of the value. */
    predicate Found(value: string, means: Method, token: string, k: nat) {
      means in CHALLENGES && Publication(NormalizeHost(value), means, token) in db.env(k).c.published
    }

    /** From call `b` on: the status is written, the token found, the row marked, and the status written again. */
    predicate Succeeds(value: string, means: Method, token: string, b: nat) {
      && db.env(b).c.outcome.Done? && Found(value, means, token, b + 1)
      && db.env(b + 3).c.outcome.Done? && db.env(b + 4).c.outcome.Done?
    }

    /** The status that an attempt from call `b` on leaves. */
    function StatusAfter(t: Target, means: Method, token: string, b: nat): Status {
      match db.env(b).c.outcome
      case Failed => t.status
      case Lost => Verifying
      case Done => StatusAfterCheck(t.(status := Verifying), Found(t.value, means, token, b + 1), b + 2)
    }

    /** The status that a check leaves whose recording starts with call `b`. */
    function StatusAfterCheck(t: Target, found: bool, b: nat): Status {
      if !found then (if db.env(b).c.outcome.Failed? then t.status else Unverified)
      else if db.env(b + 1).c.outcome.Done? && !db.env(b + 2).c.outcome.Failed? then Verified
      else t.status
    }

    /** Records a passed check: stamps the term, marks the row, then writes the status. */
    method RecordProof(ghost tr: Trace, t: Target, auth: Authorization) returns (r: Reply)
      requires Stands(tr, db.pos, db.At(Some(VerifyStamp(t, auth))))
      requires tr.env == db.env && tr.cfg == db.cfg
      requires t.id in db.targets && auth.id in db.auths
      modifies db
      ensures Stands(tr, db.pos, db.At(None)) && db.pos >= old(db.pos)
      ensures t.id in db.targets && db.targets == old(db.targets)[t.id := db.targets[t.id]]
      ensures SameTarget(old(db.targets)[t.id], db.targets[t.id])
      ensures auth.id in db.auths && LaterRow(old(db.auths)[auth.id], db.auths[auth.id])
      ensures db.auths == old(db.auths)[auth.id := db.auths[auth.id]]
      ensures r.Fine? || r == Refused(StorageFault)
      ensures r.Fine? <==> db.env(old(db.pos) + 1).c.outcome.Done? && db.env(old(db.pos) + 2).c.outcome.Done?
      ensures r.Fine? ==> MarkedFor60Days(auth.id, old(db.pos) + 1)
      ensures db.targets[t.id].status ==
              (if db.env(old(db.pos) + 1).c.outcome.Done? && !db.env(old(db.pos) + 2).c.outcome.Failed?
               then Verified else old(db.targets)[t.id].status)
    {
      hide StepPoint, Stands;
      ghost var a, s0 := db.pos, db.At(Some(VerifyStamp(t, auth)));
      var stamp := db.Clock();
      VerifyReadStep(tr, a, s0, VerifyStamp(t, auth));
      ghost var s1 := db.At(Some(VerifyMark(t, auth, stamp + CHALLENGE_TTL)));
      var marked := db.MarkRow(auth.id, stamp + CHALLENGE_TTL, None);
      VerifyMarkStep(tr, a + 1, s1);
      if !marked { return Refused(StorageFault); }
      ghost var s2 := db.At(Some(VerifyDone(t)));
      var done := db.UpdateStatus(t.id, Verified);
      VerifyStatusStep(tr, a + 2, s2, VerifyDone(t));
      r := if done then Fine else Refused(StorageFault);
    }

    /** Records a failed check; nothing is reported of how this write went. */
    method RecordFailure(ghost tr: Trace, t: Target)
      requires Stands(tr, db.pos, db.At(Some(VerifyFailed(t))))
      requires tr.env == db.env && tr.cfg == db.cfg
      requires t.id in db.targets
      modifies db
      ensures Stands(tr, db.pos, db.At(None)) && db.pos == old(db.pos) + 1
      ensures t.id in db.targets && db.targets == old(db.targets)[t.id := db.targets[t.id]]
      ensures SameTarget(old(db.targets)[t.id], db.targets[t.id]) && db.auths == old(db.auths)
      ensures db.targets[t.id].status ==
              if db.env(old(db.pos)).c.outcome.Failed? then old(db.targets)[t.id].status else Unverified
    {
      hide StepPoint, Stands;
      ghost var a, s0 := db.pos, db.At(Some(VerifyFailed(t)));
      var demoted := db.UpdateStatus(t.id, Unverified);
      VerifyStatusStep(tr, a, s0, VerifyFailed(t));
    }

    /** A check passes exactly for a token method whose token is published on the target's host. */
    lemma CheckFinds(t: Target, auth: Authorization, k: nat)
      ensures RunCheck(t, auth, db.env(k).c.published).Passed? <==> Found(t.value, auth.means, auth.token, k)
    {
    }

    /** The check, and what is recorded of it. */
    method Check(ghost tr: Trace, t: Target, auth: Authorization) returns (r: Reply)
      requires Stands(tr, db.pos, db.At(Some(VerifyCheck(t, auth))))
      requires tr.env == db.env && tr.cfg == db.cfg
      requires t.id in db.targets && auth.id in db.auths
      modifies db
      ensures Stands(tr, db.pos, db.At(None)) && db.pos >= old(db.pos)
      ensures t.id in db.targets && db.targets == old(db.targets)[t.id := db.targets[t.id]]
      ensures SameTarget(old(db.targets)[t.id], db.targets[t.id])
      ensures auth.id in db.auths && LaterRow(old(db.auths)[auth.id], db.auths[auth.id])
      ensures db.auths == old(db.auths)[auth.id := db.auths[auth.id]]
      ensures r.Fine? || r == Refused(StorageFault) || r == Refused(NotProven)
      ensures r.Fine? <==> Found(t.value, auth.means, auth.token, old(db.pos))
                           && db.env(old(db.pos) + 2).c.outcome.Done? && db.env(old(db.pos) + 3).c.outcome.Done?
      ensures r.Fine? ==> MarkedFor60Days(auth.id, old(db.pos) + 2)
      ensures db.targets[t.id].status ==
              StatusAfterCheck(old(db.targets)[t.id], Found(t.value, auth.means, auth.token, old(db.pos)),
                  old(db.pos) + 1)
    {
      hide StepPoint, Stands, NormalizeHost, MarkedFor60Days, RunCheck, IsChallenge, Found;
      ghost var a, s0 := db.pos, db.At(Some(VerifyCheck(t, auth)));
      var check := db.Probe(t, auth);
      VerifyReadStep(tr, a, s0, VerifyCheck(t, auth));
      CheckFinds(t, auth, a);
      if check.Passed? {
        r := RecordProof(tr, t, auth);
      } else {
        RecordFailure(tr, t);
        r := Refused(NotProven);
      }
    }

    /** The challenge attempt itself, from the status write on. */
    method Attempt(ghost tr: Trace, t: Target, auth: Authorization) returns (r: Reply)
      requires Stands(tr, db.pos, db.At(Some(VerifyBegin(t, auth))))
      requires tr.env == db.env && tr.cfg == db.cfg
      requires t.id in db.targets && db.targets[t.id] == t && auth.id in db.auths
      modifies db
      ensures Stands(tr, db.pos, db.At(None)) && db.pos >= old(db.pos)
      ensures t.id in db.targets && db.targets == old(db.targets)[t.id := db.targets[t.id]]
      ensures SameTarget(t, db.targets[t.id])
      ensures auth.id in db.auths && LaterRow(old(db.auths)[auth.id], db.auths[auth.id])
      ensures db.auths == old(db.auths)[auth.id := db.auths[auth.id]]
      ensures r.Fine? || r == Refused(StorageFault) || r == Refused(NotProven)
      ensures r.Fine? <==> Succeeds(t.value, auth.means, auth.token, old(db.pos))
      ensures r.Fine? ==> MarkedFor60Days(auth.id, old(db.pos) + 3)
      ensures db.targets[t.id].status == StatusAfter(t, auth.means, auth.token, old(db.pos))
    {
      hide StepPoint, Stands, MarkedFor60Days, Found;
      ghost var a, s0 := db.pos, db.At(Some(VerifyBegin(t, auth)));
      var begun := db.UpdateStatus(t.id, Verifying);
      VerifyStatusStep(tr, a, s0, VerifyBegin(t, auth));
      if !begun { return Refused(StorageFault); }
      r := Check(tr, t, auth);
    }

    /** Records a challenge, with a fresh token or with the one already published, and attempts it next. */
    method Challenge(ghost tr: Trace, ghost p: Point, t: Target, how: Method, token: string)
      returns (auth: Option<Authorization>)
      requires Stands(tr, db.pos, db.At(Some(p)))
      requires tr.env == db.env && tr.cfg == db.cfg
      requires VerifyInserting(p) && p.t == t && p.how == how && t.id in db.targets
      requires token == if p.VerifyIssue? then db.env(db.pos).c.token else p.auth.token
      modifies db
      ensures db.pos == old(db.pos) + 1 && db.targets == old(db.targets)
      ensures Stands(tr, db.pos, db.At(if auth.Some? then Some(VerifyBegin(t, auth.value)) else None))
      ensures auth.Some? <==> db.env(old(db.pos)).c.outcome.Done?
      ensures auth.Some? ==>
          auth.value.id in db.auths && db.auths[auth.value.id] == auth.value && auth.value.targetId == t.id
      ensures old(db.nextAuth) !in old(db.auths) ==>
                Settled(old(db.auths), db.auths, t.id, Claim(old(db.nextAuth), how, token, true), auth)
    {
      hide StepPoint, Stands, ScopeForTarget;
      ghost var a, s0 := db.pos, db.At(Some(p));
      auth := db.CreateAuthorization(ChallengeDraft(t, how, token));
      VerifyInsertStep(tr, a, s0, p);
    }

    /** The newest row, or a new challenge for the requested method. */
    method RowFor(ghost tr: Trace, t: Target, how: Method, latest: Option<Authorization>)
      returns (auth: Option<Authorization>)
      requires t.id in db.targets && db.nextAuth !in db.auths && t.source == CustomerSource && !AdminFound(latest)
      requires latest.Some? ==>
          latest.value.id in db.auths && db.auths[latest.value.id] == latest.value && latest.value.targetId == t.id
      requires Stands(tr, db.pos, db.At(AfterVerifyAuth(t, how, latest)))
      requires tr.env == db.env && tr.cfg == db.cfg
      modifies db
      ensures db.targets == old(db.targets)
      ensures Stands(tr, db.pos, db.At(if auth.Some? then Some(VerifyBegin(t, auth.value)) else None))
      ensures auth.Some? ==>
          auth.value.id in db.auths && db.auths[auth.value.id] == auth.value && auth.value.targetId == t.id
      ensures var claim := ClaimOf(latest, how, old(db.nextAuth), db.env(old(db.pos)).c.token);
              && Settled(old(db.auths), db.auths, t.id, claim, auth)
              && db.pos == old(db.pos) + (if claim.onNewRow then 1 else 0)
              && (auth.Some? <==> (claim.onNewRow ==> db.env(old(db.pos)).c.outcome.Done?))
    {
      hide StepPoint, Stands, Settled;
      if latest.None? {
        var token := db.FreshToken();
        auth := Challenge(tr, VerifyIssue(t, how), t, how, token);
      } else if how != latest.value.means && IsChallenge(how) && IsChallenge(latest.value.means)
          && latest.value.token != "" {
        auth := Challenge(tr, VerifySwitch(t, latest.value, how), t, how, latest.value.token);
      } else {
        auth := latest;
        SettledAlready(db.auths, latest.value);
      }
    }

    /** The row to attempt: the newest one, or a new challenge for the requested method. */
    method ChallengeFor(ghost tr: Trace, t: Target, how: Method)
      returns (fault: Option<Fault>, auth: Option<Authorization>)
      requires db.Valid() && t.id in db.targets
      requires Stands(tr, db.pos, db.At(Some(VerifyAuth(t, how))))
      requires tr.env == db.env && tr.cfg == db.cfg
      modifies db
      ensures db.pos > old(db.pos) && db.targets == old(db.targets)
      ensures fault.Some? ==> Stands(tr, db.pos, db.At(None))
      ensures fault == Some(AdminAuthorized) ==> db.Contents() == old(db.Contents())
      ensures var newest := Seen(old(db.Contents()), t.id, db.env(old(db.pos)).c.outcome);
              && (fault == Some(AdminAuthorized) <==> t.source == ProgramSource || AdminFound(newest))
              && (fault != Some(AdminAuthorized) ==>
                  var claim := ClaimOf(newest, how, old(db.nextAuth), db.env(old(db.pos) + 1).c.token);
                  && Settled(old(db.auths), db.auths, t.id, claim, auth)
                  && db.pos == old(db.pos) + (if claim.onNewRow then 2 else 1)
                  && (auth.Some? <==> (claim.onNewRow ==> db.env(old(db.pos) + 1).c.outcome.Done?)))
      ensures fault.None? || fault == Some(AdminAuthorized) || (fault == Some(StorageFault) && auth.None?)
      ensures fault.None? ==> auth.Some? && auth.value.id in db.auths && db.auths[auth.value.id] == auth.value
                              && auth.value.targetId == t.id && t.source == CustomerSource
                              && Stands(tr, db.pos, db.At(Some(VerifyBegin(t, auth.value))))
    {
      hide StepPoint, Stands, Reachable, Latest, Settled, ClaimOf;
      ghost var a, s0 := db.pos, db.At(Some(VerifyAuth(t, how)));
      NextRowIsFree(db.cfg, s0.db, s0.now);
      var latest := db.GetByTargetID(t.id);
      VerifyReadStep(tr, a, s0, VerifyAuth(t, how));
      LatestOwnId(db.cfg, s0.db, s0.now, t.id);
      if t.source == ProgramSource
         || (latest.Some? && IsAdminMethod(latest.value.means)) {
        return Some(AdminAuthorized), None;
      }
      auth := RowFor(tr, t, how, latest);
      fault := if auth.None? then Some(StorageFault) else None;
    }

    /**
     * How the request for this claim ended, whose calls after the lookup start at number `k`. No other
     * row has changed, the claimed one says what was to be published, and the request succeeded exactly
     * if that was found published on the target's host and no call failed; the row then lasts 60 days.
     * Of the targets only the status of this one has changed, to what the last effective write wrote.
     */
    ghost predicate Concluded(before: Db, r: Reply, uid: nat, claim: Claim, k: nat)
      reads db
    {
      var b := if claim.onNewRow then k + 1 else k;
      && uid in before.targets && OnlyClaimed(before.auths, db.auths, uid, claim)
      && (r.Fine? <==>
          && (claim.onNewRow ==> db.env(k).c.outcome.Done?)
          && Succeeds(before.targets[uid].value, claim.means, claim.token, b))
      && (r.Fine? ==> MarkedFor60Days(claim.row, b + 3))
      && var t := before.targets[uid];
      db.targets == before.targets[uid := t.(status :=
        if claim.onNewRow && !db.env(k).c.outcome.Done? then t.status
        else StatusAfter(t, claim.means, claim.token, b))]
    }

    /** A success leaves the target verified, with a verified row. */
    lemma SuccessIsProof(before: Db, r: Reply, uid: nat, claim: Claim, k: nat)
      requires Concluded(before, r, uid, claim, k)
      ensures uid in db.targets && SameTarget(before.targets[uid], db.targets[uid])
      ensures r.Fine? ==> db.targets[uid].status == Verified && HasProof(db.Contents(), uid)
    {
      if r.Fine? { assert claim.row in db.auths; }
    }

    /** Chooses the row and attempts it. */
    method Pursue(ghost tr: Trace, t: Target, how: Method) returns (r: Reply)
      requires db.Valid() && t.id in db.targets && db.targets[t.id] == t
      requires Stands(tr, db.pos, db.At(Some(VerifyAuth(t, how))))
      requires tr.env == db.env && tr.cfg == db.cfg
      modifies db
      ensures Stands(tr, db.pos, db.At(None)) && db.pos >= old(db.pos)
      ensures r == Refused(AdminAuthorized) ==> db.Contents() == old(db.Contents())
      ensures var newest := Seen(old(db.Contents()), t.id, db.env(old(db.pos)).c.outcome);
              && (r == Refused(AdminAuthorized) <==> t.source == ProgramSource || AdminFound(newest))
              && (r != Refused(AdminAuthorized) ==>
                  var claim := ClaimOf(newest, how, old(db.nextAuth), db.env(old(db.pos) + 1).c.token);
                  Concluded(old(db.Contents()), r, t.id, claim, old(db.pos) + 1))
      ensures r != Refused(NotFound)
      ensures r.Fine? ==> t.id in db.targets && SameTarget(t, db.targets[t.id])
                          && db.targets[t.id].status == Verified && HasProof(db.Contents(), t.id)
    {
      hide StepPoint, Stands, Reachable, Latest, NormalizeHost, MarkedFor60Days, OnlyClaimed, ClaimOf, StatusAfter;
      var fault, auth := ChallengeFor(tr, t, how);
      ghost var rows := db.auths;
      if fault.Some? { return Refused(fault.value); }
      r := Attempt(tr, t, auth.value);
      ghost var newest := Seen(old(db.Contents()), t.id, db.env(old(db.pos)).c.outcome);
      ghost var claim := ClaimOf(newest, how, old(db.nextAuth), db.env(old(db.pos) + 1).c.token);
      AttemptedOnly(old(db.auths), rows, db.auths, auth.value, claim, t.id);
      SuccessIsProof(old(db.Contents()), r, t.id, claim, old(db.pos) + 1);
    }

    method TriggerVerification(userId: int, uid: nat, how: Method) returns (r: Reply)
      requires db.Valid() && how != ProgramMethod && how != ManualMethod
      modifies db
      ensures db.Valid() && db.Ran(VerifyRead(userId, uid, how))
      ensures r.Fine? ==>
                && uid in db.targets && db.targets[uid].status == Verified && db.targets[uid].source == CustomerSource
                && HasProof(db.Contents(), uid)
      ensures r == Refused(NotFound) <==>
          !(db.env(old(db.pos)).c.outcome.Done? && Owned(old(db.Contents()), userId, uid))
      ensures r == Refused(NotFound) || r == Refused(AdminAuthorized) ==> db.Contents() == old(db.Contents())
      ensures r != Refused(NotFound) ==>
                var before := old(db.Contents());
                var newest := Seen(before, uid, db.env(old(db.pos) + 1).c.outcome);
                && (r == Refused(AdminAuthorized) <==>
                    || before.targets[uid].source == ProgramSource
                    || (newest.Some? && newest.value.means in {ProgramMethod, ManualMethod}))
                && (r != Refused(AdminAuthorized) ==>
                    var n, k := before.nextAuth, old(db.pos) + 2;
                    match newest
                    case None => Concluded(before, r, uid, Claim(n, how, db.env(k).c.token, true), k)
                    case Some(a) =>
                      if how in CHALLENGES && a.means in CHALLENGES && how != a.means && a.token != ""
                      then Concluded(before, r, uid, Claim(n, how, a.token, true), k)
                      else Concluded(before, r, uid, Claim(a.id, a.means, a.token, false), k))
    {
      hide StepPoint, Stands, Reachable, Latest, Concluded;
      ghost var s0 := db.At(Some(VerifyRead(userId, uid, how)));
      ghost var tr := Trace(db.cfg, s0, db.env, db.pos);
      Starts(tr);
      var t := db.GetByUID(userId, uid);
      VerifyReadStep(tr, tr.a, s0, VerifyRead(userId, uid, how));
      OwnId(db.cfg, s0.db, s0.now, uid);
      if t.None? { RanValid(tr, db.pos, db.At(None)); return Refused(NotFound); }
      StillValid(db.cfg, s0.db, s0.now, db.now);
      r := Pursue(tr, t.value, how);
      RanValid(tr, db.pos, db.At(None));
    }

    method CreateProgramTarget(adminId: int, userId: int, kind: Kind, raw: string, days: nat, evidence: Evidence)
      returns (r: Reply)
      requires db.Valid() && days <= 365
      modifies db
      ensures db.Valid()
      ensures r == Refused(KindUnsupported) <==> kind in {IpKind, CidrKind} && !db.cfg.ipTargetsEnabled
      ensures r == Refused(KindUnsupported) ==> unchanged(db)
      ensures r != Refused(KindUnsupported) ==>
                var owner := if userId == 0 then adminId else userId;
                db.Ran(ProgramInsert(owner, kind, raw, days, evidence))
                    && Registered(r, owner, kind, raw, days, evidence)
    {
      hide Reachable, Registered;
      if !KindAllowed(db.cfg, kind) { return Refused(KindUnsupported); }
      var owner := if userId == 0 then adminId else userId;
      r := RegisterProgram(owner, kind, raw, days, evidence);
    }

    /**
     * How the registration of a program target ended. It succeeds exactly if the target is new and no
     * insert failed, and then has added exactly the target with its row, which lasts the days asked
     * for, or 90, from the clock read in between. The targets are as before unless the first insert
     * remains, and the new one is without its row exactly if the creation broke off.
     */
    twostate predicate Registered(r: Reply, owner: int, kind: Kind, raw: string, days: nat, evidence: Evidence)
      reads db
    {
      var a, n := old(db.pos), old(db.nextAuth);
      var t := NewTarget(db.cfg.etld, old(db.nextTarget), owner, kind, raw, Verified, ProgramSource);
      var isNew := !HasTarget(old(db.targets), owner, kind, t.value);
      var stamp := old(db.now) + db.env(a).wait + db.env(a + 1).wait;
      var until := stamp + (if days > 0 then days else 90) * DAY;
      && (r == Refused(TargetExists) <==> db.env(a).c.outcome.Done? && !isNew)
      && (r.Fine? <==> db.env(a).c.outcome.Done? && isNew && db.env(a + 2).c.outcome.Done?)
      && (r.Fine? ==> db.auths == old(db.auths)[n := AdminRow(n, t, ProgramMethod, stamp, until, evidence, db.now)])
      && GrantsUntil(old(db.auths), db.auths, until)
      && db.targets == (if isNew && Remains(a) then old(db.targets)[t.id := t] else old(db.targets))
      && (Rowless(db.Contents(), t.id) <==> isNew && BrokenOff(a))
    }

    method RegisterProgram(owner: int, kind: Kind, raw: string, days: nat, evidence: Evidence) returns (r: Reply)
      requires db.Valid() && days <= 365 && KindAllowed(db.cfg, kind)
      modifies db
      ensures db.Valid() && db.Ran(ProgramInsert(owner, kind, raw, days, evidence))
      ensures r != Refused(KindUnsupported) && Registered(r, owner, kind, raw, days, evidence)
    {
      hide StepPoint, Stands, Reachable, InsertTarget, NewTarget, DaysOrDefault, HasProof, GrantsUntil, AdminRow;
      hide HasTarget;
      DaysMean(days);
      NextRowIsFree(db.cfg, db.Contents(), db.now);
      ghost var s0 := db.At(Some(ProgramInsert(owner, kind, raw, days, evidence)));
      ghost var tr := Trace(db.cfg, s0, db.env, db.pos);
      Starts(tr);
      InsertedIs(db.cfg.etld, s0.db, owner, kind, raw, Verified, ProgramSource);
      var ok, t := db.InsertTargetRow(owner, kind, raw, Verified, ProgramSource);
      ProgramStep(tr, tr.a, s0, ProgramInsert(owner, kind, raw, days, evidence));
      NewIdHasNoRows(db.cfg, s0.db, s0.now, db.Contents());
      NoneGranted(db.auths, old(db.now) + db.env(tr.a).wait + db.env(tr.a + 1).wait + DaysOrDefault(days) * DAY);
      if !ok || t.None? {
        RanValid(tr, db.pos, db.At(None));
        return Refused(if ok then TargetExists else StorageFault);
      }
      r := StampProgram(tr, t.value, days, evidence);
      RanValid(tr, db.pos, db.At(None));
      FreshId(db.cfg, s0.db, s0.now, t.value);
    }

    /** The first insert took effect, and was not undone. */
    ghost predicate Remains(a: nat)
      reads db
    {
      db.env(a).c.outcome.Lost?
      || (db.env(a).c.outcome.Done? && (db.env(a + 2).c.outcome.Done? || db.env(a + 3).c.outcome.Failed?))
    }

    /** The first insert took effect unreported, or the second one and its compensation both failed. */
    ghost predicate BrokenOff(a: nat)
      reads db
    {
      db.env(a).c.outcome.Lost?
      || (db.env(a).c.outcome.Done? && db.env(a + 2).c.outcome.Failed? && db.env(a + 3).c.outcome.Failed?)
    }

    /** The term of a program target counts from a clock read of its own. */
    method StampProgram(ghost tr: Trace, t: Target, days: nat, evidence: Evidence) returns (r: Reply)
      requires Stands(tr, db.pos, db.At(Some(ProgramStamp(t, DaysOrDefault(days), evidence))))
      requires tr.env == db.env && tr.cfg == db.cfg
      requires t.id in db.targets && db.nextAuth !in db.auths
      modifies db
      ensures Stands(tr, db.pos, db.At(None)) && db.pos > old(db.pos)
      ensures r.Fine? <==> db.env(old(db.pos) + 1).c.outcome.Done?
      ensures r.Fine? ==> HasProof(db.Contents(), t.id)
      ensures var stamp, n := old(db.now) + db.env(old(db.pos)).wait, old(db.nextAuth);
              var until := stamp + (if days > 0 then days else 90) * DAY;
              && (r.Fine? ==> db.auths == old(db.auths)[n :=
                    AdminRow(n, t, ProgramMethod, stamp, until, evidence, db.now)])
              && GrantsUntil(old(db.auths), db.auths, until)
      ensures !HasProof(old(db.Contents()), t.id) ==>
                (Rowless(db.Contents(), t.id) <==>
                    db.env(old(db.pos) + 1).c.outcome.Failed? && db.env(old(db.pos) + 2).c.outcome.Failed?)
      ensures r.Fine? || r == Refused(StorageFault)
      ensures db.targets == if r.Fine? || db.env(old(db.pos) + 2).c.outcome.Failed? then old(db.targets)
                            else old(db.targets) - {t.id}
    {
      hide StepPoint, Stands, DaysOrDefault, HasProof, GrantsUntil, AdminRow;
      DaysMean(days);
      ghost var s0 := db.At(Some(ProgramStamp(t, DaysOrDefault(days), evidence)));
      var stamp := db.Clock();
      ProgramStep(tr, old(db.pos), s0, ProgramStamp(t, DaysOrDefault(days), evidence));
      var expires := stamp + DaysOrDefault(days) * DAY;
      r := AuthorizeProgram(tr, t, stamp, expires, evidence);
    }

    /** The second insert of a program target; when it fails the first one is undone. */
    method AuthorizeProgram(ghost tr: Trace, t: Target, stamp: Time, expires: Time, evidence: Evidence)
      returns (r: Reply)
      requires Stands(tr, db.pos, db.At(Some(ProgramAuth(t, stamp, expires, evidence))))
      requires tr.env == db.env && tr.cfg == db.cfg
      requires t.id in db.targets
      modifies db
      ensures Stands(tr, db.pos, db.At(None)) && db.pos > old(db.pos)
      ensures r.Fine? <==> db.env(old(db.pos)).c.outcome.Done?
      ensures r.Fine? ==> HasProof(db.Contents(), t.id)
      ensures var n := old(db.nextAuth);
              var row := AdminRow(n, t, ProgramMethod, stamp, expires, evidence, db.now);
              && (r.Fine? ==> db.auths == old(db.auths)[n := row])
              && (n !in old(db.auths) ==> GrantsUntil(old(db.auths), db.auths, expires))
      ensures !HasProof(old(db.Contents()), t.id) ==>
                (Rowless(db.Contents(), t.id) <==>
                    db.env(old(db.pos)).c.outcome.Failed? && db.env(old(db.pos) + 1).c.outcome.Failed?)
      ensures r.Fine? || r == Refused(StorageFault)
      ensures db.targets == if r.Fine? || db.env(old(db.pos) + 1).c.outcome.Failed? then old(db.targets)
                            else old(db.targets) - {t.id}
    {
      hide StepPoint, Stands;
      ghost var a, s0 := db.pos, db.At(Some(ProgramAuth(t, stamp, expires, evidence)));
      var auth := db.CreateAuthorization(AdminDraft(t, ProgramMethod, stamp, expires, evidence));
      ProgramStep(tr, a, s0, ProgramAuth(t, stamp, expires, evidence));
      if auth.None? {
        if db.env(a).c.outcome.Lost? { assert db.auths[s0.db.nextAuth].targetId == t.id; }
        ghost var s1 := db.At(Some(ProgramUndo(t)));
        var undone := db.DeleteByUID(t.id);
        ProgramStep(tr, a + 1, s1, ProgramUndo(t));
        return Refused(StorageFault);
      }
      assert db.auths[auth.value.id] == auth.value;
      r := Fine;
    }

    method AuthorizeManually(uid: nat, days: nat, evidence: Evidence) returns (r: Reply)
      requires db.Valid() && days <= 365
      modifies db
      ensures db.Valid() && db.Ran(ManualRead(uid, days, evidence))
      ensures r == Refused(NotFound) <==> !(db.env(old(db.pos)).c.outcome.Done? && uid in old(db.targets))
      ensures r == Refused(KindUnsupported) <==>
                && db.env(old(db.pos)).c.outcome.Done? && uid in old(db.targets)
                && old(db.targets)[uid].kind in {IpKind, CidrKind} && !db.cfg.ipTargetsEnabled
      ensures r == Refused(NotFound) || r == Refused(KindUnsupported) ==> db.Contents() == old(db.Contents())
      ensures r != Refused(NotFound) && r != Refused(KindUnsupported) ==>

                var read := old(db.now) + db.env(old(db.pos)).wait;
                Authorized(old(db.Contents()), read, old(db.pos) + 1, r, uid, days, evidence)
      ensures r.Fine? ==>
                && HasProof(db.Contents(), uid)
                && (NewestHasAdminMethod(db.Contents(), uid) <==>
                    !(db.env(old(db.pos) + 2).c.outcome.Done? && NewestIsPending(old(db.Contents()), uid)))
    {
      hide StepPoint, Stands, Reachable, DaysOrDefault, Latest, NewestHasAdminMethod, NewestIsPending, GrantedRow;
      hide GrantsUntil, HasProof;
      DaysMean(days);
      ghost var s0 := db.At(Some(ManualRead(uid, days, evidence)));
      ghost var tr := Trace(db.cfg, s0, db.env, db.pos);
      Starts(tr);
      var t := db.GetByUIDInternal(uid);
      ManualReadStep(tr, tr.a, s0, ManualRead(uid, days, evidence));
      OwnId(db.cfg, s0.db, s0.now, uid);
      if t.None? { RanValid(tr, db.pos, db.At(None)); return Refused(NotFound); }
      if !KindAllowed(db.cfg, t.value.kind) { RanValid(tr, db.pos, db.At(None)); return Refused(KindUnsupported); }
      StillValid(db.cfg, s0.db, s0.now, db.now);
      r := StampManual(tr, t.value, days, evidence);
      RanValid(tr, db.pos, db.At(None));
    }

    /**
     * How an administrator's authorization ended whose call `a`, at this time, reads the clock. It succeeds exactly if
     * neither of its writes failed. Unless the first write failed without effect it has confirmed the
     * pending newest row or added a row of its own, and no other row; that row lasts the days asked
     * for, or 90, from the clock read before. The target is verified exactly if both writes took effect.
     */
    ghost predicate Authorized(before: Db, start: Time, a: nat, r: Reply, uid: nat, days: nat, evidence: Evidence)
      requires uid in before.targets
      reads db
    {
      var t := before.targets[uid];
      var stamp := start + db.env(a).wait;
      var until := stamp + (if days > 0 then days else 90) * DAY;
      var written := stamp + db.env(a + 1).wait + db.env(a + 2).wait;
      var row := GrantedRow(before, t, Seen(before, uid, db.env(a + 1).c.outcome), stamp, until, evidence, written);
      && (r.Fine? <==> db.env(a + 2).c.outcome.Done? && db.env(a + 3).c.outcome.Done?)
      && db.auths == (if db.env(a + 2).c.outcome.Failed? then before.auths else before.auths[row.id := row])
      && GrantsUntil(before.auths, db.auths, until)
      && db.targets == before.targets[uid := t.(status :=
           if db.env(a + 2).c.outcome.Done? && !db.env(a + 3).c.outcome.Failed? then Verified else t.status)]
    }

    /** The term of a manual authorization counts from a clock read of its own. */
    method StampManual(ghost tr: Trace, t: Target, days: nat, evidence: Evidence) returns (r: Reply)
      requires Stands(tr, db.pos, db.At(Some(ManualStamp(t, DaysOrDefault(days), evidence))))
      requires tr.env == db.env && tr.cfg == db.cfg
      requires db.Valid() && t.id in db.targets && db.targets[t.id] == t
      modifies db
      ensures Stands(tr, db.pos, db.At(None)) && db.pos > old(db.pos)
      ensures r.Fine? || r == Refused(StorageFault)
      ensures Authorized(old(db.Contents()), old(db.now), old(db.pos), r, t.id, days, evidence)
      ensures r.Fine? ==>
                && HasProof(db.Contents(), t.id)
                && (NewestHasAdminMethod(db.Contents(), t.id) <==>
                    !(db.env(old(db.pos) + 1).c.outcome.Done? && NewestIsPending(old(db.Contents()), t.id)))
    {
      hide StepPoint, Stands, Reachable, DaysOrDefault, Latest, NewestHasAdminMethod, NewestIsPending, GrantedRow;
      hide GrantsUntil;
      DaysMean(days);
      ghost var a, s0 := db.pos, db.At(Some(ManualStamp(t, DaysOrDefault(days), evidence)));
      var stamp := db.Clock();
      ManualReadStep(tr, a, s0, ManualStamp(t, DaysOrDefault(days), evidence));
      var expires := stamp + DaysOrDefault(days) * DAY;
      StillValid(db.cfg, s0.db, s0.now, db.now);
      var granted := Grant(tr, t, stamp, expires, evidence);
      if !granted { return Refused(StorageFault); }
      ghost var b, s3 := db.pos, db.At(Some(ManualDone(t)));
      var ok := db.UpdateStatus(t.id, Verified);
      ManualWriteStep(tr, b, s3, ManualDone(t));
      SameRowsSameMethod(s3.db, db.Contents(), t.id);
      r := if ok then Fine else Refused(StorageFault);
    }

    /** Confirms the newest row if it is pending, and records a new one otherwise. */
    method Grant(ghost tr: Trace, t: Target, stamp: Time, expires: Time, evidence: Evidence) returns (ok: bool)
      requires Stands(tr, db.pos, db.At(Some(ManualAuth(t, stamp, expires, evidence))))
      requires tr.env == db.env && tr.cfg == db.cfg
      requires db.Valid() && t.id in db.targets
      modifies db
      ensures Stands(tr, db.pos, db.At(if ok then Some(ManualDone(t)) else None)) && db.pos == old(db.pos) + 2
      ensures db.targets == old(db.targets) && (ok ==> HasProof(db.Contents(), t.id))
      ensures ok <==> db.env(old(db.pos) + 1).c.outcome.Done?
      ensures var newest := Seen(old(db.Contents()), t.id, db.env(old(db.pos)).c.outcome);
              var row := GrantedRow(old(db.Contents()), t, newest, stamp, expires, evidence, db.now);
              && db.auths == (if db.env(old(db.pos) + 1).c.outcome.Failed? then old(db.auths)
                              else old(db.auths)[row.id := row])
              && db.now == old(db.now) + db.env(old(db.pos)).wait + db.env(old(db.pos) + 1).wait
      ensures GrantsUntil(old(db.auths), db.auths, expires)
      ensures ok ==>
                (NewestHasAdminMethod(db.Contents(), t.id) <==>
                 !(db.env(old(db.pos)).c.outcome.Done? && NewestIsPending(old(db.Contents()), t.id)))
    {
      hide StepPoint, Stands, Reachable, NewestHasAdminMethod, GrantsUntil;
      ghost var b, s0 := db.pos, db.At(Some(ManualAuth(t, stamp, expires, evidence)));
      var latest := db.GetByTargetID(t.id);
      ManualReadStep(tr, b, s0, ManualAuth(t, stamp, expires, evidence));
      LatestOwnId(db.cfg, s0.db, s0.now, t.id);
      StillValid(db.cfg, s0.db, s0.now, db.now);
      if latest.Some? && latest.value.verifiedAt.None? {
        ok := ConfirmPending(tr, t, latest.value, expires, evidence);
      } else {
        ok := RecordManual(tr, t, stamp, expires, evidence);
      }
    }

    /** Confirms the pending challenge in place. */
    method ConfirmPending(ghost tr: Trace, t: Target, a: Authorization, expires: Time, evidence: Evidence)
      returns (ok: bool)
      requires Stands(tr, db.pos, db.At(Some(ManualMark(t, a, expires, evidence))))
      requires tr.env == db.env && tr.cfg == db.cfg
      requires db.Valid() && Latest(db.Contents(), t.id) == Some(a) && a.verifiedAt.None?
      modifies db
      ensures Stands(tr, db.pos, db.At(if ok then Some(ManualDone(t)) else None))
      ensures db.Called() && (ok <==> db.env(old(db.pos)).c.outcome.Done?)
      ensures db.auths == if db.env(old(db.pos)).c.outcome.Failed? then old(db.auths)
                          else old(db.auths)[a.id := Confirmed(a, expires, evidence, db.now)]
      ensures GrantsUntil(old(db.auths), db.auths, expires)
      ensures db.targets == old(db.targets) && (ok ==> HasProof(db.Contents(), t.id))
      ensures ok ==> !NewestHasAdminMethod(db.Contents(), t.id)
    {
      hide StepPoint, Stands, Reachable, Latest, GrantsUntil, NewestHasAdminMethod;
      ghost var b, s0 := db.pos, db.At(Some(ManualMark(t, a, expires, evidence)));
      ok := db.MarkRow(a.id, expires, evidence);
      ManualWriteStep(tr, b, s0, ManualMark(t, a, expires, evidence));
      ConfirmedKeepsMethod(db.cfg, s0.db, s0.now, t.id, a, expires, evidence, db.now);
      AddedUntil(s0.db.auths, Confirmed(a, expires, evidence, db.now), expires);
      NoneGranted(s0.db.auths, expires);
      assert a.id in db.auths;
    }

    /** Records a manual authorization of its own. */
    method RecordManual(ghost tr: Trace, t: Target, stamp: Time, expires: Time, evidence: Evidence) returns (ok: bool)
      requires Stands(tr, db.pos, db.At(Some(ManualCreate(t, stamp, expires, evidence))))
      requires tr.env == db.env && tr.cfg == db.cfg
      requires db.Valid() && t.id in db.targets
      modifies db
      ensures Stands(tr, db.pos, db.At(if ok then Some(ManualDone(t)) else None))
      ensures db.Called() && (ok <==> db.env(old(db.pos)).c.outcome.Done?)
      ensures var n := old(db.nextAuth);
              db.auths == if db.env(old(db.pos)).c.outcome.Failed? then old(db.auths)
                          else old(db.auths)[n := AdminRow(n, t, ManualMethod, stamp, expires, evidence, db.now)]
      ensures GrantsUntil(old(db.auths), db.auths, expires)
      ensures db.targets == old(db.targets) && (ok ==> HasProof(db.Contents(), t.id))
      ensures ok ==> NewestHasAdminMethod(db.Contents(), t.id)
    {
      hide StepPoint, Stands, Reachable, Latest, GrantsUntil, NewestHasAdminMethod;
      ghost var b, s0 := db.pos, db.At(Some(ManualCreate(t, stamp, expires, evidence)));
      var auth := db.CreateAuthorization(AdminDraft(t, ManualMethod, stamp, expires, evidence));
      ManualWriteStep(tr, b, s0, ManualCreate(t, stamp, expires, evidence));
      ok := auth.Some?;
      CreatedHasMethod(db.cfg, s0.db, s0.now, AdminDraft(t, ManualMethod, stamp, expires, evidence), db.now);
      AddedUntil(s0.db.auths, AdminRow(s0.db.nextAuth, t, ManualMethod, stamp, expires, evidence, db.now), expires);
      NoneGranted(s0.db.auths, expires);
      if ok { assert db.auths[auth.value.id] == auth.value; }
    }

    method DeleteTarget(userId: int, uid: nat) returns (r: Reply)
      requires db.Valid()
      modifies db
      ensures db.Valid() && db.Ran(DeleteOwn(userId, uid))
      ensures r == if db.env(old(db.pos)).c.outcome.Done? then Fine else Refused(StorageFault)
      ensures if Owned(old(db.Contents()), userId, uid) && !db.env(old(db.pos)).c.outcome.Failed?
              then Removed(old(db.Contents()), db.Contents(), uid) else db.Contents() == old(db.Contents())
    {
      hide StepPoint, Stands, Reachable, Removed;
      RemovedIs(db.Contents(), uid);
      ghost var s0 := db.At(Some(DeleteOwn(userId, uid)));
      ghost var tr := Trace(db.cfg, s0, db.env, db.pos);
      Starts(tr);
      var ok := db.Delete(userId, uid);
      RemoveStep(tr, tr.a, s0, DeleteOwn(userId, uid));
      RanValid(tr, db.pos, db.At(None));
      r := if ok then Fine else Refused(StorageFault);
    }

    method DeleteAny(uid: nat) returns (r: Reply)
      requires db.Valid()
      modifies db
      ensures db.Valid() && db.Ran(DeleteRead(uid))
      ensures var found := db.env(old(db.pos)).c.outcome.Done? && uid in old(db.targets);
              var o := db.env(old(db.pos) + 1).c.outcome;
              && r == (if !found then Refused(NotFound) else if o.Done? then Fine else Refused(StorageFault))
              && if found && !o.Failed? then Removed(old(db.Contents()), db.Contents(), uid)
                 else db.Contents() == old(db.Contents())
    {
      hide StepPoint, Stands, Reachable, Removed;
      RemovedIs(db.Contents(), uid);
      ghost var s0 := db.At(Some(DeleteRead(uid)));
      ghost var tr := Trace(db.cfg, s0, db.env, db.pos);
      Starts(tr);
      var t := db.GetByUIDInternal(uid);
      RemoveStep(tr, tr.a, s0, DeleteRead(uid));
      if t.None? { RanValid(tr, db.pos, db.At(None)); return Refused(NotFound); }
      ghost var s1 := db.At(Some(DeleteRow(uid)));
      var ok := db.DeleteByUID(uid);
      RemoveStep(tr, tr.a + 1, s1, DeleteRow(uid));
      RanValid(tr, db.pos, db.At(None));
      r := if ok then Fine else Refused(StorageFault);
    }

    method Revoke(uid: nat) returns (r: Reply)
      requires db.Valid()
      modifies db
      ensures db.Ran(RevokeRead(uid)) && db.Valid()
      ensures r == Refused(NotFound) <==> !(db.env(old(db.pos)).c.outcome.Done? && uid in old(db.targets))
      ensures r == Refused(NotFound) ==> db.Contents() == old(db.Contents())
      ensures r != Refused(NotFound) ==>
                var at := old(db.now) + db.env(old(db.pos)).wait + db.env(old(db.pos) + 1).wait;
                var x, y := db.env(old(db.pos) + 1).c.outcome, db.env(old(db.pos) + 2).c.outcome;
                && r == (if x.Done? && y.Done? then Fine else Refused(StorageFault))
                && (if x.Failed? then db.auths == old(db.auths) else Expired(old(db.auths), db.auths, uid, at))
                && db.targets == (if x.Done? && !y.Failed?
                                  then old(db.targets)[uid := old(db.targets)[uid].(status := Revoked)]
                                  else old(db.targets))
                && (!x.Failed? ==> NoneActive(db.Contents(), uid, db.now))
    {
      hide StepPoint, Stands, Reachable, NoneActive, Expired, ExpireActive;
      ghost var s0 := db.At(Some(RevokeRead(uid)));
      ghost var tr := Trace(db.cfg, s0, db.env, db.pos);
      Starts(tr);
      var t := db.GetByUIDInternal(uid);
      RemoveStep(tr, tr.a, s0, RevokeRead(uid));
      OwnId(db.cfg, s0.db, s0.now, uid);
      if t.None? { RanValid(tr, db.pos, db.At(None)); return Refused(NotFound); }
      ghost var s1 := db.At(Some(RevokeExpire(t.value)));
      var expired := db.ExpireActiveAuthorizations(t.value.id);
      RemoveStep(tr, tr.a + 1, s1, RevokeExpire(t.value));
      ExpiredIs(s1.db, uid, db.now);
      if !expired { RanValid(tr, db.pos, db.At(None)); return Refused(StorageFault); }
      ghost var s2 := db.At(Some(RevokeDone(t.value)));
      var ok := db.UpdateStatus(t.value.id, Revoked);
      RemoveStep(tr, tr.a + 2, s2, RevokeDone(t.value));
      SameRowsNoneActive(s2.db, db.Contents(), uid, s2.now, db.now);
      RanValid(tr, db.pos, db.At(None));
      r := if ok then Fine else Refused(StorageFault);
    }
  }

  /** The scope gate on the current tables. */
  class ScopeService {
    const db: Backend

    constructor (db: Backend)
      ensures this.db == db
    {
      this.db := db;
    }

    /** A row of the target that is verified and not expired now. */
    ghost predicate Current(i: nat, uid: nat)
      reads db
    {
      i in db.auths && db.auths[i].targetId == uid && Active(db.auths[i], db.now)
    }

    /** Some active row grants the request. */
    ghost predicate Granted(w: Gate.World, req: Gate.Request, uid: nat)
      reads db
    {
      exists i :: Current(i, uid) && Gate.Grants(w, req, db.auths[i])
    }

    /** Some active row settles the request and refuses it. */
    ghost predicate Contested(w: Gate.World, req: Gate.Request, uid: nat)
      reads db
    {
      exists i :: Current(i, uid) && Gate.Decisive(w, req, db.auths[i]) && !Gate.Grants(w, req, db.auths[i])
    }

    /** The current target passes the checks that no row decides. */
    ghost predicate Vetted(w: Gate.World, req: Gate.Request, uid: nat)
      reads db
    {
      uid in db.targets && Gate.EntryOk(req, Some(db.targets[uid])) && Gate.IpOk(w, req) && Gate.HostOk(w, req)
    }

    /** These are the active rows of the target, in some order. */
    ghost predicate Lists(rows: seq<Authorization>, uid: nat)
      reads db
    {
      forall a :: a in rows <==> exists i :: Current(i, uid) && db.auths[i] == a
    }

    /** Reads the target, then its active rows, and decides; `rows` is what the second read returned. */
    method CheckScope(w: Gate.World, uid: nat, req: Gate.Request)
      returns (r: Gate.Answer, ghost rows: Option<seq<Authorization>>)
      requires db.Valid()
      modifies db
      ensures db.Valid() && db.Contents() == old(db.Contents())
      ensures req.host == "" && req.ip == "" ==>
                unchanged(db) && r == Gate.Answer(Program.Deny(Program.HostOrIpRequired))
      ensures req.host != "" || req.ip != "" ==>
                var x, y := db.env(old(db.pos)).c.outcome, db.env(old(db.pos) + 1).c.outcome;
                if !x.Done? || uid !in db.targets
                then r == Gate.Answer(Program.Deny(Program.TargetNotFound))
                else if Gate.EntryOk(req, Some(db.targets[uid])) && !y.Done?
                then r == Gate.Outage
                else
                  && (Gate.EntryOk(req, Some(db.targets[uid])) ==> rows.Some? && Lists(rows.value, uid))
                  && r == Gate.Decide(w, req, Some(db.targets[uid]), rows)
                  && (Allowed(r) <==> Gate.Entitled(w, req, Some(db.targets[uid]), rows))
                  && (Allowed(r) ==> Vetted(w, req, uid) && Granted(w, req, uid))
                  && (Vetted(w, req, uid) && Granted(w, req, uid) && !Contested(w, req, uid) ==> Allowed(r))
      ensures Allowed(r) ==> !NoneActive(db.Contents(), uid, db.now) && Earned(db.cfg, db.Contents(), db.now, uid)
    {
      rows := None;
      if req.host == "" && req.ip == "" {
        return Gate.Answer(Program.Deny(Program.HostOrIpRequired)), None;
      }
      var t := db.GetByUIDInternal(uid);
      var auths := None;
      if Gate.EntryRefusal(req, t).None? {
        auths := db.GetActiveAuthorizations(t.value.id);
        rows := auths;
      }
      r := Gate.CheckScope(w, req, t, auths);
      ReachableLater(db.cfg, db.Contents(), old(db.now), db.now);
      Gate.DecideMeans(w, req, t, rows);
      Gate.RefusalsMean(w, req, t);
      if t.Some? && rows.Some? {
        OwnId(db.cfg, db.Contents(), db.now, uid);
        ListedDecide(w, uid, req, rows.value);
        if Allowed(r) { AllowIsEarned(db.cfg, db.Contents(), db.now, uid, w, req, t, rows.value); }
      }
    }

    predicate Allowed(r: Gate.Answer) {
      r.Answer? && r.response.authorized
    }

    /** What the gate decides on the listed rows, in terms of the table. */
    lemma ListedDecide(w: Gate.World, uid: nat, req: Gate.Request, rows: seq<Authorization>)
      requires uid in db.targets && Lists(rows, uid)
      ensures var allowed := Gate.Authorized(w, req, Some(db.targets[uid]), Some(rows));
              && (allowed ==> Vetted(w, req, uid) && Granted(w, req, uid))
              && (Vetted(w, req, uid) && Granted(w, req, uid) && !Contested(w, req, uid) ==> allowed)
    {
      hide Gate.Grants, Gate.Decisive, Gate.Authorized, Gate.EntryOk, Gate.IpOk, Gate.HostOk;
      Gate.DecideMeans(w, req, Some(db.targets[uid]), Some(rows));
      if Gate.Authorized(w, req, Some(db.targets[uid]), Some(rows)) {
        var k :| Gate.FirstDecisive(w, req, rows, k) && Gate.Grants(w, req, rows[k]);
        assert rows[k] in rows;
        var i :| Current(i, uid) && db.auths[i] == rows[k];
      }
      if Granted(w, req, uid) && !Contested(w, req, uid) {
        var i :| Current(i, uid) && Gate.Grants(w, req, db.auths[i]);
        assert db.auths[i] in rows;
        Gate.GrantingIsDecisive(w, req, db.auths[i]);
        Gate.FirstExists(w, req, rows, db.auths[i]);
        var k :| Gate.FirstDecisive(w, req, rows, k);
        assert rows[k] in rows;
        var j :| Current(j, uid) && db.auths[j] == rows[k];
        assert Gate.Grants(w, req, rows[k]);
      }
    }
  }

  /** The ways in which a token is published. */
  const CHALLENGES: set<Method> := {DnsTxt, HttpFile, MetaTag}

  /** A row that a verification attempts, and what has to be published for it. */
  datatype Claim = Claim(row: nat, means: Method, token: string, onNewRow: bool)

  /** The newest row as a request finds it whose lookup goes this way. */
  ghost function Seen(db: Db, uid: nat, o: Outcome): Option<Authorization> {
    if o.Done? then Latest(db, uid) else None
  }

  /** The newest row is an administrator's own. */
  predicate AdminFound(newest: Option<Authorization>) {
    newest.Some? && newest.value.means in {ProgramMethod, ManualMethod}
  }

  /** The user has a target of this kind with this value. */
  predicate HasTarget(targets: map<nat, Target>, userId: int, kind: Kind, value: string) {
    exists i :: i in targets
      && targets[i].userId == userId && targets[i].kind == kind && targets[i].value == value
  }

  /** A target as it is registered: the value trimmed and in lower case. */
  function NewTarget(etld: SuffixList, id: nat, owner: int, kind: Kind, raw: string, status: Status, source: Source)
    : Target
  {
    var value := ToLower(TrimSpace(raw));
    var domain := if kind in {DomainKind, UrlKind} then Some(ExtractRegistrableDomain(etld, value)) else None;
    Target(id, owner, kind, value, domain, status, source)
  }

  lemma InsertedIs(etld: SuffixList, db: Db, owner: int, kind: Kind, raw: string, status: Status, source: Source)
    ensures var (db', r) := InsertTarget(etld, db, owner, kind, raw, status, source);
            var t := NewTarget(etld, db.nextTarget, owner, kind, raw, status, source);
            && t.id == db.nextTarget && t.kind == kind && t.source == source && t.status == status
            && (r == if HasTarget(db.targets, owner, kind, t.value) then None else Some(t))
            && db' == if r.None? then db else db.(targets := db.targets[t.id := t], nextTarget := db.nextTarget + 1)
  {
  }

  /** The term asked for, or 90 days. */
  lemma DaysMean(days: nat)
    ensures DaysOrDefault(days) == if days > 0 then days else 90
  {
  }

  lemma NoneGranted(rows: map<nat, Authorization>, until: Time)
    ensures GrantsUntil(rows, rows, until)
  {
  }

  /** A row verified by an administrator. */
  function AdminRow(id: nat, t: Target, m: Method, stamp: Time, until: Time, evidence: Evidence, now: Time)
    : Authorization
  {
    Authorization(id, t.id, m, "", ScopeForTarget(t).0, ScopeForTarget(t).1, Some(stamp), Some(until), evidence, now)
  }

  /** A pending row after an administrator has confirmed it. */
  function Confirmed(a: Authorization, until: Time, evidence: Evidence, now: Time): Authorization {
    a.(verifiedAt := Some(now), expiresAt := Some(until), evidence := if evidence.Some? then evidence else a.evidence)
  }

  /** The row of a manual authorization: the newest one if it is pending, now confirmed, or else a new one. */
  function GrantedRow(before: Db, t: Target, newest: Option<Authorization>, stamp: Time, until: Time,
                     evidence: Evidence, now: Time)
    : Authorization
  {
    if newest.Some? && newest.value.verifiedAt.None? then Confirmed(newest.value, until, evidence, now)
    else AdminRow(before.nextAuth, t, ManualMethod, stamp, until, evidence, now)
  }

  /** The rows that have changed or come are active exactly until then. */
  ghost predicate GrantsUntil(before: map<nat, Authorization>, after: map<nat, Authorization>, until: Time) {
    forall i, now :: i in after && !(i in before && before[i] == after[i]) ==> (Active(after[i], now) <==> now < until)
  }

  lemma AddedUntil(before: map<nat, Authorization>, row: Authorization, until: Time)
    requires row.verifiedAt.Some? && row.expiresAt == Some(until)
    ensures GrantsUntil(before, before[row.id := row], until)
  {
  }

  /** A pending row for this token. */
  function PendingRow(id: nat, t: Target, m: Method, token: string, now: Time): Authorization {
    Authorization(id, t.id, m, token, ScopeForTarget(t).0, ScopeForTarget(t).1, None, None, None, now)
  }

  /**
   * What a request that asks for `how` claims, given the newest row it found: without one, a token
   * drawn for this method; if that row has a token for another method, the same token by this one;
   * and otherwise what that row says.
   */
  function ClaimOf(newest: Option<Authorization>, how: Method, next: nat, drawn: string): Claim {
    match newest
    case None => Claim(next, how, drawn, true)
    case Some(a) =>
      if how in CHALLENGES && a.means in CHALLENGES && how != a.means && a.token != ""
      then Claim(next, how, a.token, true)
      else Claim(a.id, a.means, a.token, false)
  }

  /** No row but the claimed one has changed or come, and that one is the target's and says what is claimed. */
  predicate OnlyClaimed(before: map<nat, Authorization>, after: map<nat, Authorization>, uid: nat, claim: Claim) {
    if claim.row !in after then after == before
    else
      var a := after[claim.row];
      && after == before[claim.row := a]
      && a.targetId == uid && a.means == claim.means && a.token == claim.token
  }

  /** The row for this claim is at hand, or at least no other row has changed. */
  predicate Settled(before: map<nat, Authorization>, after: map<nat, Authorization>, uid: nat, claim: Claim,
                    auth: Option<Authorization>)
  {
    match auth
    case Some(a) =>
      && a.id == claim.row && a.targetId == uid && a.means == claim.means && a.token == claim.token
      && after == before[a.id := a]
    case None => OnlyClaimed(before, after, uid, claim)
  }

  lemma SettledAlready(rows: map<nat, Authorization>, a: Authorization)
    requires a.id in rows && rows[a.id] == a
    ensures Settled(rows, rows, a.targetId, Claim(a.id, a.means, a.token, false), Some(a))
  {
  }

  lemma AttemptedOnly(before: map<nat, Authorization>, mid: map<nat, Authorization>, after: map<nat, Authorization>,
                      a: Authorization, claim: Claim, uid: nat)
    requires Settled(before, mid, uid, claim, Some(a))
    requires a.id in after && after == mid[a.id := after[a.id]] && LaterRow(a, after[a.id])
    ensures OnlyClaimed(before, after, uid, claim)
  {
  }

  predicate Owned(db: Db, userId: int, uid: nat) {
    uid in db.targets && db.targets[uid].userId == userId
  }

  /** The next id is unused. */
  lemma NextRowIsFree(cfg: Config, db: Db, now: Time)
    requires Reachable(cfg, db, now)
    ensures db.nextAuth !in db.auths
  {
    ReachableOk(cfg, db, now);
  }

  /** A target of which no row has ever been verified. */
  ghost predicate Rowless(db: Db, id: nat) {
    id in db.targets && !HasProof(db, id)
  }

  ghost predicate NoneActive(db: Db, id: nat, now: Time) {
    forall i :: i in db.auths && db.auths[i].targetId == id ==> !Active(db.auths[i], now)
  }

  /** Every schedule that leads here proved the target within its term and has not expired it since. */
  ghost predicate Earned(cfg: Config, db: Db, now: Time, id: nat) {
    forall steps | Exec(cfg, steps).db == db && Exec(cfg, steps).now == now ::
      exists row, j :: Runs.ValidProof(cfg, steps, id, row, j)
  }

  /** An allow on reachable tables is earned. */
  lemma AllowIsEarned(cfg: Config, db: Db, now: Time, id: nat, w: Gate.World, req: Gate.Request,
                      target: Option<Target>, rows: seq<Authorization>)
    requires Reachable(cfg, db, now) && Gate.Authorized(w, req, target, Some(rows))
    requires forall a :: a in rows ==>
               exists i :: i in db.auths && db.auths[i] == a && a.targetId == id && Active(a, now)
    ensures Earned(cfg, db, now, id)
  {
    hide Exec, Gate.Authorized, Runs.ValidProof;
    ReachableOk(cfg, db, now);
    forall steps | Exec(cfg, steps).db == db && Exec(cfg, steps).now == now
      ensures exists row, j :: Runs.ValidProof(cfg, steps, id, row, j)
    {
      assert Runs.CurrentRows(Exec(cfg, steps), id, rows);
      Runs.AuthorityIsEarned(cfg, steps, id, w, req, target, rows);
      var a, j :| a in rows && Runs.ValidProof(cfg, steps, id, a.id, j);
    }
  }

  /** Every row of the target that is verified and not expired ends at this moment, and no other row changes. */
  ghost predicate Expired(before: map<nat, Authorization>, after: map<nat, Authorization>, uid: nat, at: Time) {
    && after.Keys == before.Keys
    && forall i :: i in before ==>
        var a := before[i];
        after[i] == if a.targetId == uid && a.verifiedAt.Some? && (a.expiresAt.None? || a.expiresAt.value > at)
                    then a.(expiresAt := Some(at)) else a
  }

  lemma ExpiredIs(db: Db, id: nat, now: Time)
    ensures var db' := ExpireActive(db, id, now);
            && Expired(db.auths, db'.auths, id, now) && NoneActive(db', id, now)
            && db'.targets == db.targets && db'.nextTarget == db.nextTarget && db'.nextAuth == db.nextAuth
  {
  }

  lemma SameRowsNoneActive(db: Db, db': Db, id: nat, now: Time, later: Time)
    requires db'.auths == db.auths && now <= later
    ensures NoneActive(db, id, now) ==> NoneActive(db', id, later)
  {
  }

  /** The target and its rows are gone; everything else is as before. */
  ghost predicate Removed(before: Db, after: Db, uid: nat) {
    && after.targets == before.targets - {uid}
    && after.auths == (map i | i in before.auths && before.auths[i].targetId != uid :: before.auths[i])
    && after.nextTarget == before.nextTarget && after.nextAuth == before.nextAuth
  }

  lemma RemovedIs(db: Db, id: nat)
    ensures Removed(db, Store.DeleteTarget(db, id), id)
  {
  }

  /** The id of a row is its key. */
  lemma OwnId(cfg: Config, db: Db, now: Time, uid: nat)
    requires Reachable(cfg, db, now)
    ensures uid in db.targets ==> db.targets[uid].id == uid
  {
    ReachableOk(cfg, db, now);
  }

  lemma StillValid(cfg: Config, db: Db, now: Time, later: Time)
    requires Reachable(cfg, db, now) && now <= later
    ensures Reachable(cfg, db, later)
  {
    ReachableLater(cfg, db, now, later);
  }

  /** The next id is unused, and rows of the old table are not its rows. */
  lemma NewIdHasNoRows(cfg: Config, db: Db, now: Time, db': Db)
    requires Reachable(cfg, db, now) && db'.auths == db.auths
    ensures db.nextTarget !in db.targets && !HasProof(db', db.nextTarget)
  {
    ReachableOk(cfg, db, now);
  }

  /** A new target's id was not in use. */
  lemma FreshId(cfg: Config, db: Db, now: Time, t: Target)
    requires Reachable(cfg, db, now) && t.id == db.nextTarget
    ensures db.targets[t.id := t] - {t.id} == db.targets
  {
    ReachableOk(cfg, db, now);
    assert t.id !in db.targets;
  }

  lemma ConfirmedKeepsMethod(cfg: Config, db: Db, before: Time, uid: nat, a: Authorization, expires: Time,
                             evidence: Evidence, now: Time)
    requires Reachable(cfg, db, before) && Latest(db, uid) == Some(a) && a.verifiedAt.None?
    ensures a.id in db.auths && db.auths[a.id] == a && a.targetId == uid
    ensures !NewestHasAdminMethod(MarkVerified(db, a.id, expires, evidence, now), uid)
  {
    hide DbOk;
    ReachableOk(cfg, db, before);
    PendingStaysNewest(cfg, db, before, uid, a, expires, evidence, now);
  }

  lemma CreatedHasMethod(cfg: Config, db: Db, before: Time, d: Draft, now: Time)
    requires Reachable(cfg, db, before) && before <= now && IsAdminMethod(d.means)
    ensures var (db', a) := InsertAuth(db, d, now); a.Some? ==> NewestHasAdminMethod(db', d.targetId)
  {
    hide DbOk;
    ReachableOk(cfg, db, before);
    CreatedIsNewest(cfg, db, before, d, now);
  }

  lemma LatestOwnId(cfg: Config, db: Db, now: Time, uid: nat)
    requires Reachable(cfg, db, now)
    ensures var a := Latest(db, uid);
            a.Some? ==> a.value.id in db.auths && db.auths[a.value.id] == a.value && a.value.targetId == uid
  {
    ReachableOk(cfg, db, now);
  }

  // --- Following a run ----------------------------------------------------------------------------------

  /** A lone run: where it started and after how many calls. */
  datatype Trace = Trace(cfg: Config, start: Solo, env: nat -> Event, a: nat)

  /** After `b` calls the run stands at `s`. */
  ghost predicate Stands(tr: Trace, b: nat, s: Solo) {
    tr.a <= b && SoloRun(tr.cfg, tr.start, tr.env, tr.a, b) == s
  }

  lemma Starts(tr: Trace)
    ensures Stands(tr, tr.a, tr.start)
  {
  }

  /** The run stands where the effect of its last step leads. */
  ghost predicate Follows(tr: Trace, b: nat, s: Solo, e: Effect) {
    Stands(tr, b + 1, Solo(e.db, s.now + tr.env(b).wait, e.next))
  }

  lemma Follow(tr: Trace, b: nat, s: Solo, p: Point)
    requires Stands(tr, b, s) && s.at == Some(p)
    ensures Follows(tr, b, s, StepPoint(tr.cfg, s.db, s.now + tr.env(b).wait, p, tr.env(b).c))
  {
    hide StepPoint;
  }

  lemma CreateStep(tr: Trace, b: nat, s: Solo, p: Point)
    requires Stands(tr, b, s) && s.at == Some(p) && CreatePoint(p)
    ensures Follows(tr, b, s, StepCreate(tr.cfg, s.db, s.now + tr.env(b).wait, p, tr.env(b).c))
  {
    Follow(tr, b, s, p);
  }

  lemma GetStep(tr: Trace, b: nat, s: Solo, p: Point)
    requires Stands(tr, b, s) && s.at == Some(p) && GetPoint(p)
    ensures Follows(tr, b, s, StepGet(s.db, s.now + tr.env(b).wait, p, tr.env(b).c))
  {
    Follow(tr, b, s, p);
  }

  lemma VerifyReadStep(tr: Trace, b: nat, s: Solo, p: Point)
    requires Stands(tr, b, s) && s.at == Some(p) && VerifyReading(p)
    ensures Follows(tr, b, s, StepVerifyRead(s.db, s.now + tr.env(b).wait, p, tr.env(b).c))
  {
    Follow(tr, b, s, p);
  }

  lemma VerifyInsertStep(tr: Trace, b: nat, s: Solo, p: Point)
    requires Stands(tr, b, s) && s.at == Some(p) && VerifyInserting(p)
    ensures Follows(tr, b, s, StepVerifyInsert(s.db, s.now + tr.env(b).wait, p, tr.env(b).c))
  {
    Follow(tr, b, s, p);
  }

  lemma VerifyStatusStep(tr: Trace, b: nat, s: Solo, p: Point)
    requires Stands(tr, b, s) && s.at == Some(p) && VerifyWriting(p)
    ensures Follows(tr, b, s, StepVerifyStatus(s.db, p, tr.env(b).c))
  {
    Follow(tr, b, s, p);
  }

  lemma ProgramStep(tr: Trace, b: nat, s: Solo, p: Point)
    requires Stands(tr, b, s) && s.at == Some(p) && ProgramPoint(p)
    ensures Follows(tr, b, s, StepProgram(tr.cfg, s.db, s.now + tr.env(b).wait, p, tr.env(b).c))
  {
    Follow(tr, b, s, p);
  }

  lemma ManualReadStep(tr: Trace, b: nat, s: Solo, p: Point)
    requires Stands(tr, b, s) && s.at == Some(p) && ManualReading(p)
    ensures Follows(tr, b, s, StepManualRead(tr.cfg, s.db, s.now + tr.env(b).wait, p, tr.env(b).c))
  {
    Follow(tr, b, s, p);
  }

  lemma ManualWriteStep(tr: Trace, b: nat, s: Solo, p: Point)
    requires Stands(tr, b, s) && s.at == Some(p) && ManualWriting(p)
    ensures Follows(tr, b, s, StepManualWrite(s.db, s.now + tr.env(b).wait, p, tr.env(b).c))
  {
    Follow(tr, b, s, p);
  }

  lemma VerifyMarkStep(tr: Trace, b: nat, s: Solo)
    requires Stands(tr, b, s) && s.at.Some? && s.at.value.VerifyMark?
    ensures Follows(tr, b, s, StepVerifyMark(s.db, s.now + tr.env(b).wait, s.at.value, tr.env(b).c))
  {
    Follow(tr, b, s, s.at.value);
  }

  lemma RemoveStep(tr: Trace, b: nat, s: Solo, p: Point)
    requires Stands(tr, b, s) && s.at == Some(p) && RemovePoint(p)
    ensures Follows(tr, b, s, StepRemove(s.db, s.now + tr.env(b).wait, p, tr.env(b).c))
  {
    Follow(tr, b, s, p);
  }

  /** A complete run leads to reachable tables. */
  lemma RanValid(tr: Trace, b: nat, s: Solo)
    requires Reachable(tr.cfg, tr.start.db, tr.start.now) && tr.start.at.Some? && Initial(tr.start.at.value)
    requires Stands(tr, b, s)
    ensures Reachable(tr.cfg, s.db, s.now)
  {
    hide Reachable, Initial, SoloRun;
    SoloStaysReachable(tr.cfg, tr.start.db, tr.start.now, tr.start.at.value, tr.env, tr.a, b);
  }
}
