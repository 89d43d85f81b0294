/** The two tables and the single statements the repositories run on them. */
module Store {
  import opened Model
  import opened HostScope

  /** Rows by id; ids are handed out once and never again. */
  datatype Db = Db(
    targets: map<nat, Target>,
    auths: map<nat, Authorization>,
    nextTarget: nat,
    nextAuth: nat)

  const EMPTY_DB := Db(map[], map[], 0, 0)

  datatype Config = Config(etld: SuffixList, ipTargetsEnabled: bool)

  /** The columns given to an authorization insert. */
  datatype Draft = Draft(
    targetId: nat,
    means: Method,
    token: string,
    scope: (ScopeKind, string),
    verifiedAt: Option<Time>,
    expiresAt: Option<Time>,
    evidence: Evidence)

  predicate Taken(db: Db, userId: int, kind: Kind, value: string) {
    exists i :: i in db.targets
      && db.targets[i].userId == userId && db.targets[i].kind == kind && db.targets[i].value == value
  }

  /** INSERT of a target; no row comes back when (user, kind, value) exists already. */
  function InsertTarget(etld: SuffixList, db: Db, userId: int, kind: Kind, raw: string, status: Status, source: Source)
    : (Db, Option<Target>)
  {
    var (value, domain) := NormalizeTargetValue(etld, kind, raw);
    if Taken(db, userId, kind, value) then (db, None)
    else
      var t := Target(db.nextTarget, userId, kind, value, domain, status, source);
      (db.(targets := db.targets[t.id := t], nextTarget := db.nextTarget + 1), Some(t))
  }

  /** INSERT of an authorization; the foreign key refuses a missing target. */
  function InsertAuth(db: Db, d: Draft, now: Time): (Db, Option<Authorization>) {
    if d.targetId !in db.targets then (db, None)
    else
      var a := Authorization(db.nextAuth, d.targetId, d.means, d.token, d.scope.0, d.scope.1,
                             d.verifiedAt, d.expiresAt, d.evidence, now);
      (db.(auths := db.auths[a.id := a], nextAuth := db.nextAuth + 1), Some(a))
  }

  /** UPDATE of the status; a missing row is silently fine. */
  function SetStatus(db: Db, id: nat, status: Status): Db {
    if id in db.targets then db.(targets := db.targets[id := db.targets[id].(status := status)]) else db
  }

  /** UPDATE that marks a row verified now; a missing row is silently fine. */
  function MarkVerified(db: Db, id: nat, expires: Time, evidence: Evidence, now: Time): Db {
    if id !in db.auths then db
    else
      var a := db.auths[id];
      var ev := if evidence.Some? then evidence else a.evidence;
      db.(auths := db.auths[id := a.(verifiedAt := Some(now), expiresAt := Some(expires), evidence := ev)])
  }

  /** UPDATE that makes every active row of the target expire now. */
  function ExpireActive(db: Db, targetId: nat, now: Time): Db {
    db.(auths := map i | i in db.auths ::
      if db.auths[i].targetId == targetId && Active(db.auths[i], now)
      then db.auths[i].(expiresAt := Some(now)) else db.auths[i])
  }

  /** DELETE of a target; its authorizations go with it. */
  function DeleteTarget(db: Db, id: nat): Db {
    db.(targets := db.targets - {id},
        auths := map i | i in db.auths && db.auths[i].targetId != id :: db.auths[i])
  }

  function DeleteOwned(db: Db, userId: int, id: nat): Db {
    if id in db.targets && db.targets[id].userId == userId then DeleteTarget(db, id) else db
  }

  function FindTarget(db: Db, id: nat): Option<Target> {
    if id in db.targets then Some(db.targets[id]) else None
  }

  function FindOwned(db: Db, userId: int, id: nat): Option<Target> {
    if id in db.targets && db.targets[id].userId == userId then Some(db.targets[id]) else None
  }

  predicate NotNewer(db: Db, j: nat, i: nat)
    requires i in db.auths && j in db.auths
  {
    db.auths[j].createdAt < db.auths[i].createdAt || (db.auths[j].createdAt == db.auths[i].createdAt && j <= i)
  }

  /** Row `i` is the newest of the target: latest creation time, then highest id. */
  predicate IsLatest(db: Db, targetId: nat, i: nat) {
    && i in db.auths && db.auths[i].targetId == targetId
    && forall j :: j in db.auths && db.auths[j].targetId == targetId ==> NotNewer(db, j, i)
  }

  function RowsOf(db: Db, targetId: nat): (ids: set<nat>)
    ensures forall i :: i in ids <==> i in db.auths && db.auths[i].targetId == targetId
  {
    set i | i in db.auths && db.auths[i].targetId == targetId
  }

  ghost function Latest(db: Db, targetId: nat): (r: Option<Authorization>)
    ensures r.Some? ==> exists i :: IsLatest(db, targetId, i) && r.value == db.auths[i]
    ensures r.None? ==> RowsOf(db, targetId) == {}
  {
    if RowsOf(db, targetId) == {} then None
    else
      LatestExists(db, targetId);
      var i :| IsLatest(db, targetId, i);
      Some(db.auths[i])
  }

  lemma {:induction false} NewestOf(db: Db, ids: set<nat>) returns (i: nat)
    requires ids != {} && forall j :: j in ids ==> j in db.auths
    ensures i in ids
    ensures forall j :: j in ids ==> NotNewer(db, j, i)
    decreases ids
  {
    var x :| x in ids;
    var rest := ids - {x};
    if rest == {} {
      i := x;
      assert forall j :: j in ids ==> j == x || j in rest;
    } else {
      var y := NewestOf(db, rest);
      i := if NotNewer(db, y, x) then x else y;
      forall j | j in ids ensures NotNewer(db, j, i) {
        if j != x { assert NotNewer(db, j, y); }
      }
    }
  }

  lemma LatestExists(db: Db, targetId: nat)
    requires RowsOf(db, targetId) != {}
    ensures exists i :: IsLatest(db, targetId, i)
  {
    var i := NewestOf(db, RowsOf(db, targetId));
    assert IsLatest(db, targetId, i);
  }

  /** Two newest rows are the same row: the query's answer is determined. */
  lemma LatestUnique(db: Db, targetId: nat, i: nat, j: nat)
    requires IsLatest(db, targetId, i) && IsLatest(db, targetId, j)
    ensures i == j
  {
    assert NotNewer(db, i, j) && NotNewer(db, j, i);
  }

  /** A row that is newest is the query's answer. */
  lemma NewestIsLatest(db: Db, targetId: nat, i: nat)
    requires IsLatest(db, targetId, i)
    ensures Latest(db, targetId) == Some(db.auths[i])
  {
    assert i in RowsOf(db, targetId);
    var j :| IsLatest(db, targetId, j) && Latest(db, targetId).value == db.auths[j];
    LatestUnique(db, targetId, i, j);
  }

  lemma NewestIsRow(db: Db, targetId: nat) returns (i: nat)
    requires Latest(db, targetId).Some?
    ensures IsLatest(db, targetId, i) && Latest(db, targetId) == Some(db.auths[i])
  {
    i :| IsLatest(db, targetId, i) && Latest(db, targetId).value == db.auths[i];
  }

  /** The answer depends on the rows only. */
  lemma SameRowsSameNewest(db: Db, db': Db, targetId: nat)
    requires db'.auths == db.auths
    ensures Latest(db', targetId) == Latest(db, targetId)
  {
    assert RowsOf(db', targetId) == RowsOf(db, targetId);
    if RowsOf(db, targetId) != {} {
      var i := NewestIsRow(db, targetId);
      assert IsLatest(db', targetId, i);
      NewestIsLatest(db', targetId, i);
    }
  }

  /** Marking the newest row keeps it newest, and keeps its method and token. */
  lemma MarkedStaysNewest(db: Db, targetId: nat, a: Authorization, expires: Time, evidence: Evidence, now: Time)
    requires Latest(db, targetId) == Some(a) && a.id in db.auths && db.auths[a.id] == a
    requires forall i :: i in db.auths ==> db.auths[i].id == i
    ensures var b := Latest(MarkVerified(db, a.id, expires, evidence, now), targetId);
            b.Some? && b.value.id == a.id && b.value.means == a.means && b.value.token == a.token
            && b.value.verifiedAt == Some(now)
  {
    var db' := MarkVerified(db, a.id, expires, evidence, now);
    var i := NewestIsRow(db, targetId);
    assert i == a.id;
    assert forall j :: j in db'.auths && db'.auths[j].targetId == targetId ==> NotNewer(db, j, i);
    assert IsLatest(db', targetId, i);
    NewestIsLatest(db', targetId, i);
  }

  /** A row inserted now is the newest one. */
  lemma InsertedIsNewest(db: Db, d: Draft, now: Time)
    requires d.targetId in db.targets
    requires forall i :: i in db.auths ==> i < db.nextAuth && db.auths[i].createdAt <= now
    ensures var (db', a) := InsertAuth(db, d, now); a.Some? && Latest(db', d.targetId) == a
  {
    var (db', a) := InsertAuth(db, d, now);
    assert IsLatest(db', d.targetId, a.value.id);
    NewestIsLatest(db', d.targetId, a.value.id);
  }
}
