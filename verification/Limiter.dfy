/**
 * The free tools' rate limiter: one token bucket per client address in a map from which idle
 * entries are evicted, and a cap on the requests in flight. A token is worth 360 seconds of refill
 * (10 an hour), so credit is kept exactly, as time.
 */
module Limiter {
  import opened Model

  const BURST := 10
  const TOKEN: Time := 360 * SECOND
  const CAP: Time := 3600 * SECOND
  const IDLE_TTL: Time := 2 * HOUR
  const MAX_IN_FLIGHT := 16

  /** A bucket's credit at the time `last`, and when its client was last seen. */
  datatype Bucket = Bucket(credit: Time, last: Time, seen: Time)

  type Buckets = map<string, Bucket>

  /** Credit grows with time up to the cap; a clock that stands or goes back adds nothing. */
  function Fill(credit: Time, last: Time, now: Time): Time {
    var grown := if now < last then credit else credit + (now - last);
    if grown > CAP then CAP else grown
  }

  /** An unknown client has a full bucket. */
  function CreditOf(m: Buckets, ip: string, now: Time): Time {
    if ip in m then Fill(m[ip].credit, m[ip].last, now) else CAP
  }

  /** One request: the buckets after it, and whether it was admitted. */
  function Take(m: Buckets, ip: string, now: Time): (Buckets, bool) {
    var c := CreditOf(m, ip, now);
    (m[ip := Bucket(if c >= TOKEN then c - TOKEN else c, now, now)], c >= TOKEN)
  }

  /** The seconds a refused client is told to wait. */
  function RetryAfter(credit: Time): int {
    (TOKEN - credit) / SECOND + 1
  }

  /** The janitor's eviction of buckets not used for longer than the idle time. */
  function Swept(m: Buckets, now: Time): Buckets {
    map ip | ip in m && !(m[ip].seen < now - IDLE_TTL) :: m[ip]
  }

  /** How a guarded request is answered. */
  datatype Admission = Admitted | TooMany(retryAfter: int) | Busy

  class ToolsHandler {
    var limiters: Buckets
    /** Occupied slots of the semaphore. */
    var inFlight: nat

    constructor ()
      ensures limiters == map[] && inFlight == 0
    {
      limiters, inFlight := map[], 0;
    }

    method Allow(ip: string, now: Time) returns (ok: bool, retryAfter: int)
      modifies `limiters
      ensures (limiters, ok) == Take(old(limiters), ip, now)
      ensures retryAfter == if ok then 0 else RetryAfter(CreditOf(old(limiters), ip, now))
    {
      if ip !in limiters {
        limiters := limiters[ip := Bucket(CAP, now, now)];
      }
      var e := limiters[ip];
      var credit := e.credit;
      if now > e.last { credit := credit + (now - e.last); }
      if credit > CAP { credit := CAP; }
      // Reserve one token; a reservation that would have to wait is cancelled again.
      var reserved := credit - TOKEN;
      if reserved < 0 {
        e := Bucket(reserved + TOKEN, now, now);
        ok, retryAfter := false, -reserved / SECOND + 1;
      } else {
        e := Bucket(reserved, now, now);
        ok, retryAfter := true, 0;
      }
      assert limiters[ip := e] == old(limiters)[ip := e];
      limiters := limiters[ip := e];
    }

    method Janitor(now: Time)
      modifies `limiters
      ensures limiters == Swept(old(limiters), now)
      ensures forall ip :: ip in limiters <==> ip in old(limiters) && old(limiters)[ip].seen >= now - 2 * HOUR
    {
      var cutoff := now - IDLE_TTL;
      var left := limiters.Keys;
      while left != {}
        invariant left <= old(limiters).Keys
        invariant limiters == map ip | ip in old(limiters)
            && (ip in left || !(old(limiters)[ip].seen < cutoff)) :: old(limiters)[ip]
        decreases |left|
      {
        var ip :| ip in left;
        left := left - {ip};
        if limiters[ip].seen < cutoff { limiters := limiters - {ip}; }
      }
    }

    /** The rate limit first, then a slot; a request refused for want of a slot has spent its token. */
    method Guard(ip: string, now: Time) returns (r: Admission)
      requires inFlight <= 16
      modifies this
      ensures limiters == Take(old(limiters), ip, now).0
      ensures r.TooMany? <==> !Take(old(limiters), ip, now).1
      ensures r.TooMany? ==> r.retryAfter == RetryAfter(CreditOf(old(limiters), ip, now))
      ensures r.Busy? ==> old(inFlight) == 16
      ensures inFlight == (if r.Admitted? then old(inFlight) + 1 else old(inFlight)) <= 16
    {
      var ok, retryAfter := Allow(ip, now);
      if !ok { return TooMany(retryAfter); }
      if inFlight < MAX_IN_FLIGHT {
        inFlight := inFlight + 1;
        return Admitted;
      }
      return Busy;
    }

    /** The function an admitted request defers. */
    method Release()
      requires inFlight > 0
      modifies `inFlight
      ensures inFlight == old(inFlight) - 1
    {
      inFlight := inFlight - 1;
    }
  }

  // --- One exact bucket per client ------------------------------------------------------------------

  datatype Action = Ask(ip: string, at: Time) | Sweep(at: Time)

  function AfterEvent(m: Buckets, e: Action): Buckets {
    match e
    case Ask(ip, at) => Take(m, ip, at).0
    case Sweep(at) => Swept(m, at)
  }

  function After(m: Buckets, events: seq<Action>): Buckets
    decreases |events|
  {
    if events == [] then m else After(AfterEvent(m, events[0]), events[1..])
  }

  /** The answers one client gets, with all clients' requests and the janitor at work. */
  function Answers(m: Buckets, events: seq<Action>, ip: string): seq<bool>
    decreases |events|
  {
    if events == [] then []
    else
      (if events[0].Ask? && events[0].ip == ip then [Take(m, ip, events[0].at).1] else [])
      + Answers(AfterEvent(m, events[0]), events[1..], ip)
  }

  /** When the client asks. */
  function TimesOf(events: seq<Action>, ip: string): seq<Time> {
    if events == [] then []
    else (if events[0].Ask? && events[0].ip == ip then [events[0].at] else []) + TimesOf(events[1..], ip)
  }

  /** A single token bucket that nobody else touches and nobody evicts. */
  function BucketAnswers(credit: Time, last: Time, times: seq<Time>): seq<bool>
    decreases |times|
  {
    if times == [] then []
    else
      var c := Fill(credit, last, times[0]);
      [c >= TOKEN] + BucketAnswers(if c >= TOKEN then c - TOKEN else c, times[0], times[1..])
  }

  /** Times do not go back, and start no earlier than `now`. */
  predicate Ordered(events: seq<Action>, now: Time)
    decreases |events|
  {
    events != [] ==> now <= events[0].at && Ordered(events[1..], events[0].at)
  }

  predicate EndsBy(events: seq<Action>, to: Time) {
    forall k :: 0 <= k < |events| ==> events[k].at <= to
  }

  predicate BucketOk(b: Bucket, now: Time) {
    0 <= b.credit <= CAP && b.last == b.seen <= now
  }

  predicate BucketsOk(m: Buckets, now: Time) {
    forall ip :: ip in m ==> BucketOk(m[ip], now)
  }

  lemma EventKeepsOk(m: Buckets, now: Time, e: Action)
    requires BucketsOk(m, now) && now <= e.at
    ensures BucketsOk(AfterEvent(m, e), e.at)
  {
  }

  lemma FillTwice(credit: Time, last: Time, now: Time, later: Time)
    requires last <= now <= later && credit <= CAP
    ensures Fill(Fill(credit, last, now), now, later) == Fill(credit, last, later)
  {
  }

  /** Evicting an idle bucket changes no credit: two idle hours have refilled it. */
  lemma SweepKeepsCredit(m: Buckets, ip: string, now: Time)
    requires BucketsOk(m, now)
    ensures CreditOf(Swept(m, now), ip, now) == CreditOf(m, ip, now)
  {
    if ip in m { assert BucketOk(m[ip], now); }
  }

  /** Another client's request, or a sweep, leaves a client's credit to grow with time only. */
  lemma OthersKeepCredit(m: Buckets, ip: string, now: Time, e: Action)
    requires BucketsOk(m, now) && now <= e.at && !(e.Ask? && e.ip == ip)
    ensures CreditOf(AfterEvent(m, e), ip, e.at) == Fill(CreditOf(m, ip, now), now, e.at)
  {
    if ip in m {
      assert BucketOk(m[ip], now);
      FillTwice(m[ip].credit, m[ip].last, now, e.at);
    }
    if e.Sweep? {
      assert BucketsOk(m, e.at);
      SweepKeepsCredit(m, ip, e.at);
    }
  }

  lemma OwnCredit(m: Buckets, ip: string, now: Time, at: Time)
    requires BucketsOk(m, now) && now <= at
    ensures CreditOf(m, ip, at) == Fill(CreditOf(m, ip, now), now, at)
    ensures var c := CreditOf(m, ip, at);
            && 0 <= c <= CAP
            && CreditOf(Take(m, ip, at).0, ip, at) == if c >= TOKEN then c - TOKEN else c
  {
    if ip in m {
      assert BucketOk(m[ip], now);
      FillTwice(m[ip].credit, m[ip].last, now, at);
    }
  }

  /**
   * The whole map, with every other client and the janitor at work, answers each client exactly as
   * one bucket of its own would.
   */
  lemma {:induction false} MapRefinesBucket(m: Buckets, now: Time, events: seq<Action>, ip: string, credit: Time,
                                            last: Time)
    requires BucketsOk(m, now) && Ordered(events, now)
    requires last <= now && credit <= CAP && CreditOf(m, ip, now) == Fill(credit, last, now)
    ensures Answers(m, events, ip) == BucketAnswers(credit, last, TimesOf(events, ip))
    decreases |events|
  {
    hide CreditOf, Take, Fill, BucketsOk, AfterEvent;
    if events != [] {
      var e := events[0];
      var m' := AfterEvent(m, e);
      EventKeepsOk(m, now, e);
      FillTwice(credit, last, now, e.at);
      if e.Ask? && e.ip == ip {
        Asked(m, now, e, ip);
        var c := Fill(credit, last, e.at);
        var left := if c >= TOKEN then c - TOKEN else c;
        FillBelowCap(credit, last, e.at);
        FillNow(left, e.at);
        MapRefinesBucket(m', e.at, events[1..], ip, left, e.at);
        var times := TimesOf(events, ip);
        assert times[0] == e.at && times[1..] == TimesOf(events[1..], ip);
      } else {
        OthersKeepCredit(m, ip, now, e);
        MapRefinesBucket(m', e.at, events[1..], ip, credit, last);
        assert TimesOf(events, ip) == TimesOf(events[1..], ip);
        assert Answers(m, events, ip) == Answers(m', events[1..], ip);
      }
    }
  }

  lemma FillNow(credit: Time, now: Time)
    requires credit <= CAP
    ensures Fill(credit, now, now) == credit
  {
  }

  lemma FillBelowCap(credit: Time, last: Time, now: Time)
    ensures Fill(credit, last, now) <= CAP
  {
  }

  lemma Asked(m: Buckets, now: Time, e: Action, ip: string)
    requires BucketsOk(m, now) && now <= e.at && e.Ask? && e.ip == ip
    ensures var c := Fill(CreditOf(m, ip, now), now, e.at);
            && Take(m, ip, e.at).1 == (c >= TOKEN)
            && CreditOf(AfterEvent(m, e), ip, e.at) == if c >= TOKEN then c - TOKEN else c
  {
    OwnCredit(m, ip, now, e.at);
  }

  function WithoutSweeps(events: seq<Action>): seq<Action> {
    if events == [] then []
    else (if events[0].Sweep? then [] else [events[0]]) + WithoutSweeps(events[1..])
  }

  lemma {:induction false} WithoutSweepsKeeps(events: seq<Action>, now: Time, ip: string)
    requires Ordered(events, now)
    ensures Ordered(WithoutSweeps(events), now)
    ensures TimesOf(WithoutSweeps(events), ip) == TimesOf(events, ip)
    decreases |events|
  {
    if events != [] {
      var rest := events[1..];
      WithoutSweepsKeeps(rest, events[0].at, ip);
      if events[0].Sweep? {
        assert WithoutSweeps(events) == WithoutSweeps(rest);
      } else {
        assert WithoutSweeps(events)[0] == events[0] && WithoutSweeps(events)[1..] == WithoutSweeps(rest);
      }
    }
  }

  /** No client can tell when, or whether, the janitor runs. */
  lemma EvictionIsUnobservable(events: seq<Action>, now: Time, ip: string)
    requires Ordered(events, now)
    ensures Answers(map[], events, ip) == Answers(map[], WithoutSweeps(events), ip)
  {
    FillNow(CAP, now);
    WithoutSweepsKeeps(events, now, ip);
    MapRefinesBucket(map[], now, events, ip, CAP, now);
    MapRefinesBucket(map[], now, WithoutSweeps(events), ip, CAP, now);
  }

  // --- How much a client may do ---------------------------------------------------------------------

  function Admissions(answers: seq<bool>): nat {
    if answers == [] then 0 else (if answers[0] then 1 else 0) + Admissions(answers[1..])
  }

  predicate Within(times: seq<Time>, from: Time, to: Time)
    decreases |times|
  {
    times != [] ==> from <= times[0] <= to && Within(times[1..], times[0], to)
  }

  /** Each admission costs a token; the credit left over is what time has added. */
  lemma {:induction false} AdmissionsBounded(credit: Time, last: Time, times: seq<Time>, to: Time)
    requires 0 <= credit && last <= to && Within(times, last, to)
    ensures Admissions(BucketAnswers(credit, last, times)) * TOKEN <= credit + (to - last)
    decreases |times|
  {
    if times != [] {
      var c := Fill(credit, last, times[0]);
      var left := if c >= TOKEN then c - TOKEN else c;
      AdmissionsBounded(left, times[0], times[1..], to);
      var answers := BucketAnswers(credit, last, times);
      assert answers[0] == (c >= TOKEN) && answers[1..] == BucketAnswers(left, times[0], times[1..]);
    }
  }

  lemma {:induction false} OrderedWithin(events: seq<Action>, now: Time, ip: string, to: Time)
    requires Ordered(events, now) && EndsBy(events, to)
    ensures Within(TimesOf(events, ip), now, to)
    decreases |events|
  {
    if events != [] {
      var rest := events[1..];
      assert forall k :: 0 <= k < |rest| ==> rest[k] == events[k + 1];
      OrderedWithin(rest, events[0].at, ip, to);
      var times := TimesOf(events, ip);
      if events[0].Ask? && events[0].ip == ip {
        assert times[0] == events[0].at && times[1..] == TimesOf(rest, ip);
      } else {
        assert times == TimesOf(rest, ip);
        StartEarlier(times, now, events[0].at, to);
      }
    }
  }

  lemma StartEarlier(times: seq<Time>, earlier: Time, from: Time, to: Time)
    requires earlier <= from && Within(times, from, to)
    ensures Within(times, earlier, to)
  {
  }

  /** Buckets stay in order over a run whose clock does not go back. */
  lemma {:induction false} RunKeepsOk(m: Buckets, now: Time, events: seq<Action>, end: Time)
    requires BucketsOk(m, now) && Ordered(events, now)
    requires if events == [] then end == now else end == events[|events| - 1].at
    ensures BucketsOk(After(m, events), end)
    decreases |events|
  {
    hide BucketsOk, AfterEvent;
    if events != [] {
      EventKeepsOk(m, now, events[0]);
      var rest := events[1..];
      assert rest != [] ==> rest[|rest| - 1] == events[|events| - 1];
      RunKeepsOk(AfterEvent(m, events[0]), events[0].at, rest, end);
    }
  }

  lemma NoBuckets(now: Time)
    ensures BucketsOk(map[], now)
  {
  }

  /**
   * In any window of a run, starting at `now` and lasting `d`, a client is admitted at most
   * 10 + d / 360 s times, whatever happened before the window.
   */
  lemma WindowBound(before: seq<Action>, window: seq<Action>, start: Time, now: Time, d: nat, ip: string)
    requires Ordered(before, start) && Ordered(window, now)
    requires now == if before == [] then start else before[|before| - 1].at
    requires EndsBy(window, now + d)
    ensures Admissions(Answers(After(map[], before), window, ip)) <= 10 + d / (360 * SECOND)
  {
    hide BucketsOk, CreditOf, Fill, Within, Ordered, Admissions, Answers, BucketAnswers;
    var m := After(map[], before);
    NoBuckets(start);
    RunKeepsOk(map[], start, before, now);
    var c := CreditOf(m, ip, now);
    OwnCredit(m, ip, now, now);
    MapRefinesBucket(m, now, window, ip, c, now);
    OrderedWithin(window, now, ip, now + d);
    AdmissionsBounded(c, now, TimesOf(window, ip), now + d);
    TokensIn(Admissions(Answers(m, window, ip)), d);
  }

  lemma TokensIn(n: nat, d: nat)
    requires n * TOKEN <= CAP + d
    ensures n <= BURST + d / TOKEN
  {
  }

  /** `n` requests at the same moment. */
  function Burst(n: nat, at: Time): seq<Time> {
    if n == 0 then [] else [at] + Burst(n - 1, at)
  }

  /** `n` requests, one token's worth of time apart, the first that long after `at`. */
  function Drip(n: nat, at: Time): seq<Time> {
    if n == 0 then [] else [at + TOKEN] + Drip(n - 1, at + TOKEN)
  }

  lemma {:induction false} DripAdmitted(credit: Time, n: nat, at: Time)
    requires 0 <= credit <= CAP
    ensures Admissions(BucketAnswers(credit, at, Drip(n, at))) == n
    decreases n
  {
    if n > 0 {
      var c := Fill(credit, at, at + TOKEN);
      assert TOKEN <= c <= CAP;
      DripAdmitted(c - TOKEN, n - 1, at + TOKEN);
      var times := Drip(n, at);
      assert times[0] == at + TOKEN && times[1..] == Drip(n - 1, at + TOKEN);
      var answers := BucketAnswers(credit, at, times);
      assert answers[0] && answers[1..] == BucketAnswers(c - TOKEN, at + TOKEN, times[1..]);
    }
  }

  lemma OneTokenLess(k: nat)
    requires 0 < k <= BURST
    ensures k * TOKEN - TOKEN == (k - 1) * TOKEN && TOKEN <= k * TOKEN <= CAP
  {
  }

  lemma {:induction false} BurstAdmitted(k: nat, n: nat, at: Time)
    requires k <= BURST
    ensures Admissions(BucketAnswers(k * TOKEN, at, Burst(k, at) + Drip(n, at))) == k + n
  {
    hide Fill;
    var times := Burst(k, at) + Drip(n, at);
    if k == 0 {
      assert times == Drip(n, at);
      DripAdmitted(0, n, at);
    } else {
      BurstAdmitted(k - 1, n, at);
      assert times[0] == at && times[1..] == Burst(k - 1, at) + Drip(n, at);
      OneTokenLess(k);
      FillNow(k * TOKEN, at);
      var answers := BucketAnswers(k * TOKEN, at, times);
      assert answers[0] && answers[1..] == BucketAnswers((k - 1) * TOKEN, at, times[1..]);
    }
  }

  /** The client's requests at these times, as events. */
  function Asks(ip: string, times: seq<Time>): seq<Action> {
    if times == [] then [] else [Ask(ip, times[0])] + Asks(ip, times[1..])
  }

  lemma {:induction false} AsksAre(ip: string, times: seq<Time>, from: Time, to: Time)
    requires Within(times, from, to)
    ensures TimesOf(Asks(ip, times), ip) == times && Ordered(Asks(ip, times), from)
    ensures EndsBy(Asks(ip, times), to)
    decreases |times|
  {
    if times != [] {
      AsksAre(ip, times[1..], times[0], to);
      var events := Asks(ip, times);
      assert events[0] == Ask(ip, times[0]) && events[1..] == Asks(ip, times[1..]);
      assert forall k :: 1 <= k < |events| ==> events[k] == events[1..][k - 1];
    }
  }

  lemma {:induction false} DripWithin(n: nat, at: Time, to: Time)
    requires at + n * TOKEN <= to
    ensures Within(Drip(n, at), at, to)
    decreases n
  {
    if n > 0 {
      DripWithin(n - 1, at + TOKEN, to);
      var times := Drip(n, at);
      assert times[0] == at + TOKEN && times[1..] == Drip(n - 1, at + TOKEN);
    }
  }

  lemma {:induction false} BurstWithin(k: nat, n: nat, at: Time, to: Time)
    requires at + n * TOKEN <= to
    ensures Within(Burst(k, at) + Drip(n, at), at, to)
    decreases k
  {
    var times := Burst(k, at) + Drip(n, at);
    if k == 0 {
      assert times == Drip(n, at);
      DripWithin(n, at, to);
    } else {
      BurstWithin(k - 1, n, at, to);
      assert times[0] == at && times[1..] == Burst(k - 1, at) + Drip(n, at);
    }
  }

  /** Ten requests at once and then one every 360 seconds, all within one hour. */
  function BusyHour(ip: string, at: Time): seq<Action> {
    Asks(ip, Burst(BURST, at) + Drip(10, at))
  }

  /** A new client is admitted 20 times within one hour, not 10. */
  lemma TwentyInAnHour(ip: string, at: Time)
    ensures var events := BusyHour(ip, at);
            && Ordered(events, at) && EndsBy(events, at + HOUR)
            && Admissions(Answers(map[], events, ip)) == 20
  {
    hide Answers, BucketAnswers, Admissions, Within, Burst, Drip;
    var times := Burst(BURST, at) + Drip(10, at);
    BurstWithin(BURST, 10, at, at + HOUR);
    AsksAre(ip, times, at, at + HOUR);
    NoBuckets(at);
    FillNow(CAP, at);
    MapRefinesBucket(map[], at, Asks(ip, times), ip, CAP, at);
    BurstAdmitted(BURST, 10, at);
    assert BURST * TOKEN == CAP;
  }

  /** No more than ten admissions in the hour from `now` on, whatever the client asks. */
  ghost predicate TenInTheHour(m: Buckets, ip: string, now: Time) {
    forall events: seq<Action> | Ordered(events, now) && EndsBy(events, now + HOUR) ::
      Admissions(Answers(m, events, ip)) <= 10
  }

  lemma EmptyBucketAllowsTen(m: Buckets, ip: string, now: Time, events: seq<Action>)
    requires BucketsOk(m, now) && CreditOf(m, ip, now) < TOKEN
    requires Ordered(events, now) && EndsBy(events, now + HOUR)
    ensures Admissions(Answers(m, events, ip)) <= 10
  {
    hide Answers, BucketAnswers, Admissions, Within;
    var c := CreditOf(m, ip, now);
    OwnCredit(m, ip, now, now);
    MapRefinesBucket(m, now, events, ip, c, now);
    OrderedWithin(events, now, ip, now + HOUR);
    AdmissionsBounded(c, now, TimesOf(events, ip), now + HOUR);
  }

  /** One request at once and then ten, 360 seconds apart. */
  function EagerHour(ip: string, now: Time): seq<Action> {
    Asks(ip, Burst(1, now) + Drip(10, now))
  }

  lemma SpareTokenAllowsEleven(m: Buckets, ip: string, now: Time)
    requires BucketsOk(m, now) && CreditOf(m, ip, now) >= TOKEN
    ensures var events := EagerHour(ip, now);
            && Ordered(events, now) && EndsBy(events, now + HOUR)
            && Admissions(Answers(m, events, ip)) == 11
  {
    var c := CreditOf(m, ip, now);
    var times := Burst(1, now) + Drip(10, now);
    BurstWithin(1, 10, now, now + HOUR);
    AsksAre(ip, times, now, now + HOUR);
    OwnCredit(m, ip, now, now);
    MapRefinesBucket(m, now, Asks(ip, times), ip, c, now);
    FillNow(c, now);
    EagerAdmitted(c, now);
  }

  lemma EagerAdmitted(credit: Time, now: Time)
    requires TOKEN <= credit <= CAP
    ensures Admissions(BucketAnswers(credit, now, Burst(1, now) + Drip(10, now))) == 11
  {
    hide Drip;
    var times := Burst(1, now) + Drip(10, now);
    assert Burst(1, now) == [now] + Burst(0, now);
    assert times[0] == now && times[1..] == Drip(10, now);
    FillNow(credit, now);
    DripAdmitted(credit - TOKEN, 10, now);
    var answers := BucketAnswers(credit, now, times);
    assert answers[0] && answers[1..] == BucketAnswers(credit - TOKEN, now, Drip(10, now));
  }

  /** The documented 10 requests per hour hold from a moment on exactly for a client without a full token. */
  lemma TenInTheHourExactly(m: Buckets, ip: string, now: Time)
    requires BucketsOk(m, now)
    ensures TenInTheHour(m, ip, now) <==> CreditOf(m, ip, now) < TOKEN
  {
    hide Answers, Ordered, CreditOf, Admissions;
    if CreditOf(m, ip, now) < TOKEN {
      forall events: seq<Action> | Ordered(events, now) && EndsBy(events, now + HOUR)
        ensures Admissions(Answers(m, events, ip)) <= 10
      {
        EmptyBucketAllowsTen(m, ip, now, events);
      }
    } else {
      SpareTokenAllowsEleven(m, ip, now);
      assert !(Admissions(Answers(m, EagerHour(ip, now), ip)) <= 10);
    }
  }

  // --- The retry advice -----------------------------------------------------------------------------

  /**
   * A refused client that waits as long as it was told is admitted, whatever others do meanwhile,
   * and one second less would not always have been enough: the credit still lacks less than the
   * advised time and at least the advised time minus one second.
   */
  lemma RetryAfterSuffices(m: Buckets, ip: string, now: Time, meanwhile: seq<Action>, later: Time)
    requires BucketsOk(m, now) && !Take(m, ip, now).1
    requires Ordered(meanwhile + [Ask(ip, later)], now) && TimesOf(meanwhile, ip) == []
    requires now + RetryAfter(CreditOf(m, ip, now)) * SECOND <= later
    ensures Answers(Take(m, ip, now).0, meanwhile + [Ask(ip, later)], ip) == [true]
    ensures var lacking := TOKEN - CreditOf(m, ip, now); var told := RetryAfter(CreditOf(m, ip, now)) * SECOND;
            lacking < told <= lacking + SECOND
  {
    var c := CreditOf(m, ip, now);
    var m' := Take(m, ip, now).0;
    var events := meanwhile + [Ask(ip, later)];
    EventKeepsOk(m, now, Ask(ip, now));
    OwnCredit(m, ip, now, now);
    FillNow(c, now);
    MapRefinesBucket(m', now, events, ip, c, now);
    LastTime(meanwhile, ip, later);
    assert Fill(c, now, later) >= TOKEN;
    assert BucketAnswers(c, now, [later]) == [true] + BucketAnswers(Fill(c, now, later) - TOKEN, later, []);
  }

  lemma {:induction false} LastTime(meanwhile: seq<Action>, ip: string, later: Time)
    requires TimesOf(meanwhile, ip) == []
    ensures TimesOf(meanwhile + [Ask(ip, later)], ip) == [later]
    decreases |meanwhile|
  {
    var events := meanwhile + [Ask(ip, later)];
    if meanwhile == [] {
      assert events == [Ask(ip, later)] && events[1..] == [];
    } else {
      assert events[0] == meanwhile[0] && events[1..] == meanwhile[1..] + [Ask(ip, later)];
      LastTime(meanwhile[1..], ip, later);
    }
  }
}
