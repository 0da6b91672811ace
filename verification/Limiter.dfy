/** The per-peer limiter of failed authentication attempts (platform/auth/failures.go). */
module Limiter {
  /** One minute in nanoseconds. */
  const MINUTE := 60_000_000_000

  datatype Failure = Failure(peer: string, at: int)

  /** A clock that never goes back; every look at it is a reading of its own. */
  class Clock {
    const at: nat -> int
    var readings: nat

    constructor (at: nat -> int)
      ensures this.at == at && readings == 0
    {
      this.at, readings := at, 0;
    }

    ghost predicate Monotone() {
      forall i: nat, j: nat | i <= j :: at(i) <= at(j)
    }

    method Now() returns (t: int)
      modifies this
      ensures t == at(old(readings)) && readings == old(readings) + 1
    {
      t := at(readings);
      readings := readings + 1;
    }
  }

  // ---------------------------------------------------------------------------------------------------
  // The full history

  /** How many of the peer's failures were recorded from one instant to another, both included. */
  function FailuresIn(history: seq<Failure>, peer: string, since: int, until: int): nat {
    if history == [] then 0
    else
      var f := history[|history| - 1];
      FailuresIn(history[..|history| - 1], peer, since, until)
      + if f.peer == peer && since <= f.at <= until then 1 else 0
  }

  /** The peer's failures not older than one minute at an instant. */
  function InTheMinuteTo(history: seq<Failure>, peer: string, t: int): nat {
    FailuresIn(history, peer, t - 60_000_000_000, t)
  }

  function TimesOf(history: seq<Failure>, peer: string): seq<int> {
    if history == [] then []
    else
      var f := history[|history| - 1];
      TimesOf(history[..|history| - 1], peer) + if f.peer == peer then [f.at] else []
  }

  ghost predicate InOrder(history: seq<Failure>, now: int) {
    && (forall i, j | 0 <= i < j < |history| :: history[i].at <= history[j].at)
    && (forall i | 0 <= i < |history| :: history[i].at <= now)
  }

  /** What is kept of a peer's times: all but a prefix, every one of which is too old to count again. */
  ghost predicate Keeps(times: seq<int>, hits: seq<int>, now: int) {
    && |hits| <= |times| && hits == times[|times| - |hits|..]
    && forall i | 0 <= i < |times| - |hits| :: times[i] < now - MINUTE
  }

  lemma {:induction false} TimesAreInOrder(history: seq<Failure>, peer: string, now: int)
    requires InOrder(history, now)
    ensures Sorted(TimesOf(history, peer), now)
  {
    if history != [] {
      var front, f := history[..|history| - 1], history[|history| - 1];
      TimesAreInOrder(front, peer, f.at);
    }
  }

  ghost predicate Sorted(times: seq<int>, now: int) {
    && (forall i, j | 0 <= i < j < |times| :: times[i] <= times[j])
    && (forall i | 0 <= i < |times| :: times[i] <= now)
  }

  /** All before an index are too old to count, and all from it on are not. */
  ghost predicate Splits(times: seq<int>, n: int, cutoff: int) {
    && 0 <= n <= |times|
    && (forall i | 0 <= i < n :: times[i] < cutoff)
    && (forall i | n <= i < |times| :: times[i] >= cutoff)
  }

  /** Once all before an index are too old and all from it on are not, the rest is what counts. */
  lemma {:induction false} TheRestCounts(history: seq<Failure>, peer: string, n: nat, cutoff: int, latest: int)
    requires Splits(TimesOf(history, peer), n, cutoff)
    requires forall f | f in history :: f.at <= latest
    ensures FailuresIn(history, peer, cutoff, latest) == |TimesOf(history, peer)| - n
  {
    if history != [] {
      var front, f := history[..|history| - 1], history[|history| - 1];
      var times := TimesOf(history, peer);
      if f.peer == peer {
        assert times == TimesOf(front, peer) + [f.at] && times[|times| - 1] == f.at;
        assert forall i | 0 <= i < |times| - 1 :: TimesOf(front, peer)[i] == times[i];
        TheRestCounts(front, peer, if n == |times| then n - 1 else n, cutoff, latest);
      } else {
        assert times == TimesOf(front, peer);
        TheRestCounts(front, peer, n, cutoff, latest);
      }
    }
  }

  function HitsOf(hits: map<string, seq<int>>, peer: string): seq<int> {
    if peer in hits then hits[peer] else []
  }

  /** The map holds all that can still count, and no failure lies in the future. */
  ghost predicate KeepsAll(history: seq<Failure>, hits: map<string, seq<int>>, now: int) {
    InOrder(history, now) && forall peer :: Keeps(TimesOf(history, peer), HitsOf(hits, peer), now)
  }

  lemma LaterStillKeeps(history: seq<Failure>, hits: map<string, seq<int>>, now: int, later: int)
    requires KeepsAll(history, hits, now) && now <= later
    ensures KeepsAll(history, hits, later)
  {
    forall peer ensures Keeps(TimesOf(history, peer), HitsOf(hits, peer), later) {
      assert Keeps(TimesOf(history, peer), HitsOf(hits, peer), now);
    }
  }

  /** A peer nothing of whose past can count may be forgotten. */
  lemma ForgettingKeeps(history: seq<Failure>, hits: map<string, seq<int>>, peer: string, now: int)
    requires KeepsAll(history, hits, now) && Keeps(TimesOf(history, peer), [], now)
    ensures KeepsAll(history, hits - {peer}, now)
  {
    forall other ensures Keeps(TimesOf(history, other), HitsOf(hits - {peer}, other), now) {
      assert Keeps(TimesOf(history, other), HitsOf(hits, other), now);
    }
  }

  /** A failure may be recorded after what is recent alone, whatever else the peer's slot still held. */
  lemma RecordingKeeps(
    history: seq<Failure>, hits: map<string, seq<int>>, peer: string, recent: seq<int>, now: int, later: int)
    requires KeepsAll(history, hits, now) && Keeps(TimesOf(history, peer), recent, now) && now <= later
    ensures KeepsAll(history + [Failure(peer, later)], hits[peer := recent + [later]], later)
  {
    forall other
      ensures Keeps(TimesOf(history + [Failure(peer, later)], other), HitsOf(hits[peer := recent + [later]], other), later)
    {
      EachPeerIsKept(history, hits, peer, recent, now, later, other);
    }
  }

  lemma EachPeerIsKept(
    history: seq<Failure>, hits: map<string, seq<int>>, peer: string, recent: seq<int>, now: int, later: int, other: string)
    requires Keeps(TimesOf(history, peer), recent, now) && now <= later
    requires Keeps(TimesOf(history, other), HitsOf(hits, other), now)
    ensures Keeps(TimesOf(history + [Failure(peer, later)], other), HitsOf(hits[peer := recent + [later]], other), later)
  {
    RecordedTimes(history, Failure(peer, later), other);
    if other == peer {
      OneMoreIsKept(TimesOf(history, peer), recent, now, later);
    } else {
      var times := TimesOf(history, other);
      assert times + [] == times;
    }
  }

  lemma OneMoreIsKept(times: seq<int>, recent: seq<int>, now: int, later: int)
    requires Keeps(times, recent, now) && now <= later
    ensures Keeps(times + [later], recent + [later], later)
  {
    assert times + [later] == times[..|times| - |recent|] + (recent + [later]);
  }

  lemma RecordedTimes(history: seq<Failure>, f: Failure, peer: string)
    ensures TimesOf(history + [f], peer) == TimesOf(history, peer) + if f.peer == peer then [f.at] else []
  {
    assert (history + [f])[..|history|] == history;
  }

  /** A window that starts no earlier, and ends no earlier in what there is, counts no more. */
  lemma {:induction false} NarrowerCountsLess(history: seq<Failure>, peer: string, a: int, b: int, c: int, d: int)
    requires a <= c && forall f | f in history && f.at <= d :: f.at <= b
    ensures FailuresIn(history, peer, c, d) <= FailuresIn(history, peer, a, b)
  {
    if history != [] {
      NarrowerCountsLess(history[..|history| - 1], peer, a, b, c, d);
    }
  }

  // ---------------------------------------------------------------------------------------------------

  /** What remains of a peer's times once the leading ones that are too old are cut off. */
  method Trim(peer: string, all: seq<int>, now: int, ghost history: seq<Failure>) returns (recent: seq<int>)
    requires InOrder(history, now) && Keeps(TimesOf(history, peer), all, now)
    ensures |recent| == InTheMinuteTo(history, peer, now) && Keeps(TimesOf(history, peer), recent, now)
  {
    ghost var times := TimesOf(history, peer);
    ghost var gone := |times| - |all|;
    TimesAreInOrder(history, peer, now);
    var i := 0;
    while i < |all| && all[i] < now - MINUTE
      invariant 0 <= i <= |all|
      invariant forall j | 0 <= j < gone + i :: times[j] < now - MINUTE
    {
      assert all[i] == times[gone + i];
      i := i + 1;
    }
    recent := all[i..];
    assert i < |all| ==> times[gone + i] == all[i];
    TheRestCounts(history, peer, gone + i, now - MINUTE, now);
  }

  class FailureLimiter {
    const perMinute: int
    const clock: Clock
    var hits: map<string, seq<int>>
    var lastSweep: int
    /** Every failure ever recorded, which nothing prunes. */
    ghost var history: seq<Failure>
    /** The peers of requests let through and not yet finished. */
    ghost var between: multiset<string>

    constructor (perMinute: int, clock: Clock)
      requires clock.Monotone()
      modifies clock
      ensures this.perMinute == perMinute && this.clock == clock && history == [] && between == multiset{} && Valid()
      ensures forall atOnce: nat | atOnce > 0 :: Bounded(atOnce)
    {
      this.perMinute, this.clock, hits, history, between := perMinute, clock, map[], [], multiset{};
      new;
      lastSweep := clock.Now();
    }

    ghost predicate Valid()
      reads this, clock
    {
      clock.Monotone() && KeepsAll(history, hits, clock.at(clock.readings))
    }

    /** The latest reading. */
    ghost function Latest(): int
      reads clock
      requires clock.readings > 0
    {
      clock.at(clock.readings - 1)
    }

    method Tick() returns (now: int)
      requires Valid()
      modifies clock
      ensures Valid() && clock.readings == old(clock.readings) + 1
      ensures now == Latest() && old(clock.at(clock.readings)) <= now && KeepsAll(history, hits, now)
    {
      now := clock.Now();
      assert now <= clock.at(clock.readings);
      LaterStillKeeps(history, hits, now, clock.at(clock.readings));
    }

    method RecentLocked(peer: string) returns (recent: seq<int>)
      requires Valid()
      modifies clock
      ensures Valid() && clock.readings == old(clock.readings) + 1 && KeepsAll(history, hits, Latest())
      ensures |recent| == InTheMinuteTo(history, peer, Latest()) && Keeps(TimesOf(history, peer), recent, Latest())
    {
      var now := Tick();
      recent := Trim(peer, HitsOf(hits, peer), now, history);
    }

    /** Drops idle peers at most once a minute. */
    method SweepLocked()
      requires Valid()
      modifies this`hits, this`lastSweep, clock
      ensures Valid() && clock.readings > old(clock.readings)
    {
      var now := Tick();
      if now - lastSweep < MINUTE {
        return;
      }
      lastSweep := Tick();
      var todo := hits.Keys;
      while todo != {}
        invariant Valid() && clock.readings > old(clock.readings)
        decreases todo
      {
        var peer :| peer in todo;
        todo := todo - {peer};
        var recent := RecentLocked(peer);
        if recent == [] {
          ForgettingKeeps(history, hits, peer, Latest());
          hits := hits - {peer};
          assert Latest() <= clock.at(clock.readings);
          LaterStillKeeps(history, hits, Latest(), clock.at(clock.readings));
        }
      }
    }

    /** A peer is blocked exactly when enough of its failures, ever, are not older than a minute. */
    method Blocked(peer: string) returns (blocked: bool)
      requires Valid()
      modifies this`hits, this`lastSweep, clock
      ensures Valid() && clock.readings > old(clock.readings)
      ensures blocked <==> InTheMinuteTo(history, peer, Latest()) >= perMinute
      ensures InOrder(history, Latest())
    {
      SweepLocked();
      var recent := RecentLocked(peer);
      blocked := |recent| >= perMinute;
    }

    method Record(peer: string)
      requires Valid()
      modifies this`hits, this`history, clock
      ensures Valid() && clock.readings > old(clock.readings)
      ensures old(clock.at(clock.readings)) <= Latest()
      ensures history == old(history) + [Failure(peer, Latest())]
    {
      var recent := RecentLocked(peer);
      ghost var seen := Latest();
      var now := Tick();
      assert seen <= now <= clock.at(clock.readings);
      LaterStillKeeps(history, hits, seen, now);
      RecordingKeeps(history, hits, peer, recent, seen, now);
      hits := hits[peer := recent + [now]];
      history := history + [Failure(peer, now)];
      LaterStillKeeps(history, hits, now, clock.at(clock.readings));
    }

    /**
     * With at most so many requests of a peer at once between the check and the end, no minute holds more failures
     * than the limit and those that slipped through together; and those still under way may fail without breaking it.
     */
    ghost predicate Bounded(atOnce: nat)
      reads this, clock
    {
      perMinute > 0 ==>
        && Limited(history, perMinute + atOnce - 1)
        && forall peer ::
             InTheMinuteTo(history, peer, clock.at(clock.readings)) + between[peer] <= perMinute + atOnce - 1
    }

    /** The check: a peer with too many recent failures is refused before any lookup. */
    method Enter(peer: string, ghost atOnce: nat) returns (admitted: bool)
      requires Valid() && Bounded(atOnce) && perMinute > 0 && between[peer] < atOnce
      modifies this`hits, this`lastSweep, this`between, clock
      ensures Valid() && Bounded(atOnce)
      ensures admitted <==> clock.readings > 0 && InTheMinuteTo(history, peer, Latest()) < perMinute
      ensures between == if admitted then old(between) + multiset{peer} else old(between)
    {
      ghost var before := clock.at(clock.readings);
      var blocked := Blocked(peer);
      ghost var now := clock.at(clock.readings);
      assert before <= now && Latest() <= now;
      forall other ensures InTheMinuteTo(history, other, now) <= InTheMinuteTo(history, other, before) {
        LaterCountsLess(history, other, before, now);
      }
      LaterCountsLess(history, peer, Latest(), now);
      admitted := !blocked;
      if admitted {
        between := between + multiset{peer};
      }
    }

    /** The end: only a refused credential counts. */
    method Leave(peer: string, credential: Credential, ghost atOnce: nat)
      requires Valid() && Bounded(atOnce) && perMinute > 0 && peer in between
      modifies this`hits, this`history, this`between, clock
      ensures Valid() && Bounded(atOnce) && between == old(between) - multiset{peer}
      ensures credential != Refused ==> history == old(history)
      ensures credential == Refused ==> clock.readings > 0 && history == old(history) + [Failure(peer, Latest())]
    {
      ghost var before := clock.at(clock.readings);
      between := between - multiset{peer};
      if credential == Refused {
        ghost var was := history;
        Record(peer);
        ghost var now := clock.at(clock.readings);
        assert before <= Latest() <= now;
        StaysLimited(was, perMinute + atOnce - 1, peer, before, Latest());
        forall other
          ensures InTheMinuteTo(history, other, now) <= InTheMinuteTo(was, other, before) + if other == peer then 1 else 0
        {
          LaterCountsLess(was, other, before, now);
          OneMoreCounts(was, Failure(peer, Latest()), other, now);
        }
      }
    }

    /** One request from beginning to end, with none of its peer's beside it: no minute holds more than the limit. */
    method Handle(peer: string, credential: Credential) returns (served: bool)
      requires Valid() && Bounded(1) && between[peer] == 0
      modifies this, clock
      ensures Valid() && Bounded(1) && between == old(between)
      ensures perMinute <= 0 || credential == Absent ==> served && history == old(history)
      ensures !served || credential != Refused ==> history == old(history)
      ensures perMinute > 0 && credential == Refused && served ==>
                clock.readings > 0 && history == old(history) + [Failure(peer, Latest())]
    {
      if perMinute <= 0 || credential == Absent {
        return true;
      }
      served := Enter(peer, 1);
      if served {
        Leave(peer, credential, 1);
      }
    }
  }

  datatype Credential = Absent | Resolves | Refused

  /** In no minute, past or to come, does a peer have more failures on record than a limit. */
  ghost predicate Limited(history: seq<Failure>, limit: int) {
    forall peer, t :: InTheMinuteTo(history, peer, t) <= limit
  }

  /** Nothing is forgotten sooner by looking later. */
  lemma LaterCountsLess(history: seq<Failure>, peer: string, now: int, later: int)
    requires InOrder(history, now) && now <= later
    ensures InTheMinuteTo(history, peer, later) <= InTheMinuteTo(history, peer, now)
  {
    NarrowerCountsLess(history, peer, now - MINUTE, now, later - MINUTE, later);
  }

  lemma OneMoreCounts(history: seq<Failure>, f: Failure, peer: string, t: int)
    ensures InTheMinuteTo(history + [f], peer, t) <= InTheMinuteTo(history, peer, t) + if f.peer == peer then 1 else 0
  {
    assert (history + [f])[..|history|] == history;
  }

  /** Another failure keeps to a limit if there was room for it at an instant after the last one before. */
  lemma StaysLimited(history: seq<Failure>, limit: int, peer: string, counted: int, at: int)
    requires Limited(history, limit) && counted <= at
    requires InTheMinuteTo(history, peer, counted) < limit && InOrder(history, counted)
    ensures Limited(history + [Failure(peer, at)], limit)
  {
    var after := history + [Failure(peer, at)];
    assert after[..|history|] == history;
    forall other, t ensures InTheMinuteTo(after, other, t) <= limit {
      assert InTheMinuteTo(history, other, t) <= limit;
      if other == peer && t - MINUTE <= at <= t {
        NarrowerCountsLess(history, peer, counted - MINUTE, counted, t - MINUTE, t);
      }
    }
  }
}
