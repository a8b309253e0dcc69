/** The bounded replay window and the matching of camera triggers to uploads. */
module Correlator {
  import opened Prelude
  import opened Timestamps

  /** A sanitised trigger; times are UTC microseconds. */
  datatype CameraEvent = CameraEvent(eventId: string, eventType: string, ruleId: Option<string>,
                                     receivedAt: int, eventAt: Option<int>)

  /** `_events` oldest first, and `_seen` in insertion order. */
  datatype State = State(events: seq<CameraEvent>, seen: seq<(string, int)>)

  datatype Limits = Limits(ttl: int, window: int, maxEvents: nat) {
    predicate Safe() { 0 < window <= ttl && 1 <= maxEvents }
  }

  datatype Reply = Accepted | Duplicate | Stale | Matched(event: CameraEvent) | FtpFallback

  datatype Op = Record(event: CameraEvent, now: int) | Correlate(receivedAt: int, now: int)

  function Abs(x: int): nat {
    if x < 0 then -x else x
  }

  /** Whether an entry of `_seen` was received within the TTL. */
  function Recent(now: int, ttl: int): ((string, int)) -> bool {
    (p: (string, int)) => now - p.1 <= ttl
  }

  function StillHeld(now: int, ttl: int): CameraEvent -> bool {
    (e: CameraEvent) => now - e.receivedAt <= ttl
  }

  /** `_prune`: forget what was received longer ago than the TTL. */
  function Prune(s: State, now: int, l: Limits): State {
    State(Filter(s.events, StillHeld(now, l.ttl)),
          Filter(s.seen, Recent(now, l.ttl)))
  }

  predicate OutOfRange(at: int, now: int, l: Limits) {
    now - at > l.ttl || now - at < -l.window
  }

  predicate IsSeen(s: State, id: string) {
    exists i :: 0 <= i < |s.seen| && s.seen[i].0 == id
  }

  /** Keep the newest `n`. */
  function Newest<T>(s: seq<T>, n: nat): (r: seq<T>)
    ensures |r| <= n && |r| <= |s| && r == s[|s| - |r|..]
    ensures |s| <= n ==> r == s
    ensures |s| > n ==> |r| == n
  {
    if |s| <= n then s else s[|s| - n..]
  }

  function RecordStep(s: State, e: CameraEvent, now: int, l: Limits): (State, Reply) {
    var p := Prune(s, now, l);
    if OutOfRange(e.receivedAt, now, l) then (p, Stale)
    else if e.eventAt.Some? && OutOfRange(e.eventAt.value, now, l) then (p, Stale)
    else if IsSeen(p, e.eventId) then (p, Duplicate)
    else (State(Newest(p.events + [e], l.maxEvents), Newest(p.seen + [(e.eventId, e.receivedAt)], 2 * l.maxEvents)),
          Accepted)
  }

  /** The order of `min`: distance, then receipt, then id. */
  predicate Closer(a: CameraEvent, b: CameraEvent, at: int) {
    var da, db := Abs(a.receivedAt - at), Abs(b.receivedAt - at);
    da < db || (da == db && (a.receivedAt < b.receivedAt
                             || (a.receivedAt == b.receivedAt && LexLess(a.eventId, b.eventId))))
  }

  predicate InWindow(e: CameraEvent, at: int, l: Limits) {
    Abs(e.receivedAt - at) <= l.window
  }

  /** The first least candidate, or -1. */
  function Nearest(events: seq<CameraEvent>, at: int, l: Limits): (r: int)
    ensures -1 <= r < |events|
  {
    if events == [] then -1 else
    var r := Nearest(events[..|events| - 1], at, l);
    var last := events[|events| - 1];
    if InWindow(last, at, l) && (r < 0 || Closer(last, events[r], at)) then |events| - 1 else r
  }

  function CorrelateStep(s: State, at: int, now: int, l: Limits): (State, Reply) {
    var p := Prune(s, now, l);
    var r := Nearest(p.events, at, l);
    if r < 0 then (p, FtpFallback)
    else (State(p.events[..r] + p.events[r + 1..], p.seen), Matched(p.events[r]))
  }

  function Step(s: State, op: Op, l: Limits): (State, Reply) {
    match op
    case Record(e, now) => RecordStep(s, e, now, l)
    case Correlate(at, now) => CorrelateStep(s, at, now, l)
  }

  /** The replies of a run, in order, and the state after it. */
  function Run(s: State, ops: seq<Op>, l: Limits): (r: (State, seq<Reply>))
    ensures |r.1| == |ops|
    decreases |ops|
  {
    if ops == [] then (s, []) else
    var (s1, reply) := Step(s, ops[0], l);
    var (s2, replies) := Run(s1, ops[1..], l);
    (s2, [reply] + replies)
  }

  lemma FilterNext(s: seq<(string, int)>, i: nat, p: ((string, int)) -> bool)
    requires i < |s|
    ensures Filter(s[..i + 1], p) == if p(s[i]) then Filter(s[..i], p) + [s[i]] else Filter(s[..i], p)
  {
    FilterAppend(s[..i], [s[i]], p);
    assert s[..i + 1] == s[..i] + [s[i]];
  }

  class ReolinkEventCorrelator {
    const limits: Limits
    var events: seq<CameraEvent>
    var seen: seq<(string, int)>

    function Contents(): State
      reads this
    {
      State(events, seen)
    }

    constructor (limits: Limits)
      requires limits.Safe()
      ensures Contents() == State([], []) && this.limits == limits
    {
      this.limits := limits;
      events, seen := [], [];
    }

    method PruneNow(now: int)
      modifies this
      ensures Contents() == Prune(old(Contents()), now, limits)
    {
      events := Filter(events, StillHeld(now, limits.ttl));
      seen := PruneSeen(seen, now, limits.ttl);
    }

    /** The deletions from `_seen`, one by one. */
    static method PruneSeen(seen: seq<(string, int)>, now: int, ttl: int) returns (kept: seq<(string, int)>)
      ensures kept == Filter(seen, Recent(now, ttl))
    {
      kept := [];
      for i := 0 to |seen|
        invariant kept == Filter(seen[..i], Recent(now, ttl))
      {
        FilterNext(seen, i, Recent(now, ttl));
        if now - seen[i].1 <= ttl {
          kept := kept + [seen[i]];
        }
      }
      assert seen[..|seen|] == seen;
    }

    method Record(event: CameraEvent, now: int) returns (reply: Reply)
      requires limits.Safe()
      modifies this
      ensures (Contents(), reply) == RecordStep(old(Contents()), event, now, limits)
    {
      PruneNow(now);
      if OutOfRange(event.receivedAt, now, limits) {
        return Stale;
      }
      if event.eventAt.Some? && OutOfRange(event.eventAt.value, now, limits) {
        return Stale;
      }
      if IsSeen(Contents(), event.eventId) {
        return Duplicate;
      }
      seen := KeepNewest(seen + [(event.eventId, event.receivedAt)], 2 * limits.maxEvents);
      events := KeepNewest(events + [event], limits.maxEvents);
      return Accepted;
    }

    /** The eviction loop of both collections. */
    static method KeepNewest<T>(s: seq<T>, n: nat) returns (r: seq<T>)
      ensures r == Newest(s, n)
    {
      r := s;
      ghost var gone := 0;
      while |r| > n
        invariant gone <= |s| && r == s[gone..]
        invariant gone > 0 ==> |r| >= n
      {
        r := r[1..];
        gone := gone + 1;
      }
    }

    method Correlate(receivedAt: int, now: int) returns (reply: Reply)
      modifies this
      ensures (Contents(), reply) == CorrelateStep(old(Contents()), receivedAt, now, limits)
    {
      PruneNow(now);
      var r := Nearest(events, receivedAt, limits);
      if r < 0 {
        return FtpFallback;
      }
      reply := Matched(events[r]);
      events := events[..r] + events[r + 1..];
    }
  }

  // ---- Which event is matched -------------------------------------------------

  lemma LexTransitive(s: string, t: string, u: string)
    requires LexLess(s, t) && LexLess(t, u)
    ensures LexLess(s, u)
  {
    if s != "" && s[0] == t[0] == u[0] {
      LexTransitive(s[1..], t[1..], u[1..]);
    }
  }

  lemma LexTotal(s: string, t: string)
    ensures LexLess(s, t) || s == t || LexLess(t, s)
  {
    if s != "" && t != "" && s[0] == t[0] {
      LexTotal(s[1..], t[1..]);
      assert s == [s[0]] + s[1..] && t == [t[0]] + t[1..];
    }
  }

  lemma NotCloserTransitive(a: CameraEvent, b: CameraEvent, c: CameraEvent, at: int)
    requires !Closer(b, a, at) && !Closer(c, b, at)
    ensures !Closer(c, a, at)
  {
    LexTotal(a.eventId, b.eventId);
    LexTotal(b.eventId, c.eventId);
    if LexLess(a.eventId, b.eventId) && LexLess(b.eventId, c.eventId) {
      LexTransitive(a.eventId, b.eventId, c.eventId);
    }
    if Closer(c, a, at) && LexLess(c.eventId, a.eventId) {
      if LexLess(a.eventId, c.eventId) {
        LexTransitive(a.eventId, c.eventId, a.eventId);
      }
      LexIrreflexive(a.eventId);
    }
  }

  lemma CloserAsymmetric(a: CameraEvent, b: CameraEvent, at: int)
    requires Closer(a, b, at)
    ensures !Closer(b, a, at)
  {
    if LexLess(a.eventId, b.eventId) && LexLess(b.eventId, a.eventId) {
      LexTransitive(a.eventId, b.eventId, a.eventId);
      LexIrreflexive(a.eventId);
    }
  }

  /** The match is an event of the window that no event of the window beats; there is one unless the window is empty. */
  lemma {:induction false} NearestMeaning(events: seq<CameraEvent>, at: int, l: Limits)
    ensures var r := Nearest(events, at, l);
            && (r < 0 <==> forall i :: 0 <= i < |events| ==> !InWindow(events[i], at, l))
            && (r >= 0 ==> InWindow(events[r], at, l))
            && (r >= 0 ==> forall i :: 0 <= i < |events| && InWindow(events[i], at, l) ==>
                                         !Closer(events[i], events[r], at))
  {
    if events != [] {
      var n := |events| - 1;
      var before := events[..n];
      NearestMeaning(before, at, l);
      var r, last := Nearest(before, at, l), events[n];
      LexIrreflexive(last.eventId);
      assert r >= 0 ==> before[r] == events[r];
      if r >= 0 && InWindow(last, at, l) && Closer(last, events[r], at) {
        CloserAsymmetric(last, events[r], at);
        forall i | 0 <= i < n && InWindow(events[i], at, l)
          ensures !Closer(events[i], last, at)
        {
          assert before[i] == events[i];
          NotCloserTransitive(last, events[r], events[i], at);
        }
      }
      forall i | 0 <= i < n
        ensures r >= 0 && InWindow(events[i], at, l) ==> !Closer(events[i], events[r], at)
      {
        assert before[i] == events[i];
      }
      if r < 0 {
        forall i | 0 <= i < n ensures !InWindow(events[i], at, l) { assert before[i] == events[i]; }
      }
    }
  }

  /** A match removes the matched event and nothing else that the TTL keeps. */
  lemma MatchIsNearest(s: State, at: int, now: int, l: Limits)
    requires CorrelateStep(s, at, now, l).1.Matched?
    ensures var e := CorrelateStep(s, at, now, l).1.event;
            && e in s.events && now - e.receivedAt <= l.ttl && InWindow(e, at, l)
            && (forall f :: f in s.events && now - f.receivedAt <= l.ttl && InWindow(f, at, l) ==> !Closer(f, e, at))
            && multiset(CorrelateStep(s, at, now, l).0.events) == multiset(Prune(s, now, l).events) - multiset{e}
  {
    var p := Prune(s, now, l);
    NearestMeaning(p.events, at, l);
    var r := Nearest(p.events, at, l);
    assert p.events[r] in p.events;
    forall f | f in s.events && now - f.receivedAt <= l.ttl && InWindow(f, at, l)
      ensures !Closer(f, p.events[r], at)
    {
      assert f in p.events;
      var i :| 0 <= i < |p.events| && p.events[i] == f;
    }
    assert p.events == p.events[..r] + [p.events[r]] + p.events[r + 1..];
  }

  // ---- What a call answers and keeps ------------------------------------------------

  ghost predicate TooOldOrAhead(at: int, now: int, l: Limits) {
    now > at + l.ttl || at > now + l.window
  }

  /** The trigger is older than the TTL or further ahead of the clock than the window. */
  ghost predicate IsStale(e: CameraEvent, now: int, l: Limits) {
    TooOldOrAhead(e.receivedAt, now, l) || (e.eventAt.Some? && TooOldOrAhead(e.eventAt.value, now, l))
  }

  /** The id was accepted with a receipt still within the TTL, and is not forgotten. */
  ghost predicate IsRemembered(s: State, id: string, now: int, l: Limits) {
    exists q :: q in s.seen && q.0 == id && now <= q.1 + l.ttl
  }

  /** Each answer of `record` has its exact condition on the input. */
  lemma ReplyMeaning(s: State, e: CameraEvent, now: int, l: Limits)
    ensures var reply := RecordStep(s, e, now, l).1;
            && (reply == Stale <==> IsStale(e, now, l))
            && (reply == Duplicate <==> !IsStale(e, now, l) && IsRemembered(s, e.eventId, now, l))
            && (reply == Accepted <==> !IsStale(e, now, l) && !IsRemembered(s, e.eventId, now, l))
  {
    var p := Prune(s, now, l);
    if IsSeen(p, e.eventId) {
      var i :| 0 <= i < |p.seen| && p.seen[i].0 == e.eventId;
      assert p.seen[i] in p.seen;
    }
    if IsRemembered(s, e.eventId, now, l) {
      var q :| q in s.seen && q.0 == e.eventId && now <= q.1 + l.ttl;
      assert q in p.seen;
      var i :| 0 <= i < |p.seen| && p.seen[i] == q;
    }
  }

  /** The newest `max` of `held` and `added`: the oldest of `held` give way. */
  ghost predicate AddedTo<T(!new)>(held: seq<T>, after: seq<T>, added: T, max: nat)
    requires max > 0
  {
    after == (if |held| < max then held else held[|held| + 1 - max..]) + [added]
  }

  /**
   An accepted trigger becomes the newest one held, and its id the newest remembered, behind what
   the TTL keeps; only the oldest give way, and only at the bound. Any other answer adds nothing.
   */
  lemma AcceptedIsKept(s: State, e: CameraEvent, now: int, l: Limits)
    requires l.Safe()
    ensures var (after, reply) := RecordStep(s, e, now, l);
            var held := Filter(s.events, (f: CameraEvent) => now <= f.receivedAt + l.ttl);
            var known := Filter(s.seen, (q: (string, int)) => now <= q.1 + l.ttl);
            if reply == Accepted
            then AddedTo(held, after.events, e, l.maxEvents)
                 && AddedTo(known, after.seen, (e.eventId, e.receivedAt), 2 * l.maxEvents)
            else after.events == held && after.seen == known
  {
    FilterSame(s.events, StillHeld(now, l.ttl), (f: CameraEvent) => now <= f.receivedAt + l.ttl);
    FilterSame(s.seen, Recent(now, l.ttl), (q: (string, int)) => now <= q.1 + l.ttl);
    var p := Prune(s, now, l);
    NewestAdds(p.events, e, l.maxEvents);
    NewestAdds(p.seen, (e.eventId, e.receivedAt), 2 * l.maxEvents);
  }

  lemma NewestAdds<T(!new)>(held: seq<T>, added: T, max: nat)
    requires max > 0
    ensures AddedTo(held, Newest(held + [added], max), added, max)
  {
  }

  lemma {:induction false} FilterSame<T(!new)>(s: seq<T>, p: T -> bool, q: T -> bool)
    requires forall x :: p(x) == q(x)
    ensures Filter(s, p) == Filter(s, q)
  {
    if s != [] {
      FilterSame(s[1..], p, q);
    }
  }

  /** Trigger `e` is held, with at most `behind` triggers accepted after it. */
  ghost predicate HeldBehind(events: seq<CameraEvent>, e: CameraEvent, behind: nat) {
    exists p :: 0 <= p < |events| && events[p] == e && |events| - 1 - p <= behind
  }

  lemma {:induction false} HeldPosition(s: seq<CameraEvent>, keep: CameraEvent -> bool, p: nat) returns (q: nat)
    requires p < |s| && keep(s[p])
    ensures q < |Filter(s, keep)| && Filter(s, keep)[q] == s[p] && |Filter(s, keep)| - q <= |s| - p
  {
    if p == 0 {
      q := 0;
    } else {
      q := HeldPosition(s[1..], keep, p - 1);
      q := q + if keep(s[0]) then 1 else 0;
    }
  }

  lemma PruneHolds(s: State, e: CameraEvent, behind: nat, now: int, l: Limits)
    requires HeldBehind(s.events, e, behind) && now - e.receivedAt <= l.ttl
    ensures HeldBehind(Prune(s, now, l).events, e, behind)
  {
    var p :| 0 <= p < |s.events| && s.events[p] == e && |s.events| - 1 - p <= behind;
    var q := HeldPosition(s.events, StillHeld(now, l.ttl), p);
  }

  lemma AppendHolds(events: seq<CameraEvent>, next: seq<CameraEvent>, e: CameraEvent, behind: nat, added: CameraEvent,
                    max: nat)
    requires HeldBehind(events, e, behind) && behind + 1 < max && next == Newest(events + [added], max)
    ensures HeldBehind(next, e, behind + 1)
  {
    var p :| 0 <= p < |events| && events[p] == e && |events| - 1 - p <= behind;
    var longer := events + [added];
    var gone := |longer| - |next|;
    assert longer[p] == e && next[p - gone] == longer[p];
  }

  lemma RemoveHolds(events: seq<CameraEvent>, r: nat, e: CameraEvent, behind: nat)
    requires HeldBehind(events, e, behind) && r < |events| && events[r] != e
    ensures HeldBehind(events[..r] + events[r + 1..], e, behind)
  {
    var p :| 0 <= p < |events| && events[p] == e && |events| - 1 - p <= behind;
    var next := events[..r] + events[r + 1..];
    var q := if p < r then p else p - 1;
    assert next[q] == e;
  }

  lemma StepHolds(s: State, e: CameraEvent, behind: nat, op: Op, l: Limits)
    requires HeldBehind(s.events, e, behind) && op.now - e.receivedAt <= l.ttl && Step(s, op, l).1 != Matched(e)
    requires behind + Accepts([Step(s, op, l).1]) < l.maxEvents
    ensures HeldBehind(Step(s, op, l).0.events, e, behind + Accepts([Step(s, op, l).1]))
  {
    PruneHolds(s, e, behind, op.now, l);
    var pruned := Prune(s, op.now, l);
    var next, reply := Step(s, op, l).0, Step(s, op, l).1;
    if reply == Accepted {
      assert Accepts([reply]) == 1;
      AppendHolds(pruned.events, next.events, e, behind, op.event, l.maxEvents);
    } else if reply.Matched? {
      assert Accepts([reply]) == 0;
      RemoveHolds(pruned.events, Nearest(pruned.events, op.receivedAt, l), e, behind);
    } else {
      assert Accepts([reply]) == 0 && next.events == pruned.events;
    }
  }

  /**
   A held trigger stays held over every run, while the TTL keeps it, no answer takes it and fewer
   than `maxEvents` triggers are accepted after it.
   */
  lemma {:induction false} StaysHeld(s: State, e: CameraEvent, behind: nat, ops: seq<Op>, l: Limits)
    requires HeldBehind(s.events, e, behind) && Matched(e) !in Run(s, ops, l).1
    requires forall i :: 0 <= i < |ops| ==> ops[i].now - e.receivedAt <= l.ttl
    requires behind + Accepts(Run(s, ops, l).1) < l.maxEvents
    ensures HeldBehind(Run(s, ops, l).0.events, e, behind + Accepts(Run(s, ops, l).1))
    decreases |ops|
  {
    if ops != [] {
      var next, reply := Step(s, ops[0], l).0, Step(s, ops[0], l).1;
      var later := Run(next, ops[1..], l).1;
      assert Run(s, ops, l).1 == [reply] + later && ([reply] + later)[1..] == later;
      assert reply == ([reply] + later)[0];
      StepHolds(s, e, behind, ops[0], l);
      StaysHeld(next, e, behind + Accepts([reply]), ops[1..], l);
    }
  }

  /** `correlate` finds a trigger exactly when one within the TTL lies in the window. */
  lemma CorrelateFinds(s: State, at: int, now: int, l: Limits)
    ensures var reply := CorrelateStep(s, at, now, l).1;
            && (reply.Matched? <==> exists f :: f in s.events && now <= f.receivedAt + l.ttl
                                                && at - l.window <= f.receivedAt <= at + l.window)
            && (!reply.Matched? ==> reply == FtpFallback && CorrelateStep(s, at, now, l).0 == Prune(s, now, l))
  {
    var p := Prune(s, now, l);
    NearestMeaning(p.events, at, l);
    var r := Nearest(p.events, at, l);
    if r >= 0 {
      assert p.events[r] in p.events;
    }
    if f :| f in s.events && now <= f.receivedAt + l.ttl && at - l.window <= f.receivedAt <= at + l.window {
      assert f in p.events;
      var i :| 0 <= i < |p.events| && p.events[i] == f;
      assert InWindow(p.events[i], at, l);
    }
  }

  /**
   A trigger accepted now is there for the upload that follows: after any calls that neither take it
   nor outnumber it, `correlate` within its window and TTL answers with a trigger no further away.
   */
  lemma AcceptedIsMatched(s: State, e: CameraEvent, now: int, ops: seq<Op>, at: int, later: int, l: Limits)
    requires l.Safe() && RecordStep(s, e, now, l).1 == Accepted
    requires var (_, replies) := Run(RecordStep(s, e, now, l).0, ops, l);
             Matched(e) !in replies && Accepts(replies) < l.maxEvents
    requires forall i :: 0 <= i < |ops| ==> ops[i].now - e.receivedAt <= l.ttl
    requires later - e.receivedAt <= l.ttl && at - l.window <= e.receivedAt <= at + l.window
    ensures var reply := CorrelateStep(Run(RecordStep(s, e, now, l).0, ops, l).0, at, later, l).1;
            reply.Matched? && !Closer(e, reply.event, at)
  {
    var start := RecordStep(s, e, now, l).0;
    AcceptedIsHeld(s, e, now, l);
    StaysHeld(start, e, 0, ops, l);
    HeldIsMatched(Run(start, ops, l).0, e, at, later, l);
  }

  lemma AcceptedIsHeld(s: State, e: CameraEvent, now: int, l: Limits)
    requires l.Safe() && RecordStep(s, e, now, l).1 == Accepted
    ensures HeldBehind(RecordStep(s, e, now, l).0.events, e, 0)
  {
    AcceptedIsKept(s, e, now, l);
    var events := RecordStep(s, e, now, l).0.events;
    assert events[|events| - 1] == e;
  }

  lemma HeldIsMatched(s: State, e: CameraEvent, at: int, now: int, l: Limits)
    requires e in s.events && now <= e.receivedAt + l.ttl && at - l.window <= e.receivedAt <= at + l.window
    ensures var reply := CorrelateStep(s, at, now, l).1;
            reply.Matched? && !Closer(e, reply.event, at)
  {
    CorrelateFinds(s, at, now, l);
    MatchIsNearest(s, at, now, l);
  }

  // ---- Bounds -------------------------------------------------------------------

  ghost predicate DistinctIds(seen: seq<(string, int)>) {
    forall i, j :: 0 <= i < j < |seen| ==> seen[i].0 != seen[j].0
  }

  ghost predicate Bounded(s: State, l: Limits) {
    |s.events| <= l.maxEvents && |s.seen| <= 2 * l.maxEvents && DistinctIds(s.seen)
  }

  lemma FilterDistinct(seen: seq<(string, int)>, p: ((string, int)) -> bool)
    requires DistinctIds(seen)
    ensures DistinctIds(Filter(seen, p))
  {
    if seen != [] {
      FilterDistinct(seen[1..], p);
      var rest := Filter(seen[1..], p);
      forall i | 0 <= i < |rest|
        ensures rest[i].0 != seen[0].0
      {
        assert rest[i] in rest;
        var k :| 0 <= k < |seen[1..]| && seen[1..][k] == rest[i];
        assert seen[k + 1] == rest[i];
      }
    }
  }

  lemma StepBounded(s: State, op: Op, l: Limits)
    requires l.Safe() && Bounded(s, l)
    ensures Bounded(Step(s, op, l).0, l)
  {
    PruneBounded(s, op.now, l);
    if op.Record? && Step(s, op, l).1 == Accepted {
      AcceptBounded(Prune(s, op.now, l), op.event, l);
    }
  }

  lemma PruneBounded(s: State, now: int, l: Limits)
    requires Bounded(s, l)
    ensures Bounded(Prune(s, now, l), l)
  {
    FilterDistinct(s.seen, Recent(now, l.ttl));
  }

  lemma DistinctAppend(seen: seq<(string, int)>, q: (string, int))
    requires DistinctIds(seen) && forall i :: 0 <= i < |seen| ==> seen[i].0 != q.0
    ensures DistinctIds(seen + [q])
  {
  }

  lemma DistinctSuffix(seen: seq<(string, int)>, n: nat)
    requires DistinctIds(seen) && n <= |seen|
    ensures DistinctIds(seen[n..])
  {
  }

  lemma AcceptBounded(p: State, e: CameraEvent, l: Limits)
    requires Bounded(p, l) && !IsSeen(p, e.eventId)
    ensures Bounded(State(Newest(p.events + [e], l.maxEvents),
                          Newest(p.seen + [(e.eventId, e.receivedAt)], 2 * l.maxEvents)), l)
  {
    var longer := p.seen + [(e.eventId, e.receivedAt)];
    DistinctAppend(p.seen, (e.eventId, e.receivedAt));
    DistinctSuffix(longer, |longer| - |Newest(longer, 2 * l.maxEvents)|);
  }

  /** Both collections stay within their bounds on every run. */
  lemma {:induction false} RunBounded(s: State, ops: seq<Op>, l: Limits)
    requires l.Safe() && Bounded(s, l)
    ensures Bounded(Run(s, ops, l).0, l)
    decreases |ops|
  {
    if ops != [] {
      StepBounded(s, ops[0], l);
      RunBounded(Step(s, ops[0], l).0, ops[1..], l);
    }
  }

  // ---- The replay window ----------------------------------------------------------

  function Accepts(replies: seq<Reply>): nat {
    if replies == [] then 0 else (if replies[0] == Accepted then 1 else 0) + Accepts(replies[1..])
  }

  function Matches(replies: seq<Reply>): nat {
    if replies == [] then 0 else (if replies[0].Matched? then 1 else 0) + Matches(replies[1..])
  }

  /** Id `x`, received at `r`, is remembered with at most `behind` ids accepted after it. */
  ghost predicate Remembered(s: State, x: string, r: int, behind: nat) {
    exists p :: 0 <= p < |s.seen| && s.seen[p] == (x, r) && |s.seen| - 1 - p <= behind
  }

  lemma {:induction false} FilterPosition(s: seq<(string, int)>, keep: ((string, int)) -> bool, p: nat) returns (q: nat)
    requires p < |s| && keep(s[p])
    ensures q < |Filter(s, keep)| && Filter(s, keep)[q] == s[p] && |Filter(s, keep)| - q <= |s| - p
  {
    if p == 0 {
      q := 0;
    } else {
      q := FilterPosition(s[1..], keep, p - 1);
      q := q + if keep(s[0]) then 1 else 0;
    }
  }

  lemma PruneRemembers(s: State, x: string, r: int, behind: nat, now: int, l: Limits)
    requires Remembered(s, x, r, behind) && now - r <= l.ttl
    ensures Remembered(Prune(s, now, l), x, r, behind)
  {
    var p :| 0 <= p < |s.seen| && s.seen[p] == (x, r) && |s.seen| - 1 - p <= behind;
    var q := FilterPosition(s.seen, Recent(now, l.ttl), p);
  }

  lemma StepRemembers(s: State, x: string, r: int, behind: nat, op: Op, l: Limits)
    requires Remembered(s, x, r, behind) && op.now - r <= l.ttl
    requires behind + Accepts([Step(s, op, l).1]) < 2 * l.maxEvents
    ensures Remembered(Step(s, op, l).0, x, r, behind + Accepts([Step(s, op, l).1]))
    ensures op.Record? && op.event.eventId == x ==> Step(s, op, l).1 != Accepted
  {
    PruneRemembers(s, x, r, behind, op.now, l);
    var pruned := Prune(s, op.now, l);
    var next, reply := Step(s, op, l).0, Step(s, op, l).1;
    if reply == Accepted {
      assert Accepts([reply]) == 1;
      AppendRemembers(pruned.seen, next.seen, x, r, behind, (op.event.eventId, op.event.receivedAt), 2 * l.maxEvents);
    } else {
      assert Accepts([reply]) == 0 && next.seen == pruned.seen;
    }
  }

  lemma AppendRemembers(seen: seq<(string, int)>, next: seq<(string, int)>, x: string, r: int, behind: nat,
                        added: (string, int), max: nat)
    requires Remembered(State([], seen), x, r, behind) && behind + 1 < max
    requires next == Newest(seen + [added], max)
    ensures Remembered(State([], next), x, r, behind + 1)
  {
    var p :| 0 <= p < |seen| && seen[p] == (x, r) && |seen| - 1 - p <= behind;
    var longer := seen + [added];
    var gone := |longer| - |next|;
    assert longer[p] == (x, r);
    assert next[p - gone] == longer[p];
    assert State([], next).seen[p - gone] == (x, r);
  }

  /**
   While fewer than `2 * maxEvents` ids are accepted after `x` and its receipt stays within
   the TTL at every call, no call accepts `x` again.
   */
  lemma {:induction false} ReplayRefused(s: State, x: string, r: int, behind: nat, ops: seq<Op>, l: Limits, k: nat)
    requires Remembered(s, x, r, behind)
    requires forall i :: 0 <= i < |ops| ==> ops[i].now - r <= l.ttl
    requires behind + Accepts(Run(s, ops, l).1) < 2 * l.maxEvents
    requires k < |ops| && ops[k].Record? && ops[k].event.eventId == x
    ensures Run(s, ops, l).1[k] != Accepted
    decreases |ops|
  {
    var next, reply := Step(s, ops[0], l).0, Step(s, ops[0], l).1;
    var later := Run(next, ops[1..], l).1;
    assert Run(s, ops, l).1 == [reply] + later && ([reply] + later)[1..] == later;
    StepRemembers(s, x, r, behind, ops[0], l);
    if k > 0 {
      ReplayRefused(next, x, r, behind + Accepts([reply]), ops[1..], l, k - 1);
    }
  }

  /** Acceptance starts the window. */
  lemma AcceptedIsRemembered(s: State, e: CameraEvent, now: int, l: Limits)
    requires l.Safe() && RecordStep(s, e, now, l).1 == Accepted
    ensures Remembered(RecordStep(s, e, now, l).0, e.eventId, e.receivedAt, 0)
  {
    var seen := RecordStep(s, e, now, l).0.seen;
    assert seen[|seen| - 1] == (e.eventId, e.receivedAt);
  }

  /**
   The window is exact: when `2 * maxEvents - 1` ids followed `x`, the next acceptance forgets
   `x`, and an event with that id is accepted again.
   */
  lemma {:induction false} WindowIsTight(s: State, x: string, r: int, y: CameraEvent, again: CameraEvent, now: int,
                                         l: Limits)
    requires l.Safe() && |s.seen| == 2 * l.maxEvents && s.seen[0] == (x, r) && DistinctIds(s.seen)
    requires forall q :: q in s.seen ==> now - q.1 <= l.ttl
    requires RecordStep(s, y, now, l).1 == Accepted
    requires again.eventId == x && !OutOfRange(again.receivedAt, now, l) && again.eventAt == None
    ensures RecordStep(RecordStep(s, y, now, l).0, again, now, l).1 == Accepted
  {
    OldestForgotten(s, x, r, y, now, l);
    AcceptedWhenUnseen(RecordStep(s, y, now, l).0, again, now, l);
  }

  lemma AcceptedWhenUnseen(s: State, e: CameraEvent, now: int, l: Limits)
    requires !OutOfRange(e.receivedAt, now, l) && e.eventAt == None && forall q :: q in s.seen ==> q.0 != e.eventId
    ensures RecordStep(s, e, now, l).1 == Accepted
  {
    var p := Prune(s, now, l);
    forall i | 0 <= i < |p.seen|
      ensures p.seen[i].0 != e.eventId
    {
      assert p.seen[i] in s.seen;
    }
  }

  lemma {:induction false} OldestForgotten(s: State, x: string, r: int, y: CameraEvent, now: int, l: Limits)
    requires l.Safe() && |s.seen| == 2 * l.maxEvents && s.seen[0] == (x, r) && DistinctIds(s.seen)
    requires forall q :: q in s.seen ==> now - q.1 <= l.ttl
    requires RecordStep(s, y, now, l).1 == Accepted
    ensures forall q :: q in RecordStep(s, y, now, l).0.seen ==> q.0 != x && Recent(now, l.ttl)(q)
  {
    var keep := Recent(now, l.ttl);
    FilterAll(s.seen, keep);
    var next := RecordStep(s, y, now, l).0;
    assert s.seen[0].0 == x && IsSeen(s, x);
    assert next.seen == (s.seen + [(y.eventId, y.receivedAt)])[1..];
    OldestIsGone(s.seen, (y.eventId, y.receivedAt), next.seen, x, keep);
  }

  lemma OldestIsGone(seen: seq<(string, int)>, new_: (string, int), next: seq<(string, int)>, x: string,
                     keep: ((string, int)) -> bool)
    requires seen != [] && DistinctIds(seen) && seen[0].0 == x && new_.0 != x && next == (seen + [new_])[1..]
    requires keep(new_) && forall q :: q in seen ==> keep(q)
    ensures forall q :: q in next ==> q.0 != x && keep(q)
  {
    forall i | 0 <= i < |next|
      ensures next[i].0 != x && keep(next[i])
    {
      if i < |seen| - 1 {
        assert next[i] == seen[i + 1] && seen[i + 1] in seen;
      }
    }
  }

  /** Matches never outnumber acceptances: every accepted event is matched at most once. */
  lemma {:induction false} MatchesWithinAcceptances(s: State, ops: seq<Op>, l: Limits)
    ensures Matches(Run(s, ops, l).1) + |Run(s, ops, l).0.events| <= |s.events| + Accepts(Run(s, ops, l).1)
    decreases |ops|
  {
    if ops != [] {
      var next, reply := Step(s, ops[0], l).0, Step(s, ops[0], l).1;
      MatchesWithinAcceptances(next, ops[1..], l);
      var later := Run(next, ops[1..], l).1;
      assert Run(s, ops, l).1 == [reply] + later && ([reply] + later)[1..] == later;
    }
  }
}
