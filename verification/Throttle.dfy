/** A counter restarted when its last event is an hour old: the shape of both the
    resend limit and the login lockout. */
module Throttle {
  import opened Clock
  import opened Options
  import opened Records

  datatype Window = Window(last: Option<Instant>, count: nat)

  const EMPTY: Window := Window(None, 0)

  predicate Recent(w: Window, now: Instant) {
    w.last.Some? && now - HOUR < w.last.value
  }

  predicate Blocked(w: Window, now: Instant, limit: nat) {
    Recent(w, now) && limit <= w.count
  }

  function Recorded(w: Window, now: Instant): Window {
    Window(Some(now), if Recent(w, now) then w.count + 1 else 1)
  }

  /** The counter after events at the given times, from an empty one. */
  function Replayed(times: seq<Instant>): Window {
    if times == [] then EMPTY else Recorded(Replayed(times[..|times| - 1]), times[|times| - 1])
  }

  /** The events came in order, and none while the counter blocked it. */
  ghost predicate Permitted(times: seq<Instant>, limit: nat) {
    && (forall i, j :: 0 <= i < j < |times| ==> times[i] <= times[j])
    && forall i :: 0 <= i < |times| ==> !Blocked(Replayed(times[..i]), times[i], limit)
  }

  lemma PermittedPrefix(times: seq<Instant>, limit: nat, n: nat)
    requires Permitted(times, limit) && n <= |times|
    ensures Permitted(times[..n], limit)
  {
    forall i | 0 <= i < n
      ensures !Blocked(Replayed(times[..n][..i]), times[i], limit)
    {
      assert times[..n][..i] == times[..i];
    }
  }

  lemma PermittedOneMore(times: seq<Instant>, limit: nat, now: Instant)
    requires Permitted(times, limit) && !Blocked(Replayed(times), now, limit)
    requires forall i :: 0 <= i < |times| ==> times[i] <= now
    ensures Permitted(times + [now], limit) && Replayed(times + [now]) == Recorded(Replayed(times), now)
  {
    hide Blocked, Recorded;
    var all := times + [now];
    assert all[..|times|] == times;
    forall i | 0 <= i < |all|
      ensures !Blocked(Replayed(all[..i]), all[i], limit)
    {
      if i < |times| {
        assert all[..i] == times[..i];
      }
    }
  }

  lemma {:induction false} CountBounded(times: seq<Instant>, limit: nat)
    requires Permitted(times, limit) && 1 <= limit
    ensures Replayed(times).count <= limit
    ensures times != [] ==> Replayed(times).last == Some(times[|times| - 1])
  {
    if times != [] {
      var n := |times| - 1;
      PermittedPrefix(times, limit, n);
      CountBounded(times[..n], limit);
      assert !Blocked(Replayed(times[..n]), times[n], limit);
    }
  }

  lemma InOrder(times: seq<Instant>, limit: nat, i: nat, j: nat)
    requires Permitted(times, limit) && i <= j < |times|
    ensures times[i] <= times[j]
  {
  }

  // An event less than an hour after the one before it is counted on top of it.
  lemma CountedOnTop(times: seq<Instant>, limit: nat)
    requires Permitted(times, limit) && 1 <= limit && 2 <= |times|
    requires times[|times| - 1] < times[|times| - 2] + HOUR
    ensures Replayed(times).count == Replayed(times[..|times| - 1]).count + 1
  {
    var n := |times| - 1;
    PermittedPrefix(times, limit, n);
    CountBounded(times[..n], limit);
  }

  lemma OneCounted(times: seq<Instant>)
    requires times != []
    ensures 1 <= Replayed(times).count
  {
  }

  /** Events within an hour of one another have been counted together. */
  lemma {:induction false} CountCovers(times: seq<Instant>, limit: nat, i: nat)
    requires Permitted(times, limit) && 1 <= limit && i < |times| && times[|times| - 1] < times[i] + HOUR
    ensures |times| - i <= Replayed(times).count
  {
    hide Permitted, Replayed;
    var n := |times| - 1;
    if i == n {
      OneCounted(times);
    } else {
      InOrder(times, limit, i, n - 1);
      InOrder(times, limit, n - 1, n);
      CountedOnTop(times, limit);
      PermittedPrefix(times, limit, n);
      CountCovers(times[..n], limit, i);
    }
  }

  lemma CountedTogether(times: seq<Instant>, limit: nat, i: nat, j: nat)
    requires Permitted(times, limit) && 1 <= limit && i <= j < |times| && times[j] < times[i] + HOUR
    ensures j < i + limit
  {
    hide Permitted, Replayed;
    PermittedPrefix(times, limit, j + 1);
    CountCovers(times[..j + 1], limit, i);
    CountBounded(times[..j + 1], limit);
  }

  // ----- when the counter blocks -----

  /** The last `n` events came each less than an hour after the one before, and the last
      of them less than an hour ago. */
  ghost predicate Chained(times: seq<Instant>, n: nat, now: Instant) {
    && n <= |times|
    && (forall i :: |times| - n < i < |times| ==> times[i] < times[i - 1] + 3_600_000_000)
    && (0 < n ==> now < times[|times| - 1] + 3_600_000_000)
  }

  lemma {:induction false} CountIsChain(times: seq<Instant>, n: nat)
    requires 1 <= n && times != []
    ensures n <= Replayed(times).count <==> Chained(times, n, times[|times| - 1])
    ensures Replayed(times).last == Some(times[|times| - 1])
  {
    var m := |times| - 1;
    var front, last := times[..m], times[m];
    if m == 0 {
      assert Replayed(front) == EMPTY;
    } else {
      if 1 < n {
        CountIsChain(front, n - 1);
        ChainGrows(times, n);
      } else {
        CountIsChain(front, 1);
      }
    }
  }

  lemma ChainGrows(times: seq<Instant>, n: nat)
    requires 2 <= n && 2 <= |times|
    ensures var m := |times| - 1;
            Chained(times, n, times[m]) <==>
            Chained(times[..m], n - 1, times[m - 1]) && times[m] < times[m - 1] + 3_600_000_000
  {
    var m := |times| - 1;
    if Chained(times, n, times[m]) {
      assert forall i :: 0 <= i < m ==> times[..m][i] == times[i];
    }
  }

  /** The counter blocks exactly when as many events as the limit came in such a chain:
      it opens again an hour after the last of them. */
  lemma BlocksExactly(times: seq<Instant>, limit: nat, now: Instant)
    requires 1 <= limit
    ensures Blocked(Replayed(times), now, limit) <==> Chained(times, limit, now)
  {
    if times != [] {
      CountIsChain(times, limit);
    }
  }

  ghost function Within(times: seq<Instant>, from: Instant): set<nat> {
    set i: nat | i < |times| && from <= times[i] < from + HOUR
  }

  /** No half-open window of an hour holds more events than the limit. */
  lemma AtMostLimitPerHour(times: seq<Instant>, limit: nat, from: Instant)
    requires Permitted(times, limit) && 1 <= limit
    ensures |Within(times, from)| <= limit
  {
    hide Permitted;
    var inside := Within(times, from);
    if inside != {} {
      var i := Least(inside);
      forall j | j in inside
        ensures i <= j < i + limit
      {
        CountedTogether(times, limit, i, j);
      }
      SpanBoundsSize(inside, i, limit);
    }
  }

  lemma Least(s: set<nat>) returns (i: nat)
    requires s != {}
    ensures i in s && forall j :: j in s ==> i <= j
  {
    i :| i in s;
    while exists j :: j in s && j < i
      invariant i in s
      decreases i
    {
      var j :| j in s && j < i;
      i := j;
    }
  }

  lemma {:induction false} SpanBoundsSize(s: set<nat>, lo: nat, n: nat)
    requires forall j :: j in s ==> lo <= j < lo + n
    ensures |s| <= n
  {
    if n != 0 {
      SpanBoundsSize(s - {lo + n - 1}, lo, n - 1);
    } else {
      assert s == {};
    }
  }
}
