/**
 The login rate limiter: per address, a list of recent accepted attempts that is pruned at every
 attempt. It decides as if it kept the whole history, and no window ever holds more than five.
 */
module LoginLimiter {

  type Ip = nat

  /** Instants in nanoseconds. */
  type Instant = nat

  const SECOND: nat := 1_000_000_000
  const WINDOW: nat := 60 * SECOND
  const LIMIT: nat := 5

  datatype Attempt = Attempt(ip: Ip, at: Instant)

  /** The `retain` of the code: what is less than a window old. */
  function Recent(times: seq<Instant>, now: Instant): (r: seq<Instant>)
    ensures forall t :: t in r <==> t in times && now - t < WINDOW
  {
    if times == [] then []
    else
      var init, last := times[..|times| - 1], times[|times| - 1];
      if now - last < WINDOW then Recent(init, now) + [last] else Recent(init, now)
  }

  /** Times of one address in a history. */
  function TimesOf(history: seq<Attempt>, ip: Ip): seq<Instant> {
    if history == [] then []
    else
      var init, last := history[..|history| - 1], history[|history| - 1];
      if last.ip == ip then TimesOf(init, ip) + [last.at] else TimesOf(init, ip)
  }

  /** The decision the limiter should take: fewer than five accepted in the preceding window of everything. */
  predicate Allowed(history: seq<Attempt>, a: Attempt) {
    |Recent(TimesOf(history, a.ip), a.at)| < LIMIT
  }

  lemma {:induction false} RecentAppend(times: seq<Instant>, t: Instant, now: Instant)
    ensures Recent(times + [t], now) == if now - t < WINDOW then Recent(times, now) + [t] else Recent(times, now)
  {
    assert (times + [t])[..|times|] == times;
  }

  lemma TimesAppend(history: seq<Attempt>, a: Attempt, ip: Ip)
    ensures TimesOf(history + [a], ip) == if a.ip == ip then TimesOf(history, ip) + [a.at] else TimesOf(history, ip)
  {
    assert (history + [a])[..|history|] == history;
  }

  /** Pruning early loses nothing that a later pruning would keep. */
  lemma {:induction false} RecentOfRecent(times: seq<Instant>, now: Instant, later: Instant)
    requires now <= later
    ensures Recent(Recent(times, now), later) == Recent(times, later)
  {
    if times != [] {
      var init, last := times[..|times| - 1], times[|times| - 1];
      RecentOfRecent(init, now, later);
      if now - last < WINDOW {
        RecentAppend(Recent(init, now), last, later);
      }
    }
  }

  /** From `clock` on, the list prunes to what all the times prune to. */
  ghost predicate Prunes(entry: seq<Instant>, times: seq<Instant>, clock: Instant) {
    forall later: Instant :: later >= clock ==> Recent(entry, later) == Recent(times, later)
  }

  lemma PruneKeeps(entry: seq<Instant>, times: seq<Instant>, clock: Instant, now: Instant)
    requires Prunes(entry, times, clock) && clock <= now
    ensures Prunes(Recent(entry, now), times, now) && Recent(entry, now) == Recent(times, now)
  {
    forall later: Instant | later >= now ensures Recent(Recent(entry, now), later) == Recent(times, later) {
      RecentOfRecent(entry, now, later);
    }
  }

  lemma PrunesLater(entry: seq<Instant>, times: seq<Instant>, clock: Instant, now: Instant)
    requires Prunes(entry, times, clock) && clock <= now
    ensures Prunes(entry, times, now)
  {
  }

  lemma PushKeeps(entry: seq<Instant>, times: seq<Instant>, now: Instant)
    requires Prunes(entry, times, now)
    ensures Prunes(entry + [now], times + [now], now)
  {
    forall later: Instant | later >= now ensures Recent(entry + [now], later) == Recent(times + [now], later) {
      RecentAppend(entry, now, later);
      RecentAppend(times, now, later);
    }
  }

  class Limiter {
    var entries: map<Ip, seq<Instant>>
    /** Every attempt accepted so far, and the clock of the last attempt. */
    ghost var history: seq<Attempt>
    ghost var clock: Instant

    ghost function Entry(ip: Ip): seq<Instant>
      reads this
    {
      if ip in entries then entries[ip] else []
    }

    /** From now on, each pruned list prunes to what the full history prunes to. */
    ghost predicate Valid()
      reads this
    {
      forall ip: Ip :: Prunes(Entry(ip), TimesOf(history, ip), clock)
    }

    constructor ()
      ensures Valid() && history == [] && clock == 0
    {
      entries, history, clock := map[], [], 0;
    }

    /** `enforce_login_rate_limit`. */
    method Enforce(ip: Ip, now: Instant) returns (ok: bool)
      requires Valid() && clock <= now
      modifies this
      ensures Valid() && clock == now
      ensures ok <==> Allowed(old(history), Attempt(ip, now))
      ensures history == if ok then old(history) + [Attempt(ip, now)] else old(history)
    {
      PruneKeeps(Entry(ip), TimesOf(history, ip), clock, now);
      forall other: Ip ensures Prunes(Entry(other), TimesOf(history, other), now) {
        PrunesLater(Entry(other), TimesOf(history, other), clock, now);
      }
      var entry := if ip in entries then entries[ip] else [];
      entry := Recent(entry, now);
      entries := entries[ip := entry];
      clock := now;
      if |entry| >= LIMIT {
        return false;
      }
      PushKeeps(entry, TimesOf(history, ip), now);
      entries := entries[ip := entry + [now]];
      forall other: Ip ensures Prunes(Entry(other), TimesOf(history + [Attempt(ip, now)], other), now) {
        TimesAppend(history, Attempt(ip, now), other);
      }
      history := history + [Attempt(ip, now)];
      return true;
    }
  }

  // ----- Whole runs -----

  /** What a run of attempts accepts, deciding each against the whole history. */
  function Accepted(attempts: seq<Attempt>): seq<Attempt> {
    if attempts == [] then []
    else
      var h, a := Accepted(attempts[..|attempts| - 1]), attempts[|attempts| - 1];
      if Allowed(h, a) then h + [a] else h
  }

  predicate Ordered(attempts: seq<Attempt>) {
    forall i, j :: 0 <= i < j < |attempts| ==> attempts[i].at <= attempts[j].at
  }

  // ----- Decisions by position -----

  /** The attempts let in among the first `n`. */
  function LetIn(attempts: seq<Attempt>, oks: seq<bool>, n: nat): seq<Attempt>
    requires n <= |attempts| && n <= |oks|
  {
    if n == 0 then []
    else if oks[n - 1] then LetIn(attempts, oks, n - 1) + [attempts[n - 1]]
    else LetIn(attempts, oks, n - 1)
  }

  /** Positions before `n` that were let in for this address less than sixty seconds before `now`. */
  function RecentAt(attempts: seq<Attempt>, oks: seq<bool>, n: nat, ip: Ip, now: Instant): set<nat>
    requires n <= |attempts| && n <= |oks|
  {
    set j: nat | j < n && oks[j] && attempts[j].ip == ip && now - attempts[j].at < 60_000_000_000
  }

  /** Positions before `n` that were let in for this address in the sixty seconds from `start`. */
  function WindowAt(attempts: seq<Attempt>, oks: seq<bool>, n: nat, ip: Ip, start: Instant): set<nat>
    requires n <= |attempts| && n <= |oks|
  {
    set j: nat | j < n && oks[j] && attempts[j].ip == ip && start <= attempts[j].at < start + 60_000_000_000
  }

  /** The limiter's list, counted by positions. */
  lemma {:induction false} RecentCounts(attempts: seq<Attempt>, oks: seq<bool>, n: nat, ip: Ip, now: Instant)
    requires n <= |attempts| && n <= |oks|
    ensures |Recent(TimesOf(LetIn(attempts, oks, n), ip), now)| == |RecentAt(attempts, oks, n, ip, now)|
  {
    if n > 0 {
      RecentCounts(attempts, oks, n - 1, ip, now);
      RecentAtGrows(attempts, oks, n - 1, ip, now);
      if oks[n - 1] {
        var h, a := LetIn(attempts, oks, n - 1), attempts[n - 1];
        TimesAppend(h, a, ip);
        RecentAppend(TimesOf(h, ip), a.at, now);
      }
    }
  }

  lemma RecentAtGrows(attempts: seq<Attempt>, oks: seq<bool>, n: nat, ip: Ip, now: Instant)
    requires n < |attempts| && n < |oks|
    ensures |RecentAt(attempts, oks, n + 1, ip, now)| == |RecentAt(attempts, oks, n, ip, now)| +
              if oks[n] && attempts[n].ip == ip && now - attempts[n].at < 60_000_000_000 then 1 else 0
  {
    var before, after := RecentAt(attempts, oks, n, ip, now), RecentAt(attempts, oks, n + 1, ip, now);
    assert after == before || after == before + {n};
  }

  /** Each of the first `n` attempts is let in exactly when fewer than five were in the preceding sixty seconds. */
  ghost predicate Decided(attempts: seq<Attempt>, oks: seq<bool>, n: nat)
    requires n <= |attempts| && n <= |oks|
  {
    forall i: nat | i < n :: oks[i] <==> |RecentAt(attempts, oks, i, attempts[i].ip, attempts[i].at)| < 5
  }

  /** The limiter run over a list of attempts with a non-decreasing clock. */
  method RunLimiter(attempts: seq<Attempt>) returns (oks: seq<bool>)
    requires Ordered(attempts)
    ensures |oks| == |attempts| && Decided(attempts, oks, |attempts|)
  {
    var limiter := new Limiter();
    oks := [];
    for i := 0 to |attempts|
      invariant limiter.Valid() && |oks| == i && Decided(attempts, oks, i)
      invariant limiter.history == LetIn(attempts, oks, i)
      invariant i < |attempts| ==> limiter.clock <= attempts[i].at
    {
      RecentCounts(attempts, oks, i, attempts[i].ip, attempts[i].at);
      var ok := limiter.Enforce(attempts[i].ip, attempts[i].at);
      DecidedGrows(attempts, oks, ok);
      oks := oks + [ok];
    }
  }

  /** It decides each of them so, written out. */
  method EnforceAll(attempts: seq<Attempt>) returns (oks: seq<bool>)
    requires Ordered(attempts)
    ensures |oks| == |attempts|
    ensures forall i: nat | i < |attempts| ::
              oks[i] <==> |set j: nat | j < i && oks[j] && attempts[j].ip == attempts[i].ip &&
                                        attempts[i].at - attempts[j].at < 60_000_000_000| < 5
  {
    oks := RunLimiter(attempts);
    DecidedWrittenOut(attempts, oks);
  }

  /** What such decisions let in is what deciding each attempt against the whole history accepts. */
  lemma {:induction false} DecidedIsAccepted(attempts: seq<Attempt>, oks: seq<bool>, n: nat)
    requires n <= |attempts| && n <= |oks| && Decided(attempts, oks, n)
    ensures LetIn(attempts, oks, n) == Accepted(attempts[..n])
  {
    if n > 0 {
      DecidedIsAccepted(attempts, oks, n - 1);
      AcceptedNext(attempts, n - 1);
      DecidedAt(attempts, oks, n, n - 1);
    }
  }

  lemma AcceptedNext(attempts: seq<Attempt>, n: nat)
    requires n < |attempts|
    ensures var h := Accepted(attempts[..n]);
            Accepted(attempts[..n + 1]) == if Allowed(h, attempts[n]) then h + [attempts[n]] else h
  {
    assert attempts[..n + 1][..n] == attempts[..n];
  }

  lemma DecidedAt(attempts: seq<Attempt>, oks: seq<bool>, n: nat, i: nat)
    requires i < n <= |attempts| && n <= |oks| && Decided(attempts, oks, n)
    ensures oks[i] <==> Allowed(LetIn(attempts, oks, i), attempts[i])
  {
    RecentCounts(attempts, oks, i, attempts[i].ip, attempts[i].at);
    assert oks[i] <==> |RecentAt(attempts, oks, i, attempts[i].ip, attempts[i].at)| < 5;
  }

  lemma DecidedWrittenOut(attempts: seq<Attempt>, oks: seq<bool>)
    requires |oks| == |attempts| && Decided(attempts, oks, |attempts|)
    ensures forall i: nat | i < |attempts| ::
              oks[i] <==> |set j: nat | j < i && oks[j] && attempts[j].ip == attempts[i].ip &&
                                        attempts[i].at - attempts[j].at < 60_000_000_000| < 5
  {
    forall i: nat | i < |attempts|
      ensures oks[i] <==> |set j: nat | j < i && oks[j] && attempts[j].ip == attempts[i].ip &&
                                        attempts[i].at - attempts[j].at < 60_000_000_000| < 5
    {
      assert oks[i] <==> |RecentAt(attempts, oks, i, attempts[i].ip, attempts[i].at)| < 5;
    }
  }

  /** Whatever is decided so, on any clock: no sixty seconds hold more than five for one address. */
  lemma {:induction false} FivePerWindow(attempts: seq<Attempt>, oks: seq<bool>, n: nat, ip: Ip, start: Instant)
    requires n <= |attempts| && n <= |oks| && Decided(attempts, oks, n)
    ensures |WindowAt(attempts, oks, n, ip, start)| <= 5
  {
    if n > 0 {
      FivePerWindow(attempts, oks, n - 1, ip, start);
      WindowGrows(attempts, oks, n - 1, ip, start);
      var a := attempts[n - 1];
      if oks[n - 1] && a.ip == ip && start <= a.at < start + 60_000_000_000 {
        DecidedCount(attempts, oks, n, n - 1);
        WindowWithinRecent(attempts, oks, n - 1, ip, start, a.at);
      }
    }
  }

  lemma DecidedCount(attempts: seq<Attempt>, oks: seq<bool>, n: nat, i: nat)
    requires i < n <= |attempts| && n <= |oks| && Decided(attempts, oks, n)
    ensures oks[i] <==> |RecentAt(attempts, oks, i, attempts[i].ip, attempts[i].at)| < 5
  {
  }

  lemma WindowGrows(attempts: seq<Attempt>, oks: seq<bool>, n: nat, ip: Ip, start: Instant)
    requires n < |attempts| && n < |oks|
    ensures |WindowAt(attempts, oks, n + 1, ip, start)| == |WindowAt(attempts, oks, n, ip, start)| +
              if oks[n] && attempts[n].ip == ip && start <= attempts[n].at < start + 60_000_000_000 then 1 else 0
  {
    var before, after := WindowAt(attempts, oks, n, ip, start), WindowAt(attempts, oks, n + 1, ip, start);
    assert after == before || after == before + {n};
  }

  lemma WindowWithinRecent(attempts: seq<Attempt>, oks: seq<bool>, n: nat, ip: Ip, start: Instant, now: Instant)
    requires n <= |attempts| && n <= |oks| && now < start + 60_000_000_000
    ensures |WindowAt(attempts, oks, n, ip, start)| <= |RecentAt(attempts, oks, n, ip, now)|
  {
    SubsetIsSmaller(WindowAt(attempts, oks, n, ip, start), RecentAt(attempts, oks, n, ip, now));
  }

  lemma {:induction false} SubsetIsSmaller(x: set<nat>, y: set<nat>)
    requires x <= y
    ensures |x| <= |y|
  {
    if x != {} {
      var e :| e in x;
      SubsetIsSmaller(x - {e}, y - {e});
    }
  }

  lemma {:induction false} LaterDecision(attempts: seq<Attempt>, oks: seq<bool>, ok: bool, n: nat)
    requires n <= |oks| <= |attempts|
    ensures LetIn(attempts, oks + [ok], n) == LetIn(attempts, oks, n)
    ensures forall ip: Ip, now: Instant ::
              RecentAt(attempts, oks + [ok], n, ip, now) == RecentAt(attempts, oks, n, ip, now)
  {
    if n > 0 {
      LaterDecision(attempts, oks, ok, n - 1);
    }
  }

  lemma DecidedGrows(attempts: seq<Attempt>, oks: seq<bool>, ok: bool)
    requires |oks| < |attempts| && Decided(attempts, oks, |oks|)
    requires var a := attempts[|oks|]; ok <==> |RecentAt(attempts, oks, |oks|, a.ip, a.at)| < 5
    ensures Decided(attempts, oks + [ok], |oks| + 1)
    ensures LetIn(attempts, oks + [ok], |oks| + 1) ==
            if ok then LetIn(attempts, oks, |oks|) + [attempts[|oks|]] else LetIn(attempts, oks, |oks|)
  {
    var n := |oks|;
    LaterDecision(attempts, oks, ok, n);
    forall i: nat | i < n + 1
      ensures (oks + [ok])[i] <==> |RecentAt(attempts, oks + [ok], i, attempts[i].ip, attempts[i].at)| < 5
    {
      LaterDecision(attempts, oks, ok, i);
    }
  }

  /** Accepted times of one address in the half-open window starting at `start`. */
  function InWindow(times: seq<Instant>, start: Instant): (r: seq<Instant>) {
    if times == [] then []
    else
      var init, last := times[..|times| - 1], times[|times| - 1];
      if start <= last < start + WINDOW then InWindow(init, start) + [last] else InWindow(init, start)
  }

  /** A window that contains `now` saw nothing that is not recent at `now`. */
  lemma {:induction false} WindowIsRecent(times: seq<Instant>, start: Instant, now: Instant)
    requires start <= now < start + WINDOW
    ensures |InWindow(times, start)| <= |Recent(times, now)|
  {
    if times != [] {
      WindowIsRecent(times[..|times| - 1], start, now);
    }
  }

  /** Over every run, for every address, no 60-second window holds more than five accepted attempts. */
  lemma {:induction false} AtMostFivePerWindow(attempts: seq<Attempt>, ip: Ip, start: Instant)
    ensures |InWindow(TimesOf(Accepted(attempts), ip), start)| <= LIMIT
  {
    if attempts != [] {
      var init, a := attempts[..|attempts| - 1], attempts[|attempts| - 1];
      AtMostFivePerWindow(init, ip, start);
      var h := Accepted(init);
      if Allowed(h, a) && a.ip == ip {
        TimesAppend(h, a, ip);
        assert (TimesOf(h, ip) + [a.at])[..|TimesOf(h, ip)|] == TimesOf(h, ip);
        if start <= a.at < start + WINDOW {
          WindowIsRecent(TimesOf(h, ip), start, a.at);
        }
      } else if Allowed(h, a) {
        TimesAppend(h, a, ip);
      }
    }
  }

  function Only(attempts: seq<Attempt>, ip: Ip): seq<Attempt> {
    if attempts == [] then []
    else
      var init, last := attempts[..|attempts| - 1], attempts[|attempts| - 1];
      if last.ip == ip then Only(init, ip) + [last] else Only(init, ip)
  }

  /** Addresses do not interfere: each sees the limiter it would see alone. */
  lemma {:induction false} AddressesAreIndependent(attempts: seq<Attempt>, ip: Ip)
    ensures TimesOf(Accepted(attempts), ip) == TimesOf(Accepted(Only(attempts, ip)), ip)
  {
    if attempts != [] {
      var init, a := attempts[..|attempts| - 1], attempts[|attempts| - 1];
      AddressesAreIndependent(init, ip);
      TimesAppend(Accepted(init), a, ip);
      if a.ip == ip {
        var own := Only(init, ip);
        assert Only(attempts, ip)[..|own|] == own;
        TimesAppend(Accepted(own), a, ip);
      }
    }
  }
}
