/**
 The public lookup rate limiter: fixed windows of one minute per client, and a
 cleanup pass that forgets idle clients. Times are in nanoseconds.
 */
module RateLimiter {
  import opened Text

  const SECOND := 1_000_000_000
  const WINDOW := 60 * SECOND
  const MAX_REQUESTS := 60
  const MAX_IDLE := 600 * SECOND

  datatype Entry = Entry(count: int, resetAt: int, lastSeen: int)

  type Entries = map<string, Entry>

  function Lookup(m: Entries, key: string): Option<Entry> { if key in m then Some(m[key]) else None }

  /** The entry a request at `now` is counted against: a fresh one when the window is over. */
  function Current(e: Option<Entry>, now: int): Entry {
    if e.None? || now >= e.value.resetAt then Entry(0, now + WINDOW, now) else e.value.(lastSeen := now)
  }

  predicate Admits(e: Option<Entry>, now: int) { Current(e, now).count < MAX_REQUESTS }

  function Counted(e: Option<Entry>, now: int): Entry {
    var c := Current(e, now);
    if c.count < MAX_REQUESTS then c.(count := c.count + 1) else c
  }

  function WithoutIdle(m: Entries, now: int): Entries {
    map k | k in m && now - m[k].lastSeen <= MAX_IDLE :: m[k]
  }

  /** The limiter's memory: entries and the time of the last cleanup. */
  datatype Memory = Memory(entries: Entries, cleaned: Option<int>)

  predicate CleanupDue(s: Memory, now: int) { s.cleaned.None? || now - s.cleaned.value >= WINDOW }

  function Cleaned(s: Memory, now: int): Memory {
    if CleanupDue(s, now) then Memory(WithoutIdle(s.entries, now), Some(now)) else s
  }

  function After(s: Memory, key: string, now: int): Memory {
    var c := Cleaned(s, now);
    c.(entries := c.entries[key := Counted(Lookup(c.entries, key), now)])
  }

  predicate Allowed(s: Memory, key: string, now: int) {
    Admits(Lookup(Cleaned(s, now).entries, key), now)
  }

  class Limiter {
    var entries: Entries
    var cleaned: Option<int>

    constructor ()
      ensures Contents() == Memory(map[], None)
    {
      entries, cleaned := map[], None;
    }

    function Contents(): Memory
      reads this
    {
      Memory(entries, cleaned)
    }

    /** `allowPublicLookupRequest`; a refusal also names the end of the window. */
    method Allow(key: string, now: int) returns (ok: bool, resetAt: int)
      modifies this
      ensures Contents() == After(old(Contents()), key, now)
      ensures ok == Allowed(old(Contents()), key, now)
      ensures !ok ==> key in entries && resetAt == entries[key].resetAt
    {
      if CleanupDue(Contents(), now) {
        var todo := entries.Keys;
        var kept := entries;
        while todo != {}
          invariant todo <= entries.Keys
          invariant forall k :: k in kept <==> k in entries && (k in todo || now - entries[k].lastSeen <= MAX_IDLE)
          invariant forall k :: k in kept ==> kept[k] == entries[k]
          decreases todo
        {
          var k :| k in todo;
          todo := todo - {k};
          if now - kept[k].lastSeen > MAX_IDLE {
            kept := kept - {k};
          }
        }
        assert kept == WithoutIdle(entries, now);
        entries := kept;
        cleaned := Some(now);
      }
      var entry := Entry(0, now + WINDOW, now);
      if key in entries && now < entries[key].resetAt {
        entry := entries[key].(lastSeen := now);
      }
      if entry.count >= MAX_REQUESTS {
        entries := entries[key := entry];
        return false, entry.resetAt;
      }
      entries := entries[key := entry.(count := entry.count + 1)];
      return true, 0;
    }
  }

  // ---------------------------------------------------------------------------
  // Forgetting is not observable
  // ---------------------------------------------------------------------------

  datatype Request = Request(key: string, now: int)

  ghost predicate NonDecreasing(run: seq<Request>) {
    forall i, j :: 0 <= i < j < |run| ==> run[i].now <= run[j].now
  }

  function MemoryAfter(run: seq<Request>): Memory {
    if run == [] then Memory(map[], None)
    else After(MemoryAfter(run[..|run| - 1]), run[|run| - 1].key, run[|run| - 1].now)
  }

  /** A limiter that never forgets. */
  function EntriesAfter(run: seq<Request>): Entries {
    if run == [] then map[]
    else
      var m := EntriesAfter(run[..|run| - 1]);
      var r := run[|run| - 1];
      m[r.key := Counted(Lookup(m, r.key), r.now)]
  }

  /** Windows end at most one window after the client was last seen. */
  ghost predicate EntryOk(e: Entry, now: int) {
    e.resetAt <= e.lastSeen + WINDOW && e.lastSeen <= now && 0 <= e.count <= MAX_REQUESTS
  }

  /** The two limiters agree except on clients whose window is over. */
  ghost predicate Agree(s: Memory, full: Entries, now: int) {
    && (forall k :: k in full ==> EntryOk(full[k], now))
    && (forall k :: k in s.entries ==> k in full && s.entries[k] == full[k])
    && (forall k :: k in full && k !in s.entries ==> full[k].resetAt <= now)
  }

  lemma CleanupAgrees(s: Memory, full: Entries, before: int, now: int)
    requires Agree(s, full, before) && before <= now
    ensures Agree(Cleaned(s, now), full, now)
  {
  }

  lemma RequestAgrees(s: Memory, full: Entries, before: int, r: Request)
    requires Agree(s, full, before) && before <= r.now
    ensures Allowed(s, r.key, r.now) == Admits(Lookup(full, r.key), r.now)
    ensures Agree(After(s, r.key, r.now), full[r.key := Counted(Lookup(full, r.key), r.now)], r.now)
  {
    CleanupAgrees(s, full, before, r.now);
  }

  lemma {:induction false} LimitersAgree(run: seq<Request>, now: int)
    requires NonDecreasing(run) && (run != [] ==> run[|run| - 1].now <= now)
    ensures Agree(MemoryAfter(run), EntriesAfter(run), now)
    decreases |run|
  {
    if run != [] {
      var front := run[..|run| - 1];
      var r := run[|run| - 1];
      LimitersAgree(front, r.now);
      RequestAgrees(MemoryAfter(front), EntriesAfter(front), r.now, r);
    }
  }

  /** The cleanup pass never changes a decision, for any requests at non-decreasing times. */
  lemma CleanupIsInvisible(run: seq<Request>, r: Request)
    requires NonDecreasing(run + [r])
    ensures Allowed(MemoryAfter(run), r.key, r.now) == Admits(Lookup(EntriesAfter(run), r.key), r.now)
  {
    var all := run + [r];
    forall i, j | 0 <= i < j < |run| ensures run[i].now <= run[j].now {
      assert all[i].now <= all[j].now;
    }
    if run != [] {
      assert all[|run| - 1].now <= all[|run|].now;
    }
    LimitersAgree(run, r.now);
    RequestAgrees(MemoryAfter(run), EntriesAfter(run), r.now, r);
  }

  // ---------------------------------------------------------------------------
  // At most two windows' worth of requests in any span of one window
  // ---------------------------------------------------------------------------

  /** An admitted request and the end of the window it was counted in. */
  datatype Admission = Admission(at: int, windowEnd: int)

  /** The admissions of one client, oldest first. */
  function Admissions(run: seq<Request>, key: string): seq<Admission> {
    if run == [] then []
    else
      var a := Admissions(run[..|run| - 1], key);
      var r := run[|run| - 1];
      var e := Lookup(EntriesAfter(run[..|run| - 1]), key);
      if r.key == key && Allowed(MemoryAfter(run[..|run| - 1]), key, r.now)
         then a + [Admission(r.now, Current(e, r.now).resetAt)] else a
  }

  /** Admissions fall into disjoint windows of at most sixty. */
  ghost predicate Windowed(a: seq<Admission>) {
    && (forall i :: 0 <= i < |a| ==> a[i].windowEnd - WINDOW <= a[i].at < a[i].windowEnd)
    && (forall i, j :: 0 <= i < j < |a| ==>
        a[i].windowEnd == a[j].windowEnd || a[i].windowEnd + WINDOW <= a[j].windowEnd)
    && (forall i :: 0 <= i < |a| - MAX_REQUESTS ==> a[i].windowEnd != a[i + MAX_REQUESTS].windowEnd)
  }

  /** The entry counts exactly the admissions of its window, which are the last ones. */
  ghost predicate Matches(a: seq<Admission>, e: Option<Entry>) {
    match e
    case None => a == []
    case Some(x) =>
      && 0 <= x.count <= |a| && x.count <= MAX_REQUESTS
      && (forall i :: |a| - x.count <= i < |a| ==> a[i].windowEnd == x.resetAt)
      && (forall i :: 0 <= i < |a| - x.count ==> a[i].windowEnd + WINDOW <= x.resetAt)
  }

  /** The first admission of a window. */
  lemma NewWindow(a: seq<Admission>, e: Option<Entry>, now: int)
    requires Windowed(a) && Matches(a, e) && (e.Some? ==> e.value.resetAt <= now)
    ensures Windowed(a + [Admission(now, now + WINDOW)])
    ensures Matches(a + [Admission(now, now + WINDOW)], Some(Entry(1, now + WINDOW, now)))
  {
    var b := a + [Admission(now, now + WINDOW)];
    forall i | 0 <= i < |a| ensures b[i] == a[i] && a[i].windowEnd <= now {
    }
  }

  /** A later admission of the same window. */
  lemma SameWindow(a: seq<Admission>, x: Entry, now: int)
    requires Windowed(a) && Matches(a, Some(x)) && now < x.resetAt <= now + WINDOW && x.count < MAX_REQUESTS
    ensures Windowed(a + [Admission(now, x.resetAt)])
  {
    var b := a + [Admission(now, x.resetAt)];
    forall i | 0 <= i < |a| ensures b[i] == a[i]
        && (a[i].windowEnd == x.resetAt || a[i].windowEnd + WINDOW <= x.resetAt) {
    }
    forall i | 0 <= i < |b| - MAX_REQUESTS ensures b[i].windowEnd != b[i + MAX_REQUESTS].windowEnd {
      if i + MAX_REQUESTS < |a| {
        assert a[i].windowEnd != a[i + MAX_REQUESTS].windowEnd;
      } else {
        assert i < |a| - x.count;
      }
    }
  }

  lemma SameWindowMatches(a: seq<Admission>, x: Entry, now: int)
    requires Matches(a, Some(x)) && x.count < MAX_REQUESTS
    ensures Matches(a + [Admission(now, x.resetAt)], Some(Entry(x.count + 1, x.resetAt, now)))
  {
    var b := a + [Admission(now, x.resetAt)];
    assert forall i :: 0 <= i < |a| ==> b[i] == a[i];
  }

  lemma AdmissionKeepsWindows(a: seq<Admission>, e: Option<Entry>, now: int)
    requires Windowed(a) && Matches(a, e)
    requires e.Some? ==> e.value.resetAt <= now + WINDOW
    ensures Admits(e, now) ==> Windowed(a + [Admission(now, Current(e, now).resetAt)])
    ensures Admits(e, now) ==> Matches(a + [Admission(now, Current(e, now).resetAt)], Some(Counted(e, now)))
    ensures !Admits(e, now) ==> Matches(a, Some(Counted(e, now)))
  {
    if e.None? || now >= e.value.resetAt {
      NewWindow(a, e, now);
      assert Counted(e, now) == Entry(1, now + WINDOW, now);
    } else if e.value.count < MAX_REQUESTS {
      SameWindow(a, e.value, now);
      SameWindowMatches(a, e.value, now);
      assert Counted(e, now) == Entry(e.value.count + 1, e.value.resetAt, now);
    }
  }

  lemma {:induction false} AdmissionsWindowed(run: seq<Request>, key: string)
    requires NonDecreasing(run)
    ensures Windowed(Admissions(run, key)) && Matches(Admissions(run, key), Lookup(EntriesAfter(run), key))
    decreases |run|
  {
    if run != [] {
      var front := run[..|run| - 1];
      var r := run[|run| - 1];
      AdmissionsWindowed(front, key);
      LimitersAgree(front, r.now);
      RequestAgrees(MemoryAfter(front), EntriesAfter(front), r.now, r);
      if r.key == key {
        AdmissionKeepsWindows(Admissions(front, key), Lookup(EntriesAfter(front), key), r.now);
      }
    }
  }

  /**
   Any span of one window, ends included, admits at most 2 × 60 requests of a
   client: the 121st of any run of admissions comes more than a window after
   the first.
   */
  lemma TwoWindowsWorth(run: seq<Request>, key: string, i: nat)
    requires NonDecreasing(run) && i + 2 * MAX_REQUESTS < |Admissions(run, key)|
    ensures Admissions(run, key)[i + 2 * MAX_REQUESTS].at > Admissions(run, key)[i].at + WINDOW
  {
    AdmissionsWindowed(run, key);
    var a := Admissions(run, key);
    assert a[i].windowEnd + WINDOW <= a[i + MAX_REQUESTS].windowEnd;
    assert a[i + MAX_REQUESTS].windowEnd != a[i + MAX_REQUESTS + MAX_REQUESTS].windowEnd;
  }

  // ---------------------------------------------------------------------------
  // Retry-After
  // ---------------------------------------------------------------------------

  /** Go's integer division and remainder truncate toward zero. */
  function Quotient(a: int, b: int): int
    requires b > 0
  {
    if a >= 0 then a / b else -((-a) / b)
  }

  /** The whole seconds announced for a remaining time. */
  function RetrySeconds(remaining: int): int {
    var q := Quotient(remaining, SECOND);
    var s := if remaining - q * SECOND != 0 then q + 1 else q;
    if s < 1 then 1 else s
  }

  /** The announced time is never too short, and never a second too long. */
  lemma RetrySecondsRoundUp(remaining: int)
    ensures RetrySeconds(remaining) >= 1 && RetrySeconds(remaining) * SECOND >= remaining
    ensures remaining > 0 ==> (RetrySeconds(remaining) - 1) * SECOND < remaining
  {
  }

  /** The entry of one client after requests at the given times. */
  function EntryAfter(e: Entry, times: seq<int>): Entry {
    if times == [] then e else Counted(Some(EntryAfter(e, times[..|times| - 1])), times[|times| - 1])
  }

  /** The end of the current window after requests at the given times, from a window that ends at `end`. */
  function WindowEnd(end: int, times: seq<int>): int {
    if times == [] then end
    else
      var w := WindowEnd(end, times[..|times| - 1]);
      if times[|times| - 1] >= w then times[|times| - 1] + WINDOW else w
  }

  /** The requests since that window opened, refused ones included; the window at the start is full. */
  function InWindow(end: int, times: seq<int>): nat {
    if times == [] then MAX_REQUESTS
    else
      var front := times[..|times| - 1];
      if times[|times| - 1] >= WindowEnd(end, front) then 1 else InWindow(end, front) + 1
  }

  /** A full entry follows the windows that the request times alone determine. */
  lemma {:induction false} EntryFollowsWindows(e: Entry, times: seq<int>)
    requires e.count >= MAX_REQUESTS
    ensures EntryAfter(e, times).resetAt == WindowEnd(e.resetAt, times)
    ensures EntryAfter(e, times).count < MAX_REQUESTS <==> InWindow(e.resetAt, times) < MAX_REQUESTS
    ensures InWindow(e.resetAt, times) < MAX_REQUESTS ==> EntryAfter(e, times).count == InWindow(e.resetAt, times)
    decreases |times|
  {
    if times != [] {
      EntryFollowsWindows(e, times[..|times| - 1]);
    }
  }

  /** When one client's requests come. */
  function Times(run: seq<Request>, key: string): seq<int> {
    if run == [] then []
    else
      var ts := Times(run[..|run| - 1], key);
      var r := run[|run| - 1];
      if r.key == key then ts + [r.now] else ts
  }

  lemma EntryAfterAppend(e: Entry, ts: seq<int>, t: int)
    ensures EntryAfter(e, ts + [t]) == Counted(Some(EntryAfter(e, ts)), t)
  {
    assert (ts + [t])[..|ts|] == ts;
  }

  /** Only a client's own requests change its entry. */
  lemma {:induction false} EntriesFollow(run: seq<Request>, more: seq<Request>, key: string)
    requires key in EntriesAfter(run)
    ensures Lookup(EntriesAfter(run + more), key) == Some(EntryAfter(EntriesAfter(run)[key], Times(more, key)))
    decreases |more|
  {
    var all := run + more;
    if more == [] {
      assert all == run;
    } else {
      var front := more[..|more| - 1];
      EntriesFollow(run, front, key);
      assert all[..|all| - 1] == run + front;
      EntryAfterAppend(EntriesAfter(run)[key], Times(front, key), more[|more| - 1].now);
    }
  }

  /** The end of the window that a refusal names. */
  function ResetAt(run: seq<Request>, key: string): int {
    if key in MemoryAfter(run).entries then MemoryAfter(run).entries[key].resetAt else 0
  }

  /** A refused request finds a full window and leaves it full. */
  lemma RefusalMeansFull(run: seq<Request>, r: Request)
    requires NonDecreasing(run + [r]) && !Allowed(MemoryAfter(run), r.key, r.now)
    ensures r.key in EntriesAfter(run + [r])
    ensures var e := EntriesAfter(run + [r])[r.key]; e.count >= MAX_REQUESTS && e.resetAt == ResetAt(run + [r], r.key)
  {
    CleanupIsInvisible(run, r);
    var all := run + [r];
    assert all[..|all| - 1] == run;
    LimitersAgree(all, r.now);
  }

  /**
   Exactly when a client that was refused is admitted again: when the window its
   requests since then have opened is over, or holds fewer than sixty of them.
   */
  lemma AdmittedAgainIff(run: seq<Request>, r: Request, between: seq<Request>, t: int)
    requires NonDecreasing(run + [r] + between + [Request(r.key, t)])
    requires !Allowed(MemoryAfter(run), r.key, r.now)
    ensures var end, times := ResetAt(run + [r], r.key), Times(between, r.key);
            Allowed(MemoryAfter(run + [r] + between), r.key, t) <==>
            t >= WindowEnd(end, times) || InWindow(end, times) < MAX_REQUESTS
  {
    var all := run + [r] + between + [Request(r.key, t)];
    forall i, j | 0 <= i < j < |run + [r]| ensures (run + [r])[i].now <= (run + [r])[j].now {
      assert all[i].now <= all[j].now;
    }
    RefusalMeansFull(run, r);
    EntriesFollow(run + [r], between, r.key);
    EntryFollowsWindows(EntriesAfter(run + [r])[r.key], Times(between, r.key));
    CleanupIsInvisible(run + [r] + between, Request(r.key, t));
  }

  /** The time the Retry-After header of a refusal names, when its remaining time is read off a clock at `clock`. */
  function RetryTime(run: seq<Request>, r: Request, clock: int): int {
    clock + RetrySeconds(ResetAt(run + [r], r.key) - clock) * SECOND
  }

  /** A refused client that sends nothing until the Retry-After time is admitted, whatever others do. */
  lemma PatientClientAdmitted(run: seq<Request>, r: Request, clock: int, between: seq<Request>, t: int)
    requires NonDecreasing(run + [r] + between + [Request(r.key, t)])
    requires !Allowed(MemoryAfter(run), r.key, r.now)
    requires Times(between, r.key) == [] && t >= RetryTime(run, r, clock)
    ensures Allowed(MemoryAfter(run + [r] + between), r.key, t)
  {
    RetrySecondsRoundUp(ResetAt(run + [r], r.key) - clock);
    AdmittedAgainIff(run, r, between, t);
  }

  lemma {:induction false} SameTimes(end: int, k: nat)
    requires k > 0
    ensures WindowEnd(end, seq(k, _ => end)) == end + WINDOW && InWindow(end, seq(k, _ => end)) == k
    decreases k
  {
    var times := seq(k, _ => end);
    assert times[..k - 1] == seq(k - 1, _ => end);
    if k > 1 {
      SameTimes(end, k - 1);
    }
  }

  function Burst(key: string, at: int, k: nat): (b: seq<Request>)
    ensures |b| == k && forall i :: 0 <= i < k ==> b[i] == Request(key, at)
  {
    seq(k, _ => Request(key, at))
  }

  lemma {:induction false} TimesOfBurst(key: string, at: int, k: nat)
    ensures Times(Burst(key, at, k), key) == seq(k, _ => at)
    decreases k
  {
    if k > 0 {
      TimesOfBurst(key, at, k - 1);
      assert Burst(key, at, k)[..k - 1] == Burst(key, at, k - 1);
    }
  }

  /** The first requests of a client, all at one time, fill a window. */
  lemma {:induction false} BurstFills(key: string, at: int, k: nat)
    requires 0 < k <= MAX_REQUESTS
    ensures Lookup(EntriesAfter(Burst(key, at, k)), key) == Some(Entry(k, at + WINDOW, at))
    decreases k
  {
    assert Burst(key, at, k)[..k - 1] == Burst(key, at, k - 1);
    if k > 1 {
      BurstFills(key, at, k - 1);
    } else {
      assert Burst(key, at, 0) == [];
    }
  }

  /** After sixty requests at one time, a request just before their window ends is refused. */
  lemma BurstThenRefusal(key: string, at: int)
    ensures var first, r := Burst(key, at, MAX_REQUESTS), Request(key, at + WINDOW - 1);
            !Allowed(MemoryAfter(first), key, r.now) && ResetAt(first + [r], key) == at + WINDOW
  {
    var first, r := Burst(key, at, MAX_REQUESTS), Request(key, at + WINDOW - 1);
    BurstFills(key, at, MAX_REQUESTS);
    CleanupIsInvisible(first, r);
    RefusalMeansFull(first, r);
    assert (first + [r])[..|first|] == first;
  }

  /**
   The exception occurs, from an empty memory: sixty requests, a refusal one
   nanosecond before their window ends that says to wait a second, sixty
   requests as the window ends, and a request at the Retry-After time.
   */
  lemma RoundingLeavesRoom(key: string, at: int)
    ensures var first, r := Burst(key, at, MAX_REQUESTS), Request(key, at + WINDOW - 1);
            var between := Burst(key, at + WINDOW, MAX_REQUESTS);
            && NonDecreasing(first + [r] + between + [Request(key, RetryTime(first, r, r.now))])
            && !Allowed(MemoryAfter(first), key, r.now)
            && !Allowed(MemoryAfter(first + [r] + between), key, RetryTime(first, r, r.now))
  {
    var first, r := Burst(key, at, MAX_REQUESTS), Request(key, at + WINDOW - 1);
    var between := Burst(key, at + WINDOW, MAX_REQUESTS);
    BurstThenRefusal(key, at);
    assert RetrySeconds(1) == 1;
    TimesOfBurst(key, at + WINDOW, MAX_REQUESTS);
    SameTimes(at + WINDOW, MAX_REQUESTS);
    AdmittedAgainIff(first, r, between, RetryTime(first, r, r.now));
  }

  /** A client's first requests, in any order of time within a minute, are all in one window. */
  lemma {:induction false} WindowFills(run: seq<Request>, key: string, start: int)
    requires run != [] && NonDecreasing(run) && (forall i :: 0 <= i < |run| ==> run[i].key == key)
    requires run[0].now == start && run[|run| - 1].now < start + 60 * 1_000_000_000
    ensures var e := Lookup(EntriesAfter(run), key);
            e.Some? && e.value.resetAt == start + 60 * 1_000_000_000
            && e.value.count == (if |run| < 60 then |run| else 60)
    decreases |run|
  {
    var front := run[..|run| - 1];
    if front != [] {
      assert run[|run| - 2].now <= run[|run| - 1].now;
      WindowFills(front, key, start);
    }
  }

  /**
   The limit itself: a client that starts with a request at `start` has its first
   sixty requests of that minute admitted, and every further one of that minute
   refused.
   */
  lemma SixtyAMinute(run: seq<Request>, r: Request, start: int)
    requires NonDecreasing(run + [r]) && (forall i :: 0 <= i < |run| ==> run[i].key == r.key)
    requires (run + [r])[0].now == start && r.now < start + 60 * 1_000_000_000
    ensures Allowed(MemoryAfter(run), r.key, r.now) <==> |run| < 60
  {
    var all := run + [r];
    CleanupIsInvisible(run, r);
    if run != [] {
      forall i, j | 0 <= i < j < |run| ensures run[i].now <= run[j].now {
        assert all[i].now <= all[j].now;
      }
      assert all[|run| - 1].now <= all[|run|].now;
      WindowFills(run, r.key, start);
    }
  }
}
