/**
 The sliding-window rate limiter, twice: the relay server's, which prunes a prefix of the stored
 times in place, and the embedded relay's, which filters them and stores the result only when it
 accepts.  Both are proved against the full history of accepted events.
 */
module RateLimits {
  import opened Wrappers

  /** Times are in milliseconds; the wait is no number when the limit is zero and no event is there to wait for. */
  datatype Reply = Reply(allowed: bool, remaining: int, retryAfterMs: Option<int>)

  predicate Sorted(times: seq<int>) {
    forall i, j | 0 <= i < j < |times| :: times[i] <= times[j]
  }

  /** The times after `cutoff`, in order. */
  function After(times: seq<int>, cutoff: int): seq<int> {
    if times == [] then []
    else
      var n := |times| - 1;
      After(times[..n], cutoff) + if times[n] > cutoff then [times[n]] else []
  }

  /** How many of the times lie in the half-open interval from `low` (excluded) to `high` (included). */
  function CountIn(times: seq<int>, low: int, high: int): nat {
    if times == [] then 0
    else
      var n := |times| - 1;
      CountIn(times[..n], low, high) + if low < times[n] <= high then 1 else 0
  }

  // ---------------------------------------------------------------- the specification

  /** How long until the oldest event leaves the window. */
  function Wait(live: seq<int>, windowMs: int, now: int): Option<int> {
    if live == [] then None
    else Some(if live[0] + windowMs - now > 0 then live[0] + windowMs - now else 0)
  }

  /** What a check answers, from the full history of this key's accepted events. */
  function Answer(limit: nat, windowMs: int, history: seq<int>, now: int): Reply
  {
    var live := After(history, now - windowMs);
    if |live| >= limit then Reply(false, 0, Wait(live, windowMs, now))
    else Reply(true, limit - |live| - 1, Some(0))
  }

  function Record(limit: nat, windowMs: int, history: seq<int>, now: int): seq<int>
  {
    if Answer(limit, windowMs, history, now).allowed then history + [now] else history
  }

  /** The accepted events of one key after checks at the given times. */
  function Accepted(limit: nat, windowMs: int, calls: seq<int>): seq<int>
  {
    if calls == [] then []
    else Record(limit, windowMs, Accepted(limit, windowMs, calls[..|calls| - 1]), calls[|calls| - 1])
  }

  // ---------------------------------------------------------------- counting

  lemma {:induction false} AfterCounts(times: seq<int>, cutoff: int, now: int)
    requires forall i | 0 <= i < |times| :: times[i] <= now
    ensures |After(times, cutoff)| == CountIn(times, cutoff, now)
  {
    if times != [] {
      AfterCounts(times[..|times| - 1], cutoff, now);
    }
  }

  /** Of sorted times, those after a cutoff are a suffix. */
  lemma {:induction false} AfterIsSuffix(times: seq<int>, cutoff: int, k: nat)
    requires Sorted(times) && k <= |times|
    requires forall i | 0 <= i < k :: times[i] <= cutoff
    requires k < |times| ==> times[k] > cutoff
    ensures After(times, cutoff) == times[k..]
    decreases |times|
  {
    if times != [] {
      var n := |times| - 1;
      var front := times[..n];
      assert Sorted(front);
      if k <= n {
        assert times[k] <= times[n];
        hide Sorted;
        AfterIsSuffix(front, cutoff, k);
        assert times[k..] == front[k..] + [times[n]];
      } else {
        hide Sorted;
        AfterIsSuffix(front, cutoff, n);
        assert front[n..] == [] && times[k..] == [];
      }
    }
  }

  lemma {:induction false} AfterAfter(times: seq<int>, low: int, high: int)
    requires low <= high
    ensures After(After(times, low), high) == After(times, high)
  {
    if times != [] {
      var n := |times| - 1;
      var front := After(times[..n], low);
      AfterAfter(times[..n], low, high);
      if times[n] > low {
        AfterAppend(front, times[n], high);
      } else {
        assert After(times, low) == front && After(times, high) == After(times[..n], high);
      }
    }
  }

  lemma AfterAppend(times: seq<int>, t: int, cutoff: int)
    ensures After(times + [t], cutoff) == After(times, cutoff) + if t > cutoff then [t] else []
  {
    assert (times + [t])[..|times|] == times;
  }

  lemma CountAppend(times: seq<int>, t: int, low: int, high: int)
    ensures CountIn(times + [t], low, high) == CountIn(times, low, high) + if low < t <= high then 1 else 0
  {
    assert (times + [t])[..|times|] == times;
  }

  lemma {:induction false} CountMonotone(times: seq<int>, low: int, high: int, low': int, high': int)
    requires low' <= low && high <= high'
    ensures CountIn(times, low, high) <= CountIn(times, low', high')
  {
    if times != [] {
      CountMonotone(times[..|times| - 1], low, high, low', high');
    }
  }

  lemma {:induction false} AcceptedSorted(limit: nat, windowMs: int, calls: seq<int>)
    requires Sorted(calls)
    ensures Sorted(Accepted(limit, windowMs, calls))
    ensures forall i | 0 <= i < |Accepted(limit, windowMs, calls)| ::
              calls != [] && Accepted(limit, windowMs, calls)[i] <= calls[|calls| - 1]
  {
    if calls != [] {
      AcceptedSorted(limit, windowMs, calls[..|calls| - 1]);
    }
  }

  // ---------------------------------------------------------------- the bound

  /** A check is accepted exactly when the full history has fewer than `limit` events in the window. */
  lemma AcceptedIffRoom(limit: nat, windowMs: int, calls: seq<int>, now: int)
    requires Sorted(calls + [now])
    ensures var history := Accepted(limit, windowMs, calls);
            Answer(limit, windowMs, history, now).allowed <==> CountIn(history, now - windowMs, now) < limit
  {
    assert Sorted(calls) by {
      assert forall i | 0 <= i < |calls| :: (calls + [now])[i] == calls[i];
    }
    AcceptedSorted(limit, windowMs, calls);
    forall i | 0 <= i < |Accepted(limit, windowMs, calls)|
      ensures Accepted(limit, windowMs, calls)[i] <= now
    {
      assert (calls + [now])[|calls| - 1] <= (calls + [now])[|calls|];
    }
    AfterCounts(Accepted(limit, windowMs, calls), now - windowMs, now);
  }

  /**
   With a clock that never goes back, every half-open interval of the window's length holds at most
   `limit` accepted events of the whole history.
   */
  lemma {:induction false} WindowBound(limit: nat, windowMs: int, calls: seq<int>, end: int)
    requires Sorted(calls)
    ensures CountIn(Accepted(limit, windowMs, calls), end - windowMs, end) <= limit
  {
    if calls != [] {
      var front, now := calls[..|calls| - 1], calls[|calls| - 1];
      var history := Accepted(limit, windowMs, front);
      WindowBound(limit, windowMs, front, end);
      assert calls == front + [now];
      if Answer(limit, windowMs, history, now).allowed {
        CountAppend(history, now, end - windowMs, end);
        if end - windowMs < now <= end {
          RoomForOne(limit, windowMs, front, now, end);
        }
      }
    }
  }

  lemma RoomForOne(limit: nat, windowMs: int, front: seq<int>, now: int, end: int)
    requires Sorted(front + [now]) && end - windowMs < now <= end
    requires Answer(limit, windowMs, Accepted(limit, windowMs, front), now).allowed
    ensures CountIn(Accepted(limit, windowMs, front), end - windowMs, end) < limit
  {
    SortedFront(front, now);
    AcceptedIffRoom(limit, windowMs, front, now);
    AcceptedSorted(limit, windowMs, front);
    hide Answer, Accepted, CountIn, Sorted;
    var history := Accepted(limit, windowMs, front);
    CountUpTo(history, now, end - windowMs, end);
    CountMonotone(history, end - windowMs, now, now - windowMs, now);
  }

  lemma {:induction false} CountUpTo(times: seq<int>, now: int, low: int, high: int)
    requires forall i | 0 <= i < |times| :: times[i] <= now
    requires now <= high
    ensures CountIn(times, low, high) == CountIn(times, low, now)
  {
    if times != [] {
      CountUpTo(times[..|times| - 1], now, low, high);
    }
  }

  /** The history after `k` checks at one time. */
  function Again(limit: nat, windowMs: int, history: seq<int>, now: int, k: nat): seq<int> {
    if k == 0 then history
    else Record(limit, windowMs, Again(limit, windowMs, history, now, k - 1), now)
  }

  lemma {:induction false} AgainFills(limit: nat, windowMs: int, history: seq<int>, now: int, k: nat)
    requires windowMs > 0
    ensures var live := |After(history, now - windowMs)|;
            |After(Again(limit, windowMs, history, now, k), now - windowMs)|
            == if live >= limit then live else if live + k <= limit then live + k else limit
  {
    if k > 0 {
      AgainFills(limit, windowMs, history, now, k - 1);
      AfterAppend(Again(limit, windowMs, history, now, k - 1), now, now - windowMs);
    }
  }

  /** The number an accepted check is answered with is exact: so many more are accepted at that time, and no more. */
  lemma RemainingIsExact(limit: nat, windowMs: int, history: seq<int>, now: int, k: nat)
    requires windowMs > 0
    ensures var reply := Answer(limit, windowMs, history, now);
            && (if reply.allowed then reply.remaining >= 0 && reply.retryAfterMs == Some(0) else reply.remaining == 0)
            && (Answer(limit, windowMs, Again(limit, windowMs, history, now, k), now).allowed
                <==> reply.allowed && k <= reply.remaining)
  {
    AgainFills(limit, windowMs, history, now, k);
  }

  /**
   On rejection the retry time is exact and between 1 and the window: with no other call for the key,
   every check before it is refused and the check at it is accepted.
   */
  lemma RetryAfterIsExact(limit: nat, windowMs: int, calls: seq<int>, now: int)
    requires limit > 0 && Sorted(calls + [now])
    requires !Answer(limit, windowMs, Accepted(limit, windowMs, calls), now).allowed
    ensures var history := Accepted(limit, windowMs, calls);
            Answer(limit, windowMs, history, now).retryAfterMs.Some?
            && var wait := Answer(limit, windowMs, history, now).retryAfterMs.value;
            && 1 <= wait <= windowMs
            && Record(limit, windowMs, history, now) == history
            && (forall t | now <= t < now + wait :: !Answer(limit, windowMs, history, t).allowed)
            && Answer(limit, windowMs, history, now + wait).allowed
  {
    assert Sorted(calls) by {
      assert forall i | 0 <= i < |calls| :: (calls + [now])[i] == calls[i];
    }
    AcceptedSorted(limit, windowMs, calls);
    var history := Accepted(limit, windowMs, calls);
    assert forall i | 0 <= i < |history| :: history[i] <= now by {
      assert calls != [] ==> (calls + [now])[|calls| - 1] <= (calls + [now])[|calls|];
    }
    WindowBound(limit, windowMs, calls, now);
    AfterCounts(history, now - windowMs, now);
    hide Accepted, CountIn;
    RetryExact(limit, windowMs, history, now);
  }

  lemma RetryExact(limit: nat, windowMs: int, history: seq<int>, now: int)
    requires limit > 0 && Sorted(history) && forall i | 0 <= i < |history| :: history[i] <= now
    requires |After(history, now - windowMs)| == limit
    ensures Answer(limit, windowMs, history, now).retryAfterMs.Some?
    ensures var wait := Answer(limit, windowMs, history, now).retryAfterMs.value;
            && 1 <= wait <= windowMs
            && (forall t | now <= t < now + wait :: !Answer(limit, windowMs, history, t).allowed)
            && Answer(limit, windowMs, history, now + wait).allowed
  {
    hide After, FirstAfter;
    AfterFrom(history, now - windowMs);
    var oldest := history[FirstAfter(history, now - windowMs)];
    forall t | now <= t < oldest + windowMs
      ensures !Answer(limit, windowMs, history, t).allowed
    {
      AfterFrom(history, t - windowMs);
    }
    AfterFrom(history, oldest);
  }

  lemma AfterFrom(times: seq<int>, cutoff: int)
    requires Sorted(times)
    ensures After(times, cutoff) == times[FirstAfter(times, cutoff)..]
  {
    AfterIsSuffix(times, cutoff, FirstAfter(times, cutoff));
  }

  /** Where the times after the cutoff begin. */
  function FirstAfter(times: seq<int>, cutoff: int): (k: nat)
    requires Sorted(times)
    ensures k <= |times|
    ensures forall i | 0 <= i < k :: times[i] <= cutoff
    ensures forall i | k <= i < |times| :: times[i] > cutoff
  {
    if times == [] || times[|times| - 1] <= cutoff then |times| else FirstAfter(times[..|times| - 1], cutoff)
  }

  // ---------------------------------------------------------------- what the two limiters store

  /** `prune`: drop the longest prefix of times up to the cutoff. */
  function DropOld(times: seq<int>, cutoff: int): seq<int> {
    if times != [] && times[0] <= cutoff then DropOld(times[1..], cutoff) else times
  }

  /** The relay server's check of one key's stored times. */
  function Check(limit: nat, windowMs: int, stored: seq<int>, now: int): (seq<int>, Reply)
  {
    var live := DropOld(stored, now - windowMs);
    if |live| >= limit then
      (live, Reply(false, 0, Wait(live, windowMs, now)))
    else
      (live + [now], Reply(true, limit - |live| - 1, Some(0)))
  }

  /** The embedded relay's check; on rejection it keeps what was stored, unfiltered. */
  function CheckFiltering(limit: nat, windowMs: int, stored: seq<int>, now: int): (seq<int>, bool) {
    var live := After(stored, now - windowMs);
    if |live| >= limit then (stored, false) else (live + [now], true)
  }

  function Stored(limit: nat, windowMs: int, calls: seq<int>): seq<int>
  {
    if calls == [] then []
    else Check(limit, windowMs, Stored(limit, windowMs, calls[..|calls| - 1]), calls[|calls| - 1]).0
  }

  function StoredFiltering(limit: nat, windowMs: int, calls: seq<int>): seq<int> {
    if calls == [] then []
    else CheckFiltering(limit, windowMs, StoredFiltering(limit, windowMs, calls[..|calls| - 1]), calls[|calls| - 1]).0
  }

  /** What is stored is the history without some of its events up to the cutoff. */
  ghost predicate Keeps(stored: seq<int>, history: seq<int>, cutoff: int) {
    exists k :: KeepsFrom(stored, history, cutoff, k)
  }

  ghost predicate KeepsFrom(stored: seq<int>, history: seq<int>, cutoff: int, k: nat) {
    k <= |history| && stored == history[k..] && forall i | 0 <= i < k :: history[i] <= cutoff
  }

  lemma {:induction false} DropIsSuffix(times: seq<int>, cutoff: int, k: nat)
    requires k <= |times|
    requires forall i | 0 <= i < k :: times[i] <= cutoff
    requires k < |times| ==> times[k] > cutoff
    ensures DropOld(times, cutoff) == times[k..]
    decreases |times|
  {
    if k > 0 {
      DropIsSuffix(times[1..], cutoff, k - 1);
      assert times[1..][k - 1..] == times[k..];
    }
  }

  /** Whatever prefix of old events is missing, the live events are those of the full history. */
  lemma KeepsLive(stored: seq<int>, history: seq<int>, cutoff: int, later: int)
    requires Sorted(history) && Keeps(stored, history, cutoff) && cutoff <= later
    ensures DropOld(stored, later) == After(stored, later) == After(history, later)
    ensures Keeps(After(history, later), history, later)
    ensures Keeps(stored, history, later)
  {
    var k: nat :| KeepsFrom(stored, history, cutoff, k);
    hide Keeps;
    var j := LiveFrom(stored, history, cutoff, later, k);
    KeepsWitness(After(history, later), history, later, j);
    KeepsWitness(stored, history, later, k);
  }

  lemma KeepsWitness(stored: seq<int>, history: seq<int>, cutoff: int, k: nat)
    requires KeepsFrom(stored, history, cutoff, k)
    ensures Keeps(stored, history, cutoff)
  {
  }

  lemma LiveFrom(stored: seq<int>, history: seq<int>, cutoff: int, later: int, k: nat) returns (j: nat)
    requires Sorted(history) && KeepsFrom(stored, history, cutoff, k) && cutoff <= later
    ensures DropOld(stored, later) == After(stored, later) == After(history, later)
    ensures KeepsFrom(After(history, later), history, later, j)
  {
    assert Sorted(stored);
    var m := FirstAfter(stored, later);
    j := k + m;
    forall i | 0 <= i < j
      ensures history[i] <= later
    {
      assert i >= k ==> history[i] == stored[i - k];
    }
    AfterIsSuffix(history, later, j);
    AfterIsSuffix(stored, later, m);
    DropIsSuffix(stored, later, m);
    assert stored[m..] == history[j..];
  }

  lemma KeepsAppend(stored: seq<int>, history: seq<int>, cutoff: int, t: int)
    requires Keeps(stored, history, cutoff)
    ensures Keeps(stored + [t], history + [t], cutoff)
  {
    var k: nat :| KeepsFrom(stored, history, cutoff, k);
    assert KeepsFrom(stored + [t], history + [t], cutoff, k);
  }

  lemma SortedFront(calls: seq<int>, now: int)
    requires Sorted(calls + [now])
    ensures Sorted(calls) && (calls != [] ==> calls[|calls| - 1] <= now)
  {
    assert forall i | 0 <= i < |calls| :: (calls + [now])[i] == calls[i];
    assert (calls + [now])[|calls|] == now;
  }

  lemma SameLiveSameAnswer(limit: nat, windowMs: int, stored: seq<int>, history: seq<int>, now: int)
    requires Keeps(stored, history, now - windowMs)
    requires DropOld(stored, now - windowMs) == After(stored, now - windowMs) == After(history, now - windowMs)
    requires Keeps(After(history, now - windowMs), history, now - windowMs)
    ensures Check(limit, windowMs, stored, now).1 == Answer(limit, windowMs, history, now)
    ensures CheckFiltering(limit, windowMs, stored, now).1 <==> Answer(limit, windowMs, history, now).allowed
    ensures Keeps(Check(limit, windowMs, stored, now).0, Record(limit, windowMs, history, now), now - windowMs)
    ensures Keeps(CheckFiltering(limit, windowMs, stored, now).0, Record(limit, windowMs, history, now),
                  now - windowMs)
  {
    hide Keeps, After, DropOld;
    KeepsAppend(After(history, now - windowMs), history, now - windowMs, now);
  }

  lemma KeepsItself(history: seq<int>, cutoff: int)
    ensures Keeps(history, history, cutoff)
  {
    assert KeepsFrom(history, history, cutoff, 0);
  }

  lemma OneMoreCall(limit: nat, windowMs: int, calls: seq<int>, now: int)
    ensures Stored(limit, windowMs, calls + [now]) == Check(limit, windowMs, Stored(limit, windowMs, calls), now).0
    ensures StoredFiltering(limit, windowMs, calls + [now])
         == CheckFiltering(limit, windowMs, StoredFiltering(limit, windowMs, calls), now).0
    ensures Accepted(limit, windowMs, calls + [now])
         == Record(limit, windowMs, Accepted(limit, windowMs, calls), now)
  {
    hide Check, CheckFiltering, Record;
    assert (calls + [now])[..|calls|] == calls;
  }

  /** If the store was right after the check at `last`, the check at `now` is right and leaves it right. */
  lemma CheckKeeps(limit: nat, windowMs: int, stored: seq<int>, history: seq<int>, last: int, now: int)
    requires Sorted(history) && last <= now && Keeps(stored, history, last - windowMs)
    ensures Check(limit, windowMs, stored, now).1 == Answer(limit, windowMs, history, now)
    ensures CheckFiltering(limit, windowMs, stored, now).1 <==> Answer(limit, windowMs, history, now).allowed
    ensures Keeps(Check(limit, windowMs, stored, now).0, Record(limit, windowMs, history, now), now - windowMs)
    ensures Keeps(CheckFiltering(limit, windowMs, stored, now).0, Record(limit, windowMs, history, now),
                  now - windowMs)
  {
    hide *;
    KeepsLive(stored, history, last - windowMs, now - windowMs);
    SameLiveSameAnswer(limit, windowMs, stored, history, now);
  }

  /** Both stores hold the history of accepted events but for events too old to count. */
  ghost predicate StoresOk(limit: nat, windowMs: int, calls: seq<int>, cutoff: int)
  {
    && Sorted(Accepted(limit, windowMs, calls))
    && Keeps(Stored(limit, windowMs, calls), Accepted(limit, windowMs, calls), cutoff)
    && Keeps(StoredFiltering(limit, windowMs, calls), Accepted(limit, windowMs, calls), cutoff)
  }

  lemma StoresEmpty(limit: nat, windowMs: int, cutoff: int)
    ensures StoresOk(limit, windowMs, [], cutoff)
  {
    KeepsItself([], cutoff);
  }

  lemma StoresStep(limit: nat, windowMs: int, calls: seq<int>, last: int, now: int)
    requires StoresOk(limit, windowMs, calls, last - windowMs) && last <= now
    requires Sorted(Accepted(limit, windowMs, calls + [now]))
    ensures StoresOk(limit, windowMs, calls + [now], now - windowMs)
  {
    hide Check, CheckFiltering, Answer, Record, Keeps, After, DropOld, Sorted, Stored, StoredFiltering, Accepted;
    OneMoreCall(limit, windowMs, calls, now);
    var history := Accepted(limit, windowMs, calls);
    CheckKeeps(limit, windowMs, Stored(limit, windowMs, calls), history, last, now);
    CheckKeeps(limit, windowMs, StoredFiltering(limit, windowMs, calls), history, last, now);
  }

  lemma {:induction false} StoresKeep(limit: nat, windowMs: int, calls: seq<int>, now: int)
    requires Sorted(calls + [now])
    ensures StoresOk(limit, windowMs, calls + [now], now - windowMs)
    decreases |calls|
  {
    AcceptedSorted(limit, windowMs, calls + [now]);
    SortedFront(calls, now);
    hide StoresOk, Accepted;
    if calls == [] {
      StoresEmpty(limit, windowMs, now - windowMs);
      StoresStep(limit, windowMs, calls, now, now);
    } else {
      var front, last := calls[..|calls| - 1], calls[|calls| - 1];
      assert calls == front + [last];
      StoresKeep(limit, windowMs, front, last);
      StoresStep(limit, windowMs, calls, last, now);
    }
  }

  /** Neither store loses anything that counts: both answer every check as the full history would. */
  lemma ChecksAreExact(limit: nat, windowMs: int, calls: seq<int>, now: int)
    requires Sorted(calls + [now])
    ensures Check(limit, windowMs, Stored(limit, windowMs, calls), now).1
         == Answer(limit, windowMs, Accepted(limit, windowMs, calls), now)
    ensures CheckFiltering(limit, windowMs, StoredFiltering(limit, windowMs, calls), now).1
         <==> Answer(limit, windowMs, Accepted(limit, windowMs, calls), now).allowed
  {
    SortedFront(calls, now);
    hide Check, CheckFiltering, Answer, Record, Keeps, After, DropOld, Sorted, Stored, StoredFiltering, Accepted;
    var last := now;
    if calls == [] {
      StoresEmpty(limit, windowMs, now - windowMs);
    } else {
      last := calls[|calls| - 1];
      assert calls == calls[..|calls| - 1] + [last];
      StoresKeep(limit, windowMs, calls[..|calls| - 1], last);
    }
    var history := Accepted(limit, windowMs, calls);
    CheckKeeps(limit, windowMs, Stored(limit, windowMs, calls), history, last, now);
    CheckKeeps(limit, windowMs, StoredFiltering(limit, windowMs, calls), history, last, now);
  }

  /** The two limiters accept and reject alike, at every step of every sequence of non-decreasing times. */
  lemma LimitersAgree(limit: nat, windowMs: int, calls: seq<int>, now: int)
    requires Sorted(calls + [now])
    ensures CheckFiltering(limit, windowMs, StoredFiltering(limit, windowMs, calls), now).1
         <==> Check(limit, windowMs, Stored(limit, windowMs, calls), now).1.allowed
  {
    hide *;
    ChecksAreExact(limit, windowMs, calls, now);
  }

  // ---------------------------------------------------------------- many keys

  function TimesOf(m: map<string, seq<int>>, key: string): seq<int> {
    if key in m then m[key] else []
  }

  /** The server's windows after checks of many keys. */
  function Windows(limit: nat, windowMs: int, calls: seq<(string, int)>): map<string, seq<int>>
  {
    if calls == [] then map[]
    else
      var n := |calls| - 1;
      var m := Windows(limit, windowMs, calls[..n]);
      m[calls[n].0 := Check(limit, windowMs, TimesOf(m, calls[n].0), calls[n].1).0]
  }

  function CallsOf(calls: seq<(string, int)>, key: string): seq<int> {
    if calls == [] then []
    else
      var n := |calls| - 1;
      CallsOf(calls[..n], key) + if calls[n].0 == key then [calls[n].1] else []
  }

  /** Each key is limited by its own calls alone. */
  lemma {:induction false} KeysAreIndependent(limit: nat, windowMs: int, calls: seq<(string, int)>, key: string)
    ensures TimesOf(Windows(limit, windowMs, calls), key) == Stored(limit, windowMs, CallsOf(calls, key))
  {
    if calls != [] {
      var n := |calls| - 1;
      KeysAreIndependent(limit, windowMs, calls[..n], key);
      OneMoreCall(limit, windowMs, CallsOf(calls[..n], key), calls[n].1);
      assert calls[n].0 != key ==> CallsOf(calls, key) == CallsOf(calls[..n], key);
      hide Check;
    }
  }

  // ---------------------------------------------------------------- the classes

  /** The relay server's limiter. */
  class RateLimiter {
    var windows: map<string, seq<int>>
    const limit: nat
    const windowMs: int

    constructor (limit: nat, windowMs: int)
      ensures this.limit == limit && this.windowMs == windowMs && windows == map[]
    {
      this.limit, this.windowMs, windows := limit, windowMs, map[];
    }

    /** The reply and the new times of `key` are those of the function; other keys keep theirs. */
    method CheckKey(key: string, now: int) returns (reply: Reply)
      modifies this
      ensures var (times, answer) := Check(limit, windowMs, TimesOf(old(windows), key), now);
              windows == old(windows)[key := times] && reply == answer
    {
      var times := if key in windows then windows[key] else [];
      times := Prune(times, now);
      if |times| >= limit {
        windows := windows[key := times];
        if times == [] {
          return Reply(false, 0, None);
        }
        var retryAfterMs := times[0] + windowMs - now;
        return Reply(false, 0, Some(if retryAfterMs > 0 then retryAfterMs else 0));
      }
      times := times + [now];
      windows := windows[key := times];
      return Reply(true, limit - |times|, Some(0));
    }

    method Prune(times: seq<int>, now: int) returns (live: seq<int>)
      ensures live == DropOld(times, now - windowMs)
    {
      var cutoff := now - windowMs;
      var firstValid := 0;
      while firstValid < |times| && times[firstValid] <= cutoff
        invariant firstValid <= |times|
        invariant DropOld(times[firstValid..], cutoff) == DropOld(times, cutoff)
      {
        assert times[firstValid..][1..] == times[firstValid + 1..];
        firstValid := firstValid + 1;
      }
      live := times[firstValid..];
    }
  }

  /** The embedded relay's limiter. */
  class FilteringLimiter {
    const WINDOW_MS := 10000
    const MAX_REQUESTS := 50
    var rateLimits: map<string, seq<int>>

    method CheckRateLimit(id: string, now: int) returns (allowed: bool)
      modifies this
      ensures var (times, answer) := CheckFiltering(MAX_REQUESTS, WINDOW_MS, TimesOf(old(rateLimits), id), now);
              && allowed == answer
              && rateLimits == if allowed then old(rateLimits)[id := times] else old(rateLimits)
    {
      var timestamps := After(if id in rateLimits then rateLimits[id] else [], now - WINDOW_MS);
      if |timestamps| >= MAX_REQUESTS {
        return false;
      }
      rateLimits := rateLimits[id := timestamps + [now]];
      return true;
    }
  }
}
