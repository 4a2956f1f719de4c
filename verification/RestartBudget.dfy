/** The sliding budget of reconnect-driven sing-box restarts. */
module RestartBudget {

  const PROCESS_RESTART_LIMIT: nat := 5
  const PROCESS_RESTART_WINDOW: nat := 6 * 3600

  /** `_budget_stamps`: the stamps still inside the window. */
  function Recent(stamps: seq<int>, now: int): seq<int> {
    if stamps == [] then []
    else Recent(stamps[..|stamps| - 1], now)
         + (if stamps[|stamps| - 1] >= now - PROCESS_RESTART_WINDOW then [stamps[|stamps| - 1]] else [])
  }

  ghost predicate Sorted(s: seq<int>) {
    forall i, j :: 0 <= i < j < |s| ==> s[i] <= s[j]
  }

  lemma {:induction false} NoneRecent(stamps: seq<int>, now: int)
    requires forall i :: 0 <= i < |stamps| ==> stamps[i] < now - PROCESS_RESTART_WINDOW
    ensures Recent(stamps, now) == []
  {
    if stamps != [] {
      NoneRecent(stamps[..|stamps| - 1], now);
    }
  }

  /** In a sorted list the recent stamps are a suffix. */
  lemma {:induction false} RecentIsSuffix(stamps: seq<int>, now: int) returns (k: nat)
    requires Sorted(stamps)
    ensures k <= |stamps| && Recent(stamps, now) == stamps[k..]
    ensures forall i :: 0 <= i < |stamps| ==> (i >= k <==> stamps[i] >= now - PROCESS_RESTART_WINDOW)
  {
    if stamps == [] || stamps[|stamps| - 1] < now - PROCESS_RESTART_WINDOW {
      k := |stamps|;
      NoneRecent(stamps, now);
    } else {
      var front := stamps[..|stamps| - 1];
      k := RecentIsSuffix(front, now);
      assert stamps[k..] == front[k..] + [stamps[|stamps| - 1]];
    }
  }

  /** Six restarts never fit into one window. */
  ghost predicate Budgeted(history: seq<int>) {
    forall i :: 0 <= i < |history| - PROCESS_RESTART_LIMIT ==>
      history[i + PROCESS_RESTART_LIMIT] - history[i] > PROCESS_RESTART_WINDOW
  }

  /** The restarts inside the window that starts at `from`. */
  function InWindow(history: seq<int>, from: int): nat {
    if history == [] then 0
    else InWindow(history[..|history| - 1], from)
         + (if from <= history[|history| - 1] <= from + PROCESS_RESTART_WINDOW then 1 else 0)
  }

  lemma {:induction false} WindowEndsAt(history: seq<int>, from: int)
    requires Sorted(history) && Budgeted(history) && history != []
    requires from <= history[|history| - 1] <= from + PROCESS_RESTART_WINDOW
    ensures InWindow(history, from) <= PROCESS_RESTART_LIMIT
  {
    if |history| > PROCESS_RESTART_LIMIT {
      BeforeWindow(history, from, |history| - PROCESS_RESTART_LIMIT);
    }
    WindowBound(history, from, if |history| > PROCESS_RESTART_LIMIT then |history| - PROCESS_RESTART_LIMIT else 0);
  }

  lemma {:induction false} BeforeWindow(history: seq<int>, from: int, n: nat)
    requires Sorted(history) && 0 < n < |history| && history[n - 1] < from
    ensures InWindow(history[..n], from) == 0
  {
    var front := history[..n];
    assert front[..n - 1] == history[..n - 1];
    if n > 1 {
      assert history[n - 2] <= history[n - 1];
      BeforeWindow(history, from, n - 1);
    }
  }

  lemma {:induction false} WindowBound(history: seq<int>, from: int, n: nat)
    requires n <= |history| && (n > 0 ==> InWindow(history[..n], from) == 0)
    ensures InWindow(history, from) <= |history| - n
    decreases |history|
  {
    if n < |history| {
      assert history[..|history| - 1][..n] == history[..n];
      WindowBound(history[..|history| - 1], from, n);
    } else {
      assert history[..n] == history;
    }
  }

  /** Every window of six hours holds at most five restarts. */
  lemma {:induction false} EveryWindowIsBounded(history: seq<int>, from: int)
    requires Sorted(history) && Budgeted(history)
    ensures InWindow(history, from) <= PROCESS_RESTART_LIMIT
  {
    if history != [] {
      if from <= history[|history| - 1] <= from + PROCESS_RESTART_WINDOW {
        WindowEndsAt(history, from);
      } else {
        EveryWindowIsBounded(history[..|history| - 1], from);
      }
    }
  }

  /** The stamps are the restarts from `k` on; the older ones left the window by the time of the last restart. */
  ghost predicate TailOf(stamps: seq<int>, history: seq<int>, k: nat) {
    && k <= |history| && stamps == history[k..]
    && forall i :: 0 <= i < k ==> history[i] < history[|history| - 1] - PROCESS_RESTART_WINDOW
  }

  lemma {:induction false} RecentOfTail(stamps: seq<int>, history: seq<int>, k: nat, now: int) returns (j: nat)
    requires Sorted(history) && TailOf(stamps, history, k) && (history != [] ==> now >= history[|history| - 1])
    ensures j <= |history| && Recent(stamps, now) == history[j..]
    ensures forall i :: 0 <= i < |history| ==> (i >= j <==> history[i] >= now - PROCESS_RESTART_WINDOW)
  {
    TailSorted(history, k);
    var m := RecentIsSuffix(stamps, now);
    j := k + m;
    RecentIndices(history, k, m, now);
    TailDrop(stamps, history, k, m);
  }

  lemma {:induction false} TailDrop(stamps: seq<int>, history: seq<int>, k: nat, m: nat)
    requires TailOf(stamps, history, k) && m <= |stamps|
    ensures k + m <= |history| && stamps[m..] == history[k + m..]
  {
  }

  lemma {:induction false} TailSorted(history: seq<int>, k: nat)
    requires Sorted(history) && k <= |history|
    ensures Sorted(history[k..])
  {
  }

  lemma {:induction false} RecentIndices(history: seq<int>, k: nat, m: nat, now: int)
    requires k <= |history| && TailOf(history[k..], history, k) && (history != [] ==> now >= history[|history| - 1])
    requires forall i :: 0 <= i < |history[k..]| ==> (i >= m <==> history[k..][i] >= now - PROCESS_RESTART_WINDOW)
    ensures forall i :: 0 <= i < |history| ==> (i >= k + m <==> history[i] >= now - PROCESS_RESTART_WINDOW)
  {
    forall i | 0 <= i < |history| ensures i >= k + m <==> history[i] >= now - PROCESS_RESTART_WINDOW {
      if i >= k {
        assert history[k..][i - k] == history[i];
      }
    }
  }

  /** One more restart within budget. */
  lemma {:induction false} OneMore(history: seq<int>, now: int, j: nat)
    requires Sorted(history) && Budgeted(history) && j <= |history| && |history| - j < PROCESS_RESTART_LIMIT
    requires history != [] ==> now >= history[|history| - 1]
    requires forall i :: 0 <= i < |history| ==> (i >= j <==> history[i] >= now - PROCESS_RESTART_WINDOW)
    ensures Sorted(history + [now]) && Budgeted(history + [now]) && TailOf(history[j..] + [now], history + [now], j)
  {
  }

  class Budget {
    /** The stored stamps, pruned on every write. */
    var stamps: seq<int>
    /** Every restart there ever was. */
    ghost var history: seq<int>

    ghost predicate Valid()
      reads this
    {
      && Sorted(history) && Budgeted(history)
      && exists k: nat :: IsTail(k)
    }

    ghost predicate IsTail(k: nat)
      reads this
    {
      TailOf(stamps, history, k)
    }

    constructor ()
      ensures Valid() && stamps == [] && history == []
    {
      stamps, history := [], [];
      new;
      assert IsTail(0);
    }

    /** `_budget_stamps` */
    method RecentStamps(now: int) returns (recent: seq<int>)
      ensures recent == Recent(stamps, now)
    {
      recent := [];
      for i := 0 to |stamps|
        invariant recent == Recent(stamps[..i], now)
      {
        assert stamps[..i + 1][..i] == stamps[..i];
        if stamps[i] >= now - PROCESS_RESTART_WINDOW {
          recent := recent + [stamps[i]];
        }
      }
      assert stamps[..|stamps|] == stamps;
    }

    /** A due restart at `now`: refused when the budget is spent, else counted whether or not it succeeds. */
    method RestartIfAllowed(now: int) returns (restarted: bool)
      requires Valid() && (history != [] ==> now >= history[|history| - 1])
      modifies this
      ensures Valid()
      ensures restarted ==> history == old(history) + [now]
      ensures !restarted ==> history == old(history) && stamps == old(stamps)
      ensures !restarted <==> InWindow(old(history), now - PROCESS_RESTART_WINDOW) >= PROCESS_RESTART_LIMIT
    {
      var recent := RecentStamps(now);
      RecentCounts(now);
      if |recent| >= PROCESS_RESTART_LIMIT {
        return false;
      }
      ghost var j := RecentTail(now);
      OneMore(history, now, j);
      stamps := recent + [now];
      history := history + [now];
      assert IsTail(j);
      restarted := true;
    }

    /** The recent stamps are the restarts inside the window. */
    lemma {:induction false} RecentTail(now: int) returns (j: nat)
      requires Valid() && (history != [] ==> now >= history[|history| - 1])
      ensures j <= |history| && Recent(stamps, now) == history[j..]
      ensures forall i :: 0 <= i < |history| ==> (i >= j <==> history[i] >= now - PROCESS_RESTART_WINDOW)
    {
      var k: nat :| IsTail(k);
      j := RecentOfTail(stamps, history, k, now);
    }

    lemma {:induction false} RecentCounts(now: int)
      requires Valid() && (history != [] ==> now >= history[|history| - 1])
      ensures |Recent(stamps, now)| == InWindow(history, now - PROCESS_RESTART_WINDOW)
    {
      var j := RecentTail(now);
      CountFrom(history, now - PROCESS_RESTART_WINDOW, j);
    }
  }

  lemma {:induction false} CountFrom(history: seq<int>, from: int, j: nat)
    requires j <= |history|
    requires forall i :: 0 <= i < |history| ==> (i >= j <==> history[i] >= from)
    requires forall i :: 0 <= i < |history| ==> history[i] <= from + PROCESS_RESTART_WINDOW
    ensures InWindow(history, from) == |history| - j
  {
    if history != [] {
      CountFrom(history[..|history| - 1], from, if j < |history| then j else j - 1);
    }
  }
}
