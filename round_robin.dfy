/**
 * The bookkeeping behind the fetcher pool's static fields: the number of
 * workers (`Fetcher.instances.length`), the round-robin cursor
 * (`Fetcher.next`) and the in-flight counter (`Fetcher.active`), as values,
 * with the steps `Fetcher.get`, the pool's completion wrapper and
 * `Fetcher.init` apply to them. The `Fetcher.Pool` class is proved to
 * perform exactly these steps.
 */
module RoundRobin {

  datatype PoolState = PoolState(size: nat, next: nat, active: int)

  /** `Fetcher.isBusy`: the number of requests in flight has reached the pool size. */
  predicate IsBusy(s: PoolState) {
    s.active >= s.size
  }

  /** `Fetcher.isActive`: some request is in flight. */
  predicate IsActive(s: PoolState) {
    s.active > 0
  }

  /** The cursor after `next++` and the reset to 0 once it reaches the pool size. */
  function Advance(next: nat, size: nat): (r: nat)
    ensures next < size ==> r < size && r == (next + 1) % size
  {
    if next + 1 >= size then 0 else next + 1
  }

  /**
   * One call of `Fetcher.get`: `active++`, then the worker at the cursor is
   * called and the cursor steps. When there is no worker at the cursor the
   * call throws after `active++` and `next++` and before the wrap.
   */
  function DispatchStep(s: PoolState): PoolState {
    if s.next < s.size then s.(next := Advance(s.next, s.size), active := s.active + 1)
    else s.(next := s.next + 1, active := s.active + 1)
  }

  /** The pool's wrapper around the caller's callback runs: `active--`. */
  function CompleteStep(s: PoolState): PoolState {
    s.(active := s.active - 1)
  }

  /** `Fetcher.init`: `poolSize` new workers; the cursor and the counter are left as they were. */
  function InitStep(s: PoolState, poolSize: int): PoolState
  {
    s.(size := if poolSize > 0 then poolSize else 0)
  }

  /** What happens to the pool, in the order it happens. */
  datatype Event = Dispatched | Completed

  function Step(s: PoolState, e: Event): PoolState {
    match e
    case Dispatched => DispatchStep(s)
    case Completed => CompleteStep(s)
  }

  function Run(s: PoolState, evs: seq<Event>): PoolState
    decreases |evs|
  {
    if evs == [] then s else Run(Step(s, evs[0]), evs[1..])
  }

  function Count(evs: seq<Event>, e: Event): nat
    decreases |evs|
  {
    if evs == [] then 0 else (if evs[0] == e then 1 else 0) + Count(evs[1..], e)
  }

  /** The cursor each dispatch of `evs` reads, in call order: the worker it is handed to. */
  function Assigned(s: PoolState, evs: seq<Event>): seq<nat>
    decreases |evs|
  {
    if evs == [] then []
    else (if evs[0] == Dispatched then [s.next] else []) + Assigned(Step(s, evs[0]), evs[1..])
  }

  /** A caller that dispatches only when the pool is not busy, and completes only what is in flight. */
  predicate Allowed(s: PoolState, e: Event) {
    match e
    case Dispatched => !IsBusy(s)
    case Completed => IsActive(s)
  }

  ghost predicate Disciplined(s: PoolState, evs: seq<Event>)
    decreases |evs|
  {
    evs == [] || (Allowed(s, evs[0]) && Disciplined(Step(s, evs[0]), evs[1..]))
  }

  lemma MulAtLeast(d: int, n: int)
    requires d >= 1 && n > 0
    ensures d * n >= n
  {
  }

  /** Euclidean remainder is determined by any quotient/remainder decomposition. */
  lemma ModUnique(x: int, q: int, r: int, n: int)
    requires 0 < n && 0 <= r < n && x == q * n + r
    ensures x % n == r
  {
    var q', r' := x / n, x % n;
    if q > q' {
      MulAtLeast(q - q', n);
    } else if q < q' {
      MulAtLeast(q' - q, n);
    }
  }

  lemma ModShift(a: nat, k: nat, n: nat)
    requires 0 < n && a <= n
    ensures (a % n + k) % n == (a + k) % n
  {
    if a == n {
      ModUnique(a, 1, 0, n);
      ModUnique(n + k, k / n + 1, k % n, n);
    } else {
      ModUnique(a, 0, a, n);
    }
  }

  lemma ModWindow(x: nat, n: nat)
    requires 0 < n && x < 2 * n
    ensures x % n == if x < n then x else x - n
  {
    if x < n {
      ModUnique(x, 0, x, n);
    } else {
      ModUnique(x, 1, x - n, n);
    }
  }

  /**
   * In-flight accounting: any sequence of dispatches and completions leaves
   * `active` equal to its start value plus the dispatches minus the
   * completions, even from a cursor past the end, where each dispatch
   * throws after counting itself in and no wrapper ever counts it out. From
   * a cursor inside the pool, the cursor moves on by the number of
   * dispatches, modulo the pool size.
   */
  lemma {:induction false} Accounting(s: PoolState, evs: seq<Event>)
    ensures Run(s, evs).size == s.size
    ensures Run(s, evs).active == s.active + Count(evs, Dispatched) - Count(evs, Completed)
    ensures s.next < s.size ==> Run(s, evs).next == (s.next + Count(evs, Dispatched)) % s.size
    decreases |evs|
  {
    if evs == [] {
      if s.next < s.size {
        ModUnique(s.next, 0, s.next, s.size);
      }
    } else {
      var t, rest := Step(s, evs[0]), evs[1..];
      var k := Count(rest, Dispatched);
      assert Run(s, evs) == Run(t, rest);
      Accounting(t, rest);
      if evs[0] == Dispatched {
        assert Count(evs, Dispatched) == k + 1;
        if s.next < s.size {
          assert t.next == (s.next + 1) % s.size;
          ModShift(s.next + 1, k, s.size);
        }
      } else {
        assert Count(evs, Dispatched) == k;
        assert t.next == s.next;
      }
    }
  }

  /**
   * Assignment depends only on call order: the j-th dispatch goes to worker
   * `(start cursor + j) mod size`, whatever completions come in between.
   */
  lemma {:induction false} AssignedByCallOrder(s: PoolState, evs: seq<Event>)
    requires s.next < s.size
    ensures |Assigned(s, evs)| == Count(evs, Dispatched)
    ensures forall j :: 0 <= j < |Assigned(s, evs)| ==> Assigned(s, evs)[j] == (s.next + j) % s.size
    decreases |evs|
  {
    if evs != [] {
      var t, rest := Step(s, evs[0]), evs[1..];
      AssignedByCallOrder(t, rest);
      var a, b := Assigned(s, evs), Assigned(t, rest);
      if evs[0] == Dispatched {
        assert a == [s.next] + b;
        assert t.next == (s.next + 1) % s.size;
        forall j | 0 <= j < |a|
          ensures a[j] == (s.next + j) % s.size
        {
          if j == 0 {
            ModUnique(s.next, 0, s.next, s.size);
          } else {
            assert a[j] == b[j - 1] == (t.next + (j - 1)) % s.size;
            ModShift(s.next + 1, j - 1, s.size);
          }
        }
      } else {
        assert a == b;
        assert t.next == s.next;
      }
    }
  }

  /** A window of `n` consecutive cursor values, taken modulo `n`, holds every worker. */
  lemma WindowCovers(c: nat, n: nat, a: seq<nat>)
    requires c < n && |a| == n
    requires forall j :: 0 <= j < |a| ==> a[j] == (c + j) % n
    ensures forall w :: 0 <= w < n ==> w in a
  {
    forall w | 0 <= w < n
      ensures w in a
    {
      var j := if c <= w then w - c else w + n - c;
      ModWindow(c + j, n);
      assert a[j] == w;
    }
  }

  /** A window of `n` consecutive cursor values, taken modulo `n`, holds no worker twice. */
  lemma WindowDistinct(c: nat, n: nat, a: seq<nat>)
    requires c < n && |a| == n
    requires forall j :: 0 <= j < |a| ==> a[j] == (c + j) % n
    ensures forall i, j :: 0 <= i < j < |a| ==> a[i] != a[j]
  {
    forall i, j | 0 <= i < j < |a|
      ensures a[i] != a[j]
    {
      ModWindow(c + i, n);
      ModWindow(c + j, n);
    }
  }

  /**
   * Burst fairness: a run with exactly as many dispatches as workers hands
   * one target to every worker, each exactly once, in cursor order, and
   * brings the cursor back to where it started.
   */
  lemma BurstVisitsEachWorkerOnce(s: PoolState, evs: seq<Event>)
    requires s.next < s.size
    requires Count(evs, Dispatched) == s.size
    ensures Run(s, evs).next == s.next
    ensures |Assigned(s, evs)| == s.size
    ensures forall w :: 0 <= w < s.size ==> w in Assigned(s, evs)
    ensures forall i, j :: 0 <= i < j < |Assigned(s, evs)| ==> Assigned(s, evs)[i] != Assigned(s, evs)[j]
  {
    var n, c := s.size, s.next;
    Accounting(s, evs);
    assert (c + n) % n == c by { ModWindow(c + n, n); }
    AssignedByCallOrder(s, evs);
    WindowCovers(c, n, Assigned(s, evs));
    WindowDistinct(c, n, Assigned(s, evs));
  }

  /**
   * Admission bound: when every dispatch is made while the pool is not
   * busy and every completion answers a request in flight, `active` stays
   * within [0, size].
   */
  lemma {:induction false} AdmissionBound(s: PoolState, evs: seq<Event>)
    requires 0 <= s.active <= s.size
    requires Disciplined(s, evs)
    ensures Run(s, evs).size == s.size
    ensures 0 <= Run(s, evs).active <= s.size
    decreases |evs|
  {
    if evs != [] {
      AdmissionBound(Step(s, evs[0]), evs[1..]);
    }
  }

  /**
   * Under the same discipline `isBusy` means exactly that every worker's
   * worth of requests is in flight, and `isActive` that any is.
   */
  lemma BusyMeansFull(s: PoolState, evs: seq<Event>)
    requires 0 <= s.active <= s.size
    requires Disciplined(s, evs)
    ensures IsBusy(Run(s, evs)) <==> Run(s, evs).active == s.size
    ensures IsActive(Run(s, evs)) <==> Run(s, evs).active != 0
  {
    AdmissionBound(s, evs);
  }

  /**
   * `isBusy` bounds the requests in flight, not each worker's: with two
   * workers, two dispatches and one completion admit a third dispatch,
   * which goes to worker 0 again although the completion may have been
   * worker 1's, leaving worker 0 with two requests at once.
   */
  lemma WorkerReusedWhileInFlight()
    ensures Disciplined(PoolState(2, 0, 0), [Dispatched, Dispatched, Completed, Dispatched])
    ensures Assigned(PoolState(2, 0, 0), [Dispatched, Dispatched, Completed, Dispatched]) == [0, 1, 0]
  {
  }

  /**
   * A cursor at or past the end of the pool is never wrapped again: every
   * later dispatch finds no worker, and the cursor keeps counting up.
   */
  lemma {:induction false} StrandedCursorStays(s: PoolState, evs: seq<Event>)
    requires s.next >= s.size
    ensures Run(s, evs).size == s.size
    ensures Run(s, evs).next == s.next + Count(evs, Dispatched)
    ensures Assigned(s, evs) == seq(Count(evs, Dispatched), j => s.next + j)
    decreases |evs|
  {
    if evs != [] {
      var t := Step(s, evs[0]);
      StrandedCursorStays(t, evs[1..]);
    }
  }

  /**
   * `Fetcher.init` keeps the cursor, so re-initialising with no more
   * workers than the cursor's value strands it: no later dispatch reaches
   * a worker.
   */
  lemma ShrinkingInitStrandsCursor(s: PoolState, poolSize: int, evs: seq<Event>)
    requires poolSize <= s.next
    ensures forall j :: 0 <= j < |Assigned(InitStep(s, poolSize), evs)| ==>
      Assigned(InitStep(s, poolSize), evs)[j] >= InitStep(s, poolSize).size
  {
    StrandedCursorStays(InitStep(s, poolSize), evs);
  }
}
