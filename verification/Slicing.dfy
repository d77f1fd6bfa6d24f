/** Splitting a container over the thread pool: which slices exist, and what the parallel map and
    filter return. */
module Slicing {
  import opened Arithmetic

  const PARALLEL_THRESHOLD := 5000

  /** The number of tasks and the size of each. */
  function SplitTasks(range: nat, threads: nat): (nat, nat)
    requires threads > 0
  {
    if range < PARALLEL_THRESHOLD || range < threads then (1, range) else
    (threads, range / threads + if range % threads != 0 then 1 else 0)
  }

  function Min(a: int, b: int): int { if a < b then a else b }

  /** Where slice `i` begins, and where it ends. */
  function From(range: nat, threads: nat, i: nat): nat
    requires threads > 0
  {
    i * SplitTasks(range, threads).1
  }

  function To(range: nat, threads: nat, i: nat): nat
    requires threads > 0
  {
    Min(From(range, threads, i) + SplitTasks(range, threads).1, range)
  }

  /** Every slice begins inside the container, so that every iterator pair is a range. */
  ghost predicate InBounds(range: nat, threads: nat)
    requires threads > 0
  {
    forall i: nat :: i < SplitTasks(range, threads).0 ==> From(range, threads, i) <= range
  }

  /** Fewer than 5000 items, or fewer than threads, are one task. Otherwise there is one per thread, and the
      step is the smallest with which they reach the end. */
  lemma SplitExact(range: nat, threads: nat)
    requires threads > 0
    ensures var (tasks, step) := SplitTasks(range, threads);
            if range < 5000 || range < threads then tasks == 1 && step == range
            else tasks == threads && (step - 1) * threads < range <= step * threads
  {
    DivModIs(range, threads);
    OneMore(threads, range / threads);
    if range % threads == 0 {
      assert (range / threads - 1) * threads == range / threads * threads - threads;
    }
  }

  /** The last slice decides. */
  lemma InBoundsIff(range: nat, threads: nat)
    requires threads > 0
    ensures var (tasks, step) := SplitTasks(range, threads);
            InBounds(range, threads) <==> (tasks - 1) * step <= range
  {
    var (tasks, step) := SplitTasks(range, threads);
    if (tasks - 1) * step <= range {
      forall i: nat | i < tasks ensures From(range, threads, i) <= range {
        MulMono(i, tasks - 1, step);
      }
    } else {
      assert From(range, threads, tasks - 1) > range;
    }
  }

  /** The slices reach the end of the container. */
  lemma Reaches(range: nat, threads: nat)
    requires threads > 0
    ensures var (tasks, step) := SplitTasks(range, threads);
            tasks * step >= range
  {
    assert range == range / threads * threads + range % threads;
  }

  /** (threads - 1)^2 <= range is enough. */
  lemma SquareIsEnough(range: nat, threads: nat)
    requires threads > 0 && (threads - 1) * (threads - 1) <= range
    ensures InBounds(range, threads)
  {
    var (tasks, step) := SplitTasks(range, threads);
    if tasks == threads && threads > 1 {
      var q, r := range / threads, range % threads;
      DivModIs(range, threads);
      if r != 0 {
        // (threads - 1) * (q + 1) <= q * threads + r, because threads - 1 - r <= q
        assert (threads - 1) * (q + 1) == q * threads - q + threads - 1 by { Expand(threads, q); }
        if threads - 1 - r > q {
          TooSmall(threads, q, r);
        }
      } else {
        assert (threads - 1) * q <= threads * q by { MulMono(threads - 1, threads, q); }
      }
    }
    InBoundsIff(range, threads);
  }

  lemma Expand(threads: nat, q: nat)
    requires threads > 0
    ensures (threads - 1) * (q + 1) == q * threads - q + threads - 1
  {
  }

  lemma TooSmall(threads: nat, q: nat, r: nat)
    requires threads - 1 - r > q && 0 < r < threads
    ensures q * threads + r < (threads - 1) * (threads - 1)
  {
    assert q <= threads - 2 - r;
    MulMono(q, threads - 2 - r, threads);
    Square(threads, r);
  }

  lemma Square(n: nat, r: nat)
    requires 0 < r <= n - 2
    ensures (n - 2 - r) * n + r < (n - 1) * (n - 1)
  {
    assert (n - 2 - r) * n == n * n - 2 * n - r * n;
    assert (n - 1) * (n - 1) == n * n - 2 * n + 1;
    MulMono(1, n, r);
  }

  /** Exactly the pools of up to 72 threads slice every container inside its bounds. */
  lemma SafePools(threads: nat)
    requires threads > 0
    ensures (forall range: nat :: InBounds(range, threads)) <==> threads <= 72
  {
    if threads <= 72 {
      forall range: nat ensures InBounds(range, threads) {
        SmallPool(range, threads);
      }
    } else {
      var range := threads * (threads - 3) + 1;
      LargePool(threads);
      assert !InBounds(range, threads);
    }
  }

  lemma SmallPool(range: nat, threads: nat)
    requires 0 < threads <= 72
    ensures InBounds(range, threads)
  {
    var (tasks, step) := SplitTasks(range, threads);
    if threads <= 71 && range >= PARALLEL_THRESHOLD {
      MulMono(threads - 1, 70, threads - 1);
      MulMono(threads - 1, 70, 70);
      SquareIsEnough(range, threads);
    } else {
      InBoundsIff(range, threads);
    }
  }

  lemma LargePool(threads: nat)
    requires threads > 72
    ensures var range := threads * (threads - 3) + 1;
            range >= 0 && !InBounds(range, threads)
  {
    var q := threads - 3;
    var range := threads * q + 1;
    MulMono(70, q, threads);
    assert range >= 70 * 73 + 1;
    DivModUnique(range, threads, q, 1);
    var (tasks, step) := SplitTasks(range, threads);
    assert tasks == threads && step == q + 1;
    Expand(threads, q);
    InBoundsIff(range, threads);
  }

  // ---- The slices put together

  /** What the callback pushes for each element, in order. */
  function FlatMap<T, R>(xs: seq<T>, f: T -> seq<R>): seq<R> {
    if xs == [] then [] else FlatMap(xs[..|xs| - 1], f) + f(xs[|xs| - 1])
  }

  lemma {:induction false} FlatMapConcat<T, R>(xs: seq<T>, ys: seq<T>, f: T -> seq<R>)
    ensures FlatMap(xs + ys, f) == FlatMap(xs, f) + FlatMap(ys, f)
  {
    if ys == [] {
      assert xs + ys == xs;
    } else {
      var zs, y := ys[..|ys| - 1], ys[|ys| - 1];
      FlatMapConcat(xs, zs, f);
      assert ys == zs + [y] && xs + (zs + [y]) == xs + zs + [y];
      FlatMapLast(xs + zs, y, f);
      FlatMapLast(zs, y, f);
      Reassociated(FlatMap(xs, f), FlatMap(zs, f), f(y));
    }
  }

  lemma Reassociated<T>(a: seq<T>, b: seq<T>, c: seq<T>)
    ensures a + b + c == a + (b + c)
  {
  }

  lemma FlatMapLast<T, R>(xs: seq<T>, x: T, f: T -> seq<R>)
    ensures FlatMap(xs + [x], f) == FlatMap(xs, f) + f(x)
  {
    assert (xs + [x])[..|xs|] == xs;
  }

  function Joined<R>(parts: seq<seq<R>>): seq<R> {
    if parts == [] then [] else Joined(parts[..|parts| - 1]) + parts[|parts| - 1]
  }

  lemma FromTo(range: nat, threads: nat, i: nat)
    requires threads > 0 && InBounds(range, threads) && i < SplitTasks(range, threads).0
    ensures From(range, threads, i) <= To(range, threads, i) <= range
    ensures To(range, threads, i) < range ==> To(range, threads, i) == From(range, threads, i + 1)
    ensures i + 1 < SplitTasks(range, threads).0 ==> To(range, threads, i) == From(range, threads, i + 1)
    ensures i + 1 == SplitTasks(range, threads).0 ==> To(range, threads, i) == range
  {
    var (tasks, step) := SplitTasks(range, threads);
    assert (i + 1) * step == i * step + step;
    if i + 1 < tasks {
      assert From(range, threads, i + 1) <= range;
    } else {
      Reaches(range, threads);
    }
  }

  /** The first `n` parts, each produced from its own slice, make up the result on everything before
      slice `n`. */
  lemma {:induction false} PartsJoin<T, R>(xs: seq<T>, threads: nat, f: T -> seq<R>, parts: seq<seq<R>>, n: nat)
    requires threads > 0 && InBounds(|xs|, threads)
    requires |parts| == SplitTasks(|xs|, threads).0 && 0 < n <= |parts|
    requires forall i: nat :: i < |parts| ==> IsPart(xs, threads, f, i, parts[i])
    ensures To(|xs|, threads, n - 1) <= |xs|
    ensures Joined(parts[..n]) == FlatMap(xs[..To(|xs|, threads, n - 1)], f)
  {
    var i := n - 1;
    FromTo(|xs|, threads, i);
    assert IsPart(xs, threads, f, i, parts[i]);
    var from, to := From(|xs|, threads, i), To(|xs|, threads, i);
    JoinedLast(parts, n);
    SliceJoin(xs, f, from, to);
    if i > 0 {
      PartsJoin(xs, threads, f, parts, i);
      FromTo(|xs|, threads, i - 1);
    } else {
      assert Joined(parts[..0]) == [] && FlatMap(xs[..0], f) == [];
    }
  }

  lemma JoinedLast<R>(parts: seq<seq<R>>, n: nat)
    requires 0 < n <= |parts|
    ensures Joined(parts[..n]) == Joined(parts[..n - 1]) + parts[n - 1]
  {
    assert parts[..n][..n - 1] == parts[..n - 1];
  }

  lemma SliceJoin<T, R>(xs: seq<T>, f: T -> seq<R>, from: nat, to: nat)
    requires from <= to <= |xs|
    ensures FlatMap(xs[..to], f) == FlatMap(xs[..from], f) + FlatMap(xs[from..to], f)
  {
    FlatMapConcat(xs[..from], xs[from..to], f);
    assert xs[..from] + xs[from..to] == xs[..to];
  }

  ghost predicate IsPart<T, R>(xs: seq<T>, threads: nat, f: T -> seq<R>, i: nat, part: seq<R>)
    requires threads > 0
  {
    var from, to := From(|xs|, threads, i), To(|xs|, threads, i);
    from <= to <= |xs| && part == FlatMap(xs[from..to], f)
  }

  function Below(n: nat): (ids: set<nat>)
    ensures forall i: nat :: i in ids <==> i < n
  {
    if n == 0 then {} else Below(n - 1) + {n - 1}
  }

  /** One task: the callback over a private copy of the slice. */
  method RunTask<T, R>(c: seq<T>, f: T -> seq<R>) returns (res: seq<R>)
    ensures res == FlatMap(c, f)
  {
    res := [];
    var i := 0;
    while i < |c|
      invariant 0 <= i <= |c|
      invariant res == FlatMap(c[..i], f)
    {
      assert c[..i + 1][..i] == c[..i];
      res := res + f(c[i]);
      i := i + 1;
    }
    assert c[..|c|] == c;
  }

  /** The tasks, which finish in any order. */
  method RunTasks<T, R>(xs: seq<T>, threads: nat, f: T -> seq<R>) returns (parts: seq<seq<R>>)
    requires threads > 0 && InBounds(|xs|, threads)
    ensures |parts| == SplitTasks(|xs|, threads).0
    ensures forall i: nat :: i < |parts| ==> IsPart(xs, threads, f, i, parts[i])
  {
    var (tasks, step) := SplitTasks(|xs|, threads);
    parts := seq(tasks, _ => []);
    var pending: set<nat> := Below(tasks);
    while pending != {}
      invariant |parts| == tasks
      invariant forall i :: i in pending ==> 0 <= i < tasks
      invariant forall i: nat :: i < tasks && i !in pending ==> IsPart(xs, threads, f, i, parts[i])
      decreases pending
    {
      var i :| i in pending;
      FromTo(|xs|, threads, i);
      var from := i * step;
      var to := if from + step >= |xs| then |xs| else from + step;
      var part := RunTask(xs[from..to], f);
      assert IsPart(xs, threads, f, i, part);
      parts := parts[i := part];
      pending := pending - {i};
    }
  }

  /** parallelFilter: the tasks' results are put together in task order, and the outcome is the callback
      applied to the whole container in sequence. */
  method ParallelFilter<T, R>(xs: seq<T>, threads: nat, f: T -> seq<R>) returns (ret: seq<R>)
    requires threads > 0 && InBounds(|xs|, threads)
    ensures ret == FlatMap(xs, f)
  {
    var parts := RunTasks(xs, threads, f);
    PartsJoin(xs, threads, f, parts, |parts|);
    FromTo(|xs|, threads, |parts| - 1);
    assert xs[..|xs|] == xs && parts[..|parts|] == parts;
    ret := JoinParts(parts);
  }

  /** Results are appended in task order. */
  method JoinParts<R>(parts: seq<seq<R>>) returns (ret: seq<R>)
    ensures ret == Joined(parts)
  {
    ret := [];
    var n := 0;
    while n < |parts|
      invariant 0 <= n <= |parts| && ret == Joined(parts[..n])
    {
      JoinedLast(parts, n + 1);
      ret := ret + parts[n];
      n := n + 1;
    }
    assert parts[..|parts|] == parts;
  }

  /** The sequential map. */
  function Map<T, R>(xs: seq<T>, f: T -> R): (r: seq<R>)
    ensures |r| == |xs| && forall i :: 0 <= i < |xs| ==> r[i] == f(xs[i])
  {
    seq(|xs|, i requires 0 <= i < |xs| => f(xs[i]))
  }

  lemma {:induction false} FlatMapSingle<T, R>(xs: seq<T>, f: T -> R, one: T -> seq<R>)
    requires forall x :: x in xs ==> one(x) == [f(x)]
    ensures FlatMap(xs, one) == Map(xs, f)
  {
    if xs != [] {
      FlatMapSingle(xs[..|xs| - 1], f, one);
    }
  }

  /** parallelFor: one result per element, in the order of the container. */
  method ParallelFor<T, R>(xs: seq<T>, threads: nat, f: T -> R) returns (ret: seq<R>)
    requires threads > 0 && InBounds(|xs|, threads)
    ensures |ret| == |xs| && forall i :: 0 <= i < |xs| ==> ret[i] == f(xs[i])
  {
    var one := (x: T) => [f(x)];
    ret := ParallelFilter(xs, threads, one);
    FlatMapSingle(xs, f, one);
  }
}
