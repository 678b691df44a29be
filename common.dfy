/** C integer widths and error codes shared by the firmware modules. */
module CTypes {
  type uint8 = x: int | 0 <= x < 0x100
  type uint16 = x: int | 0 <= x < 0x1_0000
  type uint32 = x: int | 0 <= x < 0x1_0000_0000
  type int32 = x: int | -0x8000_0000 <= x < 0x8000_0000

  /** errno values returned (negated) by the parameter accessors. */
  const ENOENT: int := 2
  const EINVAL: int := 22

  /** Two's-complement wrap-around of an int32 increment or decrement:
      one past either end of the range comes back in at the other end. */
  function WrapInt32(x: int): (r: int32)
    requires -0x8000_0001 <= x <= 0x8000_0000
    ensures -0x8000_0000 <= x < 0x8000_0000 ==> r == x
    ensures x == 0x8000_0000 ==> r == -0x8000_0000
    ensures x == -0x8000_0001 ==> r == 0x7FFF_FFFF
  {
    if x == 0x8000_0000 then -0x8000_0000
    else if x == -0x8000_0001 then 0x7FFF_FFFF
    else x
  }
}

/** Optional values and results with an error, for NULL pointers, missing
    attributes and raised exceptions. */
module Wrappers {
  datatype Option<+T> = None | Some(value: T)

  datatype Result<+T, +E> = Ok(value: T) | Err(error: E)
}

/** Sequence helpers shared by the scans and walks: first match, filtering
    and the prefix an early-stopping walk visits. */
module Seqs {
  import opened Wrappers

  /** Index of the first element satisfying `p`, if any. */
  function First<T>(s: seq<T>, p: T -> bool): (r: Option<nat>)
    ensures r.Some? ==> r.value < |s| && p(s[r.value])
    ensures r.Some? ==> forall j :: 0 <= j < r.value ==> !p(s[j])
    ensures r.None? <==> forall j :: 0 <= j < |s| ==> !p(s[j])
  {
    if s == [] then None
    else if p(s[0]) then Some(0)
    else match First(s[1..], p)
      case None => None
      case Some(k) => Some(k + 1)
  }

  /** The first index is determined: the one satisfying `p` with no earlier
      one that does. */
  lemma FirstIs<T>(s: seq<T>, p: T -> bool, k: nat)
    requires k < |s| && p(s[k])
    requires forall j :: 0 <= j < k ==> !p(s[j])
    ensures First(s, p) == Some(k)
  {
  }

  /** The elements satisfying `p`, in their original order. */
  function Filter<T>(s: seq<T>, p: T -> bool): (r: seq<T>)
    ensures |r| <= |s|
  {
    if s == [] then []
    else Filter(s[..|s| - 1], p) + (if p(s[|s| - 1]) then [s[|s| - 1]] else [])
  }

  /** Filtering keeps exactly the elements that satisfy `p`. */
  lemma {:induction false} FilterMembers<T>(s: seq<T>, p: T -> bool)
    ensures forall x :: x in Filter(s, p) <==> x in s && p(x)
    decreases |s|
  {
    if s != [] {
      var init := s[..|s| - 1];
      FilterMembers(init, p);
      assert s == init + [s[|s| - 1]];
    }
  }

  lemma {:induction false} FilterConcat<T>(a: seq<T>, b: seq<T>, p: T -> bool)
    ensures Filter(a + b, p) == Filter(a, p) + Filter(b, p)
    decreases |b|
  {
    if b == [] {
      assert a + b == a;
    } else {
      var b' := b[..|b| - 1];
      assert (a + b)[..|a + b| - 1] == a + b';
      assert (a + b)[|a + b| - 1] == b[|b| - 1];
      FilterConcat(a, b', p);
    }
  }

  /** The positions of the elements Filter keeps. */
  function FilterPositions<T>(s: seq<T>, p: T -> bool): seq<nat>
    decreases |s|
  {
    if s == [] then []
    else FilterPositions(s[..|s| - 1], p) + (if p(s[|s| - 1]) then [|s| - 1] else [])
  }

  /** Each kept position names the element Filter keeps at that place. */
  lemma {:induction false} FilterPositionsName<T>(s: seq<T>, p: T -> bool)
    ensures |FilterPositions(s, p)| == |Filter(s, p)|
    ensures forall i :: 0 <= i < |FilterPositions(s, p)| ==>
      FilterPositions(s, p)[i] < |s| && s[FilterPositions(s, p)[i]] == Filter(s, p)[i] && p(s[FilterPositions(s, p)[i]])
    decreases |s|
  {
    if s != [] {
      var init := s[..|s| - 1];
      FilterPositionsName(init, p);
      var prev, fprev := FilterPositions(init, p), Filter(init, p);
      var idx, f := FilterPositions(s, p), Filter(s, p);
      forall i | 0 <= i < |idx|
        ensures idx[i] < |s| && s[idx[i]] == f[i] && p(s[idx[i]])
      {
        if i < |prev| {
          assert idx[i] == prev[i] && f[i] == fprev[i];
          assert s[prev[i]] == init[prev[i]];
        }
      }
    }
  }

  /** The kept positions increase. */
  lemma {:induction false} FilterPositionsIncrease<T>(s: seq<T>, p: T -> bool)
    ensures forall i :: 0 <= i < |FilterPositions(s, p)| ==> FilterPositions(s, p)[i] < |s|
    ensures forall i, j :: 0 <= i < j < |FilterPositions(s, p)| ==> FilterPositions(s, p)[i] < FilterPositions(s, p)[j]
    decreases |s|
  {
    if s != [] {
      var init := s[..|s| - 1];
      FilterPositionsIncrease(init, p);
      var prev, idx := FilterPositions(init, p), FilterPositions(s, p);
      var tail := if p(s[|s| - 1]) then [|s| - 1] else [];
      assert idx == prev + tail;
      assert forall i :: 0 <= i < |prev| ==> prev[i] < |init|;
      assert forall i :: 0 <= i < |prev| ==> idx[i] == prev[i];
      assert |tail| <= 1 && forall i :: 0 <= i < |tail| ==> tail[i] == |s| - 1;
      forall i, j | 0 <= i < j < |idx| ensures idx[i] < idx[j] {
        if j >= |prev| {
          assert idx[j] == tail[j - |prev|] == |s| - 1;
          assert i < |prev|;
        }
      }
    }
  }

  /** Every position whose element passes is kept. */
  lemma {:induction false} FilterPositionsComplete<T>(s: seq<T>, p: T -> bool)
    ensures forall k :: 0 <= k < |s| && p(s[k]) ==> k in FilterPositions(s, p)
    decreases |s|
  {
    if s != [] {
      var init := s[..|s| - 1];
      FilterPositionsComplete(init, p);
      var prev, idx := FilterPositions(init, p), FilterPositions(s, p);
      forall k | 0 <= k < |s| && p(s[k]) ensures k in idx {
        if k < |init| {
          assert init[k] == s[k];
          var i :| 0 <= i < |prev| && prev[i] == k;
          assert idx[i] == k;
        } else {
          assert idx[|idx| - 1] == k;
        }
      }
    }
  }

  /** Whether some element makes a walk stop. */
  predicate Halts<T>(items: seq<T>, stop: T -> bool) {
    exists j :: 0 <= j < |items| && stop(items[j])
  }

  lemma HaltsCons<T>(items: seq<T>, stop: T -> bool)
    requires items != []
    ensures Halts(items, stop) <==> stop(items[0]) || Halts(items[1..], stop)
  {
    if Halts(items, stop) {
      var j :| 0 <= j < |items| && stop(items[j]);
      if j > 0 {
        assert items[1..][j - 1] == items[j];
      }
    }
    if Halts(items[1..], stop) {
      var j :| 0 <= j < |items[1..]| && stop(items[1..][j]);
      assert items[j + 1] == items[1..][j];
    }
  }

  /** The items an early-stopping walk hands to its callback: everything up to
      and including the first item on which it stops, or all items. */
  function Visited<T>(items: seq<T>, stop: T -> bool): (v: seq<T>)
    ensures |v| <= |items|
  {
    if items == [] then []
    else if stop(items[0]) then [items[0]]
    else [items[0]] + Visited(items[1..], stop)
  }

  /** The visited items are a prefix of the items in which only the last one
      can stop the walk; the walk stops early exactly when some item stops it. */
  lemma {:induction false} VisitedPrefix<T>(items: seq<T>, stop: T -> bool)
    ensures var v := Visited(items, stop);
      && v == items[..|v|]
      && (forall j :: 0 <= j < |v| - 1 ==> !stop(v[j]))
      && (Halts(items, stop) <==> v != [] && stop(v[|v| - 1]))
      && (!Halts(items, stop) ==> v == items)
    decreases |items|
  {
    if items != [] {
      HaltsCons(items, stop);
      if !stop(items[0]) {
        VisitedPrefix(items[1..], stop);
      }
    }
  }

  /** A walk over `a + b` is the walk over `a` when it stops inside `a`, and
      otherwise all of `a` followed by the walk over `b`. */
  lemma {:induction false} VisitedConcat<T>(a: seq<T>, b: seq<T>, stop: T -> bool)
    ensures Visited(a + b, stop) == if Halts(a, stop) then Visited(a, stop) else a + Visited(b, stop)
    decreases |a|
  {
    if a == [] {
      assert a + b == b;
    } else {
      HaltsCons(a, stop);
      if stop(a[0]) {
        assert (a + b)[0] == a[0];
      } else {
        assert (a + b)[1..] == a[1..] + b;
        VisitedConcat(a[1..], b, stop);
      }
    }
  }

  /** One more item for a filtered walk that has not stopped yet: the item
      is handed over when it passes the filter, and the walk stops on it
      when the callback says so. */
  lemma VisitedFilterSnoc<T>(s: seq<T>, x: T, keep: T -> bool, stop: T -> bool)
    requires !Halts(Filter(s, keep), stop)
    ensures Filter(s + [x], keep) == Filter(s, keep) + (if keep(x) then [x] else [])
    ensures Visited(Filter(s, keep), stop) == Filter(s, keep)
    ensures Visited(Filter(s + [x], keep), stop) == Filter(s, keep) + (if keep(x) then [x] else [])
    ensures Halts(Filter(s + [x], keep), stop) <==> keep(x) && stop(x)
  {
    assert (s + [x])[..|s + [x]| - 1] == s;
    var f := Filter(s, keep);
    var tail := if keep(x) then [x] else [];
    VisitedConcat(f, tail, stop);
    VisitedPrefix(f, stop);
    var f' := f + tail;
    assert forall j :: 0 <= j < |f| ==> f'[j] == f[j];
    if Halts(f', stop) {
      var j :| 0 <= j < |f'| && stop(f'[j]);
      assert j >= |f|;
    }
    if keep(x) && stop(x) {
      assert f'[|f'| - 1] == x;
    }
  }

  /** A filtered walk that stops within the first i items never looks at
      the rest. */
  lemma VisitedFilterPrefix<T>(s: seq<T>, i: nat, keep: T -> bool, stop: T -> bool)
    requires i <= |s| && Halts(Filter(s[..i], keep), stop)
    ensures Visited(Filter(s, keep), stop) == Visited(Filter(s[..i], keep), stop)
    ensures Halts(Filter(s, keep), stop)
  {
    assert s == s[..i] + s[i..];
    var a, b := Filter(s[..i], keep), Filter(s[i..], keep);
    FilterConcat(s[..i], s[i..], keep);
    VisitedConcat(a, b, stop);
    var j :| 0 <= j < |a| && stop(a[j]);
    assert (a + b)[j] == a[j];
  }

  /** One more item for a walk that has not stopped: it is visited, and the
      walk stops on it exactly when `stop` says so. */
  lemma VisitedSnoc<T>(s: seq<T>, x: T, stop: T -> bool)
    requires !Halts(s, stop)
    ensures Visited(s, stop) == s
    ensures Visited(s + [x], stop) == s + [x]
    ensures Halts(s + [x], stop) <==> stop(x)
  {
    VisitedPrefix(s, stop);
    VisitedConcat(s, [x], stop);
    assert forall j :: 0 <= j < |s| ==> (s + [x])[j] == s[j];
    if Halts(s + [x], stop) {
      var j :| 0 <= j < |s + [x]| && stop((s + [x])[j]);
      assert j == |s|;
    }
    if stop(x) {
      assert (s + [x])[|s|] == x;
    }
  }

  /** A walk that stops within the first i items never looks at the rest. */
  lemma VisitedStopsIn<T>(s: seq<T>, i: nat, stop: T -> bool)
    requires i <= |s| && Halts(s[..i], stop)
    ensures Visited(s, stop) == Visited(s[..i], stop)
  {
    assert s == s[..i] + s[i..];
    VisitedConcat(s[..i], s[i..], stop);
  }

  /** No element occurs twice. */
  predicate Distinct<T(==)>(s: seq<T>) {
    forall i, j :: 0 <= i < j < |s| ==> s[i] != s[j]
  }

  lemma DistinctSnoc<T>(s: seq<T>, x: T)
    ensures Distinct(s + [x]) <==> Distinct(s) && x !in s
  {
    var t := s + [x];
    assert forall i :: 0 <= i < |s| ==> t[i] == s[i];
    if x in s {
      var i :| 0 <= i < |s| && s[i] == x;
      assert t[i] == t[|s|];
    }
  }

  /** Filtering a duplicate-free sequence keeps it duplicate-free. */
  lemma {:induction false} FilterDistinct<T>(s: seq<T>, p: T -> bool)
    requires Distinct(s)
    ensures Distinct(Filter(s, p))
    decreases |s|
  {
    if s != [] {
      var init, x := s[..|s| - 1], s[|s| - 1];
      assert s == init + [x];
      DistinctSnoc(init, x);
      FilterDistinct(init, p);
      FilterMembers(init, p);
      if p(x) {
        DistinctSnoc(Filter(init, p), x);
      }
    }
  }

  /** A loop body applied to each item in turn, stopping at the first
      error (a raised exception): the state reached and the error, if any.
      A step that raises returns the state it had reached when it raised. */
  function Run<S, X, E>(s: S, xs: seq<X>, step: (S, X) -> (S, Option<E>)): (r: (S, Option<E>))
    decreases |xs|
  {
    if xs == [] then (s, None)
    else
      var prev := Run(s, xs[..|xs| - 1], step);
      if prev.1.Some? then prev else step(prev.0, xs[|xs| - 1])
  }

  /** One more item: a run that has failed stays failed, otherwise the step
      decides. */
  lemma RunSnoc<S, X, E>(s: S, xs: seq<X>, x: X, step: (S, X) -> (S, Option<E>))
    ensures Run(s, xs + [x], step) ==
      var prev := Run(s, xs, step);
      if prev.1.Some? then prev else step(prev.0, x)
  {
    assert (xs + [x])[..|xs + [x]| - 1] == xs;
  }

  /** The run over the first k + 1 items: one more step, unless the run
      over the first k has already raised. */
  lemma RunNext<S, X, E>(s: S, xs: seq<X>, k: nat, step: (S, X) -> (S, Option<E>))
    requires k < |xs|
    ensures Run(s, xs[..k + 1], step) ==
      var prev := Run(s, xs[..k], step);
      if prev.1.Some? then prev else step(prev.0, xs[k])
  {
    assert xs[..k + 1][..k] == xs[..k];
  }

  /** The run over every item, as a loop that has reached the end sees it. */
  lemma RunAll<S, X, E>(s: S, xs: seq<X>, step: (S, X) -> (S, Option<E>))
    ensures Run(s, xs[..|xs|], step) == Run(s, xs, step)
  {
    assert xs[..|xs|] == xs;
  }

  /** A run that fails within the first i items ignores the rest. */
  lemma {:induction false} RunStopped<S, X, E>(s: S, xs: seq<X>, i: nat, step: (S, X) -> (S, Option<E>))
    requires i <= |xs| && Run(s, xs[..i], step).1.Some?
    ensures Run(s, xs, step) == Run(s, xs[..i], step)
    decreases |xs| - i
  {
    if i < |xs| {
      RunSnoc(s, xs[..i], xs[i], step);
      assert xs[..i] + [xs[i]] == xs[..i + 1];
      RunStopped(s, xs, i + 1, step);
    } else {
      assert xs[..i] == xs;
    }
  }
}
