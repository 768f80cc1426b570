/** Python's `for x in xs: x.step(); if x.dead: xs.remove(x)`. The list
    iterator walks an index over the list it iterates; removing the
    current element shifts its successor back onto that index, so the
    iterator passes over the successor without stepping it. `Loop` follows
    the index as CPython does; `Visit` says the same thing in terms of the
    original positions and is the definition the lemmas reason about. */
module Sweep {

  /** The iteration at index `i`; draw `ds(i)` is what the step at index
      `i` consumes. */
  function Loop<T, D>(xs: seq<T>, i: nat, ds: nat -> D, step: (T, D) -> T, dead: T -> bool): (r: seq<T>)
    ensures |r| <= |xs|
    decreases |xs| + 1 - i
  {
    if i >= |xs| then xs
    else
      var y := step(xs[i], ds(i));
      if dead(y) then Loop(xs[..i] + xs[i + 1..], i + 1, ds, step, dead)
      else Loop(xs[i := y], i + 1, ds, step, dead)
  }

  /** The same sweep read on the original list, starting at iteration `t`:
      a stepped element that lives stays; one that dies goes, and the
      element after it is kept as it was, unstepped. */
  function Visit<T, D>(xs: seq<T>, t: nat, ds: nat -> D, step: (T, D) -> T, dead: T -> bool): (r: seq<T>)
    ensures |r| <= |xs|
    decreases |xs|
  {
    if xs == [] then []
    else
      var y := step(xs[0], ds(t));
      if !dead(y) then [y] + Visit(xs[1..], t + 1, ds, step, dead)
      else if |xs| == 1 then []
      else [xs[1]] + Visit(xs[2..], t + 1, ds, step, dead)
  }

  /** An iteration at index `|p|` whose element lives: it is replaced by
      its stepped state, and the walk goes on from the next index. */
  lemma LoopLive<T, D>(p: seq<T>, xs: seq<T>, ds: nat -> D, step: (T, D) -> T, dead: T -> bool)
    requires xs != [] && !dead(step(xs[0], ds(|p|)))
    requires var p' := p + [step(xs[0], ds(|p|))];
      Loop(p' + xs[1..], |p'|, ds, step, dead) == p' + Visit(xs[1..], |p'|, ds, step, dead)
    ensures Loop(p + xs, |p|, ds, step, dead) == p + Visit(xs, |p|, ds, step, dead)
  {
    var l := p + xs;
    var y := step(xs[0], ds(|p|));
    assert l[|p|] == xs[0];
    assert l[|p| := y] == (p + [y]) + xs[1..];
    Assoc(p, [y], Visit(xs[1..], |p| + 1, ds, step, dead));
  }

  /** An iteration at the last index whose element dies: it is removed
      and the walk ends. */
  lemma LoopDeadLast<T, D>(p: seq<T>, xs: seq<T>, ds: nat -> D, step: (T, D) -> T, dead: T -> bool)
    requires |xs| == 1 && dead(step(xs[0], ds(|p|)))
    ensures Loop(p + xs, |p|, ds, step, dead) == p + Visit(xs, |p|, ds, step, dead)
  {
    LoopRemove(p, xs, ds, step, dead);
    assert p + xs[1..] == p;
  }

  /** An iteration at index `|p|` whose element dies, with another element
      after it: the dead element is removed, and the walk goes on from the
      next index, which now holds the element after the next one. */
  lemma LoopDeadSkip<T, D>(p: seq<T>, xs: seq<T>, ds: nat -> D, step: (T, D) -> T, dead: T -> bool)
    requires |xs| > 1 && dead(step(xs[0], ds(|p|)))
    requires var p' := p + [xs[1]];
      Loop(p' + xs[2..], |p'|, ds, step, dead) == p' + Visit(xs[2..], |p'|, ds, step, dead)
    ensures Loop(p + xs, |p|, ds, step, dead) == p + Visit(xs, |p|, ds, step, dead)
  {
    LoopRemove(p, xs, ds, step, dead);
    assert xs[1..] == [xs[1]] + xs[2..];
    Assoc(p, [xs[1]], xs[2..]);
    Assoc(p, [xs[1]], Visit(xs[2..], |p| + 1, ds, step, dead));
  }

  /** Removing the element at the iterator's index. */
  lemma LoopRemove<T, D>(p: seq<T>, xs: seq<T>, ds: nat -> D, step: (T, D) -> T, dead: T -> bool)
    requires xs != [] && dead(step(xs[0], ds(|p|)))
    ensures Loop(p + xs, |p|, ds, step, dead) == Loop(p + xs[1..], |p| + 1, ds, step, dead)
  {
    var l := p + xs;
    assert l[|p|] == xs[0];
    assert l[..|p|] + l[|p| + 1..] == p + xs[1..];
  }

  lemma Assoc<T>(a: seq<T>, b: seq<T>, c: seq<T>)
    ensures (a + b) + c == a + (b + c)
  {
  }

  /** With the first `|p|` elements already swept, the iterator's walk
      over `p + xs` leaves `p` alone and sweeps `xs` as `Visit` says. */
  lemma {:induction false} LoopIsVisit<T, D>(p: seq<T>, xs: seq<T>, ds: nat -> D, step: (T, D) -> T, dead: T -> bool)
    ensures Loop(p + xs, |p|, ds, step, dead) == p + Visit(xs, |p|, ds, step, dead)
    decreases |xs|
  {
    if xs == [] {
      assert p + xs == p;
    } else if !dead(step(xs[0], ds(|p|))) {
      LoopIsVisit(p + [step(xs[0], ds(|p|))], xs[1..], ds, step, dead);
      LoopLive(p, xs, ds, step, dead);
    } else if |xs| == 1 {
      LoopDeadLast(p, xs, ds, step, dead);
    } else {
      LoopIsVisit(p + [xs[1]], xs[2..], ds, step, dead);
      LoopDeadSkip(p, xs, ds, step, dead);
    }
  }

  /** A whole sweep, from the first index. */
  lemma SweepIsVisit<T, D>(xs: seq<T>, ds: nat -> D, step: (T, D) -> T, dead: T -> bool)
    ensures Loop(xs, 0, ds, step, dead) == Visit(xs, 0, ds, step, dead)
  {
    LoopIsVisit([], xs, ds, step, dead);
    assert [] + xs == xs;
  }

  /** A property every step keeps survives the sweep, and no element that
      is dead afterwards remains, provided none was dead before it (a
      skipped element keeps its old state). */
  lemma {:induction false} VisitKeeps<T, D>(xs: seq<T>, t: nat, ds: nat -> D, step: (T, D) -> T, dead: T -> bool,
                                            P: T -> bool)
    requires forall x, n: nat :: P(x) ==> P(step(x, ds(n)))
    requires forall i :: 0 <= i < |xs| ==> P(xs[i]) && !dead(xs[i])
    ensures var v := Visit(xs, t, ds, step, dead);
      forall i :: 0 <= i < |v| ==> P(v[i]) && !dead(v[i])
    decreases |xs|
  {
    if xs != [] {
      var y := step(xs[0], ds(t));
      if !dead(y) {
        assert P(xs[0]) ==> P(step(xs[0], ds(t)));
        VisitKeeps(xs[1..], t + 1, ds, step, dead, P);
        var v := Visit(xs, t, ds, step, dead);
        assert v == [y] + Visit(xs[1..], t + 1, ds, step, dead);
        assert P(v[0]) && !dead(v[0]);
      } else if |xs| > 1 {
        VisitKeeps(xs[2..], t + 1, ds, step, dead, P);
        var v := Visit(xs, t, ds, step, dead);
        assert v == [xs[1]] + Visit(xs[2..], t + 1, ds, step, dead);
        assert P(v[0]) && !dead(v[0]);
      }
    }
  }

  /** When no step kills its element, every element is stepped once, in
      order, with the draw of its own index. */
  lemma {:induction false} VisitAllLive<T, D>(xs: seq<T>, t: nat, ds: nat -> D, step: (T, D) -> T, dead: T -> bool)
    requires forall i :: 0 <= i < |xs| ==> !dead(step(xs[i], ds(t + i)))
    ensures |Visit(xs, t, ds, step, dead)| == |xs|
    ensures forall i :: 0 <= i < |xs| ==> Visit(xs, t, ds, step, dead)[i] == step(xs[i], ds(t + i))
    decreases |xs|
  {
    if xs != [] {
      assert !dead(step(xs[0], ds(t + 0)));
      forall i | 0 <= i < |xs[1..]|
        ensures !dead(step(xs[1..][i], ds(t + 1 + i)))
      {
        assert xs[1..][i] == xs[i + 1];
      }
      VisitAllLive(xs[1..], t + 1, ds, step, dead);
    }
  }

  /** `VisitAllLive` for the whole sweep, whose iteration `i` uses `ds(i)`. */
  lemma VisitAllLiveFromStart<T, D>(xs: seq<T>, ds: nat -> D, step: (T, D) -> T, dead: T -> bool)
    requires forall i :: 0 <= i < |xs| ==> !dead(step(xs[i], ds(i)))
    ensures |Visit(xs, 0, ds, step, dead)| == |xs|
    ensures forall i :: 0 <= i < |xs| ==> Visit(xs, 0, ds, step, dead)[i] == step(xs[i], ds(i))
  {
    forall i | 0 <= i < |xs|
      ensures !dead(step(xs[i], ds(0 + i)))
    {
      assert 0 + i == i;
    }
    VisitAllLive(xs, 0, ds, step, dead);
    forall i | 0 <= i < |xs|
      ensures Visit(xs, 0, ds, step, dead)[i] == step(xs[i], ds(i))
    {
      assert 0 + i == i;
    }
  }

  /** The keys of `v` strictly increase along the list. */
  predicate Increasing<T>(v: seq<T>, key: T -> int) {
    forall i, j :: 0 <= i < j < |v| ==> key(v[i]) < key(v[j])
  }

  /** Every key of `v` lies in `lo..hi`. */
  predicate Within<T>(v: seq<T>, key: T -> int, lo: int, hi: int) {
    forall i :: 0 <= i < |v| ==> lo <= key(v[i]) <= hi
  }

  /** Keys the step does not change keep their order and their bounds:
      the sweep only drops elements, it never reorders them. */
  lemma {:induction false} VisitKeepsOrder<T, D>(xs: seq<T>, t: nat, ds: nat -> D, step: (T, D) -> T, dead: T -> bool,
                                                  key: T -> int, lo: int, hi: int)
    requires forall x, n: nat :: key(step(x, ds(n))) == key(x)
    requires Increasing(xs, key) && Within(xs, key, lo, hi)
    ensures Increasing(Visit(xs, t, ds, step, dead), key)
    ensures Within(Visit(xs, t, ds, step, dead), key, lo, hi)
    decreases |xs|
  {
    var v := Visit(xs, t, ds, step, dead);
    if xs != [] {
      var y := step(xs[0], ds(t));
      assert key(y) == key(xs[0]);
      if !dead(y) {
        var w := Visit(xs[1..], t + 1, ds, step, dead);
        assert v == [y] + w;
        if |xs| > 1 {
          KeysOfTail(xs, 1, key, lo, hi);
          VisitKeepsOrder(xs[1..], t + 1, ds, step, dead, key, key(xs[1]), hi);
          PrependKeepsOrder(y, w, key, lo, hi, key(xs[1]));
        } else {
          assert w == [];
          PrependKeepsOrder(y, w, key, lo, hi, key(y) + 1);
        }
      } else if |xs| > 2 {
        var w := Visit(xs[2..], t + 1, ds, step, dead);
        assert v == [xs[1]] + w;
        KeysOfTail(xs, 2, key, lo, hi);
        VisitKeepsOrder(xs[2..], t + 1, ds, step, dead, key, key(xs[2]), hi);
        PrependKeepsOrder(xs[1], w, key, lo, hi, key(xs[2]));
      } else if |xs| == 2 {
        assert v == [xs[1]];
      }
    }
  }

  /** A suffix of a list with increasing, bounded keys has the same, its
      first key bounding the rest from below; the element before it has a
      smaller key. */
  lemma KeysOfTail<T>(xs: seq<T>, k: nat, key: T -> int, lo: int, hi: int)
    requires 0 < k < |xs|
    requires Increasing(xs, key) && Within(xs, key, lo, hi)
    ensures Increasing(xs[k..], key) && Within(xs[k..], key, key(xs[k]), hi)
    ensures lo <= key(xs[k - 1]) < key(xs[k]) && key(xs[k - 1]) <= hi
  {
    forall i | 0 <= i < |xs[k..]|
      ensures key(xs[k]) <= key(xs[k..][i]) <= hi
    {
      assert xs[k..][i] == xs[k + i];
      if i > 0 {
        assert key(xs[k]) < key(xs[k + i]);
      }
    }
    forall i, j | 0 <= i < j < |xs[k..]|
      ensures key(xs[k..][i]) < key(xs[k..][j])
    {
      assert xs[k..][i] == xs[k + i] && xs[k..][j] == xs[k + j];
    }
  }

  lemma PrependKeepsOrder<T>(x: T, w: seq<T>, key: T -> int, lo: int, hi: int, b: int)
    requires lo <= key(x) < b && key(x) <= hi
    requires Increasing(w, key) && Within(w, key, b, hi)
    ensures Increasing([x] + w, key) && Within([x] + w, key, lo, hi)
  {
    var v := [x] + w;
    assert forall i :: 0 < i < |v| ==> v[i] == w[i - 1];
  }

  predicate Distinct<T(==)>(xs: seq<T>) {
    forall i, j :: 0 <= i < j < |xs| ==> xs[i] != xs[j]
  }

  /** Python's `list.remove(x)`: drops the first element equal to `x`. */
  function RemoveFirst<T(==)>(xs: seq<T>, x: T): (r: seq<T>)
    ensures x in xs ==> |r| == |xs| - 1
    ensures x !in xs ==> r == xs
  {
    if xs == [] then []
    else if xs[0] == x then xs[1..]
    else [xs[0]] + RemoveFirst(xs[1..], x)
  }

  /** In a list without repeats, removing the element at index `i` by
      value removes exactly that position. */
  lemma {:induction false} RemoveFirstAt<T>(xs: seq<T>, i: int)
    requires Distinct(xs) && 0 <= i < |xs|
    ensures RemoveFirst(xs, xs[i]) == xs[..i] + xs[i + 1..]
    decreases |xs|
  {
    if i > 0 {
      assert xs[1..][i - 1] == xs[i];
      RemoveFirstAt(xs[1..], i - 1);
      assert xs[..i] == [xs[0]] + xs[1..][..i - 1];
      assert xs[i + 1..] == xs[1..][i..];
    }
  }

  /** The elements of `xs` not in `r`, in their order. */
  function Without<T(==)>(xs: seq<T>, r: set<T>): (ys: seq<T>)
    ensures |ys| <= |xs|
  {
    if xs == [] then [] else (if xs[0] in r then [] else [xs[0]]) + Without(xs[1..], r)
  }

  /** `Without` keeps exactly the elements outside `r`. */
  lemma {:induction false} WithoutMembers<T>(xs: seq<T>, r: set<T>, y: T)
    ensures y in Without(xs, r) <==> y in xs && y !in r
    decreases |xs|
  {
    if xs != [] {
      WithoutMembers(xs[1..], r, y);
      assert y in xs <==> y == xs[0] || y in xs[1..];
    }
  }

  lemma {:induction false} WithoutNone<T>(xs: seq<T>)
    ensures Without(xs, {}) == xs
    decreases |xs|
  {
    if xs != [] {
      WithoutNone(xs[1..]);
    }
  }

  lemma {:induction false} WithoutDistinct<T>(xs: seq<T>, r: set<T>)
    requires Distinct(xs)
    ensures Distinct(Without(xs, r))
    decreases |xs|
  {
    if xs != [] {
      WithoutDistinct(xs[1..], r);
      assert xs[0] !in xs[1..];
      WithoutMembers(xs[1..], r, xs[0]);
    }
  }

  lemma {:induction false} WithoutIgnores<T>(xs: seq<T>, r: set<T>, x: T)
    requires x !in xs
    ensures Without(xs, r + {x}) == Without(xs, r)
    decreases |xs|
  {
    if xs != [] {
      WithoutIgnores(xs[1..], r, x);
    }
  }

  lemma DistinctTail<T>(xs: seq<T>)
    requires Distinct(xs) && xs != []
    ensures Distinct(xs[1..]) && xs[0] !in xs[1..]
  {
  }

  /** Marking one more kept element removed takes out exactly its place. */
  lemma {:induction false} WithoutRemove<T>(xs: seq<T>, r: set<T>, i: int)
    requires Distinct(xs) && 0 <= i < |Without(xs, r)|
    ensures var w := Without(xs, r);
      Without(xs, r + {w[i]}) == w[..i] + w[i + 1..]
    decreases |xs|
  {
    var w := Without(xs, r);
    var x := w[i];
    var w1 := Without(xs[1..], r);
    DistinctTail(xs);
    if xs[0] in r {
      assert w == w1;
      WithoutRemove(xs[1..], r, i);
    } else if i == 0 {
      assert w == [xs[0]] + w1;
      WithoutIgnores(xs[1..], r, x);
    } else {
      assert w == [xs[0]] + w1;
      WithoutRemoveLater(xs, r, i);
    }
  }

  lemma {:induction false} WithoutRemoveLater<T>(xs: seq<T>, r: set<T>, i: int)
    requires Distinct(xs) && xs != [] && xs[0] !in r
    requires 0 < i < |Without(xs, r)|
    ensures var w := Without(xs, r);
      Without(xs, r + {w[i]}) == w[..i] + w[i + 1..]
    decreases |xs|, 0
  {
    DistinctTail(xs);
    var w := Without(xs, r);
    var w1 := Without(xs[1..], r);
    assert w == [xs[0]] + w1;
    var x := w[i];
    assert x == w1[i - 1];
    WithoutMembers(xs[1..], r, x);
    assert xs[0] != x;
    WithoutRemove(xs[1..], r, i - 1);
    assert Without(xs, r + {x}) == [xs[0]] + Without(xs[1..], r + {x});
    assert w[..i] == [xs[0]] + w1[..i - 1];
    assert w[i + 1..] == w1[i..];
    Assoc([xs[0]], w1[..i - 1], w1[i..]);
  }
}
