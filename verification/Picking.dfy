/** The positions at which a list has elements of one kind, in order. */
module Picking {
  /** `at` lists, in order, exactly the positions of `s` whose elements satisfy `p`. */
  ghost predicate Picks<T(!new)>(s: seq<T>, p: T -> bool, at: seq<nat>) {
    && (forall k :: 0 <= k < |at| ==> at[k] < |s| && p(s[at[k]]))
    && (forall j, k :: 0 <= j < k < |at| ==> at[j] < at[k])
    && (forall i :: 0 <= i < |s| && p(s[i]) ==> i in at)
  }

  lemma PickNone<T(!new)>(p: T -> bool)
    ensures Picks([], p, [])
  {
  }

  lemma PickOneMore<T(!new)>(s: seq<T>, x: T, p: T -> bool, at: seq<nat>)
    requires Picks(s, p, at)
    ensures Picks(s + [x], p, if p(x) then at + [|s|] else at)
  {
    var more := if p(x) then at + [|s|] else at;
    forall i | 0 <= i < |s| + 1 && p((s + [x])[i]) ensures i in more {
      if i < |s| {
        assert i in at;
        var k :| 0 <= k < |at| && at[k] == i;
        assert more[k] == i;
      } else {
        assert more[|at|] == i;
      }
    }
  }

  /** `r` holds what `f` makes of the elements at the positions `at`. */
  ghost predicate Maps<T(!new), U(!new)>(s: seq<T>, at: seq<nat>, f: T -> U, r: seq<U>) {
    && |r| == |at|
    && forall k :: 0 <= k < |at| ==> at[k] < |s| && r[k] == f(s[at[k]])
  }

  lemma MapNone<T(!new), U(!new)>(f: T -> U)
    ensures Maps([], [], f, [])
  {
  }

  lemma MapOneMore<T(!new), U(!new)>(s: seq<T>, x: T, at: seq<nat>, f: T -> U, r: seq<U>)
    requires Maps(s, at, f, r)
    ensures Maps(s + [x], at, f, r) && Maps(s + [x], at + [|s|], f, r + [f(x)])
  {
  }

  /** There is only one such list. */
  lemma {:induction false} PicksAreUnique<T(!new)>(s: seq<T>, p: T -> bool, a: seq<nat>, b: seq<nat>)
    requires Picks(s, p, a) && Picks(s, p, b)
    ensures a == b
  {
    if a != [] || b != [] {
      LastPick(s, p, a, b);
      LastPick(s, p, b, a);
      var n := a[|a| - 1];
      assert a == a[..|a| - 1] + [n] && b == b[..|b| - 1] + [n];
      FewerPicks(s, p, a);
      FewerPicks(s, p, b);
      PicksAreUnique(s[..n], p, a[..|a| - 1], b[..|b| - 1]);
    }
  }

  lemma LastPick<T(!new)>(s: seq<T>, p: T -> bool, a: seq<nat>, b: seq<nat>)
    requires Picks(s, p, a) && Picks(s, p, b) && a != []
    ensures b != [] && a[|a| - 1] <= b[|b| - 1]
  {
    var n := a[|a| - 1];
    assert n in b;
    var k :| 0 <= k < |b| && b[k] == n;
  }

  lemma FewerPicks<T(!new)>(s: seq<T>, p: T -> bool, at: seq<nat>)
    requires Picks(s, p, at) && at != []
    ensures Picks(s[..at[|at| - 1]], p, at[..|at| - 1])
  {
    var n := at[|at| - 1];
    forall i | 0 <= i < n && p(s[i]) ensures i in at[..|at| - 1] {
      assert i in at;
      var k :| 0 <= k < |at| && at[k] == i;
      assert at[..|at| - 1][k] == i;
    }
  }
}
