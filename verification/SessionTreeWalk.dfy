/** The session tree as the program builds it: one recursive walk over a grouped session list. */
module SessionTreeWalk {
  import opened Results
  import opened SessionTree

  /** The lists hold the first `n` sessions with each parent, in list order. */
  ghost predicate Grouped(sessions: seq<Session>, lists: map<Option<string>, seq<nat>>, n: nat) {
    && n <= |sessions|
    && (forall p :: p in lists ==> GroupOf(sessions, lists[p], p, n))
    && (forall i :: 0 <= i < n ==> Filed(lists, sessions[i].parent, i))
  }

  ghost predicate Filed(lists: map<Option<string>, seq<nat>>, p: Option<string>, i: nat) {
    p in lists && i in lists[p]
  }

  ghost predicate GroupOf(sessions: seq<Session>, l: seq<nat>, p: Option<string>, n: nat) {
    && n <= |sessions|
    && (forall k :: 0 <= k < |l| ==> l[k] < n && sessions[l[k]].parent == p)
    && (forall j, k :: 0 <= j < k < |l| ==> l[j] < l[k])
  }

  lemma GroupAppends(sessions: seq<Session>, l: seq<nat>, p: Option<string>, n: nat)
    requires GroupOf(sessions, l, p, n) && n < |sessions|
    ensures GroupOf(sessions, l, p, n + 1)
    ensures sessions[n].parent == p ==> GroupOf(sessions, l + [n], p, n + 1)
  {
  }

  /** The lists with `n` added behind the children of `p`. */
  function Appended(lists: map<Option<string>, seq<nat>>, p: Option<string>, n: nat): map<Option<string>, seq<nat>> {
    lists[p := (if p in lists then lists[p] else []) + [n]]
  }

  lemma FiledStays(lists: map<Option<string>, seq<nat>>, p: Option<string>, n: nat, q: Option<string>, i: nat)
    ensures Filed(Appended(lists, p, n), p, n)
    ensures Filed(lists, q, i) ==> Filed(Appended(lists, p, n), q, i)
  {
    var siblings := if p in lists then lists[p] else [];
    assert (siblings + [n])[|siblings|] == n;
    assert i in siblings ==> i in siblings + [n];
  }

  lemma GroupStays(sessions: seq<Session>, lists: map<Option<string>, seq<nat>>, n: nat, q: Option<string>)
    requires Grouped(sessions, lists, n) && n < |sessions|
    requires q in Appended(lists, sessions[n].parent, n)
    ensures GroupOf(sessions, Appended(lists, sessions[n].parent, n)[q], q, n + 1)
  {
    hide Filed;
    GroupAppends(sessions, if q in lists then lists[q] else [], q, n);
  }

  lemma GroupGrows(sessions: seq<Session>, lists: map<Option<string>, seq<nat>>, n: nat)
    requires Grouped(sessions, lists, n) && n < |sessions|
    ensures Grouped(sessions, Appended(lists, sessions[n].parent, n), n + 1)
  {
    var p := sessions[n].parent;
    var more := Appended(lists, p, n);
    hide GroupOf, Filed, Appended;
    forall q | q in more ensures GroupOf(sessions, more[q], q, n + 1) {
      GroupStays(sessions, lists, n, q);
    }
    forall i | 0 <= i < n + 1 ensures Filed(more, sessions[i].parent, i) {
      FiledStays(lists, p, n, sessions[i].parent, i);
    }
  }

  /** The same elements, in display order. */
  ghost predicate Displays(sessions: seq<Session>, l: seq<nat>, shown: seq<nat>) {
    Ordered(sessions, shown) && forall i :: i in shown <==> i in l
  }

  lemma SortedDisplays(sessions: seq<Session>, l: seq<nat>, p: Option<string>)
    requires GroupOf(sessions, l, p, |sessions|)
    ensures Displays(sessions, l, SortByRecency(sessions, l))
  {
    SortIsStableOrder(sessions, l);
    SameElements(SortByRecency(sessions, l), l);
  }

  lemma DisplayedListsChildren(
    sessions: seq<Session>, lists: map<Option<string>, seq<nat>>, children: map<Option<string>, seq<nat>>)
    requires Grouped(sessions, lists, |sessions|) && children.Keys == lists.Keys
    requires forall p :: p in children ==> Displays(sessions, lists[p], children[p])
    ensures ListsChildren(sessions, children)
  {
    hide Ordered;
    forall p, i | p in children && i in children[p] ensures i < |sessions| && sessions[i].parent == p {
      assert GroupOf(sessions, lists[p], p, |sessions|) && i in lists[p];
    }
  }

  lemma SameElements(a: seq<nat>, b: seq<nat>)
    requires multiset(a) == multiset(b)
    ensures forall i :: i in a <==> i in b
  {
    assert forall i :: i in a <==> i in multiset(a);
    assert forall i :: i in b <==> i in multiset(b);
  }

  method GroupByParent(sessions: seq<Session>) returns (children: map<Option<string>, seq<nat>>)
    ensures ListsChildren(sessions, children)
  {
    hide ListsChildren;
    children := map[];
    for idx := 0 to |sessions|
      invariant Grouped(sessions, children, idx)
    {
      GroupGrows(sessions, children, idx);
      var siblings := if sessions[idx].parent in children then children[sessions[idx].parent] else [];
      children := children[sessions[idx].parent := siblings + [idx]];
    }
    ghost var lists := children;
    forall p | p in lists ensures Displays(sessions, lists[p], SortByRecency(sessions, lists[p])) {
      SortedDisplays(sessions, lists[p], p);
    }
    assert forall p :: p in lists ==> GroupOf(sessions, lists[p], p, |sessions|);
    hide Displays;
    children := map p | p in children :: SortByRecency(sessions, children[p]);
    DisplayedListsChildren(sessions, lists, children);
  }

  class TreeWalk {
    const forest: Forest
    var visited: set<string>
    var rows: seq<Row>

    function View(): Walk
      reads this
    {
      Walk(rows, visited)
    }

    constructor (forest: Forest)
      ensures this.forest == forest && View() == Walk([], {})
    {
      this.forest := forest;
      visited, rows := {}, [];
    }

    method PushTreeRow(idx: nat, prefix: string, isLast: bool)
      requires forest.InBounds() && idx < |forest.sessions|
      modifies this
      ensures View() == ShowTree(forest, old(View()), idx, prefix, isLast)
      decreases Unseen(forest, visited)
    {
      var session := forest.sessions[idx];
      if session.id in visited { return; }
      assert session in forest.sessions;
      visited := visited + {session.id};
      var connector := if prefix == "" then "" else if isLast then forest.style.corner else forest.style.tee;
      rows := rows + [Row(idx, prefix, connector)];
      if session.id in forest.collapsed { return; }
      var childPrefix :=
        if prefix == "" then "" else if isLast then prefix + "   " else prefix + forest.style.bar;
      ghost var shown := View();
      if Some(session.id) in forest.children {
        var indexes := forest.children[Some(session.id)];
        for pos := 0 to |indexes|
          invariant shown.visited <= visited
          invariant View() == ShowFirst(forest, shown, indexes, pos, childPrefix)
        {
          PushTreeRow(indexes[pos], childPrefix, pos + 1 == |indexes|);
        }
      }
    }

    /** The roots first, then whatever is left, in list order. */
    method PushAll(alwaysLast: bool)
      requires forest.InBounds() && View() == Walk([], {})
      modifies this
      ensures View() == ShowAll(forest, alwaysLast)
    {
      if None in forest.children {
        var roots := forest.children[None];
        for pos := 0 to |roots|
          invariant View() == ShowFirst(forest, Walk([], {}), roots, pos, "")
        {
          PushTreeRow(roots[pos], "", pos + 1 == |roots|);
        }
      }
      for idx := 0 to |forest.sessions|
        invariant View() == ShowLeft(forest, ShowRoots(forest), idx, alwaysLast)
      {
        if forest.sessions[idx].id !in visited {
          PushTreeRow(idx, "", alwaysLast || idx + 1 == |forest.sessions|);
        }
      }
    }
  }

  const SCREEN := Style("`- ", "|- ", "|  ")
  const PRINTED := Style("└─ ", "├─ ", "│  ")

  /** The tree of the full-screen view, with folded sessions. */
  method TreeRows(sessions: seq<Session>, collapsed: set<string>) returns (rows: seq<Row>)
    ensures IsWalk(sessions, collapsed, SCREEN, true, rows)
    ensures EachOnce(sessions, rows) && Flat(rows)
  {
    var children := GroupByParent(sessions);
    var forest := Forest(sessions, children, collapsed, SCREEN);
    ForestIsShown(forest, true);
    NoRowIsIndented(forest, true);
    hide *;
    hide SCREEN;
    var walk := new TreeWalk(forest);
    walk.PushAll(true);
    rows := walk.rows;
    WalkedIsWalk(sessions, children, collapsed, SCREEN, true);
  }

  /** The tree that the chat command prints, where nothing is folded. */
  method PrintSessionTree(sessions: seq<Session>) returns (rows: seq<Row>)
    ensures IsWalk(sessions, {}, PRINTED, false, rows)
    ensures EachOnce(sessions, rows) && Flat(rows)
  {
    if sessions == [] {
      rows := [];
      assert ListsChildren(sessions, map[]);
      WalkedIsWalk(sessions, map[], {}, PRINTED, false);
      return;
    }
    var children := GroupByParent(sessions);
    var forest := Forest(sessions, children, {}, PRINTED);
    ForestIsShown(forest, false);
    NoRowIsIndented(forest, false);
    hide *;
    hide PRINTED;
    var walk := new TreeWalk(forest);
    walk.PushAll(false);
    rows := walk.rows;
    WalkedIsWalk(sessions, children, {}, PRINTED, false);
  }

  lemma WalkedIsWalk(
    sessions: seq<Session>, children: map<Option<string>, seq<nat>>, collapsed: set<string>, style: Style,
    alwaysLast: bool)
    requires ListsChildren(sessions, children) && Forest(sessions, children, collapsed, style).InBounds()
    ensures IsWalk(sessions, collapsed, style, alwaysLast,
                   ShowAll(Forest(sessions, children, collapsed, style), alwaysLast).rows)
  {
    hide ListsChildren, ShowAll;
  }
}
