/** The session tree: a depth-first walk over parent links that may be missing or cyclic, as a
    function of values. `SessionTreeWalk` is the walk as the program runs it. */
module SessionTree {
  import opened Results

  datatype Session = Session(id: string, parent: Option<string>, lastActive: Option<int>, startedAt: int)

  /** One printed line: which session, and what is drawn before it. */
  datatype Row = Row(index: nat, prefix: string, connector: string)

  function Recency(s: Session): int {
    if s.lastActive.Some? then s.lastActive.value else s.startedAt
  }

  function Ids(sessions: seq<Session>): set<string> {
    set s | s in sessions :: s.id
  }

  // ---------- Children, most recent first ----------

  /** Puts `i` behind everything that is at least as recent. */
  function InsertByRecency(sessions: seq<Session>, sorted: seq<nat>, i: nat): (r: seq<nat>)
    requires i < |sessions| && forall k :: 0 <= k < |sorted| ==> sorted[k] < |sessions|
    ensures multiset(r) == multiset(sorted) + multiset{i}
    ensures forall k :: 0 <= k < |r| ==> r[k] == i || r[k] in sorted
  {
    if sorted != [] && Recency(sessions[sorted[|sorted| - 1]]) < Recency(sessions[i])
    then
      var less, last := sorted[..|sorted| - 1], sorted[|sorted| - 1];
      assert sorted == less + [last];
      assert multiset(sorted) == multiset(less) + multiset{last};
      InsertByRecency(sessions, less, i) + [last]
    else sorted + [i]
  }

  function SortByRecency(sessions: seq<Session>, indexes: seq<nat>): (r: seq<nat>)
    requires forall k :: 0 <= k < |indexes| ==> indexes[k] < |sessions|
    ensures multiset(r) == multiset(indexes)
    ensures forall k :: 0 <= k < |r| ==> r[k] < |sessions|
  {
    if indexes == [] then [] else
    var n := |indexes| - 1;
    assert indexes == indexes[..n] + [indexes[n]];
    InsertByRecency(sessions, SortByRecency(sessions, indexes[..n]), indexes[n])
  }

  /** `a` is listed before `b`: more recent, or equally recent and earlier. */
  predicate Precedes(sessions: seq<Session>, a: nat, b: nat)
    requires a < |sessions| && b < |sessions|
  {
    || Recency(sessions[b]) < Recency(sessions[a])
    || (Recency(sessions[b]) == Recency(sessions[a]) && a < b)
  }

  ghost predicate Ordered(sessions: seq<Session>, l: seq<nat>) {
    && (forall k :: 0 <= k < |l| ==> l[k] < |sessions|)
    && (forall j, k :: 0 <= j < k < |l| ==> Precedes(sessions, l[j], l[k]))
  }

  lemma OrderedAppends(sessions: seq<Session>, l: seq<nat>, x: nat)
    requires Ordered(sessions, l) && x < |sessions|
    requires forall k :: 0 <= k < |l| ==> Precedes(sessions, l[k], x)
    ensures Ordered(sessions, l + [x])
  {
  }

  lemma {:induction false} InsertKeepsOrder(sessions: seq<Session>, sorted: seq<nat>, i: nat)
    requires i < |sessions| && Ordered(sessions, sorted) && forall k :: 0 <= k < |sorted| ==> sorted[k] < i
    ensures Ordered(sessions, InsertByRecency(sessions, sorted, i))
  {
    if sorted != [] && Recency(sessions[sorted[|sorted| - 1]]) < Recency(sessions[i]) {
      var n := |sorted| - 1;
      var less, last := sorted[..n], sorted[n];
      assert forall k :: 0 <= k < n ==> less[k] == sorted[k];
      var front := InsertByRecency(sessions, less, i);
      InsertKeepsOrder(sessions, less, i);
      forall k | 0 <= k < |front| ensures Precedes(sessions, front[k], last) {
        if front[k] != i {
          var j :| 0 <= j < n && less[j] == front[k];
        }
      }
      hide Ordered;
      OrderedAppends(sessions, front, last);
    } else {
      forall k | 0 <= k < |sorted| ensures Precedes(sessions, sorted[k], i) {
        assert Precedes(sessions, sorted[k], sorted[|sorted| - 1]) || k == |sorted| - 1;
      }
      hide Ordered;
      OrderedAppends(sessions, sorted, i);
    }
  }

  /** The stable sort by falling recency. */
  lemma {:induction false} SortIsStableOrder(sessions: seq<Session>, indexes: seq<nat>)
    requires forall k :: 0 <= k < |indexes| ==> indexes[k] < |sessions|
    requires forall j, k :: 0 <= j < k < |indexes| ==> indexes[j] < indexes[k]
    ensures Ordered(sessions, SortByRecency(sessions, indexes))
  {
    if indexes != [] {
      var n := |indexes| - 1;
      var sorted := SortByRecency(sessions, indexes[..n]);
      SortIsStableOrder(sessions, indexes[..n]);
      forall k | 0 <= k < |sorted| ensures sorted[k] < indexes[n] {
        assert sorted[k] in multiset(sorted);
        assert sorted[k] in multiset(indexes[..n]);
      }
      InsertKeepsOrder(sessions, sorted, indexes[n]);
    }
  }

  /** `children` lists exactly the sessions with each parent, in display order. */
  ghost predicate ListsChildren(sessions: seq<Session>, children: map<Option<string>, seq<nat>>) {
    && (forall p :: p in children ==> Ordered(sessions, children[p]))
    && (forall p, i :: p in children && i in children[p] ==> sessions[i].parent == p)
    && (forall i :: 0 <= i < |sessions| ==> sessions[i].parent in children && i in children[sessions[i].parent])
  }

  // ---------- The walk, on values ----------

  /** What is drawn before the last child, before other children, and below them. */
  datatype Style = Style(corner: string, tee: string, bar: string)

  datatype Forest = Forest(
    sessions: seq<Session>, children: map<Option<string>, seq<nat>>, collapsed: set<string>, style: Style)
  {
    function ChildrenOf(p: Option<string>): seq<nat> {
      if p in children then children[p] else []
    }

    predicate InBounds() {
      forall p :: p in children ==> forall k :: 0 <= k < |children[p]| ==> children[p][k] < |sessions|
    }

    function Connector(prefix: string, isLast: bool): string {
      if prefix == "" then "" else if isLast then style.corner else style.tee
    }

    function ChildPrefix(prefix: string, isLast: bool): string {
      if prefix == "" then "" else if isLast then prefix + "   " else prefix + style.bar
    }
  }

  /** A walk so far: its rows, and the ids it has shown. */
  datatype Walk = Walk(rows: seq<Row>, visited: set<string>)

  /** The ids that are still to be shown. */
  function Unseen(f: Forest, visited: set<string>): set<string> {
    Ids(f.sessions) - visited
  }

  /** Shows session `idx` and what hangs below it, unless its id was shown before. Every id is shown
      once, so this ends even when parents form a circle. */
  function ShowTree(f: Forest, w: Walk, idx: nat, prefix: string, isLast: bool): (r: Walk)
    requires f.InBounds() && idx < |f.sessions|
    ensures w.rows <= r.rows && w.visited <= r.visited
    decreases Unseen(f, w.visited), 0
  {
    var id := f.sessions[idx].id;
    if id in w.visited then w else
    assert f.sessions[idx] in f.sessions;
    var shown := Walk(w.rows + [Row(idx, prefix, f.Connector(prefix, isLast))], w.visited + {id});
    if id in f.collapsed then shown
    else
      var below := f.ChildrenOf(Some(id));
      ShowFirst(f, shown, below, |below|, f.ChildPrefix(prefix, isLast))
  }

  /** Shows the first `n` of the listed sessions. */
  function ShowFirst(f: Forest, w: Walk, indexes: seq<nat>, n: nat, prefix: string): (r: Walk)
    requires f.InBounds() && n <= |indexes| && forall k :: 0 <= k < |indexes| ==> indexes[k] < |f.sessions|
    ensures w.rows <= r.rows && w.visited <= r.visited
    decreases Unseen(f, w.visited), n
  {
    if n == 0 then w
    else ShowTree(f, ShowFirst(f, w, indexes, n - 1, prefix), indexes[n - 1], prefix, n == |indexes|)
  }

  /** Shows those of the first `n` sessions that are still missing, as if they were roots. */
  function ShowLeft(f: Forest, w: Walk, n: nat, alwaysLast: bool): (r: Walk)
    requires f.InBounds() && n <= |f.sessions|
    ensures w.rows <= r.rows && w.visited <= r.visited
  {
    if n == 0 then w
    else ShowTree(f, ShowLeft(f, w, n - 1, alwaysLast), n - 1, "", alwaysLast || n == |f.sessions|)
  }

  /** What the roots reach. */
  function ShowRoots(f: Forest): Walk
    requires f.InBounds()
  {
    ShowFirst(f, Walk([], {}), f.ChildrenOf(None), |f.ChildrenOf(None)|, "")
  }

  function ShowAll(f: Forest, alwaysLast: bool): Walk
    requires f.InBounds()
  {
    ShowLeft(f, ShowRoots(f), |f.sessions|, alwaysLast)
  }

  // ---------- What a walk keeps ----------

  ghost predicate InRange(sessions: seq<Session>, rows: seq<Row>) {
    forall k :: 0 <= k < |rows| ==> rows[k].index < |sessions|
  }

  /** The rows show distinct ids, and `visited` is exactly the set of them. */
  ghost predicate Tracks(sessions: seq<Session>, rows: seq<Row>, visited: set<string>) {
    && InRange(sessions, rows)
    && (forall k :: 0 <= k < |rows| ==> sessions[rows[k].index].id in visited)
    && (forall id :: id in visited ==> exists k :: 0 <= k < |rows| && sessions[rows[k].index].id == id)
    && (forall j, k :: 0 <= j < k < |rows| ==> sessions[rows[j].index].id != sessions[rows[k].index].id)
  }

  ghost predicate Sane(f: Forest, w: Walk) {
    ListsChildren(f.sessions, f.children) && Tracks(f.sessions, w.rows, w.visited) && w.visited <= Ids(f.sessions)
  }

  /** From row `n` on, the children of every unfolded session have been visited. */
  ghost predicate Explored(f: Forest, w: Walk, n: nat)
    requires InRange(f.sessions, w.rows)
  {
    forall k, i :: n <= k < |w.rows| && 0 <= i < |f.sessions|
      && f.sessions[i].parent == Some(f.sessions[w.rows[k].index].id)
      && f.sessions[w.rows[k].index].id !in f.collapsed
      ==> f.sessions[i].id in w.visited
  }

  /** Row `k` shows a child of the session that row `j` shows, and row `j` is unfolded. */
  ghost predicate Hangs(f: Forest, rows: seq<Row>, j: nat, k: nat)
    requires j < |rows| && k < |rows| && rows[j].index < |f.sessions| && rows[k].index < |f.sessions|
  {
    && f.sessions[rows[k].index].parent == Some(f.sessions[rows[j].index].id)
    && f.sessions[rows[j].index].id !in f.collapsed
  }

  ghost predicate HangsFrom(f: Forest, rows: seq<Row>, from: nat, k: nat)
    requires InRange(f.sessions, rows) && k < |rows|
  {
    exists j :: from <= j < k && Hangs(f, rows, j, k)
  }

  /** From row `n` on, every row hangs from one at `from` or later, or, with `roots`, shows a root. */
  ghost predicate Attached(f: Forest, rows: seq<Row>, n: nat, from: nat, roots: bool)
    requires InRange(f.sessions, rows)
  {
    forall k :: n <= k < |rows| ==>
      (roots && f.sessions[rows[k].index].parent == None) || HangsFrom(f, rows, from, k)
  }

  ghost predicate ShownAbove(sessions: seq<Session>, rows: seq<Row>, k: nat, id: string)
    requires InRange(sessions, rows) && k <= |rows|
  {
    exists j :: 0 <= j < k && sessions[rows[j].index].id == id
  }

  /** Row `k` comes below every sibling that is listed before the session it shows. */
  ghost predicate SiblingsAbove(sessions: seq<Session>, rows: seq<Row>, k: nat)
    requires InRange(sessions, rows) && k < |rows|
  {
    forall i :: 0 <= i < |sessions| && sessions[i].parent == sessions[rows[k].index].parent
      && Precedes(sessions, i, rows[k].index)
      ==> ShownAbove(sessions, rows, k, sessions[i].id)
  }

  ghost predicate InOrder(sessions: seq<Session>, rows: seq<Row>, n: nat)
    requires InRange(sessions, rows)
  {
    forall k :: n <= k < |rows| ==> SiblingsAbove(sessions, rows, k)
  }

  /** The rows between row `j` and row `k`, and row `k`, all hang from row `j` or from one another. */
  ghost predicate Below(f: Forest, rows: seq<Row>, j: nat, k: nat)
    requires InRange(f.sessions, rows) && j <= k < |rows|
  {
    forall m :: j < m <= k ==> HangsFrom(f, rows, j, m)
  }

  /** From row `n` on, whatever lies between a row and one that hangs from it is below it, too. */
  ghost predicate Nested(f: Forest, rows: seq<Row>, n: nat)
    requires InRange(f.sessions, rows)
  {
    forall j, k :: n <= j < k < |rows| && Hangs(f, rows, j, k) ==> Below(f, rows, j, k)
  }

  /** What a walk adds from row `n` on is explored, in place, in order and nested. */
  ghost predicate Orderly(f: Forest, w: Walk, n: nat, from: nat, roots: bool)
    requires InRange(f.sessions, w.rows)
  {
    && Explored(f, w, n) && Attached(f, w.rows, n, from, roots) && InOrder(f.sessions, w.rows, n)
    && Nested(f, w.rows, n)
  }

  lemma SaneInBounds(f: Forest, w: Walk)
    requires Sane(f, w)
    ensures f.InBounds() && InRange(f.sessions, w.rows)
  {
  }

  lemma PushedIsSane(f: Forest, w: Walk, row: Row)
    requires Sane(f, w) && row.index < |f.sessions| && f.sessions[row.index].id !in w.visited
    ensures Sane(f, Walk(w.rows + [row], w.visited + {f.sessions[row.index].id}))
  {
    hide ListsChildren;
    var sessions, r, v := f.sessions, w.rows + [row], w.visited + {f.sessions[row.index].id};
    assert sessions[row.index] in sessions;
    forall id | id in v ensures exists k :: 0 <= k < |r| && sessions[r[k].index].id == id {
      if id in w.visited {
        var k :| 0 <= k < |w.rows| && sessions[w.rows[k].index].id == id;
        assert r[k] == w.rows[k];
      } else {
        assert r[|w.rows|] == row;
      }
    }
  }

  lemma ExploredJoins(f: Forest, w: Walk, r: Walk, n: nat)
    requires InRange(f.sessions, w.rows) && InRange(f.sessions, r.rows)
    requires w.rows <= r.rows && w.visited <= r.visited
    requires Explored(f, w, n) && Explored(f, r, |w.rows|)
    ensures Explored(f, r, n)
  {
    assert forall k :: 0 <= k < |w.rows| ==> r.rows[k] == w.rows[k];
  }

  lemma HangsLater(f: Forest, rows: seq<Row>, more: seq<Row>, from: nat, k: nat)
    requires InRange(f.sessions, rows) && InRange(f.sessions, more) && rows <= more && k < |rows|
    requires HangsFrom(f, rows, from, k)
    ensures HangsFrom(f, more, from, k)
  {
    var j :| from <= j < k && Hangs(f, rows, j, k);
    assert more[j] == rows[j] && more[k] == rows[k];
    assert Hangs(f, more, j, k);
  }

  lemma AttachedJoins(f: Forest, rows: seq<Row>, more: seq<Row>, n: nat, from: nat, roots: bool)
    requires InRange(f.sessions, rows) && InRange(f.sessions, more) && rows <= more && from <= |rows|
    requires Attached(f, rows, n, from, roots) && Attached(f, more, |rows| + 1, |rows|, false)
    requires |more| > |rows| ==>
               (roots && f.sessions[more[|rows|].index].parent == None) || HangsFrom(f, more, from, |rows|)
    ensures Attached(f, more, n, from, roots)
  {
    forall k | n <= k < |more|
      ensures (roots && f.sessions[more[k].index].parent == None) || HangsFrom(f, more, from, k)
    {
      if k < |rows| {
        assert more[k] == rows[k];
        if HangsFrom(f, rows, from, k) {
          HangsLater(f, rows, more, from, k);
        }
      } else if k > |rows| {
        assert HangsFrom(f, more, |rows|, k);
      }
    }
  }

  lemma SiblingsStayAbove(sessions: seq<Session>, rows: seq<Row>, more: seq<Row>, k: nat)
    requires InRange(sessions, rows) && InRange(sessions, more) && rows <= more && k < |rows|
    requires SiblingsAbove(sessions, rows, k)
    ensures SiblingsAbove(sessions, more, k)
  {
    assert more[k] == rows[k];
    forall i | 0 <= i < |sessions| && sessions[i].parent == sessions[more[k].index].parent
      && Precedes(sessions, i, more[k].index)
      ensures ShownAbove(sessions, more, k, sessions[i].id)
    {
      assert ShownAbove(sessions, rows, k, sessions[i].id);
      var j :| 0 <= j < k && sessions[rows[j].index].id == sessions[i].id;
      assert more[j] == rows[j];
    }
  }

  lemma OrderJoins(sessions: seq<Session>, rows: seq<Row>, more: seq<Row>, n: nat)
    requires InRange(sessions, rows) && InRange(sessions, more) && rows <= more
    requires InOrder(sessions, rows, n) && InOrder(sessions, more, |rows| + 1)
    requires |more| > |rows| ==> SiblingsAbove(sessions, more, |rows|)
    ensures InOrder(sessions, more, n)
  {
    forall k | n <= k < |more| ensures SiblingsAbove(sessions, more, k) {
      if k < |rows| {
        SiblingsStayAbove(sessions, rows, more, k);
      }
    }
  }

  lemma StaysBelow(f: Forest, rows: seq<Row>, more: seq<Row>, j: nat, k: nat)
    requires InRange(f.sessions, rows) && InRange(f.sessions, more) && rows <= more && j <= k < |rows|
    requires Below(f, rows, j, k)
    ensures Below(f, more, j, k)
  {
    forall m | j < m <= k ensures HangsFrom(f, more, j, m) {
      assert HangsFrom(f, rows, j, m);
      HangsLater(f, rows, more, j, m);
    }
  }

  /** A row hangs from one row at most. */
  lemma OneParent(f: Forest, w: Walk, i: nat, j: nat, k: nat)
    requires Tracks(f.sessions, w.rows, w.visited) && i < |w.rows| && j < |w.rows| && k < |w.rows|
    requires Hangs(f, w.rows, i, k) && Hangs(f, w.rows, j, k)
    ensures i == j
  {
  }

  lemma HungBefore(f: Forest, rows: seq<Row>, more: seq<Row>, j: nat, k: nat)
    requires InRange(f.sessions, rows) && InRange(f.sessions, more) && rows <= more && j < k < |rows|
    requires Hangs(f, more, j, k)
    ensures Hangs(f, rows, j, k)
  {
    assert more[j] == rows[j] && more[k] == rows[k];
  }

  /** What hangs from the first new row, or from a later one, has only new rows above it up to there. */
  lemma NewIsNested(f: Forest, r: Walk, n: nat, j: nat, k: nat)
    requires Tracks(f.sessions, r.rows, r.visited) && n < k < |r.rows| && j <= n
    requires Hangs(f, r.rows, j, k) && Attached(f, r.rows, n + 1, n, false)
    ensures Below(f, r.rows, j, k)
  {
    assert HangsFrom(f, r.rows, n, k);
    var i :| n <= i < k && Hangs(f, r.rows, i, k);
    OneParent(f, r, i, j, k);
    hide Hangs, Tracks;
    assert forall m :: n < m <= k ==> HangsFrom(f, r.rows, n, m);
  }

  lemma NestedJoins(f: Forest, rows: seq<Row>, r: Walk, n: nat, from: nat)
    requires InRange(f.sessions, rows) && Tracks(f.sessions, r.rows, r.visited) && rows <= r.rows
    requires Nested(f, rows, n) && Nested(f, r.rows, |rows| + 1) && Attached(f, r.rows, |rows| + 1, |rows|, false)
    requires |r.rows| > |rows| ==>
               || f.sessions[r.rows[|rows|].index].parent == None
               || (from < n && from < |rows| && Hangs(f, r.rows, from, |rows|))
    ensures Nested(f, r.rows, n)
  {
    assert forall j, k :: 0 <= j < k < |r.rows| && Hangs(f, r.rows, j, k) ==>
        f.sessions[r.rows[k].index].parent.Some?;
    assert InRange(f.sessions, r.rows);
    hide Hangs, HangsFrom, Tracks, Below, Attached, InRange;
    forall j, k | n <= j < k < |r.rows| && Hangs(f, r.rows, j, k) ensures Below(f, r.rows, j, k) {
      if k < |rows| {
        HungBefore(f, rows, r.rows, j, k);
        StaysBelow(f, rows, r.rows, j, k);
      } else if k == |rows| {
        OneParent(f, r, from, j, k);
      } else if j <= |rows| {
        NewIsNested(f, r, |rows|, j, k);
      }
    }
  }

  /** A walk that goes on in order stays in order. */
  lemma OrderlyJoins(f: Forest, w: Walk, r: Walk, n: nat, from: nat, roots: bool)
    requires InRange(f.sessions, w.rows) && InRange(f.sessions, r.rows) && Tracks(f.sessions, r.rows, r.visited)
    requires w.rows <= r.rows && w.visited <= r.visited && from <= |w.rows|
    requires Orderly(f, w, n, from, roots)
    requires Explored(f, r, |w.rows|) && Orderly(f, r, |w.rows| + 1, |w.rows|, false)
    requires |r.rows| > |w.rows| ==>
               && SiblingsAbove(f.sessions, r.rows, |w.rows|)
               && ((roots && f.sessions[r.rows[|w.rows|].index].parent == None)
                   || (from < n && from < |w.rows| && Hangs(f, r.rows, from, |w.rows|)))
    ensures Orderly(f, r, n, from, roots)
  {
    assert |r.rows| > |w.rows| && from < |w.rows| && Hangs(f, r.rows, from, |w.rows|) ==>
        HangsFrom(f, r.rows, from, |w.rows|);
    hide Explored, Attached, InOrder, SiblingsAbove, HangsFrom, Tracks, Nested;
    NestedJoins(f, w.rows, r, n, from);
    ExploredJoins(f, w, r, n);
    AttachedJoins(f, w.rows, r.rows, n, from, roots);
    OrderJoins(f.sessions, w.rows, r.rows, n);
  }

  /** With all children of row `n` visited, a walk is explored from that row on. */
  lemma ParentExplored(f: Forest, w: Walk, n: nat)
    requires InRange(f.sessions, w.rows) && n < |w.rows| && Explored(f, w, n + 1)
    requires f.sessions[w.rows[n].index].id !in f.collapsed ==>
               forall i :: 0 <= i < |f.sessions| && f.sessions[i].parent == Some(f.sessions[w.rows[n].index].id)
                 ==> f.sessions[i].id in w.visited
    ensures Explored(f, w, n)
  {
  }

  lemma NothingAdded(f: Forest, w: Walk, n: nat, from: nat, roots: bool)
    requires InRange(f.sessions, w.rows) && n >= |w.rows|
    ensures Orderly(f, w, n, from, roots)
  {
  }

  lemma ChildrenInRange(f: Forest, p: Option<string>)
    requires ListsChildren(f.sessions, f.children) && p in f.children
    ensures forall k :: 0 <= k < |f.children[p]| ==>
              f.children[p][k] < |f.sessions| && f.sessions[f.children[p][k]].parent == p
  {
    assert forall k :: 0 <= k < |f.children[p]| ==> f.children[p][k] in f.children[p];
  }

  /** The first `n` listed children of `p` have been visited. */
  ghost predicate FirstVisited(f: Forest, p: Option<string>, n: nat, visited: set<string>) {
    p in f.children && n <= |f.children[p]|
    && forall q :: 0 <= q < n ==> f.children[p][q] < |f.sessions| && f.sessions[f.children[p][q]].id in visited
  }

  lemma AllChildrenVisited(f: Forest, p: Option<string>, visited: set<string>)
    requires ListsChildren(f.sessions, f.children)
    requires p in f.children ==> FirstVisited(f, p, |f.children[p]|, visited)
    ensures forall i :: 0 <= i < |f.sessions| && f.sessions[i].parent == p ==> f.sessions[i].id in visited
  {
    forall i | 0 <= i < |f.sessions| && f.sessions[i].parent == p ensures f.sessions[i].id in visited {
      assert i in f.children[p];
    }
  }

  lemma PrecedingIsEarlier(sessions: seq<Session>, l: seq<nat>, q: nat, n: nat)
    requires Ordered(sessions, l) && q < |l| && n < |l| && Precedes(sessions, l[q], l[n])
    ensures q < n
  {
  }

  lemma VisitedIsAbove(f: Forest, w: Walk, more: seq<Row>, id: string)
    requires Tracks(f.sessions, w.rows, w.visited) && id in w.visited
    requires w.rows <= more && InRange(f.sessions, more)
    ensures ShownAbove(f.sessions, more, |w.rows|, id)
  {
    var k :| 0 <= k < |w.rows| && f.sessions[w.rows[k].index].id == id;
    assert more[k] == w.rows[k];
  }

  /** The next of the listed children comes below all that precede it. */
  lemma NextSiblingInOrder(f: Forest, w: Walk, p: Option<string>, n: nat, more: seq<Row>)
    requires Sane(f, w) && FirstVisited(f, p, n, w.visited) && n < |f.children[p]|
    requires w.rows <= more && InRange(f.sessions, more) && |more| > |w.rows|
    requires more[|w.rows|].index == f.children[p][n]
    ensures SiblingsAbove(f.sessions, more, |w.rows|)
  {
    ChildrenInRange(f, p);
    var sessions, l := f.sessions, f.children[p];
    hide Tracks, ShownAbove;
    forall i | 0 <= i < |sessions| && sessions[i].parent == p && Precedes(sessions, i, l[n])
      ensures ShownAbove(sessions, more, |w.rows|, sessions[i].id)
    {
      assert i in l;
      var q :| 0 <= q < |l| && l[q] == i;
      PrecedingIsEarlier(sessions, l, q, n);
      VisitedIsAbove(f, w, more, sessions[i].id);
    }
  }

  /** What is known after the first `n` children of `p` are shown. The children of a session hang
      from its row, the last one of `w`. */
  ghost predicate Listed(f: Forest, w: Walk, r: Walk, p: Option<string>, n: nat) {
    && Sane(f, r) && InRange(f.sessions, r.rows)
    && FirstVisited(f, p, n, r.visited)
    && (p.Some? ==> |w.rows| > 0)
    && Orderly(f, r, |w.rows|, if p.Some? then |w.rows| - 1 else 0, p.None?)
  }

  ghost predicate Unfolded(f: Forest, w: Walk, p: Option<string>) {
    p.Some? ==>
      && |w.rows| > 0 && w.rows[|w.rows| - 1].index < |f.sessions|
      && f.sessions[w.rows[|w.rows| - 1].index].id == p.value && p.value !in f.collapsed
  }

  lemma {:induction false} ShowTreeKeeps(f: Forest, w: Walk, idx: nat, prefix: string, isLast: bool)
    requires Sane(f, w) && idx < |f.sessions|
    ensures f.InBounds()
    ensures var r := ShowTree(f, w, idx, prefix, isLast);
            && Sane(f, r) && InRange(f.sessions, r.rows)
            && f.sessions[idx].id in r.visited
            && (f.sessions[idx].id in w.visited ==> r == w)
            && (f.sessions[idx].id !in w.visited ==> |r.rows| > |w.rows| && r.rows[|w.rows|].index == idx)
            && Explored(f, r, |w.rows|) && Orderly(f, r, |w.rows| + 1, |w.rows|, false)
    decreases Unseen(f, w.visited), 0
  {
    SaneInBounds(f, w);
    var n, id := |w.rows|, f.sessions[idx].id;
    if id in w.visited {
      NothingAdded(f, w, n, n, false);
      NothingAdded(f, w, n + 1, n, false);
    } else {
      assert f.sessions[idx] in f.sessions;
      var row := Row(idx, prefix, f.Connector(prefix, isLast));
      var shown := Walk(w.rows + [row], w.visited + {id});
      PushedIsSane(f, w, row);
      SaneInBounds(f, shown);
      hide Sane, Orderly, Explored, InRange, Forest.InBounds;
      if id in f.collapsed {
        NothingAdded(f, shown, n + 1, n, false);
        ExploredOf(f, shown, n + 1, n, false);
        ParentExplored(f, shown, n);
      } else {
        ShowBelowKeeps(f, shown, idx, f.ChildPrefix(prefix, isLast));
      }
    }
  }

  /** The children of the row just shown. */
  lemma {:induction false} ShowBelowKeeps(f: Forest, shown: Walk, idx: nat, prefix: string)
    requires Sane(f, shown) && f.InBounds() && InRange(f.sessions, shown.rows) && idx < |f.sessions|
    requires |shown.rows| > 0 && shown.rows[|shown.rows| - 1].index == idx && f.sessions[idx].id !in f.collapsed
    ensures var below := f.ChildrenOf(Some(f.sessions[idx].id));
            var r := ShowFirst(f, shown, below, |below|, prefix);
            && Sane(f, r) && InRange(f.sessions, r.rows)
            && Explored(f, r, |shown.rows| - 1) && Orderly(f, r, |shown.rows|, |shown.rows| - 1, false)
    decreases Unseen(f, shown.visited), |f.ChildrenOf(Some(f.sessions[idx].id))| + 1
  {
    var p := Some(f.sessions[idx].id);
    var r := ShowFirst(f, shown, f.ChildrenOf(p), |f.ChildrenOf(p)|, prefix);
    hide Unseen, Sane, Orderly, Explored, InRange;
    if p in f.children {
      var _ := ShowFirstKeeps(f, shown, p, |f.children[p]|, prefix);
      BelowExplored(f, shown, r, p);
    } else {
      assert r == shown;
      LeafExplored(f, shown, p);
    }
  }

  lemma LeafExplored(f: Forest, w: Walk, p: Option<string>)
    requires Sane(f, w) && p.Some? && p !in f.children && Unfolded(f, w, p)
    requires InRange(f.sessions, w.rows)
    ensures Explored(f, w, |w.rows| - 1) && Orderly(f, w, |w.rows|, |w.rows| - 1, false)
  {
    hide Sane, Orderly, Explored, InRange, ListsChildren, FirstVisited;
    SaneLists(f, w);
    NothingAdded(f, w, |w.rows|, |w.rows| - 1, false);
    ExploredOf(f, w, |w.rows|, |w.rows| - 1, false);
    AllChildrenVisited(f, p, w.visited);
    ParentExplored(f, w, |w.rows| - 1);
  }

  lemma BelowExplored(f: Forest, shown: Walk, r: Walk, p: Option<string>)
    requires p.Some? && p in f.children && Listed(f, shown, r, p, |f.children[p]|) && Unfolded(f, shown, p)
    requires shown.rows <= r.rows
    ensures Sane(f, r) && Explored(f, r, |shown.rows| - 1)
    ensures Orderly(f, r, |shown.rows|, |shown.rows| - 1, false)
  {
    hide Sane, Orderly, Explored, FirstVisited;
    SaneInBounds(f, r);
    SaneLists(f, r);
    AllChildrenVisited(f, p, r.visited);
    ExploredOf(f, r, |shown.rows|, |shown.rows| - 1, false);
    ParentExplored(f, r, |shown.rows| - 1);
  }

  lemma SaneLists(f: Forest, w: Walk)
    requires Sane(f, w)
    ensures ListsChildren(f.sessions, f.children)
  {
  }

  lemma SaneTracks(f: Forest, w: Walk)
    requires Sane(f, w)
    ensures Tracks(f.sessions, w.rows, w.visited)
  {
  }

  lemma ExploredOf(f: Forest, w: Walk, n: nat, from: nat, roots: bool)
    requires InRange(f.sessions, w.rows) && Orderly(f, w, n, from, roots)
    ensures Explored(f, w, n)
  {
  }

  lemma {:induction false} ShowFirstKeeps(f: Forest, w: Walk, p: Option<string>, n: nat, prefix: string)
    returns (r: Walk)
    requires Sane(f, w) && f.InBounds() && p in f.children && n <= |f.children[p]| && Unfolded(f, w, p)
    requires p.None? ==> w.rows == []
    ensures r == ShowFirst(f, w, f.children[p], n, prefix) && Listed(f, w, r, p, n)
    decreases Unseen(f, w.visited), n, 1
  {
    hide Unseen, Listed, Unfolded, Sane;
    if n == 0 {
      r := w;
      NothingListed(f, w, p);
    } else {
      var was := ShowFirstKeeps(f, w, p, n - 1, prefix);
      r := ShowTree(f, was, f.children[p][n - 1], prefix, n == |f.children[p]|);
      ShowNextKeeps(f, w, was, p, n, prefix);
    }
  }

  lemma NothingListed(f: Forest, w: Walk, p: Option<string>)
    requires Sane(f, w) && p in f.children && Unfolded(f, w, p)
    ensures Listed(f, w, w, p, 0)
  {
    SaneInBounds(f, w);
    NothingAdded(f, w, |w.rows|, if p.Some? then |w.rows| - 1 else 0, p.None?);
  }

  lemma {:induction false} ShowNextKeeps(f: Forest, w: Walk, was: Walk, p: Option<string>, n: nat, prefix: string)
    requires Sane(f, w) && f.InBounds() && p in f.children && 0 < n <= |f.children[p]| && Unfolded(f, w, p)
    requires Listed(f, w, was, p, n - 1) && w.rows <= was.rows && w.visited <= was.visited
    ensures Listed(f, w, ShowTree(f, was, f.children[p][n - 1], prefix, n == |f.children[p]|), p, n)
    decreases Unseen(f, w.visited), n, 0
  {
    var idx, isLast := f.children[p][n - 1], n == |f.children[p]|;
    ListedIsSane(f, w, was, p, n - 1);
    assert Unseen(f, was.visited) <= Unseen(f, w.visited);
    hide Listed, Unfolded, Ids, Unseen;
    ShowTreeKeeps(f, was, idx, prefix, isLast);
    hide Sane, Orderly, Explored, InRange, ShowTree;
    NextIsListed(f, w, was, ShowTree(f, was, idx, prefix, isLast), p, n);
  }

  lemma ListedIsSane(f: Forest, w: Walk, r: Walk, p: Option<string>, n: nat)
    requires Listed(f, w, r, p, n)
    ensures Sane(f, r)
  {
    hide Sane, Orderly, Explored, InRange;
  }

  lemma NextIsListed(f: Forest, w: Walk, was: Walk, r: Walk, p: Option<string>, n: nat)
    requires Sane(f, w) && Unfolded(f, w, p) && n > 0 && w.rows <= was.rows
    requires p in f.children && n <= |f.children[p]| && f.children[p][n - 1] < |f.sessions|
    requires Listed(f, w, was, p, n - 1)
    requires Sane(f, r) && InRange(f.sessions, r.rows) && was.rows <= r.rows && was.visited <= r.visited
    requires Explored(f, r, |was.rows|) && Orderly(f, r, |was.rows| + 1, |was.rows|, false)
    requires var id := f.sessions[f.children[p][n - 1]].id;
             && id in r.visited && (id in was.visited ==> r == was)
             && (id !in was.visited ==> |r.rows| > |was.rows| && r.rows[|was.rows|].index == f.children[p][n - 1])
    ensures Listed(f, w, r, p, n)
  {
    var from := if p.Some? then |w.rows| - 1 else 0;
    hide Sane, Orderly, Explored, SiblingsAbove, InRange, Tracks;
    SaneLists(f, was);
    SaneTracks(f, r);
    ChildrenInRange(f, p);
    hide ListsChildren;
    if |r.rows| > |was.rows| {
      NextSiblingInOrder(f, was, p, n - 1, r.rows);
      if p.Some? {
        assert r.rows[from] == w.rows[from];
        assert Hangs(f, r.rows, from, |was.rows|);
      }
    }
    OrderlyJoins(f, was, r, |w.rows|, from, p.None?);
  }

  // ---------- The whole forest ----------

  /** `n` parent links lead from session `i` to a root, through listed and unfolded sessions. */
  ghost predicate Rooted(f: Forest, i: nat, n: nat)
    requires i < |f.sessions|
    decreases n
  {
    match f.sessions[i].parent
    case None => n == 0
    case Some(p) =>
      && n > 0 && p !in f.collapsed
      && exists j :: 0 <= j < |f.sessions| && f.sessions[j].id == p && Rooted(f, j, n - 1)
  }

  ghost predicate RootedReached(f: Forest, reached: set<string>) {
    forall i, n: nat :: 0 <= i < |f.sessions| && Rooted(f, i, n) ==> f.sessions[i].id in reached
  }

  /** A child of a visited, unfolded session is visited. */
  lemma ChildIsVisited(f: Forest, w: Walk, i: nat)
    requires Tracks(f.sessions, w.rows, w.visited) && Explored(f, w, 0)
    requires i < |f.sessions| && f.sessions[i].parent.Some?
    requires f.sessions[i].parent.value in w.visited && f.sessions[i].parent.value !in f.collapsed
    ensures f.sessions[i].id in w.visited
  {
    var k :| 0 <= k < |w.rows| && f.sessions[w.rows[k].index].id == f.sessions[i].parent.value;
  }

  lemma {:induction false} ReachesRooted(f: Forest, w: Walk, i: nat, n: nat)
    requires Sane(f, w) && Explored(f, w, 0)
    requires forall r :: 0 <= r < |f.sessions| && f.sessions[r].parent == None ==> f.sessions[r].id in w.visited
    requires i < |f.sessions| && Rooted(f, i, n)
    ensures f.sessions[i].id in w.visited
    decreases n
  {
    if f.sessions[i].parent.Some? {
      var p := f.sessions[i].parent.value;
      var j :| 0 <= j < |f.sessions| && f.sessions[j].id == p && Rooted(f, j, n - 1);
      hide Tracks, Explored, ListsChildren;
      ReachesRooted(f, w, j, n - 1);
      ChildIsVisited(f, w, i);
    }
  }

  /** The roots reach every rooted session, in order. */
  lemma RootsReachRooted(f: Forest)
    requires ListsChildren(f.sessions, f.children)
    ensures f.InBounds()
    ensures var w := ShowRoots(f);
            && Sane(f, w) && InRange(f.sessions, w.rows)
            && Orderly(f, w, 0, 0, true) && RootedReached(f, w.visited)
  {
    assert Sane(f, Walk([], {}));
    SaneInBounds(f, Walk([], {}));
    var w := ShowRoots(f);
    if None in f.children {
      var _ := ShowFirstKeeps(f, Walk([], {}), None, |f.children[None]|, "");
    } else {
      NothingAdded(f, w, 0, 0, true);
    }
    AllChildrenVisited(f, None, w.visited);
    forall i, n: nat | 0 <= i < |f.sessions| && Rooted(f, i, n) ensures f.sessions[i].id in w.visited {
      ReachesRooted(f, w, i, n);
    }
  }

  lemma {:induction false} LeftAreShown(f: Forest, w: Walk, n: nat, alwaysLast: bool)
    requires Sane(f, w) && f.InBounds() && n <= |f.sessions|
    ensures var r := ShowLeft(f, w, n, alwaysLast);
            Sane(f, r) && forall i :: 0 <= i < n ==> f.sessions[i].id in r.visited
  {
    hide Sane, ShowTree, Explored, Orderly, InRange;
    if n > 0 {
      LeftAreShown(f, w, n - 1, alwaysLast);
      ShowTreeKeeps(f, ShowLeft(f, w, n - 1, alwaysLast), n - 1, "", alwaysLast || n == |f.sessions|);
    }
  }

  ghost predicate HasRow(sessions: seq<Session>, rows: seq<Row>, id: string)
    requires InRange(sessions, rows)
  {
    exists k :: 0 <= k < |rows| && sessions[rows[k].index].id == id
  }

  /** Every session id is shown, and shown once. */
  ghost predicate EachOnce(sessions: seq<Session>, rows: seq<Row>) {
    && InRange(sessions, rows)
    && (forall i :: 0 <= i < |sessions| ==> HasRow(sessions, rows, sessions[i].id))
    && (forall j, k :: 0 <= j < k < |rows| ==> sessions[rows[j].index].id != sessions[rows[k].index].id)
  }

  /** Whoever is reached from a root through unfolded sessions is shown below its parent and below
      the siblings that precede it. */
  ghost predicate RootedInPlace(f: Forest, rows: seq<Row>) {
    && InRange(f.sessions, rows)
    && forall k, n: nat :: 0 <= k < |rows| && Rooted(f, rows[k].index, n) ==>
         && SiblingsAbove(f.sessions, rows, k)
         && (n > 0 ==> HangsFrom(f, rows, 0, k))
  }

  lemma SeededInPlace(f: Forest, w: Walk, r: Walk)
    requires Sane(f, w) && Sane(f, r) && InRange(f.sessions, w.rows) && w.rows <= r.rows
    requires Orderly(f, w, 0, 0, true) && RootedReached(f, w.visited)
    ensures RootedInPlace(f, r.rows)
  {
    hide ListsChildren;
    forall k, n: nat | 0 <= k < |r.rows| && Rooted(f, r.rows[k].index, n)
      ensures SiblingsAbove(f.sessions, r.rows, k) && (n > 0 ==> HangsFrom(f, r.rows, 0, k))
    {
      var id := f.sessions[r.rows[k].index].id;
      assert id in w.visited;
      var m :| 0 <= m < |w.rows| && f.sessions[w.rows[m].index].id == id;
      assert w.rows[m] == r.rows[m];
      assert m == k;
      SiblingsStayAbove(f.sessions, w.rows, r.rows, k);
      if n > 0 {
        HangsLater(f, w.rows, r.rows, 0, k);
      }
    }
  }

  /** The walk shows every id once, whatever the parents are, and rooted sessions in their place. */
  lemma ForestIsShown(f: Forest, alwaysLast: bool)
    requires ListsChildren(f.sessions, f.children)
    ensures f.InBounds()
    ensures EachOnce(f.sessions, ShowAll(f, alwaysLast).rows)
    ensures RootedInPlace(f, ShowAll(f, alwaysLast).rows)
  {
    RootsReachRooted(f);
    var w, r := ShowRoots(f), ShowAll(f, alwaysLast);
    LeftAreShown(f, w, |f.sessions|, alwaysLast);
    hide ListsChildren, ShowFirst, ShowLeft;
    SeededInPlace(f, w, r);
    forall i | 0 <= i < |f.sessions| ensures HasRow(f.sessions, r.rows, f.sessions[i].id) {
      assert f.sessions[i].id in r.visited;
    }
  }

  // ---------- Sessions that no root reaches ----------

  /** Row `k` hangs from another row at `base` or later, or every session that is listed before the one it
      shows has its id shown above it. */
  ghost predicate LeftInPlace(f: Forest, rows: seq<Row>, base: nat, k: nat)
    requires InRange(f.sessions, rows) && k < |rows|
  {
    || HangsFrom(f, rows, base, k)
    || forall i :: 0 <= i < rows[k].index ==> ShownAbove(f.sessions, rows, k, f.sessions[i].id)
  }

  lemma StaysLeftInPlace(f: Forest, rows: seq<Row>, more: seq<Row>, base: nat, k: nat)
    requires InRange(f.sessions, rows) && InRange(f.sessions, more) && rows <= more && k < |rows|
    requires LeftInPlace(f, rows, base, k)
    ensures LeftInPlace(f, more, base, k)
  {
    assert more[k] == rows[k];
    if HangsFrom(f, rows, base, k) {
      HangsLater(f, rows, more, base, k);
    } else {
      forall i | 0 <= i < more[k].index ensures ShownAbove(f.sessions, more, k, f.sessions[i].id) {
        assert ShownAbove(f.sessions, rows, k, f.sessions[i].id);
        var j :| 0 <= j < k && f.sessions[rows[j].index].id == f.sessions[i].id;
        assert more[j] == rows[j];
      }
    }
  }

  lemma {:induction false} LeftAreInPlace(f: Forest, w: Walk, n: nat, alwaysLast: bool)
    requires Sane(f, w) && f.InBounds() && n <= |f.sessions|
    ensures var r := ShowLeft(f, w, n, alwaysLast);
            && InRange(f.sessions, r.rows)
            && forall k :: |w.rows| <= k < |r.rows| ==> LeftInPlace(f, r.rows, |w.rows|, k)
  {
    hide Sane, ShowTree, Explored, Orderly, InRange, LeftInPlace;
    SaneInBounds(f, w);
    if n > 0 {
      var was := ShowLeft(f, w, n - 1, alwaysLast);
      LeftAreInPlace(f, w, n - 1, alwaysLast);
      LeftAreShown(f, w, n - 1, alwaysLast);
      ShowTreeKeeps(f, was, n - 1, "", alwaysLast || n == |f.sessions|);
      NextIsInPlace(f, was, ShowTree(f, was, n - 1, "", alwaysLast || n == |f.sessions|), |w.rows|, n - 1);
    }
  }

  lemma NextIsInPlace(f: Forest, was: Walk, r: Walk, base: nat, idx: nat)
    requires Sane(f, was) && Sane(f, r) && InRange(f.sessions, was.rows) && InRange(f.sessions, r.rows)
    requires idx < |f.sessions| && was.rows <= r.rows && base <= |was.rows|
    requires forall i :: 0 <= i < idx ==> f.sessions[i].id in was.visited
    requires f.sessions[idx].id in was.visited ==> r == was
    requires f.sessions[idx].id !in was.visited ==> |r.rows| > |was.rows| && r.rows[|was.rows|].index == idx
    requires Orderly(f, r, |was.rows| + 1, |was.rows|, false)
    requires forall k :: base <= k < |was.rows| ==> LeftInPlace(f, was.rows, base, k)
    ensures forall k :: base <= k < |r.rows| ==> LeftInPlace(f, r.rows, base, k)
  {
    hide ListsChildren, Tracks, Explored, InOrder, LeftInPlace;
    forall k | base <= k < |r.rows| ensures LeftInPlace(f, r.rows, base, k) {
      if k < |was.rows| {
        StaysLeftInPlace(f, was.rows, r.rows, base, k);
      } else if k == |was.rows| {
        StartsInPlace(f, was, r, base, idx);
      } else {
        assert HangsFrom(f, r.rows, |was.rows|, k);
        HangsSooner(f, r.rows, base, |was.rows|, k);
      }
    }
  }

  lemma StartsInPlace(f: Forest, was: Walk, r: Walk, base: nat, idx: nat)
    requires Tracks(f.sessions, was.rows, was.visited) && InRange(f.sessions, r.rows)
    requires was.rows <= r.rows && |r.rows| > |was.rows| && r.rows[|was.rows|].index == idx
    requires forall i :: 0 <= i < idx ==> f.sessions[i].id in was.visited
    ensures LeftInPlace(f, r.rows, base, |was.rows|)
  {
    hide Tracks, HangsFrom, ShownAbove;
    forall i | 0 <= i < idx ensures ShownAbove(f.sessions, r.rows, |was.rows|, f.sessions[i].id) {
      VisitedIsAbove(f, was, r.rows, f.sessions[i].id);
    }
  }

  lemma HangsSooner(f: Forest, rows: seq<Row>, base: nat, from: nat, k: nat)
    requires InRange(f.sessions, rows) && k < |rows| && base <= from && HangsFrom(f, rows, from, k)
    ensures LeftInPlace(f, rows, base, k)
  {
    var j :| from <= j < k && Hangs(f, rows, j, k);
    assert HangsFrom(f, rows, base, k);
  }

  /** Every row that the roots lead to shows a rooted session. */
  lemma {:induction false} ReachedIsRooted(f: Forest, rows: seq<Row>, k: nat) returns (n: nat)
    requires InRange(f.sessions, rows) && k < |rows| && Attached(f, rows, 0, 0, true)
    ensures Rooted(f, rows[k].index, n)
    decreases k
  {
    if f.sessions[rows[k].index].parent == None {
      n := 0;
    } else {
      assert HangsFrom(f, rows, 0, k);
      var j :| 0 <= j < k && Hangs(f, rows, j, k);
      var m := ReachedIsRooted(f, rows, j);
      n := m + 1;
    }
  }

  lemma ReachedIsEarly(sessions: seq<Session>, w: Walk, r: Walk, k: nat)
    requires Tracks(sessions, w.rows, w.visited) && Tracks(sessions, r.rows, r.visited)
    requires w.rows <= r.rows && k < |r.rows| && sessions[r.rows[k].index].id in w.visited
    ensures k < |w.rows|
  {
    var j :| 0 <= j < |w.rows| && sessions[w.rows[j].index].id == sessions[r.rows[k].index].id;
    assert r.rows[j] == w.rows[j];
  }

  /** Some number of parent links leads from session `i` to a root. */
  ghost predicate HasRoot(f: Forest, i: nat)
    requires i < |f.sessions|
  {
    exists n: nat :: Rooted(f, i, n)
  }

  /** The first `base` rows are those of rooted sessions. */
  ghost predicate RootedFirst(f: Forest, rows: seq<Row>, base: nat) {
    && InRange(f.sessions, rows) && base <= |rows|
    && forall k :: 0 <= k < |rows| ==> (HasRoot(f, rows[k].index) <==> k < base)
  }

  lemma RootsComeFirst(f: Forest, w: Walk, r: Walk)
    requires Sane(f, w) && Sane(f, r) && w.rows <= r.rows && InRange(f.sessions, w.rows)
    requires Attached(f, w.rows, 0, 0, true) && RootedReached(f, w.visited)
    ensures RootedFirst(f, r.rows, |w.rows|)
  {
    hide ListsChildren, Attached;
    var rows := r.rows;
    assert InRange(f.sessions, rows);
    forall k | 0 <= k < |rows| ensures HasRoot(f, rows[k].index) <==> k < |w.rows| {
      if k < |w.rows| {
        var n := ReachedIsRooted(f, w.rows, k);
        assert rows[k] == w.rows[k];
        assert Rooted(f, rows[k].index, n);
      }
      if HasRoot(f, rows[k].index) {
        var n: nat :| Rooted(f, rows[k].index, n);
        ReachedIsEarly(f.sessions, w, r, k);
      }
    }
  }

  /** The rooted sessions come first, and then all others: each of those hangs from another of them, or is the
      first in the list whose id was not shown yet. */
  lemma TheRestFollows(f: Forest, alwaysLast: bool) returns (base: nat)
    requires ListsChildren(f.sessions, f.children)
    ensures f.InBounds()
    ensures var rows := ShowAll(f, alwaysLast).rows;
            && RootedFirst(f, rows, base)
            && forall k :: base <= k < |rows| ==> LeftInPlace(f, rows, base, k)
  {
    RootsReachRooted(f);
    var w := ShowRoots(f);
    base := |w.rows|;
    LeftAreShown(f, w, |f.sessions|, alwaysLast);
    LeftAreInPlace(f, w, |f.sessions|, alwaysLast);
    hide ListsChildren, ShowRoots, ShowLeft, LeftInPlace, Explored, InOrder, Attached, RootedReached, Sane, RootedFirst;
    RootsComeFirst(f, w, ShowAll(f, alwaysLast));
  }

  /** Depth first: all rows between a session and one of its rooted children are below it, too. */
  lemma SubtreesStayTogether(f: Forest, alwaysLast: bool, j: nat, k: nat)
    requires ListsChildren(f.sessions, f.children) && f.InBounds()
    requires j < k < |ShowAll(f, alwaysLast).rows| && InRange(f.sessions, ShowAll(f, alwaysLast).rows)
    requires HasRoot(f, ShowAll(f, alwaysLast).rows[k].index) && Hangs(f, ShowAll(f, alwaysLast).rows, j, k)
    ensures Below(f, ShowAll(f, alwaysLast).rows, j, k)
  {
    RootsReachRooted(f);
    var w, r := ShowRoots(f), ShowAll(f, alwaysLast);
    LeftAreShown(f, w, |f.sessions|, alwaysLast);
    hide ListsChildren, ShowRoots, ShowLeft, Explored, InOrder, Attached, Tracks, Below, Hangs;
    var n: nat :| Rooted(f, r.rows[k].index, n);
    ReachedIsEarly(f.sessions, w, r, k);
    HungBefore(f, w.rows, r.rows, j, k);
    StaysBelow(f, w.rows, r.rows, j, k);
  }

  // ---------- Nothing is ever drawn before a line ----------

  ghost predicate Flat(rows: seq<Row>) {
    forall k :: 0 <= k < |rows| ==> rows[k].prefix == "" && rows[k].connector == ""
  }

  lemma {:induction false} ShowTreeFlat(f: Forest, w: Walk, idx: nat, isLast: bool)
    requires f.InBounds() && idx < |f.sessions| && Flat(w.rows)
    ensures Flat(ShowTree(f, w, idx, "", isLast).rows)
    decreases Unseen(f, w.visited), 0
  {
    var id := f.sessions[idx].id;
    if id !in w.visited && id !in f.collapsed {
      assert f.sessions[idx] in f.sessions;
      var below := f.ChildrenOf(Some(id));
      ShowFirstFlat(f, Walk(w.rows + [Row(idx, "", "")], w.visited + {id}), below, |below|);
    }
  }

  lemma {:induction false} ShowFirstFlat(f: Forest, w: Walk, indexes: seq<nat>, n: nat)
    requires f.InBounds() && n <= |indexes| && forall k :: 0 <= k < |indexes| ==> indexes[k] < |f.sessions|
    requires Flat(w.rows)
    ensures Flat(ShowFirst(f, w, indexes, n, "").rows)
    decreases Unseen(f, w.visited), n
  {
    if n > 0 {
      ShowFirstFlat(f, w, indexes, n - 1);
      ShowTreeFlat(f, ShowFirst(f, w, indexes, n - 1, ""), indexes[n - 1], n == |indexes|);
    }
  }

  lemma {:induction false} ShowLeftFlat(f: Forest, w: Walk, n: nat, alwaysLast: bool)
    requires f.InBounds() && n <= |f.sessions| && Flat(w.rows)
    ensures Flat(ShowLeft(f, w, n, alwaysLast).rows)
  {
    if n > 0 {
      ShowLeftFlat(f, w, n - 1, alwaysLast);
      ShowTreeFlat(f, ShowLeft(f, w, n - 1, alwaysLast), n - 1, alwaysLast || n == |f.sessions|);
    }
  }

  /** The prefix of a root is empty, and a child of a row with an empty prefix gets an empty one, so
      no row of any tree is indented and no connector is ever drawn. */
  lemma NoRowIsIndented(f: Forest, alwaysLast: bool)
    requires f.InBounds()
    ensures Flat(ShowAll(f, alwaysLast).rows)
  {
    ShowFirstFlat(f, Walk([], {}), f.ChildrenOf(None), |f.ChildrenOf(None)|);
    ShowLeftFlat(f, ShowRoots(f), |f.sessions|, alwaysLast);
  }

  // ---------- Consequences ----------

  /** The rows are those of the walk over the sessions' children lists. */
  ghost predicate IsWalk(
    sessions: seq<Session>, collapsed: set<string>, style: Style, alwaysLast: bool, rows: seq<Row>)
  {
    exists children ::
      && ListsChildren(sessions, children)
      && Forest(sessions, children, collapsed, style).InBounds()
      && rows == ShowAll(Forest(sessions, children, collapsed, style), alwaysLast).rows
  }

  /** With distinct session ids, every session has exactly one row. */
  lemma EachSessionOnce(sessions: seq<Session>, rows: seq<Row>, i: nat)
    requires EachOnce(sessions, rows) && i < |sessions|
    requires forall a, b :: 0 <= a < b < |sessions| ==> sessions[a].id != sessions[b].id
    ensures exists k :: 0 <= k < |rows| && rows[k].index == i
              && forall m :: 0 <= m < |rows| && rows[m].index == i ==> m == k
  {
    assert HasRow(sessions, rows, sessions[i].id);
    var k :| 0 <= k < |rows| && sessions[rows[k].index].id == sessions[i].id;
    assert rows[k].index == i;
  }

  /** Every named parent is listed, and `depth` falls from child to parent, so that parents never
      form a circle. */
  ghost predicate ListedForest(sessions: seq<Session>, depth: map<string, nat>) {
    && (forall k :: 0 <= k < |sessions| ==> sessions[k].id in depth)
    && (forall k :: 0 <= k < |sessions| && sessions[k].parent.Some? ==>
          && sessions[k].parent.value in Ids(sessions) && sessions[k].parent.value in depth
          && depth[sessions[k].parent.value] < depth[sessions[k].id])
  }

  lemma {:induction false} ListedForestIsRooted(f: Forest, depth: map<string, nat>, i: nat)
    requires ListedForest(f.sessions, depth) && f.collapsed == {} && i < |f.sessions|
    ensures exists n: nat :: Rooted(f, i, n)
    decreases depth[f.sessions[i].id]
  {
    match f.sessions[i].parent
    case None => assert Rooted(f, i, 0);
    case Some(p) =>
      var s :| s in f.sessions && s.id == p;
      var j :| 0 <= j < |f.sessions| && f.sessions[j] == s;
      ListedForestIsRooted(f, depth, j);
      var n: nat :| Rooted(f, j, n);
      assert Rooted(f, i, n + 1);
  }

  /** Session `a` was active after `b`; where no activity is known, the start counts. */
  predicate ActiveAfter(a: Session, b: Session) {
    match (a.lastActive, b.lastActive)
    case (Some(x), Some(y)) => x > y
    case (Some(x), None) => x > b.startedAt
    case (None, Some(y)) => a.startedAt > y
    case (None, None) => a.startedAt > b.startedAt
  }

  /** Siblings are listed by their last activity, the latest first, and equals in list order. */
  lemma SiblingsByActivity(sessions: seq<Session>, rows: seq<Row>, k: nat, i: nat)
    requires InRange(sessions, rows) && k < |rows| && SiblingsAbove(sessions, rows, k)
    requires i < |sessions| && sessions[i].parent == sessions[rows[k].index].parent
    requires || ActiveAfter(sessions[i], sessions[rows[k].index])
             || (!ActiveAfter(sessions[rows[k].index], sessions[i]) && i < rows[k].index)
    ensures ShownAbove(sessions, rows, k, sessions[i].id)
  {
    assert Precedes(sessions, i, rows[k].index);
  }

  /** In a listed, unfolded forest every row comes below its parent's row, and below the rows of
      all siblings that are more recent, or as recent and earlier in the list. */
  lemma ForestIsInOrder(f: Forest, depth: map<string, nat>, alwaysLast: bool, k: nat)
    requires ListsChildren(f.sessions, f.children) && f.InBounds()
    requires ListedForest(f.sessions, depth) && f.collapsed == {}
    requires k < |ShowAll(f, alwaysLast).rows|
    ensures var rows := ShowAll(f, alwaysLast).rows;
            && InRange(f.sessions, rows)
            && SiblingsAbove(f.sessions, rows, k)
            && (f.sessions[rows[k].index].parent.Some? ==>
                  ShownAbove(f.sessions, rows, k, f.sessions[rows[k].index].parent.value))
            && var shown := f.sessions[rows[k].index];
            forall i :: 0 <= i < |f.sessions| && f.sessions[i].parent == shown.parent
              && (ActiveAfter(f.sessions[i], shown)
                  || (!ActiveAfter(shown, f.sessions[i]) && i < rows[k].index))
              ==> ShownAbove(f.sessions, rows, k, f.sessions[i].id)
  {
    ForestIsShown(f, alwaysLast);
    hide ListsChildren, ShowAll;
    var rows := ShowAll(f, alwaysLast).rows;
    ListedForestIsRooted(f, depth, rows[k].index);
    var n: nat :| Rooted(f, rows[k].index, n);
    if n > 0 {
      assert HangsFrom(f, rows, 0, k);
    }
    hide SiblingsAbove, ActiveAfter, ShownAbove;
    var shown := f.sessions[rows[k].index];
    forall i | 0 <= i < |f.sessions| && f.sessions[i].parent == shown.parent
      && (ActiveAfter(f.sessions[i], shown) || (!ActiveAfter(shown, f.sessions[i]) && i < rows[k].index))
      ensures ShownAbove(f.sessions, rows, k, f.sessions[i].id)
    {
      SiblingsByActivity(f.sessions, rows, k, i);
    }
  }

  /** The children lists are determined by the sessions. */
  lemma ChildrenAreDetermined(
    sessions: seq<Session>, a: map<Option<string>, seq<nat>>, b: map<Option<string>, seq<nat>>, p: Option<string>)
    requires ListsChildren(sessions, a) && ListsChildren(sessions, b) && p in a && p in b
    ensures a[p] == b[p]
  {
    forall i ensures i in a[p] <==> i in b[p] {
      if i in a[p] || i in b[p] {
        assert i < |sessions| && sessions[i].parent == p;
      }
    }
    OrderedIsUnique(sessions, a[p], b[p]);
  }

  lemma {:induction false} OrderedIsUnique(sessions: seq<Session>, a: seq<nat>, b: seq<nat>)
    requires Ordered(sessions, a) && Ordered(sessions, b) && forall i :: i in a <==> i in b
    ensures a == b
  {
    assert a == [] || a[0] in b;
    assert b == [] || b[0] in a;
    if a != [] {
      SameHead(sessions, a, b);
      forall i ensures i in a[1..] <==> i in b[1..] {
        SameTail(sessions, a, i);
        SameTail(sessions, b, i);
      }
      OrderedIsUnique(sessions, a[1..], b[1..]);
      assert a == [a[0]] + a[1..];
      assert b == [b[0]] + b[1..];
    }
  }

  lemma SameHead(sessions: seq<Session>, a: seq<nat>, b: seq<nat>)
    requires Ordered(sessions, a) && Ordered(sessions, b) && a != [] && b != []
    requires a[0] in b && b[0] in a
    ensures a[0] == b[0]
  {
    var j :| 0 <= j < |b| && b[j] == a[0];
    var k :| 0 <= k < |a| && a[k] == b[0];
  }

  lemma SameTail(sessions: seq<Session>, a: seq<nat>, i: nat)
    requires Ordered(sessions, a) && a != []
    ensures i in a[1..] <==> i in a && i != a[0]
  {
    if i in a[1..] {
      var k :| 0 <= k < |a[1..]| && a[1..][k] == i;
      assert Precedes(sessions, a[0], a[k + 1]);
    }
  }
}
