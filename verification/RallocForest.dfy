/** Ordered forests of blocks: which children every block has, in order. */
module RallocForest {

  datatype Tree<B> = Node(block: B, children: seq<Tree<B>>)

  /** rank falls from every block to its children: there are no cycles. */
  datatype Forest<B(==)> = Forest(kids: map<B, seq<B>>, rank: map<B, nat>)

  ghost predicate KidsInside<B>(f: Forest<B>) {
    && f.rank.Keys == f.kids.Keys
    && forall b, i :: b in f.kids && 0 <= i < |f.kids[b]| ==>
         f.kids[b][i] in f.kids && f.rank[f.kids[b][i]] < f.rank[b]
  }

  /** A block is child of at most one block, once. */
  ghost predicate KidsOnce<B>(kids: map<B, seq<B>>) {
    forall b, i, c, j :: b in kids && c in kids && 0 <= i < |kids[b]| && 0 <= j < |kids[c]| ==>
      kids[b][i] == kids[c][j] ==> b == c && i == j
  }

  ghost predicate WellFormed<B>(f: Forest<B>) {
    KidsInside(f) && KidsOnce(f.kids)
  }

  ghost predicate IsRoot<B>(kids: map<B, seq<B>>, x: B) {
    x in kids && forall b :: b in kids ==> x !in kids[b]
  }

  /** The tree below a block. */
  ghost function TreeOf<B>(f: Forest<B>, b: B): (t: Tree<B>)
    requires KidsInside(f) && b in f.kids
    decreases f.rank[b]
  {
    var xs := f.kids[b];
    Node(b, seq(|xs|, i requires 0 <= i < |xs| => TreeOf(f, xs[i])))
  }

  /** x is b or a descendant of b. */
  ghost predicate Below<B>(f: Forest<B>, b: B, x: B)
    requires KidsInside(f) && b in f.kids
    decreases f.rank[b]
  {
    x == b || exists i :: 0 <= i < |f.kids[b]| && Below(f, f.kids[b][i], x)
  }

  lemma {:induction false} BelowInside<B>(f: Forest<B>, b: B, x: B)
    requires KidsInside(f) && b in f.kids && Below(f, b, x)
    ensures x in f.kids && (x == b || f.rank[x] < f.rank[b])
    decreases f.rank[b]
  {
    if x != b {
      var i :| 0 <= i < |f.kids[b]| && Below(f, f.kids[b][i], x);
      BelowInside(f, f.kids[b][i], x);
    }
  }

  lemma {:induction false} BelowKid<B>(f: Forest<B>, b: B, y: B, i: nat)
    requires KidsInside(f) && b in f.kids && Below(f, b, y)
    requires y in f.kids && i < |f.kids[y]|
    ensures Below(f, b, f.kids[y][i])
    decreases f.rank[b]
  {
    if y == b {
      assert Below(f, f.kids[b][i], f.kids[b][i]);
    } else {
      var j :| 0 <= j < |f.kids[b]| && Below(f, f.kids[b][j], y);
      BelowKid(f, f.kids[b][j], y, i);
    }
  }

  /** A proper descendant's parent is a descendant. */
  lemma {:induction false} ParentBelow<B>(f: Forest<B>, b: B, x: B) returns (y: B, i: nat)
    requires KidsInside(f) && b in f.kids && Below(f, b, x) && x != b
    ensures y in f.kids && i < |f.kids[y]| && f.kids[y][i] == x && Below(f, b, y)
    decreases f.rank[b]
  {
    var j :| 0 <= j < |f.kids[b]| && Below(f, f.kids[b][j], x);
    if f.kids[b][j] == x {
      y, i := b, j;
    } else {
      y, i := ParentBelow(f, f.kids[b][j], x);
    }
  }

  /** Siblings have no descendants in common. */
  lemma {:induction false} SiblingsApart<B>(f: Forest<B>, b: B, i: nat, j: nat, x: B)
    requires WellFormed(f) && b in f.kids && i < |f.kids[b]| && j < |f.kids[b]| && i != j
    requires Below(f, f.kids[b][i], x)
    ensures !Below(f, f.kids[b][j], x)
    decreases f.rank[b] as int - if x in f.rank then f.rank[x] else 0
  {
    var c, d := f.kids[b][i], f.kids[b][j];
    if Below(f, d, x) {
      BelowInside(f, c, x);
      BelowInside(f, d, x);
      if x == c {
        var y, k := ParentBelow(f, d, x);
        BelowInside(f, d, y);
      } else if x == d {
        var y, k := ParentBelow(f, c, x);
        BelowInside(f, c, y);
      } else {
        var y, k := ParentBelow(f, c, x);
        var z, m := ParentBelow(f, d, x);
        SiblingsApart(f, b, i, j, y);
      }
    }
  }

  // ---- post-order ----

  /** Children first, first child first; then the block. */
  function PostOrder<B>(t: Tree<B>): seq<B> {
    PostOrders(t.children) + [t.block]
  }

  function PostOrders<B>(ts: seq<Tree<B>>): seq<B> {
    if ts == [] then [] else PostOrder(ts[0]) + PostOrders(ts[1..])
  }

  lemma {:induction false} PostOrdersAppend<B>(ts: seq<Tree<B>>, us: seq<Tree<B>>)
    ensures PostOrders(ts + us) == PostOrders(ts) + PostOrders(us)
  {
    if ts == [] {
      assert ts + us == us;
    } else {
      assert (ts + us)[1..] == ts[1..] + us;
      PostOrdersAppend(ts[1..], us);
    }
  }

  lemma {:induction false} InPostOrders<B>(ts: seq<Tree<B>>, x: B)
    ensures x in PostOrders(ts) <==> exists i :: 0 <= i < |ts| && x in PostOrder(ts[i])
  {
    if ts != [] {
      InPostOrders(ts[1..], x);
      if i :| 0 <= i < |ts| && x in PostOrder(ts[i]) {
        assert i == 0 || ts[1..][i - 1] == ts[i];
      }
      if x in PostOrders(ts[1..]) {
        var i :| 0 <= i < |ts[1..]| && x in PostOrder(ts[1..][i]);
        assert ts[1..][i] == ts[i + 1];
      }
    }
  }

  /** The post-order visits exactly the block and its descendants. */
  lemma {:induction false} PostOrderVisits<B>(f: Forest<B>, b: B, x: B)
    requires KidsInside(f) && b in f.kids
    ensures x in PostOrder(TreeOf(f, b)) <==> Below(f, b, x)
    decreases f.rank[b]
  {
    var t := TreeOf(f, b);
    InPostOrders(t.children, x);
    forall i | 0 <= i < |f.kids[b]|
      ensures x in PostOrder(t.children[i]) <==> Below(f, f.kids[b][i], x)
    {
      PostOrderVisits(f, f.kids[b][i], x);
    }
  }

  predicate NoDuplicates<B(==)>(s: seq<B>) {
    forall i, j :: 0 <= i < j < |s| ==> s[i] != s[j]
  }

  lemma NoDuplicatesConcat<B>(a: seq<B>, b: seq<B>)
    requires NoDuplicates(a) && NoDuplicates(b) && forall x :: x in a ==> x !in b
    ensures NoDuplicates(a + b)
  {
    var s := a + b;
    forall i, j | 0 <= i < j < |s|
      ensures s[i] != s[j]
    {
      if i < |a| <= j {
        assert s[i] in a && s[j] in b;
      }
    }
  }

  /** ... and each of them once. */
  lemma {:induction false} PostOrderOnce<B>(f: Forest<B>, b: B)
    requires WellFormed(f) && b in f.kids
    ensures NoDuplicates(PostOrder(TreeOf(f, b)))
    decreases f.rank[b], |f.kids[b]| + 1
  {
    var t := TreeOf(f, b);
    assert t.children[0..] == t.children;
    PostOrdersOnce(f, b, 0);
    forall x | x in PostOrders(t.children)
      ensures x != b
    {
      InPostOrders(t.children, x);
      var i :| 0 <= i < |t.children| && x in PostOrder(t.children[i]);
      PostOrderVisits(f, f.kids[b][i], x);
      BelowInside(f, f.kids[b][i], x);
    }
    NoDuplicatesConcat(PostOrders(t.children), [b]);
  }

  lemma {:induction false} PostOrdersOnce<B>(f: Forest<B>, b: B, i: nat)
    requires WellFormed(f) && b in f.kids && i <= |f.kids[b]|
    ensures NoDuplicates(PostOrders(TreeOf(f, b).children[i..]))
    decreases f.rank[b], |f.kids[b]| - i
  {
    var ts := TreeOf(f, b).children;
    if i < |ts| {
      PostOrdersOnce(f, b, i + 1);
      PostOrderOnce(f, f.kids[b][i]);
      assert ts[i..][1..] == ts[i + 1..];
      forall x | x in PostOrder(ts[i])
        ensures x !in PostOrders(ts[i + 1..])
      {
        InPostOrders(ts[i + 1..], x);
        if x in PostOrders(ts[i + 1..]) {
          var j :| 0 <= j < |ts[i + 1..]| && x in PostOrder(ts[i + 1..][j]);
          PostOrderVisits(f, f.kids[b][i], x);
          PostOrderVisits(f, f.kids[b][i + 1 + j], x);
          SiblingsApart(f, b, i, i + 1 + j, x);
        }
      }
      NoDuplicatesConcat(PostOrder(ts[i]), PostOrders(ts[i + 1..]));
    }
  }

  /** x comes earlier than y. */
  ghost predicate Before<B>(s: seq<B>, x: B, y: B) {
    exists i, j :: 0 <= i < j < |s| && s[i] == x && s[j] == y
  }

  lemma BeforeInside<B>(a: seq<B>, s: seq<B>, c: seq<B>, x: B, y: B)
    requires Before(s, x, y)
    ensures Before(a + s + c, x, y)
  {
    var i, j :| 0 <= i < j < |s| && s[i] == x && s[j] == y;
    var t := a + s + c;
    assert t[|a| + i] == x && t[|a| + j] == y;
  }

  lemma BeforeAcross<B>(a: seq<B>, s: seq<B>, c: seq<B>, x: B, y: B)
    requires (x in a && y in s) || (x in s && y in c)
    ensures Before(a + s + c, x, y)
  {
    var t := a + s + c;
    if x in a && y in s {
      var i :| 0 <= i < |a| && a[i] == x;
      var j :| 0 <= j < |s| && s[j] == y;
      assert t[i] == x && t[|a| + j] == y;
    } else {
      var i :| 0 <= i < |s| && s[i] == x;
      var j :| 0 <= j < |c| && c[j] == y;
      assert t[|a| + i] == x && t[|a| + |s| + j] == y;
    }
  }

  /** The order of a tree around that of child i. */
  lemma PostOrderAround<B>(f: Forest<B>, b: B, i: nat)
    requires KidsInside(f) && b in f.kids && i < |f.kids[b]|
    ensures var ts := TreeOf(f, b).children;
            && |ts| == |f.kids[b]| && f.kids[b][i] in f.kids
            && PostOrder(TreeOf(f, b)) ==
               PostOrders(ts[..i]) + PostOrder(TreeOf(f, f.kids[b][i])) + (PostOrders(ts[i + 1..]) + [b])
  {
    var ts := TreeOf(f, b).children;
    assert ts == ts[..i] + ts[i..] && ts[i..][1..] == ts[i + 1..];
    PostOrdersAppend(ts[..i], ts[i..]);
  }

  /** Every block comes behind all of its descendants. */
  lemma {:induction false} DescendantsFirst<B>(f: Forest<B>, b: B, x: B, y: B)
    requires KidsInside(f) && b in f.kids && Below(f, b, x) && x in f.kids && Below(f, x, y) && y != x
    ensures Before(PostOrder(TreeOf(f, b)), y, x)
    decreases f.rank[b]
  {
    hide PostOrder, PostOrders, TreeOf;
    if x == b {
      var i :| 0 <= i < |f.kids[b]| && Below(f, f.kids[b][i], y);
      PostOrderAround(f, b, i);
      PostOrderVisits(f, f.kids[b][i], y);
      var ts := TreeOf(f, b).children;
      BeforeAcross(PostOrders(ts[..i]), PostOrder(TreeOf(f, f.kids[b][i])), PostOrders(ts[i + 1..]) + [b], y, b);
    } else {
      var i :| 0 <= i < |f.kids[b]| && Below(f, f.kids[b][i], x);
      DescendantsFirst(f, f.kids[b][i], x, y);
      PostOrderAround(f, b, i);
      var ts := TreeOf(f, b).children;
      BeforeInside(PostOrders(ts[..i]), PostOrder(TreeOf(f, f.kids[b][i])), PostOrders(ts[i + 1..]) + [b], y, x);
    }
  }

  /** Siblings come in order, each with all of its descendants. */
  lemma {:induction false} SiblingsInOrder<B>(f: Forest<B>, b: B, p: B, i: nat, j: nat, x: B, y: B)
    requires KidsInside(f) && b in f.kids && Below(f, b, p) && p in f.kids && i < j < |f.kids[p]|
    requires Below(f, f.kids[p][i], x) && Below(f, f.kids[p][j], y)
    ensures Before(PostOrder(TreeOf(f, b)), x, y)
    decreases f.rank[b]
  {
    hide PostOrder, PostOrders, TreeOf;
    if p == b {
      PostOrderAround(f, b, j);
      var ts := TreeOf(f, b).children;
      PostOrderVisits(f, f.kids[b][i], x);
      PostOrderVisits(f, f.kids[b][j], y);
      KidTree(f, b, i);
      InPostOrders(ts[..j], x);
      assert ts[..j][i] == ts[i];
      BeforeAcross(PostOrders(ts[..j]), PostOrder(TreeOf(f, f.kids[b][j])), PostOrders(ts[j + 1..]) + [b], x, y);
    } else {
      var k :| 0 <= k < |f.kids[b]| && Below(f, f.kids[b][k], p);
      SiblingsInOrder(f, f.kids[b][k], p, i, j, x, y);
      PostOrderAround(f, b, k);
      var ts := TreeOf(f, b).children;
      BeforeInside(PostOrders(ts[..k]), PostOrder(TreeOf(f, f.kids[b][k])), PostOrders(ts[k + 1..]) + [b], x, y);
    }
  }

  lemma KidTree<B>(f: Forest<B>, b: B, i: nat)
    requires KidsInside(f) && b in f.kids && i < |f.kids[b]|
    ensures f.kids[b][i] in f.kids && |TreeOf(f, b).children| == |f.kids[b]|
    ensures TreeOf(f, b).children[i] == TreeOf(f, f.kids[b][i])
  {
  }

  // ---- what the operations do to the forest, and to its trees ----

  /** With a new block that has neither parent nor children. */
  ghost function Added<B>(f: Forest<B>, x: B): Forest<B> {
    Forest(f.kids[x := []], f.rank[x := 0])
  }

  function GraftedKids<B>(kids: map<B, seq<B>>, p: B, x: B): map<B, seq<B>>
    requires p in kids
  {
    kids[p := [x] + kids[p]]
  }

  function PrunedKids<B>(kids: map<B, seq<B>>, p: B, i: nat): map<B, seq<B>>
    requires p in kids && i < |kids[p]|
  {
    kids[p := kids[p][..i] + kids[p][i + 1..]]
  }

  /** Root x becomes the first child of p, which is not below it; the blocks above p get out of
      the way of x's rank. */
  ghost function Grafted<B>(f: Forest<B>, p: B, x: B): Forest<B>
    requires KidsInside(f) && p in f.kids && x in f.kids
  {
    Forest(GraftedKids(f.kids, p, x),
           map b | b in f.rank :: if Below(f, b, p) then f.rank[b] + f.rank[x] + 1 else f.rank[b])
  }

  /** Child i of p becomes a root. */
  ghost function Pruned<B>(f: Forest<B>, p: B, i: nat): Forest<B>
    requires p in f.kids && i < |f.kids[p]|
  {
    Forest(PrunedKids(f.kids, p, i), f.rank)
  }

  /** x and the tree below it are no child any more. */
  ghost function Detached<B>(f: Forest<B>, x: B): Forest<B>
    requires x in f.kids
  {
    if IsRoot(f.kids, x) then f
    else
      var b, i :| b in f.kids && 0 <= i < |f.kids[b]| && f.kids[b][i] == x;
      Pruned(f, b, i)
  }

  /** The tree of root x is gone. */
  ghost function Dropped<B>(f: Forest<B>, x: B): Forest<B>
    requires KidsInside(f) && x in f.kids
  {
    Forest(map b | b in f.kids && !Below(f, x, b) :: f.kids[b], map b | b in f.kids && !Below(f, x, b) :: f.rank[b])
  }

  function Swapped<B(==)>(x: B, was: B, now: B): B {
    if x == was then now else x
  }

  function SwappedAll<B(==)>(xs: seq<B>, was: B, now: B): (r: seq<B>)
    ensures |r| == |xs|
  {
    seq(|xs|, i requires 0 <= i < |xs| => Swapped(xs[i], was, now))
  }

  function RenamedKids<B>(kids: map<B, seq<B>>, was: B, now: B): map<B, seq<B>>
    requires was in kids
  {
    map b | b in kids.Keys - {was} + {now} :: SwappedAll(kids[Swapped(b, now, was)], was, now)
  }

  /** A new block takes the place of an old one. */
  ghost function Renamed<B>(f: Forest<B>, was: B, now: B): Forest<B>
    requires KidsInside(f) && was in f.kids && now !in f.kids
  {
    Forest(RenamedKids(f.kids, was, now),
           map b | b in f.kids.Keys - {was} + {now} :: f.rank[Swapped(b, now, was)])
  }

  lemma AddedWellFormed<B>(f: Forest<B>, x: B)
    requires WellFormed(f) && x !in f.kids
    ensures WellFormed(Added(f, x)) && IsRoot(Added(f, x).kids, x)
  {
  }

  lemma GraftedInside<B>(f: Forest<B>, p: B, x: B)
    requires KidsInside(f) && p in f.kids && IsRoot(f.kids, x) && !Below(f, x, p)
    ensures KidsInside(Grafted(f, p, x))
  {
    var g := Grafted(f, p, x);
    forall b, i | b in g.kids && 0 <= i < |g.kids[b]|
      ensures g.kids[b][i] in g.kids && g.rank[g.kids[b][i]] < g.rank[b]
    {
      if b != p {
        assert g.kids[b][i] == f.kids[b][i];
      } else if i != 0 {
        assert g.kids[b][i] == f.kids[b][i - 1];
      }
    }
  }

  lemma GraftedOnce<B>(kids: map<B, seq<B>>, p: B, x: B)
    requires KidsOnce(kids) && p in kids && IsRoot(kids, x)
    ensures KidsOnce(GraftedKids(kids, p, x))
  {
    var g := GraftedKids(kids, p, x);
    forall b, i, c, j | b in g && c in g && 0 <= i < |g[b]| && 0 <= j < |g[c]|
      ensures g[b][i] == g[c][j] ==> b == c && i == j
    {
      GraftedKid(kids, p, x, b, i);
      GraftedKid(kids, p, x, c, j);
    }
  }

  lemma GraftedKid<B>(kids: map<B, seq<B>>, p: B, x: B, b: B, i: nat)
    requires p in kids && IsRoot(kids, x) && b in kids && i < |GraftedKids(kids, p, x)[b]|
    ensures var k := GraftedKids(kids, p, x)[b][i];
            if b == p && i == 0 then k == x
            else k != x && (if b == p then k == kids[b][i - 1] else k == kids[b][i])
  {
    if b == p {
      assert i != 0 ==> kids[b][i - 1] in kids[b];
    } else {
      assert kids[b][i] in kids[b];
    }
  }

  lemma GraftedWellFormed<B>(f: Forest<B>, p: B, x: B)
    requires WellFormed(f) && p in f.kids && IsRoot(f.kids, x) && !Below(f, x, p)
    ensures WellFormed(Grafted(f, p, x))
  {
    GraftedInside(f, p, x);
    GraftedOnce(f.kids, p, x);
  }

  lemma PrunedKid<B>(kids: map<B, seq<B>>, p: B, i: nat, b: B, j: nat)
    requires p in kids && i < |kids[p]| && b in kids && j < |PrunedKids(kids, p, i)[b]|
    ensures PrunedKids(kids, p, i)[b][j] == kids[b][if b == p && i <= j then j + 1 else j]
  {
  }

  lemma PrunedOnce<B>(kids: map<B, seq<B>>, p: B, i: nat)
    requires KidsOnce(kids) && p in kids && i < |kids[p]|
    ensures KidsOnce(PrunedKids(kids, p, i))
  {
    var g := PrunedKids(kids, p, i);
    forall b, j, c, k | b in g && c in g && 0 <= j < |g[b]| && 0 <= k < |g[c]|
      ensures g[b][j] == g[c][k] ==> b == c && j == k
    {
      PrunedKid(kids, p, i, b, j);
      PrunedKid(kids, p, i, c, k);
    }
  }

  lemma PrunedRoot<B>(kids: map<B, seq<B>>, p: B, i: nat)
    requires KidsOnce(kids) && p in kids && i < |kids[p]| && kids[p][i] in kids
    ensures IsRoot(PrunedKids(kids, p, i), kids[p][i])
  {
    var g := PrunedKids(kids, p, i);
    forall b | b in g
      ensures kids[p][i] !in g[b]
    {
      forall j | 0 <= j < |g[b]|
        ensures g[b][j] != kids[p][i]
      {
        PrunedKid(kids, p, i, b, j);
      }
    }
  }

  lemma PrunedWellFormed<B>(f: Forest<B>, p: B, i: nat)
    requires WellFormed(f) && p in f.kids && i < |f.kids[p]|
    ensures WellFormed(Pruned(f, p, i)) && IsRoot(Pruned(f, p, i).kids, f.kids[p][i])
  {
    hide KidsOnce;
    var g := Pruned(f, p, i);
    PrunedOnce(f.kids, p, i);
    PrunedRoot(f.kids, p, i);
    forall b, j | b in g.kids && 0 <= j < |g.kids[b]|
      ensures g.kids[b][j] in g.kids && g.rank[g.kids[b][j]] < g.rank[b]
    {
      PrunedKid(f.kids, p, i, b, j);
    }
  }

  lemma DroppedWellFormed<B>(f: Forest<B>, x: B)
    requires WellFormed(f) && IsRoot(f.kids, x)
    ensures WellFormed(Dropped(f, x))
  {
    var g := Dropped(f, x);
    forall b, i | b in g.kids && 0 <= i < |g.kids[b]|
      ensures g.kids[b][i] in g.kids
    {
      var c := f.kids[b][i];
      if Below(f, x, c) {
        var y, j := ParentBelow(f, x, c);
      }
    }
  }

  lemma RenamedWellFormed<B>(f: Forest<B>, was: B, now: B)
    requires WellFormed(f) && was in f.kids && now !in f.kids
    ensures WellFormed(Renamed(f, was, now))
  {
    var g := Renamed(f, was, now);
    forall b, i | b in g.kids && 0 <= i < |g.kids[b]|
      ensures g.kids[b][i] in g.kids && g.rank[g.kids[b][i]] < g.rank[b]
      ensures Swapped(g.kids[b][i], now, was) == f.kids[Swapped(b, now, was)][i]
    {
    }
  }

  /** A tree with a new first child below every node for p. */
  function GraftIn<B(==)>(t: Tree<B>, p: B, u: Tree<B>): Tree<B>
    decreases t
  {
    var ts := seq(|t.children|, i requires 0 <= i < |t.children| => GraftIn(t.children[i], p, u));
    Node(t.block, if t.block == p then [u] + ts else ts)
  }

  /** A tree without child i of every node for p. */
  function PruneIn<B(==)>(t: Tree<B>, p: B, i: nat): Tree<B>
    decreases t
  {
    var ts := seq(|t.children|, j requires 0 <= j < |t.children| => PruneIn(t.children[j], p, i));
    Node(t.block, if t.block == p && i < |ts| then ts[..i] + ts[i + 1..] else ts)
  }

  function RenameIn<B(==)>(t: Tree<B>, was: B, now: B): Tree<B>
    decreases t
  {
    Node(Swapped(t.block, was, now),
         seq(|t.children|, i requires 0 <= i < |t.children| => RenameIn(t.children[i], was, now)))
  }

  lemma {:induction false} AddedTree<B>(f: Forest<B>, x: B, b: B)
    requires WellFormed(f) && x !in f.kids && b in f.kids
    ensures WellFormed(Added(f, x)) && TreeOf(Added(f, x), x) == Node(x, [])
    ensures TreeOf(Added(f, x), b) == TreeOf(f, b) && !Below(Added(f, x), x, b)
    decreases f.rank[b]
  {
    AddedWellFormed(f, x);
    forall i | 0 <= i < |f.kids[b]|
      ensures TreeOf(Added(f, x), f.kids[b][i]) == TreeOf(f, f.kids[b][i])
    {
      AddedTree(f, x, f.kids[b][i]);
    }
    assert TreeOf(Added(f, x), b).children == TreeOf(f, b).children;
  }

  /** Grafting changes every tree as it should: below p, x's tree is the new first child. */
  lemma {:induction false} GraftedTree<B>(f: Forest<B>, p: B, x: B, b: B)
    requires WellFormed(f) && p in f.kids && IsRoot(f.kids, x) && !Below(f, x, p) && b in f.kids
    ensures WellFormed(Grafted(f, p, x))
    ensures TreeOf(Grafted(f, p, x), b) == GraftIn(TreeOf(f, b), p, TreeOf(f, x))
    decreases f.rank[b]
  {
    GraftedWellFormed(f, p, x);
    var g := Grafted(f, p, x);
    var t, u := TreeOf(f, b), TreeOf(g, b);
    forall i | 0 <= i < |f.kids[b]|
      ensures TreeOf(g, f.kids[b][i]) == GraftIn(t.children[i], p, TreeOf(f, x))
    {
      GraftedTree(f, p, x, f.kids[b][i]);
    }
    if b == p {
      GraftedOutside(f, p, x, x);
      assert u.children == GraftIn(t, p, TreeOf(f, x)).children;
    } else {
      assert u.children == GraftIn(t, p, TreeOf(f, x)).children;
    }
  }

  /** Trees p is not in do not change. */
  lemma {:induction false} GraftedOutside<B>(f: Forest<B>, p: B, x: B, b: B)
    requires WellFormed(f) && p in f.kids && IsRoot(f.kids, x) && !Below(f, x, p) && b in f.kids && !Below(f, b, p)
    ensures WellFormed(Grafted(f, p, x))
    ensures TreeOf(Grafted(f, p, x), b) == TreeOf(f, b)
    decreases f.rank[b]
  {
    GraftedWellFormed(f, p, x);
    var g := Grafted(f, p, x);
    forall i | 0 <= i < |f.kids[b]|
      ensures TreeOf(g, f.kids[b][i]) == TreeOf(f, f.kids[b][i])
    {
      GraftedOutside(f, p, x, f.kids[b][i]);
    }
    assert TreeOf(g, b).children == TreeOf(f, b).children;
  }

  lemma {:induction false} RenamedTree<B>(f: Forest<B>, was: B, now: B, b: B)
    requires WellFormed(f) && was in f.kids && now !in f.kids && b in f.kids
    ensures WellFormed(Renamed(f, was, now))
    ensures TreeOf(Renamed(f, was, now), Swapped(b, was, now)) == RenameIn(TreeOf(f, b), was, now)
    decreases f.rank[b]
  {
    RenamedWellFormed(f, was, now);
    var g, c := Renamed(f, was, now), Swapped(b, was, now);
    forall i | 0 <= i < |f.kids[b]|
      ensures TreeOf(g, g.kids[c][i]) == RenameIn(TreeOf(f, f.kids[b][i]), was, now)
    {
      RenamedTree(f, was, now, f.kids[b][i]);
    }
    assert TreeOf(g, c).children == RenameIn(TreeOf(f, b), was, now).children;
  }

  /** The trees left are as they were. */
  lemma {:induction false} DroppedTree<B>(f: Forest<B>, x: B, b: B)
    requires WellFormed(f) && IsRoot(f.kids, x) && b in f.kids && !Below(f, x, b)
    ensures WellFormed(Dropped(f, x))
    ensures TreeOf(Dropped(f, x), b) == TreeOf(f, b)
    decreases f.rank[b]
  {
    DroppedWellFormed(f, x);
    var g := Dropped(f, x);
    forall i | 0 <= i < |f.kids[b]|
      ensures f.kids[b][i] in g.kids && TreeOf(g, f.kids[b][i]) == TreeOf(f, f.kids[b][i])
    {
      assert g.kids[b][i] in g.kids;
      DroppedTree(f, x, f.kids[b][i]);
    }
    assert TreeOf(g, b).children == TreeOf(f, b).children;
  }

  /** Unlinking a block takes its tree out of the trees above. */
  lemma {:induction false} PrunedTree<B>(f: Forest<B>, p: B, i: nat, b: B)
    requires WellFormed(f) && p in f.kids && i < |f.kids[p]| && b in f.kids
    ensures WellFormed(Pruned(f, p, i))
    ensures TreeOf(Pruned(f, p, i), b) == PruneIn(TreeOf(f, b), p, i)
    decreases f.rank[b]
  {
    PrunedWellFormed(f, p, i);
    var g := Pruned(f, p, i);
    forall j | 0 <= j < |f.kids[b]|
      ensures TreeOf(g, f.kids[b][j]) == PruneIn(TreeOf(f, f.kids[b][j]), p, i)
    {
      PrunedTree(f, p, i, f.kids[b][j]);
    }
    assert TreeOf(g, b).children == PruneIn(TreeOf(f, b), p, i).children;
  }

  /** The tree of the block unlinked does not change. */
  lemma PrunedOutside<B>(f: Forest<B>, p: B, i: nat)
    requires WellFormed(f) && p in f.kids && i < |f.kids[p]|
    ensures WellFormed(Pruned(f, p, i))
    ensures TreeOf(Pruned(f, p, i), f.kids[p][i]) == TreeOf(f, f.kids[p][i])
  {
    var x := f.kids[p][i];
    if Below(f, x, p) {
      BelowInside(f, x, p);
    }
    PrunedApart(f, p, i, x);
  }

  lemma {:induction false} PrunedApart<B>(f: Forest<B>, p: B, i: nat, b: B)
    requires WellFormed(f) && p in f.kids && i < |f.kids[p]| && b in f.kids && !Below(f, b, p)
    ensures WellFormed(Pruned(f, p, i))
    ensures TreeOf(Pruned(f, p, i), b) == TreeOf(f, b)
    decreases f.rank[b]
  {
    PrunedWellFormed(f, p, i);
    forall j | 0 <= j < |f.kids[b]|
      ensures TreeOf(Pruned(f, p, i), f.kids[b][j]) == TreeOf(f, f.kids[b][j])
    {
      PrunedApart(f, p, i, f.kids[b][j]);
    }
    assert TreeOf(Pruned(f, p, i), b).children == TreeOf(f, b).children;
  }

  lemma DetachedPruned<B>(f: Forest<B>, p: B, i: nat)
    requires WellFormed(f) && p in f.kids && i < |f.kids[p]|
    ensures !IsRoot(f.kids, f.kids[p][i]) && Detached(f, f.kids[p][i]) == Pruned(f, p, i)
  {
  }

  /** Detaching leaves the tree below as it is. */
  lemma DetachedTree<B>(f: Forest<B>, x: B)
    requires WellFormed(f) && x in f.kids
    ensures WellFormed(Detached(f, x)) && IsRoot(Detached(f, x).kids, x) && Detached(f, x).kids.Keys == f.kids.Keys
    ensures TreeOf(Detached(f, x), x) == TreeOf(f, x)
    ensures forall y :: y in f.kids ==> Below(Detached(f, x), x, y) == Below(f, x, y)
  {
    if !IsRoot(f.kids, x) {
      var b, i :| b in f.kids && 0 <= i < |f.kids[b]| && f.kids[b][i] == x;
      DetachedPruned(f, b, i);
      PrunedWellFormed(f, b, i);
      PrunedOutside(f, b, i);
    }
    forall y | y in f.kids
      ensures Below(Detached(f, x), x, y) == Below(f, x, y)
    {
      PostOrderVisits(f, x, y);
      PostOrderVisits(Detached(f, x), x, y);
    }
  }

  /** Every tree loses the detached block from where it was, if it was a child at all. */
  lemma DetachedTrees<B>(f: Forest<B>, x: B, b: B)
    requires WellFormed(f) && x in f.kids && b in f.kids
    ensures WellFormed(Detached(f, x)) && b in Detached(f, x).kids
    ensures TreeOf(Detached(f, x), b) == Without(f, TreeOf(f, b), x)
  {
    if !IsRoot(f.kids, x) {
      var (p, i) := PlaceOf(f, x);
      DetachedPruned(f, p, i);
      PrunedTree(f, p, i, b);
    }
  }

  /** The parent of a child and its place among the children. */
  ghost function PlaceOf<B>(f: Forest<B>, x: B): (r: (B, nat))
    requires x in f.kids && !IsRoot(f.kids, x)
    ensures r.0 in f.kids && r.1 < |f.kids[r.0]| && f.kids[r.0][r.1] == x
  {
    var p :| p in f.kids && x in f.kids[p];
    var i: nat :| i < |f.kids[p]| && f.kids[p][i] == x;
    (p, i)
  }

  /** A tree without the tree of x. */
  ghost function Without<B>(f: Forest<B>, t: Tree<B>, x: B): Tree<B>
    requires x in f.kids
  {
    if IsRoot(f.kids, x) then t else PruneIn(t, PlaceOf(f, x).0, PlaceOf(f, x).1)
  }
}
