/** Block headers and the links a forest gives them; what the stores of add_child, unlink_block and
    resize make of these links. */
module RallocLinks {
  import opened Options
  import opened RallocForest

  class Header {
    var parent: Header?
    var child: Header?
    var prev: Header?
    var next: Header?
    var destructor: Option<nat>

    function AllLinks(): Links
      reads this
    {
      Links(parent, child, prev, next)
    }

    /** As calloc leaves it. */
    constructor ()
      ensures parent == null && child == null && prev == null && next == null && destructor == None
    {
      parent, child, prev, next, destructor := null, null, null, null, None;
    }
  }

  // ---- the links of a forest ----

  datatype Links = Links(parent: Header?, child: Header?, prev: Header?, next: Header?)

  const NO_LINKS := Links(null, null, null, null)

  function At(s: seq<Header>, i: int): Header? {
    if 0 <= i < |s| then s[i] else null
  }

  /** Child i of b knows its parent and its neighbours. */
  ghost predicate KidFits(kids: map<Header, seq<Header>>, m: map<Header, Links>, b: Header, i: int)
    requires b in kids && 0 <= i < |kids[b]|
  {
    var c, xs := kids[b][i], kids[b];
    c in m && m[c].parent == b && m[c].prev == At(xs, i - 1) && m[c].next == At(xs, i + 1)
  }

  ghost predicate KidsFit(kids: map<Header, seq<Header>>, m: map<Header, Links>) {
    forall b, i {:trigger KidFits(kids, m, b, i)} :: b in kids && 0 <= i < |kids[b]| ==> KidFits(kids, m, b, i)
  }

  ghost predicate FirstsFit(kids: map<Header, seq<Header>>, m: map<Header, Links>) {
    forall b :: b in kids ==> b in m && m[b].child == At(kids[b], 0)
  }

  ghost predicate RootsFit(kids: map<Header, seq<Header>>, m: map<Header, Links>) {
    forall b {:trigger IsRoot(kids, b)} :: b in kids && IsRoot(kids, b) ==>
      b in m && m[b].parent == null && m[b].prev == null && m[b].next == null
  }

  /** The links are those of the forest: every block's parent, siblings and first child. */
  ghost predicate Fits(kids: map<Header, seq<Header>>, m: map<Header, Links>) {
    m.Keys == kids.Keys && KidsFit(kids, m) && FirstsFit(kids, m) && RootsFit(kids, m)
  }

  lemma AtHere(xs: seq<Header>, i: nat)
    requires i < |xs|
    ensures At(xs, i) == xs[i]
  {
  }

  lemma ConsAt(x: Header, xs: seq<Header>, i: int)
    ensures At([x] + xs, i) == if i == 0 then x else At(xs, i - 1)
  {
  }

  lemma NoneBefore(xs: seq<Header>)
    ensures At(xs, -1) == null && At(xs, -2) == null
  {
  }

  /** A first child is a child, and only there. */
  lemma FirstOnly(kids: map<Header, seq<Header>>, m: map<Header, Links>, p: Header, b: Header, i: nat)
    requires KidsOnce(kids) && FirstsFit(kids, m) && p in kids && b in kids && i < |kids[b]|
    ensures kids[b][i] == m[p].child <==> b == p && i == 0
  {
  }

  lemma FirstNotRoot(kids: map<Header, seq<Header>>, m: map<Header, Links>, p: Header, x: Header)
    requires p in kids && FirstsFit(kids, m) && IsRoot(kids, x)
    ensures m[p].child != x
  {
  }

  // ---- add_child ----

  /** The stores of add_child. */
  function AddChildLinks(m: map<Header, Links>, p: Header, x: Header): map<Header, Links>
    requires p in m && x in m
  {
    var first := m[p].child;
    var m1 := m[x := m[x].(parent := p, next := first)];
    var m2 := m1[p := m1[p].(child := x)];
    if first == null || first !in m2 then m2 else m2[first := m2[first].(prev := x)]
  }

  lemma AddChildLink(m: map<Header, Links>, p: Header, x: Header, c: Header)
    requires p in m && x in m && m[p].child != x && c in m
    ensures AddChildLinks(m, p, x).Keys == m.Keys
    ensures var first, l := m[p].child, AddChildLinks(m, p, x)[c];
            && l.parent == (if c == x then p else m[c].parent)
            && l.child == (if c == p then x else m[c].child)
            && l.prev == (if c == first then x else m[c].prev)
            && l.next == (if c == x then first else m[c].next)
  {
  }

  lemma AddChildKidFits(kids: map<Header, seq<Header>>, m: map<Header, Links>, p: Header, x: Header, b: Header, i: nat)
    requires KidsOnce(kids) && Fits(kids, m) && p in kids && IsRoot(kids, x) && p != x
    requires b in kids && i < |GraftedKids(kids, p, x)[b]|
    ensures KidFits(GraftedKids(kids, p, x), AddChildLinks(m, p, x), b, i)
  {
    hide AddChildLinks, KidsOnce, At;
    GraftedKid(kids, p, x, b, i);
    FirstNotRoot(kids, m, p, x);
    if b != p {
      assert KidFits(kids, m, b, i);
      FirstOnly(kids, m, p, b, i);
      AddChildLink(m, p, x, kids[b][i]);
    } else {
      ConsAt(x, kids[p], i - 1);
      ConsAt(x, kids[p], i + 1);
      if i > 0 {
        assert KidFits(kids, m, b, i - 1);
        FirstOnly(kids, m, p, b, i - 1);
        AddChildLink(m, p, x, kids[b][i - 1]);
      } else {
        NoneBefore(kids[p]);
        AddChildLink(m, p, x, x);
      }
    }
  }

  lemma AddChildRoots(kids: map<Header, seq<Header>>, p: Header, x: Header, b: Header)
    requires p in kids && x in kids && IsRoot(GraftedKids(kids, p, x), b)
    ensures IsRoot(kids, b) && b != x && b !in kids[p]
  {
    var g := GraftedKids(kids, p, x);
    assert g[p][0] == x;
    forall d | d in kids
      ensures b !in kids[d]
    {
      assert b !in g[d];
    }
  }

  lemma AddChildFits(kids: map<Header, seq<Header>>, m: map<Header, Links>, p: Header, x: Header)
    requires KidsOnce(kids) && Fits(kids, m) && p in kids && IsRoot(kids, x) && p != x
    ensures Fits(GraftedKids(kids, p, x), AddChildLinks(m, p, x))
  {
    hide KidsOnce, AddChildLinks, KidFits, IsRoot;
    RootInside(kids, x);
    var g, m' := GraftedKids(kids, p, x), AddChildLinks(m, p, x);
    FirstNotRoot(kids, m, p, x);
    forall b, i | b in g && 0 <= i < |g[b]|
      ensures KidFits(g, m', b, i)
    {
      AddChildKidFits(kids, m, p, x, b, i);
    }
    forall b | b in kids
      ensures b in m' && m'[b].child == At(g[b], 0)
    {
      AddChildLink(m, p, x, b);
    }
    forall b | b in g && IsRoot(g, b)
      ensures b in m' && m'[b].parent == null && m'[b].prev == null && m'[b].next == null
    {
      AddChildRoots(kids, p, x, b);
      RootInside(kids, b);
      AddChildLink(m, p, x, b);
    }
    AddChildLink(m, p, x, x);
  }

  lemma RootInside(kids: map<Header, seq<Header>>, x: Header)
    requires IsRoot(kids, x)
    ensures x in kids
  {
  }

  // ---- unlink_block ----

  /** The stores of unlink_block, for a block with a parent. */
  function UnlinkLinks(m: map<Header, Links>, x: Header): map<Header, Links>
    requires x in m
  {
    var Links(p, _, prev, next) := m[x];
    var m1 := if p in m && m[p].child == x then m[p := m[p].(child := next)] else m;
    var m2 := if prev in m1 then m1[prev := m1[prev].(next := next)] else m1;
    var m3 := if next in m2 then m2[next := m2[next].(prev := prev)] else m2;
    m3[x := m3[x].(parent := null, prev := null, next := null)]
  }

  lemma UnlinkLink(m: map<Header, Links>, x: Header, c: Header)
    requires x in m && m[x].prev != x && m[x].next != x && m[x].parent != x && c in m
    requires m[x].prev != null ==> m[x].prev != m[x].next
    ensures UnlinkLinks(m, x).Keys == m.Keys
    ensures var l := UnlinkLinks(m, x)[c];
            && l.parent == (if c == x then null else m[c].parent)
            && l.child == (if c == m[x].parent && m[c].child == x then m[x].next else m[c].child)
            && l.prev == (if c == x then null else if c == m[x].next then m[x].prev else m[c].prev)
            && l.next == (if c == x then null else if c == m[x].prev then m[x].next else m[c].next)
  {
  }

  /** A child is not its own neighbour or parent. */
  lemma NeighboursApart(kids: map<Header, seq<Header>>, m: map<Header, Links>, p: Header, i: nat)
    requires KidsOnce(kids) && p in kids && i < |kids[p]| && p != kids[p][i] && KidFits(kids, m, p, i)
    ensures var x := kids[p][i];
            && m[x].prev != x && m[x].next != x && m[x].parent != x
            && (m[x].prev != null ==> m[x].prev != m[x].next)
  {
  }

  /** The neighbours of a child are the children before and behind it. */
  lemma NeighboursOnly(kids: map<Header, seq<Header>>, p: Header, i: nat, b: Header, j: nat)
    requires KidsOnce(kids) && p in kids && i < |kids[p]| && b in kids && j < |kids[b]|
    ensures kids[b][j] == At(kids[p], i - 1) <==> b == p && j == i - 1
    ensures kids[b][j] == At(kids[p], i + 1) <==> b == p && j == i + 1
    ensures kids[b][j] == kids[p][i] <==> b == p && j == i
  {
  }

  lemma CutAt(xs: seq<Header>, i: nat, j: int)
    requires i < |xs|
    ensures At(xs[..i] + xs[i + 1..], j) == if j < i then At(xs, j) else At(xs, j + 1)
  {
  }

  lemma UnlinkKidFits(kids: map<Header, seq<Header>>, m: map<Header, Links>, p: Header, i: nat, b: Header, j: nat)
    requires KidsOnce(kids) && Fits(kids, m) && p in kids && i < |kids[p]| && p != kids[p][i]
    requires b in kids && j < |PrunedKids(kids, p, i)[b]|
    ensures KidFits(kids, m, p, i) && KidFits(PrunedKids(kids, p, i), UnlinkLinks(m, kids[p][i]), b, j)
  {
    hide UnlinkLinks, KidsOnce, At;
    assert KidFits(kids, m, p, i);
    NeighboursApart(kids, m, p, i);
    PrunedKid(kids, p, i, b, j);
    var k := if b == p && i <= j then j + 1 else j;
    assert KidFits(kids, m, b, k);
    NeighboursOnly(kids, p, i, b, k);
    UnlinkLink(m, kids[p][i], kids[b][k]);
    if b == p {
      CutAt(kids[p], i, j - 1);
      CutAt(kids[p], i, j + 1);
    }
  }

  lemma UnlinkFirsts(kids: map<Header, seq<Header>>, m: map<Header, Links>, p: Header, i: nat, b: Header)
    requires KidsOnce(kids) && Fits(kids, m) && p in kids && i < |kids[p]| && p != kids[p][i] && b in kids
    ensures KidFits(kids, m, p, i) && b in UnlinkLinks(m, kids[p][i])
    ensures UnlinkLinks(m, kids[p][i])[b].child == At(PrunedKids(kids, p, i)[b], 0)
  {
    hide UnlinkLinks, KidsOnce, At;
    assert KidFits(kids, m, p, i);
    NeighboursApart(kids, m, p, i);
    UnlinkLink(m, kids[p][i], b);
    CutAt(kids[p], i, 0);
    AtHere(kids[p], 0);
    NeighboursOnly(kids, p, i, p, 0);
  }

  lemma UnlinkRoots(kids: map<Header, seq<Header>>, m: map<Header, Links>, p: Header, i: nat, b: Header)
    requires KidsOnce(kids) && Fits(kids, m) && p in kids && i < |kids[p]| && p != kids[p][i]
    requires IsRoot(PrunedKids(kids, p, i), b)
    ensures KidFits(kids, m, p, i)
    ensures var m' := UnlinkLinks(m, kids[p][i]);
            b in m' && m'[b].parent == null && m'[b].prev == null && m'[b].next == null
  {
    hide UnlinkLinks, KidsOnce, FirstsFit;
    assert KidFits(kids, m, p, i);
    NeighboursApart(kids, m, p, i);
    UnlinkLink(m, kids[p][i], b);
    if b != kids[p][i] {
      forall c | c in kids
        ensures b !in kids[c]
      {
        NotPruned(kids, p, i, b, c);
      }
      assert IsRoot(kids, b);
      assert At(kids[p], i - 1) != b && At(kids[p], i + 1) != b;
    }
  }

  lemma NotPruned(kids: map<Header, seq<Header>>, p: Header, i: nat, b: Header, c: Header)
    requires p in kids && i < |kids[p]| && b != kids[p][i] && c in kids && b !in PrunedKids(kids, p, i)[c]
    ensures b !in kids[c]
  {
    if c == p {
      assert kids[p] == kids[p][..i] + [kids[p][i]] + kids[p][i + 1..];
    }
  }

  lemma UnlinkFits(kids: map<Header, seq<Header>>, m: map<Header, Links>, p: Header, i: nat)
    requires KidsOnce(kids) && Fits(kids, m) && p in kids && i < |kids[p]| && p != kids[p][i]
    ensures KidFits(kids, m, p, i) && Fits(PrunedKids(kids, p, i), UnlinkLinks(m, kids[p][i]))
  {
    hide KidsOnce, UnlinkLinks, IsRoot, At;
    assert KidFits(kids, m, p, i);
    var g, m' := PrunedKids(kids, p, i), UnlinkLinks(m, kids[p][i]);
    NeighboursApart(kids, m, p, i);
    UnlinkLink(m, kids[p][i], kids[p][i]);
    forall b, j | b in g && 0 <= j < |g[b]|
      ensures KidFits(g, m', b, j)
    {
      UnlinkKidFits(kids, m, p, i, b, j);
    }
    forall b | b in g
      ensures b in m' && m'[b].child == At(g[b], 0)
    {
      UnlinkFirsts(kids, m, p, i, b);
    }
    forall b | b in g && IsRoot(g, b)
      ensures b in m' && m'[b].parent == null && m'[b].prev == null && m'[b].next == null
    {
      UnlinkRoots(kids, m, p, i, b);
    }
  }

  // ---- resize ----

  /** The stores of resize when the block has moved: the new header starts as a copy of the old
      one, its parent and siblings are told, and then its children. */
  function ResizeLinks(kids: seq<Header>, m: map<Header, Links>, was: Header, now: Header): (r: map<Header, Links>)
    requires was in m
    ensures r.Keys == m.Keys - {was} + {now}
  {
    map b | b in m.Keys - {was} + {now} ::
      var l := if b == now then m[was] else m[b];
      Links(if b in kids then now else l.parent,
            if b == m[was].parent && l.child == was then now else l.child,
            if b == m[was].next then now else l.prev,
            if b == m[was].prev then now else l.next)
  }

  lemma ResizeLink(kids: seq<Header>, m: map<Header, Links>, was: Header, now: Header, c: Header)
    requires was in m && c in m.Keys - {was} + {now}
    ensures var l := if c == now then m[was] else m[c];
            ResizeLinks(kids, m, was, now)[c] ==
            Links(if c in kids then now else l.parent, if c == m[was].parent && l.child == was then now else l.child,
                  if c == m[was].next then now else l.prev, if c == m[was].prev then now else l.next)
  {
  }

  function SwapAt(b: Header?, was: Header, now: Header): Header? {
    if b == was then now else b
  }

  lemma SwappedAt(xs: seq<Header>, was: Header, now: Header, i: int)
    ensures At(SwappedAll(xs, was, now), i) == SwapAt(At(xs, i), was, now)
  {
  }

  /** Where the old block's neighbours and parent are. */
  lemma OldOnly(kids: map<Header, seq<Header>>, m: map<Header, Links>, was: Header, b: Header, j: nat)
    requires KidsOnce(kids) && Fits(kids, m) && was in kids && b in kids && j < |kids[b]|
    ensures At(kids[b], j - 1) == was <==> kids[b][j] == m[was].next
    ensures At(kids[b], j + 1) == was <==> kids[b][j] == m[was].prev
    ensures kids[b][j] in kids[was] <==> b == was
  {
    hide At, KidsOnce;
    if !IsRoot(kids, was) {
      var c, i :| c in kids && 0 <= i < |kids[c]| && kids[c][i] == was;
      assert KidFits(kids, m, c, i);
      NeighboursOnly(kids, c, i, b, j);
      NeighboursOnly(kids, b, j, c, i);
    } else {
      assert At(kids[b], j - 1) != was && At(kids[b], j + 1) != was by {
        NotAt(kids[b], j - 1, was);
        NotAt(kids[b], j + 1, was);
      }
    }
    if kids[b][j] in kids[was] {
      var k :| 0 <= k < |kids[was]| && kids[was][k] == kids[b][j];
      NeighboursOnly(kids, b, j, was, k);
    }
  }

  lemma NotAt(xs: seq<Header>, i: int, x: Header)
    requires x !in xs
    ensures At(xs, i) != x
  {
  }

  predicate KidsClosed(kids: map<Header, seq<Header>>) {
    forall c, i :: c in kids && 0 <= i < |kids[c]| ==> kids[c][i] in kids && kids[c][i] != c
  }

  lemma NewNotNear(kids: map<Header, seq<Header>>, m: map<Header, Links>, was: Header, now: Header)
    requires KidsOnce(kids) && Fits(kids, m) && KidsClosed(kids) && was in kids && now !in kids
    ensures now !in kids[was] && m[was].next != now && m[was].prev != now && m[was].parent != now
    ensures m[was].next != was && m[was].prev != was && m[was].parent != was
  {
    hide KidsOnce;
    if !IsRoot(kids, was) {
      var c, i :| c in kids && 0 <= i < |kids[c]| && kids[c][i] == was;
      assert KidFits(kids, m, c, i);
      NeighboursApart(kids, m, c, i);
    }
  }

  lemma ResizeKidFits(kids: map<Header, seq<Header>>, m: map<Header, Links>, was: Header, now: Header,
                      b: Header, j: nat)
    requires KidsOnce(kids) && Fits(kids, m) && KidsClosed(kids) && was in kids && now !in kids
    requires b in RenamedKids(kids, was, now) && j < |RenamedKids(kids, was, now)[b]|
    ensures KidFits(RenamedKids(kids, was, now), ResizeLinks(kids[was], m, was, now), b, j)
  {
    hide KidsOnce, At, RootsFit;
    var d := Swapped(b, now, was);
    var c := kids[d][j];
    assert KidFits(kids, m, d, j);
    SwappedAt(kids[d], was, now, j - 1);
    SwappedAt(kids[d], was, now, j + 1);
    OldOnly(kids, m, was, d, j);
    NewNotNear(kids, m, was, now);
    assert c in kids && RenamedKids(kids, was, now)[b][j] == Swapped(c, was, now);
  }

  lemma ResizeFits(kids: map<Header, seq<Header>>, m: map<Header, Links>, was: Header, now: Header)
    requires KidsOnce(kids) && Fits(kids, m) && KidsClosed(kids) && was in kids && now !in kids
    ensures Fits(RenamedKids(kids, was, now), ResizeLinks(kids[was], m, was, now))
  {
    hide KidsOnce, KidFits, IsRoot, KidsClosed, At;
    var g, m' := RenamedKids(kids, was, now), ResizeLinks(kids[was], m, was, now);
    forall b, j | b in g && 0 <= j < |g[b]|
      ensures KidFits(g, m', b, j)
    {
      ResizeKidFits(kids, m, was, now, b, j);
    }
    forall b | b in g
      ensures b in m' && m'[b].child == At(g[b], 0)
    {
      ResizeFirsts(kids, m, was, now, b);
    }
    forall b | b in g && IsRoot(g, b)
      ensures b in m' && m'[b].parent == null && m'[b].prev == null && m'[b].next == null
    {
      ResizeRoots(kids, m, was, now, b);
    }
  }

  lemma ResizeFirsts(kids: map<Header, seq<Header>>, m: map<Header, Links>, was: Header, now: Header, b: Header)
    requires KidsOnce(kids) && Fits(kids, m) && KidsClosed(kids) && was in kids && now !in kids
    requires b in RenamedKids(kids, was, now)
    ensures ResizeLinks(kids[was], m, was, now)[b].child == At(RenamedKids(kids, was, now)[b], 0)
  {
    hide KidsOnce, RootsFit, At;
    var d := Swapped(b, now, was);
    SwappedAt(kids[d], was, now, 0);
    NewNotNear(kids, m, was, now);
    if m[d].child == was {
      FirstAt(kids[d]);
      assert KidFits(kids, m, d, 0);
    }
  }

  lemma FirstAt(xs: seq<Header>)
    ensures At(xs, 0) != null ==> xs != [] && At(xs, 0) == xs[0]
  {
  }

  lemma ResizeRoots(kids: map<Header, seq<Header>>, m: map<Header, Links>, was: Header, now: Header, b: Header)
    requires KidsOnce(kids) && Fits(kids, m) && KidsClosed(kids) && was in kids && now !in kids
    requires b in RenamedKids(kids, was, now) && IsRoot(RenamedKids(kids, was, now), b)
    ensures var l := ResizeLinks(kids[was], m, was, now)[b];
            l.parent == null && l.prev == null && l.next == null
  {
    hide KidsOnce, FirstsFit;
    var d := Swapped(b, now, was);
    forall c | c in kids
      ensures d !in kids[c]
    {
      RenamedNot(kids, was, now, c, d);
    }
    assert IsRoot(kids, d);
    NewNotNear(kids, m, was, now);
    if !IsRoot(kids, was) {
      var c, i :| c in kids && 0 <= i < |kids[c]| && kids[c][i] == was;
      assert KidFits(kids, m, c, i);
      NotAt(kids[c], i - 1, d);
      NotAt(kids[c], i + 1, d);
    }
  }

  lemma RenamedNot(kids: map<Header, seq<Header>>, was: Header, now: Header, c: Header, d: Header)
    requires KidsClosed(kids) && was in kids && now !in kids && c in kids && d in kids
    requires IsRoot(RenamedKids(kids, was, now), Swapped(d, was, now))
    ensures d !in kids[c]
  {
    var g, e := RenamedKids(kids, was, now), Swapped(c, was, now);
    forall i | 0 <= i < |kids[c]|
      ensures kids[c][i] != d
    {
      assert g[e][i] == Swapped(kids[c][i], was, now);
      assert g[e][i] in g[e];
    }
  }
}
