/** The hierarchical allocator. */
module Ralloc {
  import opened Options
  import opened RallocForest
  import opened RallocLinks

  /** What freeing does to the world outside. */
  datatype Event = Destroy(block: Header, destructor: nat) | Release(block: Header)

  type Destructors = map<Header, Option<nat>>

  /** The events of freeing blocks in this order. */
  function EventsOf(blocks: seq<Header>, d: Destructors): seq<Event> {
    if blocks == [] then []
    else EventsOf(blocks[..|blocks| - 1], d) + EventsAt(blocks[|blocks| - 1], d)
  }

  function EventsAt(b: Header, d: Destructors): seq<Event> {
    (if b in d && d[b].Some? then [Destroy(b, d[b].value)] else []) + [Release(b)]
  }

  lemma {:induction false} EventsOfConcat(a: seq<Header>, b: seq<Header>, d: Destructors)
    ensures EventsOf(a + b, d) == EventsOf(a, d) + EventsOf(b, d)
  {
    if b == [] {
      assert a + b == a;
    } else {
      assert (a + b)[..|a + b| - 1] == a + b[..|b| - 1];
      EventsOfConcat(a, b[..|b| - 1], d);
    }
  }

  lemma EventsOfOne(s: seq<Header>, b: Header, d: Destructors)
    ensures EventsOf(s + [b], d) == EventsOf(s, d) + EventsAt(b, d)
  {
    assert (s + [b])[..|s|] == s;
  }

  /** The blocks released, in order. */
  function ReleasedIn(events: seq<Event>): seq<Header> {
    if events == [] then []
    else ReleasedIn(events[..|events| - 1])
         + if events[|events| - 1].Release? then [events[|events| - 1].block] else []
  }

  lemma {:induction false} ReleasedConcat(a: seq<Event>, b: seq<Event>)
    ensures ReleasedIn(a + b) == ReleasedIn(a) + ReleasedIn(b)
  {
    if b == [] {
      assert a + b == a;
    } else {
      assert (a + b)[..|a + b| - 1] == a + b[..|b| - 1];
      ReleasedConcat(a, b[..|b| - 1]);
    }
  }

  lemma ReleasedOne(e: Event)
    ensures ReleasedIn([e]) == if e.Release? then [e.block] else []
  {
    assert [e][..0] == [];
  }

  lemma ReleasedAt(b: Header, d: Destructors)
    ensures ReleasedIn(EventsAt(b, d)) == [b]
  {
    hide ReleasedIn;
    ReleasedOne(Release(b));
    if b in d && d[b].Some? {
      var e := Destroy(b, d[b].value);
      ReleasedOne(e);
      ReleasedConcat([e], [Release(b)]);
    } else {
      assert EventsAt(b, d) == [Release(b)];
    }
  }

  /** The blocks are released in the order given. */
  lemma {:induction false} ReleasesInOrder(blocks: seq<Header>, d: Destructors)
    ensures ReleasedIn(EventsOf(blocks, d)) == blocks
  {
    hide ReleasedIn, EventsAt;
    if blocks == [] {
      NoneReleased();
    } else {
      var n := |blocks| - 1;
      ReleasesInOrder(blocks[..n], d);
      ReleasedConcat(EventsOf(blocks[..n], d), EventsAt(blocks[n], d));
      ReleasedAt(blocks[n], d);
    }
  }

  lemma NoneReleased()
    ensures ReleasedIn([]) == []
  {
  }

  /** What event k has next to it: the call of a destructor the release of its block behind it, and the release of
      a block the call of its destructor in front of it, if it has one. */
  predicate Paired(ev: seq<Event>, d: Destructors, k: nat)
    requires k < |ev|
  {
    var b := ev[k].block;
    if ev[k].Destroy? then
      k + 1 < |ev| && ev[k + 1] == Release(b) && b in d && d[b] == Some(ev[k].destructor)
    else
      b in d && d[b].Some? ==> k > 0 && ev[k - 1] == Destroy(b, d[b].value)
  }

  /** Exactly the blocks that have a destructor have it called, directly before they are released. */
  lemma {:induction false} DestroyedJustBefore(blocks: seq<Header>, d: Destructors, k: nat)
    requires k < |EventsOf(blocks, d)|
    ensures Paired(EventsOf(blocks, d), d, k)
  {
    var n := |blocks| - 1;
    var ev := EventsOf(blocks[..n], d);
    if k < |ev| {
      DestroyedJustBefore(blocks[..n], d, k);
    }
  }

  /** A child's tree contains neither the block above nor anything of the later children's trees. */
  lemma ChildApart(f: Forest<Header>, info: Header, i: nat)
    requires WellFormed(f) && info in f.kids && i < |f.kids[info]|
    ensures KidsInside(f)
    ensures forall j :: i <= j < |f.kids[info]| ==> f.kids[info][j] in f.kids && !Below(f, f.kids[info][j], info)
    ensures forall j, b :: i < j < |f.kids[info]| && Below(f, f.kids[info][j], b) ==> !Below(f, f.kids[info][i], b)
    ensures Below(f, info, info) && forall b :: Below(f, f.kids[info][i], b) ==> Below(f, info, b)
    ensures Below(f, f.kids[info][i], f.kids[info][i]) && f.rank[f.kids[info][i]] < f.rank[info]
  {
    var xs := f.kids[info];
    forall j | i <= j < |xs|
      ensures !Below(f, xs[j], info)
    {
      if Below(f, xs[j], info) {
        BelowInside(f, xs[j], info);
      }
    }
    forall j, b | i < j < |xs| && Below(f, xs[j], b)
      ensures !Below(f, xs[i], b)
    {
      SiblingsApart(f, info, j, i, b);
    }
  }

  lemma MoreEvents(f: Forest<Header>, d: Destructors, info: Header, i: nat)
    requires KidsInside(f) && info in f.kids && i < |f.kids[info]|
    ensures var ts := TreeOf(f, info).children;
            && ts[i] == TreeOf(f, f.kids[info][i])
            && EventsOf(PostOrders(ts[..i + 1]), d) == EventsOf(PostOrders(ts[..i]), d) + EventsOf(PostOrder(ts[i]), d)
  {
    hide EventsOf;
    var ts := TreeOf(f, info).children;
    assert ts[..i + 1] == ts[..i] + [ts[i]];
    PostOrdersAppend(ts[..i], [ts[i]]);
    assert PostOrders([ts[i]]) == PostOrder(ts[i]);
    EventsOfConcat(PostOrders(ts[..i]), PostOrder(ts[i]), d);
  }

  /** With a new block, the first child of ctx if there is one. */
  ghost function Allocated(f: Forest<Header>, ctx: Header?, x: Header): Forest<Header>
    requires WellFormed(f) && x !in f.kids && (ctx != null ==> ctx in f.kids)
  {
    AddedWellFormed(f, x);
    if ctx == null then Added(f, x) else Grafted(Added(f, x), ctx, x)
  }

  lemma AddChildOk(f: Forest<Header>, m: map<Header, Links>, p: Header, x: Header)
    requires WellFormed(f) && Fits(f.kids, m) && IsRoot(f.kids, x) && p in f.kids && !Below(f, x, p)
    ensures WellFormed(Grafted(f, p, x)) && Fits(Grafted(f, p, x).kids, AddChildLinks(m, p, x))
    ensures Grafted(f, p, x).kids.Keys == f.kids.Keys
  {
    GraftedWellFormed(f, p, x);
    AddChildFits(f.kids, m, p, x);
  }

  /** The block and its descendants. */
  ghost function Family(f: Forest<Header>, x: Header): set<Header>
    requires KidsInside(f) && x in f.kids
  {
    set b | b in f.kids && Below(f, x, b)
  }

  /** The first n children of a block and their descendants. */
  ghost function ChildFamilies(f: Forest<Header>, x: Header, n: nat): set<Header>
    requires KidsInside(f) && x in f.kids && n <= |f.kids[x]|
  {
    set b | b in f.kids && exists i :: 0 <= i < n && Below(f, f.kids[x][i], b)
  }

  lemma ChildFamiliesEnds(f: Forest<Header>, x: Header)
    requires WellFormed(f) && x in f.kids
    ensures ChildFamilies(f, x, 0) == {} && x in Family(f, x)
    ensures Family(f, x) == ChildFamilies(f, x, |f.kids[x]|) + {x} && x !in ChildFamilies(f, x, |f.kids[x]|)
  {
    forall i | 0 <= i < |f.kids[x]|
      ensures !Below(f, f.kids[x][i], x)
    {
      if Below(f, f.kids[x][i], x) {
        BelowInside(f, f.kids[x][i], x);
      }
    }
  }

  /** The next child's family has nothing to do with those before it. */
  lemma ChildFamiliesStep(f: Forest<Header>, x: Header, n: nat)
    requires WellFormed(f) && x in f.kids && n < |f.kids[x]|
    ensures f.kids[x][n] in f.kids
    ensures ChildFamilies(f, x, n + 1) == ChildFamilies(f, x, n) + Family(f, f.kids[x][n])
    ensures ChildFamilies(f, x, n) !! Family(f, f.kids[x][n])
    ensures x !in ChildFamilies(f, x, n) && Family(f, f.kids[x][n]) <= Family(f, x)
  {
    forall b, i | b in f.kids && 0 <= i < n && Below(f, f.kids[x][i], b)
      ensures b != x && !Below(f, f.kids[x][n], b)
    {
      BelowInside(f, f.kids[x][i], b);
      SiblingsApart(f, x, i, n, b);
    }
    forall b | b in ChildFamilies(f, x, n + 1)
      ensures b in ChildFamilies(f, x, n) || b in Family(f, f.kids[x][n])
    {
      var i :| 0 <= i < n + 1 && Below(f, f.kids[x][i], b);
    }
  }

  ghost function LinksOf(blocks: set<Header>): map<Header, Links>
    reads blocks
  {
    map b | b in blocks :: b.AllLinks()
  }

  ghost function DestructorsOf(blocks: set<Header>): Destructors
    reads blocks`destructor
  {
    map b | b in blocks :: b.destructor
  }

  /** The forest of the blocks in use, and what has been done to the world outside; released blocks must not
      be looked at again. */
  class Allocator {
    ghost var f: Forest<Header>
    ghost var released: set<Header>
    var log: seq<Event>

    ghost function Snapshot(): map<Header, Links>
      reads this, f.kids.Keys
    {
      LinksOf(f.kids.Keys)
    }

    ghost function Destroys(): Destructors
      reads this, f.kids.Keys`destructor
    {
      DestructorsOf(f.kids.Keys)
    }

    /** The headers are linked as the forest says, and none of its blocks has been released. */
    ghost predicate Valid()
      reads this, f.kids.Keys
    {
      WellFormed(f) && Fits(f.kids, Snapshot()) && released !! f.kids.Keys
    }

    lemma ValidParts()
      requires Valid()
      ensures WellFormed(f) && KidsInside(f) && Fits(f.kids, Snapshot()) && Snapshot().Keys == f.kids.Keys
    {
    }

    constructor ()
      ensures Valid() && f.kids == map[] && released == {} && log == []
    {
      f := Forest(map[], map[]);
      released := {};
      log := [];
    }

    /** The stores of add_child. */
    method LinkChild(parent: Header, info: Header)
      requires parent in f.kids && info in f.kids && parent.child != info
      requires parent.child == null || parent.child in f.kids
      modifies f.kids.Keys`parent, f.kids.Keys`child, f.kids.Keys`prev, f.kids.Keys`next
      ensures Snapshot() == AddChildLinks(old(Snapshot()), parent, info)
    {
      hide AddChildLinks;
      ghost var m := Snapshot();
      info.parent := parent;
      info.next := parent.child;
      parent.child := info;
      if info.next != null {
        info.next.prev := info;
      }
      forall c | c in m
        ensures AddChildLinks(m, parent, info).Keys == m.Keys && Snapshot()[c] == AddChildLinks(m, parent, info)[c]
      {
        AddChildLink(m, parent, info, c);
      }
      AddChildLink(m, parent, info, info);
    }

    /** The stores of add_child in any case; unless the parent is in the tree of the block, the headers stay
        linked as a forest says. */
    method AddChild(parent: Header?, info: Header)
      requires Valid() && IsRoot(f.kids, info) && (parent != null ==> parent in f.kids)
      modifies this`f, f.kids.Keys`parent, f.kids.Keys`child, f.kids.Keys`prev, f.kids.Keys`next
      ensures Snapshot() == old(if parent == null then Snapshot() else AddChildLinks(Snapshot(), parent, info))
      ensures parent == null || !old(Below(f, info, parent)) ==> Valid()
      ensures f == old(if parent == null || Below(f, info, parent) then f else Grafted(f, parent, info))
      ensures Destroys() == old(Destroys())
    {
      hide Fits, WellFormed, Below, AddChildLinks, IsRoot, LinksOf, DestructorsOf;
      if parent != null {
        ghost var m := Snapshot();
        RootInside(f.kids, info);
        ParentOk(parent, info);
        LinkChild(parent, info);
        if !Below(f, info, parent) {
          AddChildOk(f, m, parent, info);
          f := Grafted(f, parent, info);
        }
      }
    }

    lemma ParentOk(parent: Header, info: Header)
      requires Valid() && IsRoot(f.kids, info) && parent in f.kids
      ensures KidsInside(f) && parent.child != info && (parent.child == null || parent.child in f.kids)
    {
      FirstNotRoot(f.kids, Snapshot(), parent, info);
      FirstAt(f.kids[parent]);
      assert Snapshot()[parent].child == parent.child;
    }

    /** ralloc_size; ctx is the parent, or null for a root. */
    method Alloc(ctx: Header?) returns (info: Header)
      requires Valid() && (ctx != null ==> ctx in f.kids)
      modifies this`f, f.kids.Keys`parent, f.kids.Keys`child, f.kids.Keys`prev, f.kids.Keys`next
      ensures Valid() && fresh(info) && info.destructor == None
      ensures f == Allocated(old(f), ctx, info)
    {
      hide Fits, WellFormed, Below, Grafted, EventsOf, IsRoot, AddChildLinks;
      info := new Header();
      ghost var m := Snapshot();
      f := Added(f, info);
      assert Snapshot() == m[info := NO_LINKS];
      AddedOk(old(f), m, info);
      AddChild(ctx, info);
    }

    /** Lets the parent and the siblings of a block bypass it. */
    method Bypass(info: Header)
      requires info in f.kids && info.parent in f.kids && info.prev != info && info.next != info
      requires info.prev == null || (info.prev in f.kids && info.prev != info.next)
      requires info.next == null || info.next in f.kids
      modifies f.kids.Keys`child, f.kids.Keys`prev, f.kids.Keys`next
      ensures forall c :: c in f.kids ==>
                && c.child == old(if c == info.parent && c.child == info then info.next else c.child)
                && c.prev == old(if c == info.next then info.prev else c.prev)
                && c.next == old(if c == info.prev then info.next else c.next)
    {
      if info.parent.child == info {
        info.parent.child := info.next;
      }
      if info.prev != null {
        info.prev.next := info.next;
      }
      if info.next != null {
        info.next.prev := info.prev;
      }
    }

    /** The stores of unlink_block. */
    method UnlinkBlock(info: Header)
      requires info in f.kids && info !in {info.parent, info.prev, info.next}
      requires info.parent == null || info.parent in f.kids
      requires info.prev == null || (info.prev in f.kids && info.prev != info.next)
      requires info.next == null || info.next in f.kids
      requires info.parent == null ==> info.prev == null && info.next == null
      modifies f.kids.Keys`parent, f.kids.Keys`child, f.kids.Keys`prev, f.kids.Keys`next
      ensures Snapshot() == old(Unlinked(Snapshot(), info))
    {
      hide UnlinkLinks;
      ghost var m := Snapshot();
      if info.parent != null {
        Bypass(info);
      }
      info.parent := null;
      info.prev := null;
      info.next := null;
      if m[info].parent != null {
        forall c | c in m
          ensures UnlinkLinks(m, info).Keys == m.Keys && Snapshot()[c] == UnlinkLinks(m, info)[c]
        {
          UnlinkLink(m, info, c);
        }
        UnlinkLink(m, info, info);
      }
    }

    method Unlink(info: Header)
      requires Valid() && info in f.kids
      modifies this`f, f.kids.Keys`parent, f.kids.Keys`child, f.kids.Keys`prev, f.kids.Keys`next
      ensures Valid() && IsRoot(f.kids, info)
      ensures f == Detached(old(f), info) && f.kids.Keys == old(f.kids.Keys) && Destroys() == old(Destroys())
      ensures Snapshot() == old(Unlinked(Snapshot(), info))
    {
      hide Fits, WellFormed, Unlinked, Detached, IsRoot, Below, LinksOf, DestructorsOf;
      UnlinkOk(info);
      UnlinkBlock(info);
      f := Detached(f, info);
    }

    lemma UnlinkOk(info: Header)
      requires Valid() && info in f.kids
      ensures IsRoot(Detached(f, info).kids, info) && WellFormed(Detached(f, info))
      ensures Detached(f, info).kids.Keys == f.kids.Keys
      ensures Fits(Detached(f, info).kids, Unlinked(Snapshot(), info))
      ensures info.parent == null ==> info.prev == null && info.next == null
      ensures info.parent == null || info.parent in f.kids
      ensures info.prev == null || info.prev in f.kids
      ensures info.next == null || info.next in f.kids
      ensures info !in {info.parent, info.prev, info.next}
      ensures info.prev == null || info.prev != info.next
    {
      hide Fits, Below, UnlinkLinks, Detached;
      DetachedTree(f, info);
      UnlinkedFits(f, Snapshot(), info);
      assert Snapshot()[info] == info.AllLinks();
    }

    // ---- ralloc_free ----

    /** The next-links of all children are those of the forest. */
    ghost predicate NextsFit()
      requires KidsInside(f)
      reads this, f.kids.Keys
    {
      forall b, i :: b in f.kids && 0 <= i < |f.kids[b]| ==> f.kids[b][i].next == At(f.kids[b], i + 1)
    }

    /** The first-child-links of a block and its descendants are those of the forest. */
    ghost predicate FirstsBelowFit(x: Header)
      requires KidsInside(f) && x in f.kids
      reads this, f.kids.Keys
    {
      forall b :: b in f.kids && Below(f, x, b) ==> b.child == At(f.kids[b], 0)
    }

    /** free, on a block that has not been released. */
    method ReleaseBlock(info: Header)
      requires info !in released
      modifies this`log, this`released
      ensures log == old(log) + [Release(info)] && released == old(released) + {info}
    {
      log := log + [Release(info)];
      released := released + {info};
    }

    /** Frees a block and everything below it, without unlinking.  Wherever a header is looked at, it has not
        been released. */
    method UnsafeFree(info: Header)
      requires WellFormed(f) && NextsFit() && info in f.kids && FirstsBelowFit(info) && released !! Family(f, info)
      modifies this`log, this`released, f.kids.Keys`child
      ensures Destroys() == old(Destroys())
      ensures log == old(log) + EventsOf(PostOrder(TreeOf(f, info)), old(Destroys()))
      ensures released == old(released) + Family(f, info)
      ensures forall b :: b in f.kids && !Below(f, info, b) ==> b.child == old(b.child)
      decreases f.rank[info], 2
    {
      hide EventsOf, KidsOnce, TreeOf, PostOrders, NextsFit, FirstsBelowFit, Below, Family, ChildFamilies;
      BeforeFree(info);
      ChildFamiliesEnds(f, info);
      FreeChildren(info);
      EventsOfOne(PostOrders(TreeOf(f, info).children), info, Destroys());
      assert info !in released;
      if info.destructor.Some? {
        log := log + [Destroy(info, info.destructor.value)];
      }
      ReleaseBlock(info);
    }

    /** Frees the children, first child first. */
    method FreeChildren(info: Header)
      requires WellFormed(f) && NextsFit() && info in f.kids && FirstsBelowFit(info) && released !! Family(f, info)
      modifies this`log, this`released, f.kids.Keys`child
      ensures Destroys() == old(Destroys())
      ensures log == old(log) + EventsOf(PostOrders(TreeOf(f, info).children), old(Destroys()))
      ensures released == old(released) + ChildFamilies(f, info, |f.kids[info]|)
      ensures forall b :: b in f.kids && !Below(f, info, b) ==> b.child == old(b.child)
      decreases f.rank[info], 1
    {
      hide EventsOf, KidsOnce, TreeOf, NextsFit, FirstsBelowFit, Below, PostOrder, PostOrders, Family, ChildFamilies;
      ghost var xs, ts := f.kids[info], TreeOf(f, info).children;
      ghost var i, d := 0, Destroys();
      BeforeFree(info);
      ChildFamiliesEnds(f, info);
      while info.child != null
        invariant 0 <= i <= |xs| == |ts| && info.child == At(xs, i) && NextsFit()
        invariant Destroys() == d && log == old(log) + EventsOf(PostOrders(ts[..i]), d)
        invariant forall j :: i <= j < |xs| ==> FirstsBelowFit(xs[j])
        invariant released == old(released) + ChildFamilies(f, info, i) && info !in released
        invariant forall b :: b in f.kids && !Below(f, info, b) ==> b.child == old(b.child)
        decreases |xs| - i
      {
        ChildFamiliesStep(f, info, i);
        FreeChild(info, i);
        MoreEvents(f, d, info, i);
        i := i + 1;
      }
      assert ts[..i] == ts;
    }

    lemma BeforeFree(info: Header)
      requires WellFormed(f) && NextsFit() && info in f.kids && FirstsBelowFit(info)
      ensures var xs, t := f.kids[info], TreeOf(f, info);
              && t.block == info && |t.children| == |xs| && info.child == At(xs, 0)
              && EventsOf(PostOrders(t.children[..0]), Destroys()) == []
              && forall j :: 0 <= j < |xs| ==> FirstsBelowFit(xs[j])
    {
      assert Below(f, info, info);
    }

    /** Takes the first child off the list of children and frees it. */
    method FreeChild(info: Header, ghost i: nat)
      requires WellFormed(f) && NextsFit() && info in f.kids && i < |f.kids[info]|
      requires info.child == f.kids[info][i] && info !in released && released !! Family(f, f.kids[info][i])
      requires forall j :: i <= j < |f.kids[info]| ==> FirstsBelowFit(f.kids[info][j])
      modifies this`log, this`released, f.kids.Keys`child
      ensures NextsFit() && info.child == At(f.kids[info], i + 1)
      ensures Destroys() == old(Destroys())
      ensures log == old(log) + EventsOf(PostOrder(TreeOf(f, f.kids[info][i])), old(Destroys()))
      ensures released == old(released) + Family(f, f.kids[info][i]) && info !in released
      ensures forall j :: i < j < |f.kids[info]| ==> FirstsBelowFit(f.kids[info][j])
      ensures forall b :: b in f.kids && !Below(f, info, b) ==> b.child == old(b.child)
      decreases f.rank[info], 0
    {
      hide EventsOf, KidsInside, KidsOnce, TreeOf, PostOrder, Below, At;
      ghost var xs := f.kids[info];
      ChildApart(f, info, i);
      var temp := info.child;
      assert temp !in released;
      info.child := temp.next;
      assert FirstsBelowFit(temp);
      UnsafeFree(temp);
    }

    /** ralloc_free: detaches a block and frees its tree, children first, running destructors. */
    method Free(ptr: Header?)
      requires Valid() && (ptr != null ==> ptr in f.kids)
      modifies this, f.kids.Keys`parent, f.kids.Keys`child, f.kids.Keys`prev, f.kids.Keys`next
      ensures Valid()
      ensures f == if ptr == null then old(f) else Freed(old(f), ptr)
      ensures log == old(log) + if ptr == null then [] else old(EventsOf(PostOrder(TreeOf(f, ptr)), Destroys()))
      ensures released == old(released) + if ptr == null then {} else old(Family(f, ptr))
    {
      hide EventsOf, WellFormed, Fits, Detached, Dropped, TreeOf, PostOrder;
      if ptr == null {
        return;
      }
      FreedOk(f, ptr);
      Unlink(ptr);
      FreeRoot(ptr);
    }

    method FreeRoot(x: Header)
      requires Valid() && IsRoot(f.kids, x)
      modifies this, f.kids.Keys`child
      ensures Valid() && f == Dropped(old(f), x)
      ensures log == old(log) + old(EventsOf(PostOrder(TreeOf(f, x)), Destroys()))
      ensures released == old(released + Family(f, x))
    {
      hide EventsOf, WellFormed, Fits, TreeOf, PostOrder, NextsFit, FirstsBelowFit, Below;
      ValidFits(x);
      ghost var m := Snapshot();
      UnsafeFree(x);
      f := Dropped(f, x);
      DroppedFits(old(f), m, x, Snapshot());
    }

    /** ralloc_steal: the stores in any case; the block becomes the first child of the new context, if that is
        outside its tree. */
    method Steal(newCtx: Header, ptr: Header?)
      requires Valid() && newCtx in f.kids && (ptr != null ==> ptr in f.kids)
      modifies this`f, f.kids.Keys`parent, f.kids.Keys`child, f.kids.Keys`prev, f.kids.Keys`next
      ensures Destroys() == old(Destroys())
      ensures ptr == null ==> Valid() && f == old(f) && Snapshot() == old(Snapshot())
      ensures ptr != null ==> Snapshot() == old(StealLinks(Snapshot(), newCtx, ptr))
      ensures ptr != null && !old(Below(f, ptr, newCtx)) ==> Valid() && f == Stolen(old(f), newCtx, ptr)
    {
      if ptr == null {
        return;
      }
      ValidParts();
      hide Valid, Snapshot, Destroys, Fits, WellFormed, Below, Detached, Grafted, AddChildLinks, UnlinkLinks, Unlinked,
           IsRoot, KidsInside;
      StolenOk(f, newCtx, ptr);
      Unlink(ptr);
      AddChild(newCtx, ptr);
    }

    /** ralloc_parent. */
    method Parent(ptr: Header?) returns (r: Header?)
      requires Valid() && (ptr != null ==> ptr in f.kids)
      ensures r == null <==> ptr == null || IsRoot(f.kids, ptr)
      ensures r != null ==> r in f.kids && ptr in f.kids[r]
    {
      if ptr == null {
        return null;
      }
      r := ptr.parent;
      ParentLink(f.kids, Snapshot(), ptr);
    }

    method SetDestructor(ptr: Header, destructor: nat)
      requires Valid() && ptr in f.kids
      modifies ptr`destructor
      ensures Valid() && Destroys() == old(Destroys())[ptr := Some(destructor)]
    {
      hide Fits, WellFormed;
      ghost var m := Snapshot();
      ptr.destructor := Some(destructor);
      assert Snapshot() == m;
    }

    // ---- resize ----

    /** Tells the siblings and the parent of a moved block. */
    method TellNeighbours(was: Header, info: Header)
      requires info !in f.kids && was in f.kids && was !in {was.parent, was.prev, was.next}
      requires info.parent == was.parent && info.prev == was.prev && info.next == was.next
      requires was.parent in f.kids
      requires was.prev == null || (was.prev in f.kids && was.prev != was.next)
      requires was.next == null || was.next in f.kids
      modifies f.kids.Keys`child, f.kids.Keys`prev, f.kids.Keys`next
      ensures forall c :: c in f.kids ==>
                && c.child == old(if c == was.parent && c.child == was then info else c.child)
                && c.prev == old(if c == was.next then info else c.prev)
                && c.next == old(if c == was.prev then info else c.next)
    {
      if info.parent.child == was {
        info.parent.child := info;
      }
      if info.prev != null {
        info.prev.next := info;
      }
      if info.next != null {
        info.next.prev := info;
      }
    }

    /** Tells the children of a block who their parent is. */
    method TellChildren(info: Header, ghost xs: seq<Header>)
      requires info.child == At(xs, 0)
      requires forall i :: 0 <= i < |xs| ==> xs[i].next == At(xs, i + 1)
      modifies (set c | c in xs)`parent
      ensures forall c :: c in xs ==> c.parent == info
    {
      var child := info.child;
      ghost var i := 0;
      while child != null
        invariant 0 <= i <= |xs| && child == At(xs, i)
        invariant forall j :: 0 <= j < i ==> xs[j].parent == info
        decreases |xs| - i
      {
        child.parent := info;
        child := child.next;
        i := i + 1;
      }
    }

    /** What moving a block needs to know about the links around it. */
    lemma ResizeOk(was: Header)
      requires Valid() && was in f.kids
      ensures was !in {was.parent, was.prev, was.next}
      ensures was.parent == null ==> was.prev == null && was.next == null
      ensures was.parent == null || was.parent in f.kids
      ensures was.prev == null || (was.prev in f.kids && was.prev != was.next)
      ensures was.next == null || was.next in f.kids
      ensures was.child == At(f.kids[was], 0) && was !in f.kids[was]
      ensures forall i :: 0 <= i < |f.kids[was]| ==>
                var c := f.kids[was][i];
                c in f.kids && c.next == At(f.kids[was], i + 1) && c.parent == was && c != was.prev
    {
      hide Below, Detached, Fits, KidsOnce;
      UnlinkOk(was);
      ChildrenLinks(was);
    }

    lemma ChildrenLinks(was: Header)
      requires Valid() && was in f.kids
      ensures was.child == At(f.kids[was], 0)
      ensures forall i :: 0 <= i < |f.kids[was]| ==>
                var c := f.kids[was][i]; c.next == At(f.kids[was], i + 1) && c.parent == was && c != was.prev
    {
      forall i | 0 <= i < |f.kids[was]|
        ensures var c := f.kids[was][i]; c.next == At(f.kids[was], i + 1) && c.parent == was && c != was.prev
      {
        assert KidFits(f.kids, Snapshot(), was, i);
        if !IsRoot(f.kids, was) {
          var p, j :| p in f.kids && 0 <= j < |f.kids[p]| && f.kids[p][j] == was;
          assert KidFits(f.kids, Snapshot(), p, j);
          assert 0 < j ==> KidFits(f.kids, Snapshot(), p, j - 1);
        }
      }
    }

    /** The stores of resize for a block that realloc has moved. */
    method RelinkStores(was: Header, info: Header)
      requires Valid() && was in f.kids && info !in f.kids && info.AllLinks() == was.AllLinks()
      modifies f.kids.Keys`parent, f.kids.Keys`child, f.kids.Keys`prev, f.kids.Keys`next
      ensures forall c :: c in f.kids.Keys - {was} + {info} ==>
                && c.parent == (if c in f.kids[was] then info else old(c.parent))
                && c.child == (if c == old(was.parent) && old(c.child) == was then info else old(c.child))
                && c.prev == (if c == old(was.next) then info else old(c.prev))
                && c.next == (if c == old(was.prev) then info else old(c.next))
    {
      hide Fits, WellFormed, At;
      ResizeOk(was);
      if info.parent != null {
        TellNeighbours(was, info);
      }
      assert forall i :: 0 <= i < |f.kids[was]| ==> f.kids[was][i].next == At(f.kids[was], i + 1);
      TellChildren(info, f.kids[was]);
    }

    method Relink(was: Header, info: Header)
      requires Valid() && was in f.kids && info !in f.kids && info.AllLinks() == was.AllLinks()
      modifies f.kids.Keys`parent, f.kids.Keys`child, f.kids.Keys`prev, f.kids.Keys`next
      ensures LinksOf(f.kids.Keys - {was} + {info}) == ResizeLinks(f.kids[was], old(Snapshot()), was, info)
    {
      hide Fits, WellFormed, ResizeLinks;
      ghost var m := Snapshot();
      RelinkStores(was, info);
      forall c | c in f.kids.Keys - {was} + {info}
        ensures c.AllLinks() == ResizeLinks(f.kids[was], m, was, info)[c]
      {
        ResizeLink(f.kids[was], m, was, info, c);
      }
    }

    method Copy(was: Header) returns (info: Header)
      requires Valid() && was in f.kids
      ensures Valid() && fresh(info) && info.AllLinks() == was.AllLinks() && info.destructor == was.destructor
      ensures Snapshot() == old(Snapshot())
    {
      hide Fits, WellFormed;
      ghost var m := Snapshot();
      info := new Header();
      info.parent, info.child, info.prev, info.next := was.parent, was.child, was.prev, was.next;
      info.destructor := was.destructor;
      assert Snapshot() == m;
    }

    /** Moves a block: the new header is a copy, and everything linked to the old one is told. */
    method Move(was: Header) returns (info: Header)
      requires Valid() && was in f.kids
      modifies this`f, f.kids.Keys`parent, f.kids.Keys`child, f.kids.Keys`prev, f.kids.Keys`next
      ensures Valid() && fresh(info) && info.destructor == was.destructor
      ensures f == Renamed(old(f), was, info)
    {
      hide Fits, WellFormed, Renamed, ResizeLinks, IsRoot, Below, LinksOf, DestructorsOf;
      info := Copy(was);
      assert info !in released;
      ValidParts();
      RenamedOk(f, Snapshot(), was, info);
      ghost var links := ResizeLinks(f.kids[was], Snapshot(), was, info);
      Relink(was, info);
      f := Renamed(f, was, info);
      assert Snapshot() == LinksOf(f.kids.Keys) == links;
    }

    /** resize: realloc may fail, resize in place or move the block. */
    method Resize(was: Header, how: Realloc) returns (info: Header?)
      requires Valid() && was in f.kids
      modifies this`f, f.kids.Keys`parent, f.kids.Keys`child, f.kids.Keys`prev, f.kids.Keys`next
      ensures Valid()
      ensures how == Fails ==> info == null && f == old(f)
      ensures how == Stays ==> info == was && f == old(f)
      ensures how == Moves ==> fresh(info) && info.destructor == was.destructor && f == Renamed(old(f), was, info)
    {
      hide Fits, WellFormed, Renamed;
      match how
      case Fails => info := null;
      case Moves => info := Move(was);
      case Stays =>
        ghost var m := Snapshot();
        ResizeOk(was);
        TellChildren(was, f.kids[was]);
        assert Snapshot() == m;
        info := was;
    }

    lemma ValidFits(info: Header)
      requires Valid() && info in f.kids
      ensures WellFormed(f) && KidsInside(f) && NextsFit() && FirstsBelowFit(info)
    {
      forall b, i | b in f.kids && 0 <= i < |f.kids[b]|
        ensures f.kids[b][i].next == At(f.kids[b], i + 1)
      {
        assert KidFits(f.kids, Snapshot(), b, i);
      }
    }
  }

  /** Without a block and what is below it. */
  ghost function Freed(f: Forest<Header>, x: Header): Forest<Header>
    requires WellFormed(f) && x in f.kids
  {
    DetachedTree(f, x);
    Dropped(Detached(f, x), x)
  }

  lemma FreedOk(f: Forest<Header>, x: Header)
    requires WellFormed(f) && x in f.kids
    ensures KidsInside(f) && WellFormed(Detached(f, x)) && IsRoot(Detached(f, x).kids, x)
    ensures TreeOf(Detached(f, x), x) == TreeOf(f, x) && Detached(f, x).kids.Keys == f.kids.Keys
    ensures WellFormed(Freed(f, x)) && Freed(f, x) == Dropped(Detached(f, x), x)
    ensures Family(Detached(f, x), x) == Family(f, x)
    ensures forall b :: b in Freed(f, x).kids ==> b in f.kids && !Below(Detached(f, x), x, b)
  {
    DetachedTree(f, x);
    DroppedWellFormed(Detached(f, x), x);
  }

  lemma DroppedRoot(f: Forest<Header>, x: Header, b: Header)
    requires WellFormed(f) && IsRoot(f.kids, x) && IsRoot(Dropped(f, x).kids, b)
    ensures IsRoot(f.kids, b)
  {
    var g := Dropped(f, x);
    forall c | c in f.kids
      ensures b !in f.kids[c]
    {
      if c in g.kids {
        assert b !in g.kids[c];
      } else if i :| 0 <= i < |f.kids[c]| && f.kids[c][i] == b {
        BelowKid(f, x, c, i);
      }
    }
  }

  lemma DroppedFits(f: Forest<Header>, m: map<Header, Links>, x: Header, m': map<Header, Links>)
    requires WellFormed(f) && Fits(f.kids, m) && IsRoot(f.kids, x)
    requires m'.Keys == Dropped(f, x).kids.Keys && forall b :: b in m' ==> m'[b] == m[b]
    ensures WellFormed(Dropped(f, x)) && Fits(Dropped(f, x).kids, m')
  {
    DroppedWellFormed(f, x);
    var g := Dropped(f, x);
    forall b, i | b in g.kids && 0 <= i < |g.kids[b]|
      ensures KidFits(g.kids, m', b, i)
    {
      assert KidFits(f.kids, m, b, i);
    }
    forall b | b in g.kids && IsRoot(g.kids, b)
      ensures m'[b].parent == null && m'[b].prev == null && m'[b].next == null
    {
      DroppedRoot(f, x, b);
    }
  }

  datatype Realloc = Fails | Stays | Moves

  lemma RenamedOk(f: Forest<Header>, m: map<Header, Links>, was: Header, now: Header)
    requires WellFormed(f) && Fits(f.kids, m) && was in f.kids && now !in f.kids
    ensures KidsInside(f) && WellFormed(Renamed(f, was, now))
    ensures Renamed(f, was, now).kids.Keys == f.kids.Keys - {was} + {now}
    ensures Fits(Renamed(f, was, now).kids, ResizeLinks(f.kids[was], m, was, now))
  {
    RenamedWellFormed(f, was, now);
    ResizeFits(f.kids, m, was, now);
  }

  /** A new block is a leaf, and the first child of its parent, or a root; nothing else changes. */
  lemma AllocatedTrees(f: Forest<Header>, ctx: Header?, x: Header, b: Header)
    requires WellFormed(f) && x !in f.kids && (ctx != null ==> ctx in f.kids) && b in f.kids
    ensures WellFormed(Allocated(f, ctx, x)) && TreeOf(Allocated(f, ctx, x), x) == Node(x, [])
    ensures TreeOf(Allocated(f, ctx, x), b) ==
            if ctx == null then TreeOf(f, b) else GraftIn(TreeOf(f, b), ctx, Node(x, []))
    ensures ctx == null ==> IsRoot(Allocated(f, ctx, x).kids, x)
  {
    AddedWellFormed(f, x);
    AddedTree(f, x, b);
    if ctx != null {
      AddedTree(f, x, ctx);
      GraftedTree(Added(f, x), ctx, x, b);
      GraftedOutside(Added(f, x), ctx, x, x);
    }
  }

  /** x moved from where it was to below p. */
  ghost function Stolen(f: Forest<Header>, p: Header, x: Header): Forest<Header>
    requires WellFormed(f) && p in f.kids && x in f.kids
  {
    DetachedTree(f, x);
    Grafted(Detached(f, x), p, x)
  }

  lemma StolenOk(f: Forest<Header>, p: Header, x: Header)
    requires WellFormed(f) && p in f.kids && x in f.kids
    ensures WellFormed(Detached(f, x)) && IsRoot(Detached(f, x).kids, x) && Detached(f, x).kids.Keys == f.kids.Keys
    ensures KidsInside(Detached(f, x)) && KidsInside(f) && Below(Detached(f, x), x, p) == Below(f, x, p)
    ensures Stolen(f, p, x) == Grafted(Detached(f, x), p, x) && Stolen(f, p, x).kids.Keys == f.kids.Keys
    ensures !Below(f, x, p) ==> WellFormed(Stolen(f, p, x))
  {
    DetachedTree(f, x);
    if !Below(f, x, p) {
      GraftedWellFormed(Detached(f, x), p, x);
    }
  }

  /** A stolen tree is intact, and the new first child of p; every tree has only lost it where it was, and
      gained it below p. */
  lemma StolenTrees(f: Forest<Header>, p: Header, x: Header, b: Header)
    requires WellFormed(f) && p in f.kids && x in f.kids && !Below(f, x, p) && b in f.kids
    ensures WellFormed(Stolen(f, p, x)) && b in Stolen(f, p, x).kids
    ensures TreeOf(Stolen(f, p, x), x) == TreeOf(f, x)
    ensures TreeOf(Stolen(f, p, x), b) == GraftIn(Without(f, TreeOf(f, b), x), p, TreeOf(f, x))
  {
    StolenOk(f, p, x);
    DetachedTree(f, x);
    DetachedTrees(f, x, b);
    GraftedTree(Detached(f, x), p, x, b);
    GraftedOutside(Detached(f, x), p, x, x);
  }

  /** What is left after freeing x are the blocks outside its tree, and their trees have only lost it. */
  lemma FreedTrees(f: Forest<Header>, x: Header, b: Header)
    requires WellFormed(f) && x in f.kids && b in f.kids
    ensures WellFormed(Freed(f, x)) && (b in Freed(f, x).kids <==> !Below(f, x, b))
    ensures b in Freed(f, x).kids ==> TreeOf(Freed(f, x), b) == Without(f, TreeOf(f, b), x)
  {
    FreedOk(f, x);
    DetachedTree(f, x);
    DetachedTrees(f, x, b);
    if !Below(f, x, b) {
      DroppedTree(Detached(f, x), x, b);
    }
  }

  // ---- stealing into the stolen tree ----

  /** In a forest the links come from, a block is ranked below the one it was below before, if neither it nor
      a block in between is x. */
  lemma {:induction false} RankBelow(f: Forest<Header>, m: map<Header, Links>, p: Header, x: Header, b: Header,
                                     g: Forest<Header>)
    requires WellFormed(f) && Fits(f.kids, m) && IsRoot(f.kids, x) && p in f.kids && Below(f, x, b)
    requires WellFormed(g) && Fits(g.kids, AddChildLinks(m, p, x))
    ensures b in g.kids && x in g.kids && (b == x || g.rank[b] < g.rank[x])
    decreases f.rank[x] as int - if b in f.rank then f.rank[b] else 0
  {
    hide Fits, AddChildLinks, Below, KidsOnce;
    BelowInside(f, x, b);
    FitsKeys(f.kids, m);
    FitsKeys(g.kids, AddChildLinks(m, p, x));
    FirstNotRootOf(f, m, p, x);
    AddChildLink(m, p, x, b);
    if b != x {
      var y, i := ParentBelow(f, x, b);
      BelowInside(f, x, y);
      KidParent(f.kids, m, y, i);
      RankBelow(f, m, p, x, y, g);
      ParentLink(g.kids, AddChildLinks(m, p, x), b);
      KidRank(g, y, b);
    }
  }

  lemma FitsKeys(kids: map<Header, seq<Header>>, m: map<Header, Links>)
    requires Fits(kids, m)
    ensures m.Keys == kids.Keys
  {
  }

  lemma FirstNotRootOf(f: Forest<Header>, m: map<Header, Links>, p: Header, x: Header)
    requires Fits(f.kids, m) && p in f.kids && IsRoot(f.kids, x)
    ensures p in m && x in m && m[p].child != x
  {
    FirstNotRoot(f.kids, m, p, x);
  }

  lemma KidParent(kids: map<Header, seq<Header>>, m: map<Header, Links>, y: Header, i: nat)
    requires Fits(kids, m) && y in kids && i < |kids[y]|
    ensures kids[y][i] in m && m[kids[y][i]].parent == y
  {
    assert KidFits(kids, m, y, i);
  }

  lemma KidRank(g: Forest<Header>, y: Header, b: Header)
    requires KidsInside(g) && y in g.kids && b in g.kids[y]
    ensures b in g.kids && g.rank[b] < g.rank[y]
  {
  }

  lemma CycleFitsNothing(f: Forest<Header>, m: map<Header, Links>, p: Header, x: Header, g: Forest<Header>)
    requires WellFormed(f) && Fits(f.kids, m) && IsRoot(f.kids, x) && p in f.kids && Below(f, x, p)
    ensures p in m && x in m && !(WellFormed(g) && Fits(g.kids, AddChildLinks(m, p, x)))
  {
    hide Fits, AddChildLinks, Below, KidsOnce;
    FirstNotRootOf(f, m, p, x);
    if WellFormed(g) && Fits(g.kids, AddChildLinks(m, p, x)) {
      RankBelow(f, m, p, x, p, g);
      AddChildLink(m, p, x, x);
      ParentLink(g.kids, AddChildLinks(m, p, x), x);
      KidRank(g, p, x);
      assert false;
    }
  }

  /** The links ralloc_steal leaves are those of a forest exactly if the new context is not in the tree of the
      block; otherwise they form a cycle. */
  lemma StealFits(f: Forest<Header>, m: map<Header, Links>, p: Header, x: Header)
    requires WellFormed(f) && Fits(f.kids, m) && p in f.kids && x in f.kids
    ensures p in m && x in m
    ensures (exists g: Forest<Header> :: WellFormed(g) && Fits(g.kids, StealLinks(m, p, x))) <==> !Below(f, x, p)
  {
    hide Fits, WellFormed, Below, AddChildLinks, UnlinkLinks, Detached, Grafted;
    FitsKeys(f.kids, m);
    StolenOk(f, p, x);
    var d, n := Detached(f, x), Unlinked(m, x);
    UnlinkedFits(f, m, x);
    if Below(f, x, p) {
      forall g: Forest<Header>
        ensures !(WellFormed(g) && Fits(g.kids, StealLinks(m, p, x)))
      {
        CycleFitsNothing(d, n, p, x, g);
      }
    } else {
      AddChildOk(d, n, p, x);
      assert WellFormed(Stolen(f, p, x)) && Fits(Stolen(f, p, x).kids, StealLinks(m, p, x));
    }
  }

  /** A block with one child. */
  function Pair(x: Header, p: Header): Forest<Header>
    requires x != p
  {
    var kids: map<Header, seq<Header>> := map[x := [p], p := []];
    var rank: map<Header, nat> := map[x := 1, p := 0];
    Forest(kids, rank)
  }

  function PairLinks(x: Header, p: Header): map<Header, Links> {
    map[x := Links(null, p, null, null), p := Links(x, null, null, null)]
  }

  lemma PairFits(x: Header, p: Header)
    requires x != p
    ensures WellFormed(Pair(x, p)) && Fits(Pair(x, p).kids, PairLinks(x, p)) && Below(Pair(x, p), x, p)
  {
    var kids := Pair(x, p).kids;
    assert p in kids[x];
    assert Below(Pair(x, p), kids[x][0], p);
  }

  /** A block stolen into its only child: each is the other's parent, and the links are those of no forest. */
  lemma StealIntoChild(x: Header, p: Header)
    requires x != p
    ensures Fits(Pair(x, p).kids, PairLinks(x, p))
    ensures var m := StealLinks(PairLinks(x, p), p, x);
            && m[x].parent == p && m[p].parent == x
            && !exists g: Forest<Header> :: WellFormed(g) && Fits(g.kids, m)
  {
    hide UnlinkLinks, AddChildLinks, Fits, WellFormed, Below;
    PairFits(x, p);
    StealFits(Pair(x, p), PairLinks(x, p), p, x);
    AddChildLink(PairLinks(x, p), p, x, x);
    AddChildLink(PairLinks(x, p), p, x, p);
  }

  lemma ParentLink(kids: map<Header, seq<Header>>, m: map<Header, Links>, x: Header)
    requires Fits(kids, m) && x in kids
    ensures m[x].parent == null <==> IsRoot(kids, x)
    ensures m[x].parent != null ==> m[x].parent in kids && x in kids[m[x].parent]
  {
    if !IsRoot(kids, x) {
      var b, i :| b in kids && 0 <= i < |kids[b]| && kids[b][i] == x;
      assert KidFits(kids, m, b, i);
    }
  }

  /** The stores of unlink_block, for any block. */
  function Unlinked(m: map<Header, Links>, x: Header): map<Header, Links>
    requires x in m
  {
    if m[x].parent == null then m else UnlinkLinks(m, x)
  }

  /** The stores of ralloc_steal. */
  function StealLinks(m: map<Header, Links>, p: Header, x: Header): map<Header, Links>
    requires p in m && x in m
  {
    UnlinkedKeys(m, x);
    AddChildLinks(Unlinked(m, x), p, x)
  }

  lemma UnlinkedKeys(m: map<Header, Links>, x: Header)
    requires x in m
    ensures Unlinked(m, x).Keys == m.Keys
  {
  }

  lemma UnlinkedFits(f: Forest<Header>, m: map<Header, Links>, x: Header)
    requires WellFormed(f) && Fits(f.kids, m) && x in f.kids
    ensures x in m && Fits(Detached(f, x).kids, Unlinked(m, x))
    ensures var l := m[x];
            && (l.parent == null ==> l.prev == null && l.next == null)
            && (l.parent == null || l.parent in f.kids) && (l.prev == null || l.prev in f.kids)
            && (l.next == null || l.next in f.kids) && x !in {l.parent, l.prev, l.next}
            && (l.prev == null || l.prev != l.next)
  {
    hide Fits, UnlinkLinks;
    FitsKeys(f.kids, m);
    if IsRoot(f.kids, x) {
      RootLinks(f.kids, m, x);
    } else {
      var p, i :| p in f.kids && 0 <= i < |f.kids[p]| && f.kids[p][i] == x;
      DetachedPruned(f, p, i);
      UnlinkFits(f.kids, m, p, i);
      NeighboursApart(f.kids, m, p, i);
      NeighboursInside(f.kids, p, i);
    }
  }

  lemma NeighboursInside(kids: map<Header, seq<Header>>, p: Header, i: nat)
    requires p in kids && i < |kids[p]| && forall j :: 0 <= j < |kids[p]| ==> kids[p][j] in kids
    ensures At(kids[p], i - 1) == null || At(kids[p], i - 1) in kids
    ensures At(kids[p], i + 1) == null || At(kids[p], i + 1) in kids
  {
  }

  lemma RootLinks(kids: map<Header, seq<Header>>, m: map<Header, Links>, x: Header)
    requires Fits(kids, m) && IsRoot(kids, x)
    ensures x in m && m[x].parent == null && m[x].prev == null && m[x].next == null
  {
  }

  lemma AddedOk(f: Forest<Header>, m: map<Header, Links>, x: Header)
    requires WellFormed(f) && Fits(f.kids, m) && x !in f.kids
    ensures WellFormed(Added(f, x)) && Fits(Added(f, x).kids, m[x := NO_LINKS])
    ensures IsRoot(Added(f, x).kids, x) && forall y :: y in f.kids ==> !Below(Added(f, x), x, y)
  {
    AddedWellFormed(f, x);
    var g, m' := Added(f, x).kids, m[x := NO_LINKS];
    forall b, i | b in g && 0 <= i < |g[b]|
      ensures KidFits(g, m', b, i)
    {
      assert KidFits(f.kids, m, b, i);
    }
    forall b | b in g && IsRoot(g, b)
      ensures b in m' && m'[b].parent == null && m'[b].prev == null && m'[b].next == null
    {
      if b != x {
        forall c | c in f.kids
          ensures b !in f.kids[c]
        {
          assert g[c] == f.kids[c];
        }
        assert IsRoot(f.kids, b);
      }
    }
  }
}
