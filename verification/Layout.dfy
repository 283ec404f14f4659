/** Laying out an assembled program: instruction offsets, NOPs that align entry points, and labels. */
module Layout {
  import opened Options

  /** Padding is a NOP the layout has added. */
  datatype Entry = Insn(id: nat) | Padding | Label(name: string, entryPoint: bool)

  /** An entry of the program with its inst_offset. */
  datatype Item = Item(entry: Entry, offset: nat)

  predicate IsEntryPoint(e: Entry) {
    e.Label? && e.entryPoint
  }

  /** How many NOPs go behind an entry at an offset: none, unless an entry point follows. */
  function PaddingBehind(es: seq<Entry>, at: nat): (k: nat)
    requires es != []
    ensures k <= 3 && (|es| > 1 && IsEntryPoint(es[1]) ==> (at + k + 1) % 4 == 0)
  {
    if |es| > 1 && IsEntryPoint(es[1]) then 3 - at % 4 else 0
  }

  function Nops(at: nat, k: nat): (r: seq<Item>)
    ensures |r| == k
  {
    seq(k, j requires 0 <= j < k => Item(Padding, at + 1 + j))
  }

  /** The offset behind an entry and its padding: a label takes no room of its own. */
  function Behind(es: seq<Entry>, at: nat): nat
    requires es != []
  {
    at + PaddingBehind(es, at) + if PaddingBehind(es, at) > 0 || !es[0].Label? then 1 else 0
  }

  /** The program laid out from an offset on. */
  function Laid(es: seq<Entry>, at: nat): (r: seq<Item>)
    ensures |r| >= |es|
  {
    if es == [] then []
    else [Item(es[0], at)] + Nops(at, PaddingBehind(es, at)) + Laid(es[1..], Behind(es, at))
  }

  /** As parsed, with no offsets yet. */
  function Unplaced(es: seq<Entry>): (r: seq<Item>)
    ensures |r| == |es|
  {
    seq(|es|, i requires 0 <= i < |es| => Item(es[i], 0))
  }

  class Program {
    var items: seq<Item>
    var labels: seq<(string, nat)>

    constructor (es: seq<Entry>)
      ensures items == Unplaced(es) && labels == []
    {
      items, labels := Unplaced(es), [];
    }

    /** Inserts NOPs behind item i, at offset at, until the one behind the last would be at a multiple of
        four; returns where the last item then is, and its offset. */
    method Pad(i: nat, at: nat) returns (last: nat, offset: nat)
      requires i < |items|
      modifies this`items
      ensures offset == at + (3 - at % 4) && last == i + (3 - at % 4)
      ensures items == old(items[..i + 1]) + Nops(at, 3 - at % 4) + old(items[i + 1..])
    {
      last, offset := i, at;
      while (offset + 1) % 4 != 0
        invariant at <= offset <= at + (3 - at % 4) && last == i + offset - at
        invariant items == old(items[..i + 1]) + Nops(at, offset - at) + old(items[i + 1..])
        decreases at + 3 - offset
      {
        offset := offset + 1;
        items := items[..last + 1] + [Item(Padding, offset)] + items[last + 1..];
        last := last + 1;
      }
    }

    /** Sets the offset of item i and pads behind it; rest are the entries from item i on. */
    method PlaceItem(i: nat, at: nat, ghost rest: seq<Entry>) returns (next: nat, offset: nat)
      requires i < |items| && items[i..] == Unplaced(rest)
      modifies this`items
      ensures next <= |items| && items[next..] == Unplaced(rest[1..]) && offset == Behind(rest, at)
      ensures items[..next] == old(items[..i]) + [Item(rest[0], at)] + Nops(at, PaddingBehind(rest, at))
    {
      hide Nops;
      assert items[i] == items[i..][0] && (i + 1 < |items| ==> items[i + 1] == items[i..][1]);
      assert items[i + 1..] == items[i..][1..] == Unplaced(rest[1..]);
      items := items[i := Item(items[i].entry, at)];
      next, offset := i, at;
      if i + 1 < |items| && IsEntryPoint(items[i + 1].entry) {
        next, offset := Pad(i, at);
      } else {
        assert Nops(at, 0) == [];
      }
      assert next != i ==>
          items[next] == Nops(at, PaddingBehind(rest, at))[next - i - 1] && items[next].entry == Padding by {
        NopsArePadding(at, PaddingBehind(rest, at));
      }
      if !items[next].entry.Label? {
        offset := offset + 1;
      }
      next := next + 1;
    }

    lemma NopsArePadding(at: nat, k: nat)
      ensures forall j :: 0 <= j < k ==> Nops(at, k)[j] == Item(Padding, at + 1 + j)
    {
    }

    /** Goes along the list, sets the offsets and inserts NOPs in front of entry points. */
    method SetOffsets(ghost es: seq<Entry>)
      requires items == Unplaced(es)
      modifies this`items
      ensures items == Laid(es, 0)
    {
      hide Nops, Unplaced, Behind;
      var offset: nat, i: nat := 0, 0;
      ghost var rest := es;
      while i < |items|
        invariant i <= |items| && items[i..] == Unplaced(rest)
        invariant items[..i] + Laid(rest, offset) == Laid(es, 0)
        decreases |rest|
      {
        ghost var before, at := items[..i], offset;
        i, offset := PlaceItem(i, offset, rest);
        LaidStep(before, rest, at);
        rest := rest[1..];
      }
    }
  }

  lemma LaidStep(before: seq<Item>, rest: seq<Entry>, at: nat)
    requires rest != []
    ensures before + [Item(rest[0], at)] + Nops(at, PaddingBehind(rest, at)) + Laid(rest[1..], Behind(rest, at)) ==
            before + Laid(rest, at)
  {
    hide Nops, Behind, PaddingBehind;
  }

  // ---- what the layout keeps ----

  function Originals(items: seq<Item>): seq<Entry> {
    if items == [] then []
    else (if items[0].entry.Padding? then [] else [items[0].entry]) + Originals(items[1..])
  }

  lemma {:induction false} OriginalsConcat(a: seq<Item>, b: seq<Item>)
    ensures Originals(a + b) == Originals(a) + Originals(b)
  {
    if a == [] {
      assert a + b == b;
    } else {
      assert (a + b)[1..] == a[1..] + b;
      OriginalsConcat(a[1..], b);
    }
  }

  lemma {:induction false} NoOriginals(items: seq<Item>)
    requires forall i :: 0 <= i < |items| ==> items[i].entry.Padding?
    ensures Originals(items) == []
  {
    if items != [] {
      NoOriginals(items[1..]);
    }
  }

  /** All original entries are kept in order, and only NOPs are added. */
  lemma {:induction false} LaidKeepsOriginals(es: seq<Entry>, at: nat)
    requires forall i :: 0 <= i < |es| ==> !es[i].Padding?
    ensures Originals(Laid(es, at)) == es
  {
    hide Behind, PaddingBehind;
    if es != [] {
      var head, nops, tail := [Item(es[0], at)], Nops(at, PaddingBehind(es, at)), Laid(es[1..], Behind(es, at));
      NoOriginals(nops);
      OriginalsConcat(head, nops);
      OriginalsConcat(head + nops, tail);
      LaidKeepsOriginals(es[1..], Behind(es, at));
      assert Originals(head) == [es[0]];
    }
  }

  /** Behind item i there are up to three NOPs, and then an entry point. */
  ghost predicate LeadsToEntryPoint(items: seq<Item>, i: nat) {
    exists j :: i < j < |items| && j <= i + 3 && IsEntryPoint(items[j].entry)
                && forall k :: i < k < j ==> items[k].entry.Padding?
  }

  lemma LeadsInTail(a: seq<Item>, b: seq<Item>, i: nat)
    requires LeadsToEntryPoint(b, i)
    ensures LeadsToEntryPoint(a + b, |a| + i)
  {
    var s := a + b;
    var j :| i < j < |b| && j <= i + 3 && IsEntryPoint(b[j].entry) && forall k :: i < k < j ==> b[k].entry.Padding?;
    assert s[|a| + j] == b[j];
    forall k | |a| + i < k < |a| + j ensures s[k].entry.Padding? {
      assert s[k] == b[k - |a|];
    }
  }

  lemma LeadsBehindNops(head: Item, at: nat, n: nat, tail: seq<Item>, i: nat)
    requires 0 < i <= n <= 3 && tail != [] && IsEntryPoint(tail[0].entry)
    ensures LeadsToEntryPoint([head] + Nops(at, n) + tail, i)
  {
    var s := [head] + Nops(at, n) + tail;
    assert s[n + 1] == tail[0];
    forall k | i < k < n + 1 ensures s[k].entry.Padding? {
      assert s[k] == Nops(at, n)[k - 1];
    }
  }

  /** NOPs are added only in front of entry points, and no more than three at a place. */
  lemma {:induction false} NopsServeEntryPoints(es: seq<Entry>, at: nat, i: nat)
    requires forall j :: 0 <= j < |es| ==> !es[j].Padding?
    requires i < |Laid(es, at)| && Laid(es, at)[i].entry.Padding?
    ensures LeadsToEntryPoint(Laid(es, at), i)
  {
    hide Behind, LeadsToEntryPoint, Nops;
    var k, tail := PaddingBehind(es, at), Laid(es[1..], Behind(es, at));
    if i <= k {
      assert tail[0].entry == es[1];
      LeadsBehindNops(Item(es[0], at), at, k, tail, i);
    } else {
      NopsServeEntryPoints(es[1..], Behind(es, at), i - 1 - k);
      LeadsInTail([Item(es[0], at)] + Nops(at, k), tail, i - 1 - k);
    }
  }

  // ---- offsets and alignment ----

  function Room(e: Entry): nat {
    if e.Label? then 0 else 1
  }

  /** Every offset is the number of instructions before. */
  predicate Exact(items: seq<Item>, at: nat) {
    items == [] || (items[0].offset == at && Exact(items[1..], at + Room(items[0].entry)))
  }

  predicate Aligned(items: seq<Item>) {
    forall i :: 0 <= i < |items| && IsEntryPoint(items[i].entry) ==> items[i].offset % 4 == 0
  }

  predicate NoEntryPointAfterLabel(es: seq<Entry>) {
    forall i :: 0 < i < |es| && IsEntryPoint(es[i]) ==> !es[i - 1].Label?
  }

  function Instructions(items: seq<Item>): nat {
    if items == [] then 0 else Room(items[0].entry) + Instructions(items[1..])
  }

  lemma {:induction false} ExactCounts(items: seq<Item>, at: nat, i: nat)
    requires Exact(items, at) && i < |items|
    ensures items[i].offset == at + Instructions(items[..i])
  {
    if i > 0 {
      ExactCounts(items[1..], at + Room(items[0].entry), i - 1);
      assert items[..i][1..] == items[1..][..i - 1];
    }
  }

  lemma {:induction false} ExactNops(at: nat, j: nat, k: nat, tail: seq<Item>)
    requires j <= k
    ensures Exact(Nops(at, k)[j..] + tail, at + 1 + j) <==> Exact(tail, at + 1 + k)
    decreases k - j
  {
    var s := Nops(at, k)[j..] + tail;
    if j == k {
      assert s == tail;
    } else {
      assert s[0] == Item(Padding, at + 1 + j) && s[1..] == Nops(at, k)[j + 1..] + tail;
      ExactNops(at, j + 1, k, tail);
    }
  }

  lemma AlignedConcat(a: seq<Item>, b: seq<Item>)
    ensures Aligned(a + b) <==> Aligned(a) && Aligned(b)
  {
    var s := a + b;
    assert forall i :: 0 <= i < |a| ==> s[i] == a[i];
    assert forall i :: 0 <= i < |b| ==> s[|a| + i] == b[i];
  }

  predicate WellLaid(items: seq<Item>, at: nat) {
    Exact(items, at) && Aligned(items)
  }

  lemma AlignedStep(es: seq<Entry>, at: nat)
    requires es != [] && (IsEntryPoint(es[0]) ==> at % 4 == 0)
    ensures Aligned(Laid(es, at)) <==> Aligned(Laid(es[1..], Behind(es, at)))
  {
    hide Behind, PaddingBehind;
    var k, tail := PaddingBehind(es, at), Laid(es[1..], Behind(es, at));
    var head, nops := [Item(es[0], at)], Nops(at, k);
    AlignedConcat(head + nops, tail);
    AlignedConcat(head, nops);
  }

  lemma BehindHead<T>(x: T, a: seq<T>, b: seq<T>)
    ensures var s := [x] + a + b; s[0] == x && s[1..] == a + b
  {
  }

  lemma LaidParts(es: seq<Entry>, at: nat)
    requires es != []
    ensures var s := Laid(es, at);
            s[0] == Item(es[0], at) && s[1..] == Nops(at, PaddingBehind(es, at)) + Laid(es[1..], Behind(es, at))
  {
    hide Nops, Behind, PaddingBehind;
    BehindHead(Item(es[0], at), Nops(at, PaddingBehind(es, at)), Laid(es[1..], Behind(es, at)));
  }

  /** Behind an instruction the offsets are right if those of the rest are. */
  lemma ExactBehindInsn(es: seq<Entry>, at: nat)
    requires es != [] && !es[0].Label?
    ensures Exact(Laid(es, at), at) <==> Exact(Laid(es[1..], Behind(es, at)), Behind(es, at))
  {
    hide Laid;
    var k, tail := PaddingBehind(es, at), Laid(es[1..], Behind(es, at));
    var s := Laid(es, at);
    LaidParts(es, at);
    assert Nops(at, k)[0..] == Nops(at, k);
    ExactNops(at, 0, k, tail);
  }

  lemma ExactBehindLabel(es: seq<Entry>, at: nat)
    requires es != [] && es[0].Label?
    ensures PaddingBehind(es, at) > 0 ==> !Exact(Laid(es, at), at)
    ensures PaddingBehind(es, at) == 0 ==> Behind(es, at) == at
    ensures PaddingBehind(es, at) == 0 ==> (Exact(Laid(es, at), at) <==> Exact(Laid(es[1..], at), at))
  {
    hide Laid;
    var k, tail := PaddingBehind(es, at), Laid(es[1..], Behind(es, at));
    var s := Laid(es, at);
    LaidParts(es, at);
    if k > 0 {
      assert s[1..][0] == Item(Padding, at + 1);
    } else {
      assert s[1..] == tail;
    }
  }

  /** One entry is well laid if the rest is, unless an entry point follows a label. */
  lemma WellLaidStep(es: seq<Entry>, at: nat)
    requires es != [] && (IsEntryPoint(es[0]) ==> at % 4 == 0)
    ensures WellLaid(Laid(es, at), at) <==>
            WellLaid(Laid(es[1..], Behind(es, at)), Behind(es, at)) &&
            !(|es| > 1 && IsEntryPoint(es[1]) && es[0].Label?)
    ensures !es[0].Label? && |es| > 1 && IsEntryPoint(es[1]) ==> Behind(es, at) % 4 == 0
  {
    hide Laid, Exact, Aligned;
    AlignedStep(es, at);
    if !es[0].Label? {
      ExactBehindInsn(es, at);
    } else {
      ExactBehindLabel(es, at);
      if |es| > 1 && IsEntryPoint(es[1]) && PaddingBehind(es, at) == 0 {
        EntryPointMisplaced(es[1..], at);
      }
    }
  }

  lemma EntryPointMisplaced(es: seq<Entry>, at: nat)
    requires es != [] && IsEntryPoint(es[0]) && at % 4 != 0
    ensures !Aligned(Laid(es, at))
  {
    assert Laid(es, at)[0] == Item(es[0], at);
  }

  /** Offsets count the instructions before and all entry points are at multiples of four, if and only
      if no entry point directly follows another label. */
  lemma {:induction false} LaidWell(es: seq<Entry>, at: nat)
    requires es != [] && IsEntryPoint(es[0]) ==> at % 4 == 0
    ensures WellLaid(Laid(es, at), at) <==> NoEntryPointAfterLabel(es)
  {
    hide WellLaid, Laid, Behind;
    if es == [] {
      Nothing(at);
    } else {
      WellLaidStep(es, at);
      NoEntryPointAfterLabelStep(es);
      if !(|es| > 1 && IsEntryPoint(es[1]) && es[0].Label?) {
        LaidWell(es[1..], Behind(es, at));
      }
    }
  }

  lemma Nothing(at: nat)
    ensures WellLaid(Laid([], at), at)
  {
  }

  lemma NoEntryPointAfterLabelStep(es: seq<Entry>)
    requires es != []
    ensures NoEntryPointAfterLabel(es) <==>
            NoEntryPointAfterLabel(es[1..]) && !(|es| > 1 && IsEntryPoint(es[1]) && es[0].Label?)
  {
    var t := es[1..];
    if NoEntryPointAfterLabel(t) {
      forall i | 1 < i < |es| && IsEntryPoint(es[i])
        ensures !es[i - 1].Label?
      {
        assert t[i - 1] == es[i] && t[i - 2] == es[i - 1];
      }
    }
    if NoEntryPointAfterLabel(es) {
      forall i | 0 < i < |t| && IsEntryPoint(t[i])
        ensures !t[i - 1].Label?
      {
        assert t[i] == es[i + 1] && t[i - 1] == es[i];
      }
    }
  }

  /** An entry point directly behind another label: its offset is a multiple of four, but counts an
      instruction too many. */
  lemma EntryPointAfterLabel()
    ensures var es, front := [Insn(0), Label("a", false), Label("b", true)],
                             [Item(Insn(0), 0), Item(Label("a", false), 1), Item(Padding, 2), Item(Padding, 3)];
            && Laid(es, 0) == front + [Item(Label("b", true), 4)]
            && Instructions(front) == 3
            && !WellLaid(Laid(es, 0), 0)
  {
    var a, b := Label("a", false), Label("b", true);
    assert [Insn(0), a, b][1..] == [a, b] && [a, b][1..] == [b] && [b][1..] == [];
    assert Laid([b], 4) == [Item(b, 4)];
    assert Laid([a, b], 1) == [Item(a, 1), Item(Padding, 2), Item(Padding, 3), Item(b, 4)];
    assert Laid([Insn(0), a, b], 0) == [Item(Insn(0), 0)] + [] + Laid([a, b], 1);
    assert !NoEntryPointAfterLabel([Insn(0), a, b]) by { assert IsEntryPoint([Insn(0), a, b][2]); }
    LaidWell([Insn(0), a, b], 0);
    InstructionsOfFour(Item(Insn(0), 0), Item(a, 1), Item(Padding, 2), Item(Padding, 3));
  }

  lemma InstructionsOfFour(a: Item, b: Item, c: Item, d: Item)
    ensures Instructions([a, b, c, d]) == Room(a.entry) + Room(b.entry) + Room(c.entry) + Room(d.entry)
  {
    assert [a, b, c, d][1..] == [b, c, d] && [b, c, d][1..] == [c, d] && [c, d][1..] == [d] && [d][1..] == [];
    assert Instructions([d]) == Room(d.entry) + Instructions([]);
    assert Instructions([c, d]) == Room(c.entry) + Instructions([d]);
    assert Instructions([b, c, d]) == Room(b.entry) + Instructions([c, d]);
  }

  // ---- labels ----

  function LabelOf(x: Item): seq<(string, nat)> {
    if x.entry.Label? then [(x.entry.name, x.offset)] else []
  }

  /** The labels of a program with their offsets, in order. */
  function LabelTable(items: seq<Item>): seq<(string, nat)> {
    if items == [] then [] else LabelOf(items[0]) + LabelTable(items[1..])
  }

  /** Where the labels of a program are. */
  function LabelIndices(items: seq<Item>, n: nat): seq<nat>
    requires n <= |items|
  {
    if n == 0 then [] else LabelIndices(items, n - 1) + if items[n - 1].entry.Label? then [n - 1] else []
  }

  /** They are all there, and in order. */
  lemma {:induction false} LabelIndicesExact(items: seq<Item>, n: nat)
    requires n <= |items|
    ensures var at := LabelIndices(items, n);
            && (forall i: nat :: i in at <==> i < n && items[i].entry.Label?)
            && (forall a, b :: 0 <= a < b < |at| ==> at[a] < at[b])
  {
    if n > 0 {
      LabelIndicesExact(items, n - 1);
      var at := LabelIndices(items, n - 1);
      forall a | 0 <= a < |at| ensures at[a] < n - 1 {
        assert at[a] in at;
      }
    }
  }

  lemma {:induction false} LabelTableAppend(a: seq<Item>, x: Item)
    ensures LabelTable(a + [x]) == LabelTable(a) + LabelOf(x)
  {
    hide LabelOf;
    var s := a + [x];
    if a == [] {
      assert s[1..] == [] && LabelTable(s[1..]) == [];
    } else {
      assert s[1..] == a[1..] + [x];
      LabelTableAppend(a[1..], x);
    }
  }

  /** Entry k of the table is the name of the k-th label of the program and its offset, for all labels. */
  lemma {:induction false} LabelTableExact(items: seq<Item>, n: nat)
    requires n <= |items|
    ensures var at, table := LabelIndices(items, n), LabelTable(items[..n]);
            && |table| == |at|
            && forall k :: 0 <= k < |at| ==>
                 at[k] < n && items[at[k]].entry.Label? && table[k] == (items[at[k]].entry.name, items[at[k]].offset)
  {
    if n > 0 {
      LabelTableExact(items, n - 1);
      assert items[..n] == items[..n - 1] + [items[n - 1]];
      LabelTableAppend(items[..n - 1], items[n - 1]);
    }
  }

  method AddLabels(items: seq<Item>) returns (labels: seq<(string, nat)>)
    ensures labels == LabelTable(items)
  {
    labels := [];
    for i := 0 to |items|
      invariant labels + LabelTable(items[i..]) == LabelTable(items)
    {
      assert items[i..][1..] == items[i + 1..];
      if items[i].entry.Label? {
        labels := labels + [(items[i].entry.name, items[i].offset)];
      }
    }
  }

  /** The first label of the name at or behind start, in the order of the table; if there is none, the
      first label of the name. */
  predicate Picks(table: seq<(string, nat)>, name: string, start: nat, k: nat) {
    && k < |table| && table[k].0 == name
    && if table[k].1 >= start then forall j :: 0 <= j < k && table[j].0 == name ==> table[j].1 < start
       else (forall j :: 0 <= j < |table| && table[j].0 == name ==> table[j].1 < start)
            && forall j :: 0 <= j < k ==> table[j].0 != name
  }

  method LabelToAddr(table: seq<(string, nat)>, name: string, start: nat) returns (r: Option<nat>, ghost k: nat)
    ensures r.Some? <==> exists j :: 0 <= j < |table| && table[j].0 == name
    ensures r.Some? ==> Picks(table, name, start, k) && r.value == table[k].1
  {
    r, k := None, 0;
    for i := 0 to |table|
      invariant forall j :: 0 <= j < i && table[j].0 == name ==> table[j].1 < start
      invariant r.None? ==> forall j :: 0 <= j < i ==> table[j].0 != name
      invariant r.Some? ==> k < i && table[k].0 == name && r.value == table[k].1
      invariant r.Some? ==> forall j :: 0 <= j < k ==> table[j].0 != name
    {
      if table[i].0 == name {
        if table[i].1 >= start {
          return Some(table[i].1), i;
        } else if r.None? {
          r, k := Some(table[i].1), i;
        }
      }
    }
  }

  /** Offsets never fall along the program. */
  predicate Rising(items: seq<Item>, at: nat) {
    forall i :: 0 <= i < |items| ==>
      at <= items[i].offset && forall j :: 0 <= j < i ==> items[j].offset <= items[i].offset
  }

  lemma {:induction false} LaidRising(es: seq<Entry>, at: nat)
    ensures Rising(Laid(es, at), at)
  {
    hide PaddingBehind;
    if es != [] {
      LaidRising(es[1..], Behind(es, at));
      var head := [Item(es[0], at)] + Nops(at, PaddingBehind(es, at));
      assert Rising(head, at) && forall i :: 0 <= i < |head| ==> head[i].offset <= Behind(es, at);
      RisingConcat(head, Laid(es[1..], Behind(es, at)), at, Behind(es, at));
    }
  }

  lemma RisingConcat(a: seq<Item>, b: seq<Item>, at: nat, next: nat)
    requires Rising(a, at) && Rising(b, next) && at <= next && forall i :: 0 <= i < |a| ==> a[i].offset <= next
    ensures Rising(a + b, at)
  {
    var s := a + b;
    forall i, j | 0 <= j <= i < |s|
      ensures at <= s[j].offset <= s[i].offset
    {
    }
  }

  lemma {:induction false} LabelTableRising(items: seq<Item>, at: nat, j: nat, k: nat)
    requires Rising(items, at) && j <= k < |LabelTable(items)|
    ensures at <= LabelTable(items)[j].1 <= LabelTable(items)[k].1
  {
    var rest := LabelTable(items[1..]);
    assert Rising(items[1..], items[0].offset) by {
      forall i, m | 0 <= m <= i < |items[1..]|
        ensures items[0].offset <= items[1..][m].offset <= items[1..][i].offset
      {
        assert items[1..][i] == items[i + 1] && items[1..][m] == items[m + 1];
      }
    }
    if items[0].entry.Label? {
      if k > 0 {
        LabelTableRising(items[1..], items[0].offset, if j > 0 then j - 1 else 0, k - 1);
      }
    } else {
      LabelTableRising(items[1..], items[0].offset, j, k);
    }
  }

  /** In a laid out program a branch gets the nearest label of the name at or behind it; if there is
      none, the first one in the program. */
  lemma PicksNearest(es: seq<Entry>, name: string, start: nat, k: nat, j: nat)
    requires var table := LabelTable(Laid(es, 0)); Picks(table, name, start, k) && j < |table| && table[j].0 == name
    ensures var table := LabelTable(Laid(es, 0));
            && (table[j].1 >= start ==> start <= table[k].1 <= table[j].1)
            && (table[k].1 < start ==> k <= j && table[k].1 <= table[j].1 < start)
  {
    hide Laid, LabelTable;
    LaidRising(es, 0);
    if k <= j {
      LabelTableRising(Laid(es, 0), 0, k, j);
    }
  }

  // ---- labels and instructions ----

  /** The instructions that are put out, NOPs included. */
  function PutOut(items: seq<Item>): seq<Entry> {
    if items == [] then [] else (if items[0].entry.Label? then [] else [items[0].entry]) + PutOut(items[1..])
  }

  lemma {:induction false} PutOutSplit(items: seq<Item>, i: nat)
    requires i <= |items|
    ensures PutOut(items) == PutOut(items[..i]) + PutOut(items[i..]) && |PutOut(items[..i])| == Instructions(items[..i])
  {
    if i == 0 {
      assert items[..0] == [] && items[0..] == items;
    } else {
      assert items[..i][1..] == items[1..][..i - 1] && items[i..] == items[1..][i - 1..];
      PutOutSplit(items[1..], i - 1);
    }
  }

  /** An address that counts the instructions in front of an item is that of the first instruction from the item
      on. */
  lemma CountedAddress(items: seq<Item>, i: nat)
    requires i < |items| && items[i].offset == Instructions(items[..i])
    ensures items[i].offset <= |PutOut(items)| && PutOut(items)[items[i].offset..] == PutOut(items[i..])
  {
    PutOutSplit(items, i);
  }

  /** The place of a label in the table. */
  lemma InTable(items: seq<Item>, j: nat) returns (a: nat)
    requires j < |items| && items[j].entry.Label?
    ensures a < |LabelTable(items)| == |LabelIndices(items, |items|)| && LabelIndices(items, |items|)[a] == j
    ensures LabelTable(items)[a] == (items[j].entry.name, items[j].offset)
  {
    hide LabelTable, LabelIndices;
    assert items[..|items|] == items;
    LabelTableExact(items, |items|);
    LabelIndicesExact(items, |items|);
    assert j in LabelIndices(items, |items|);
    a :| a < |LabelIndices(items, |items|)| && LabelIndices(items, |items|)[a] == j;
  }

  /** The label picked is an item: the first of the name at or behind start, or if there is none the first. */
  lemma PickedItem(items: seq<Item>, name: string, start: nat, k: nat) returns (i: nat)
    requires Picks(LabelTable(items), name, start, k)
    ensures i < |items| && items[i].entry.Label? && items[i].entry.name == name
    ensures items[i].offset == LabelTable(items)[k].1
    ensures forall j :: 0 <= j < i && items[j].entry.Label? && items[j].entry.name == name ==>
              items[i].offset >= start > items[j].offset
    ensures items[i].offset < start ==>
              forall j :: 0 <= j < |items| && items[j].entry.Label? && items[j].entry.name == name ==>
                items[j].offset < start
  {
    hide LabelTable, LabelIndices;
    var at := LabelIndices(items, |items|);
    assert items[..|items|] == items;
    LabelTableExact(items, |items|);
    LabelIndicesExact(items, |items|);
    i := at[k];
    forall j: nat | j < |items| && items[j].entry.Label? && items[j].entry.name == name
      ensures j < i ==> items[i].offset >= start > items[j].offset
      ensures items[i].offset < start ==> items[j].offset < start
    {
      var a := InTable(items, j);
      if k < a {
        assert at[k] < at[a];
      }
    }
  }

  /** In a well-laid program the address of the label picked for a branch is the number of instructions in front of
      the label, so that what is put out from the address on are the instructions behind the label. */
  lemma PickedAddress(es: seq<Entry>, name: string, start: nat, k: nat) returns (i: nat)
    requires NoEntryPointAfterLabel(es) && Picks(LabelTable(Laid(es, 0)), name, start, k)
    ensures var items, address := Laid(es, 0), LabelTable(Laid(es, 0))[k].1;
            && i < |items| && items[i].entry.Label? && items[i].entry.name == name
            && items[i].offset == address == Instructions(items[..i])
            && address <= |PutOut(items)| && PutOut(items)[address..] == PutOut(items[i + 1..])
  {
    hide Laid, LabelTable, Picks, Exact, Aligned, NoEntryPointAfterLabel, Instructions, PutOut;
    var items := Laid(es, 0);
    i := PickedItem(items, name, start, k);
    LaidWell(es, 0);
    ExactCounts(items, 0, i);
    CountedAddress(items, i);
    PutOutBehindLabel(items[i..]);
    assert items[i..][1..] == items[i + 1..];
  }

  lemma PutOutBehindLabel(items: seq<Item>)
    requires items != [] && items[0].entry.Label?
    ensures PutOut(items) == PutOut(items[1..])
  {
  }

  /** In a well-laid program the offset of an instruction is its place among those that are put out. */
  lemma InsnAddress(es: seq<Entry>, m: nat)
    requires NoEntryPointAfterLabel(es) && m < |Laid(es, 0)| && !Laid(es, 0)[m].entry.Label?
    ensures var items := Laid(es, 0);
            items[m].offset < |PutOut(items)| && PutOut(items)[items[m].offset] == items[m].entry
  {
    hide Laid, Exact, Aligned, NoEntryPointAfterLabel, Instructions;
    var items := Laid(es, 0);
    LaidWell(es, 0);
    ExactCounts(items, 0, m);
    CountedAddress(items, m);
    var rest := PutOut(items)[items[m].offset..];
    assert rest[0] == items[m].entry;
  }
}
