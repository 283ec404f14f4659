/** Resolving the labels of branches once the program is laid out, and storing the distances in the
    instructions. */
module Relocation {
  import opened Options
  import Digits
  import opened EuStructs
  import opened Layout
  import EuIr

  /** The branches the stores tell apart; the rest has one target or two. */
  datatype Op = JMPI | CALL | ELSE | OneTarget | TwoTargets

  /** The dwords of a branch that hold distances: bits1, bits2 and bits3. */
  datatype Branch = Branch(op: Op, d1: u32, d2: u32, d3: u32)

  /** Labels to be resolved, and distances, in instructions, that are given or have been resolved. */
  datatype Reloc = Reloc(first: Option<string>, second: Option<string>, firstOffset: int, secondOffset: int)

  /** A relocatable entry of the program, with its inst_offset. */
  datatype Relocatable = Relocatable(offset: nat, branch: Branch, reloc: Reloc)

  // ---- labels ----

  /** A label is picked in one place at most. */
  lemma PicksOnce(table: seq<(string, nat)>, name: string, start: nat, k: nat, j: nat)
    requires Picks(table, name, start, k) && Picks(table, name, start, j)
    ensures k == j
  {
  }

  /** The address of the label picked, if the table has the name. */
  ghost function AddressOf(table: seq<(string, nat)>, name: string, start: nat): Option<nat> {
    if k: nat :| Picks(table, name, start, k) then Some(table[k].1) else None
  }

  method Resolve(table: seq<(string, nat)>, name: string, start: nat) returns (r: Option<nat>)
    ensures r == AddressOf(table, name, start)
    ensures r.Some? <==> exists j :: 0 <= j < |table| && table[j].0 == name
  {
    ghost var k;
    r, k := LabelToAddr(table, name, start);
    if r.Some? {
      Picked(table, name, start, k);
    }
  }

  // ---- the stores; level is ten times the generation, 75 in between ----

  /** The value of a dword holding a signed number, and what it keeps of one. */
  function Signed32(d: u32): int {
    if d < 0x8000_0000 then d else d - 0x1_0000_0000
  }

  function Dword(v: int): u32 {
    v % 0x1_0000_0000
  }

  /** The unit of distances; that of gen7.5 JMPIs is the byte. */
  function Unit(level: nat, op: Op): nat {
    if level >= 75 && op == JMPI then 16 else if level >= 50 then 2 else 1
  }

  /** A JMPI counts from the instruction behind it. */
  function BranchOffset(level: nat, op: Op, offset: int): int {
    (if op == JMPI then offset - 1 else offset) * Unit(level, op)
  }

  function TwoOffsets(level: nat, b: Branch, first: int, second: int): (r: Branch)
    ensures r.op == b.op
  {
    var jip, uip := BranchOffset(level, b.op, first), BranchOffset(level, b.op, second);
    if level >= 80 then b.(d3 := Dword(jip), d2 := Dword(uip))
    else b.(d3 := WithUip(WithJip(b.d3, jip), uip))
  }

  function OneOffset(level: nat, b: Branch, first: int): (r: Branch)
    ensures r.op == b.op
  {
    var jip := BranchOffset(level, b.op, first);
    if level >= 80 then b.(d3 := Dword(jip))
    else if level >= 70 then
      if b.op == JMPI then b.(d3 := Dword(jip)) else b.(d3 := WithJip(b.d3, jip))
    else if level >= 60 then
      if b.op == CALL || b.op == JMPI then b.(d3 := Dword(jip)) else b.(d1 := WithJumpCount(b.d1, jip))
    else if b.op == ELSE then b.(d3 := WithUip(Dword(jip), 1))
    else b.(d3 := Dword(jip))
  }

  /** The distance of a label, or the one given; None if the label is missing. */
  ghost function Distance(table: seq<(string, nat)>, target: Option<string>, given: int, at: nat): Option<int> {
    match target
    case None => Some(given)
    case Some(name) =>
      match AddressOf(table, name, at)
      case None => None
      case Some(address) => Some(address - at)
  }

  /** Two distances are stored if the second is not zero, else one if the first is not. */
  function Stored(level: nat, b: Branch, first: int, second: int): Branch {
    if second != 0 then TwoOffsets(level, b, first, second)
    else if first != 0 then OneOffset(level, b, first)
    else b
  }

  ghost function Relocated(level: nat, table: seq<(string, nat)>, r: Relocatable): Option<Relocatable> {
    var first := Distance(table, r.reloc.first, r.reloc.firstOffset, r.offset);
    var second := Distance(table, r.reloc.second, r.reloc.secondOffset, r.offset);
    if first.None? || second.None? then None
    else Some(Relocatable(r.offset, Stored(level, r.branch, first.value, second.value),
                          r.reloc.(firstOffset := first.value, secondOffset := second.value)))
  }

  /** One target; the entry is left alone if the label is missing. */
  method ResolveTarget(table: seq<(string, nat)>, target: Option<string>, given: int, at: nat) returns (r: Option<int>)
    ensures r == Distance(table, target, given, at)
  {
    match target
    case None => r := Some(given);
    case Some(name) =>
      var address := Resolve(table, name, at);
      r := if address.Some? then Some(address.value - at) else None;
  }

  /** Goes over the relocatable entries; gives up at the first label that is missing. */
  method RelocateAll(level: nat, table: seq<(string, nat)>, entries: array<Relocatable>) returns (ok: bool)
    modifies entries
    ensures ok <==> forall i :: 0 <= i < entries.Length ==> Relocated(level, table, old(entries[i])).Some?
    ensures ok ==> forall i :: 0 <= i < entries.Length ==> Relocated(level, table, old(entries[i])) == Some(entries[i])
  {
    hide Distance, TwoOffsets, OneOffset;
    for n := 0 to entries.Length
      invariant forall i :: 0 <= i < n ==> Relocated(level, table, old(entries[i])) == Some(entries[i])
      invariant forall i :: n <= i < entries.Length ==> entries[i] == old(entries[i])
    {
      var Relocatable(at, branch, reloc) := entries[n];
      var first := ResolveTarget(table, reloc.first, reloc.firstOffset, at);
      if first.None? {
        return false;
      }
      var second := ResolveTarget(table, reloc.second, reloc.secondOffset, at);
      if second.None? {
        return false;
      }
      reloc := reloc.(firstOffset := first.value, secondOffset := second.value);
      if second.value != 0 {
        branch := TwoOffsets(level, branch, first.value, second.value);
      } else if first.value != 0 {
        branch := OneOffset(level, branch, first.value);
      }
      assert branch == Stored(level, entries[n].branch, first.value, second.value);
      entries[n] := Relocatable(at, branch, reloc);
    }
    ok := true;
  }

  // ---- where the stored distances lead ----

  /** The distance field an instruction looks at first. */
  function FirstField(level: nat, b: Branch): int {
    if level >= 80 then Signed32(b.d3)
    else if level >= 70 then if b.op == JMPI then Signed32(b.d3) else Jip(b.d3)
    else if level >= 60 then
      match b.op
      case JMPI => Signed32(b.d3)
      case CALL => Signed32(b.d3)
      case TwoTargets => Jip(b.d3)
      case _ => JumpCount(b.d1)
    else if b.op == JMPI then Signed32(b.d3) else Jip(b.d3)
  }

  function SecondField(level: nat, b: Branch): int {
    if level >= 80 then Signed32(b.d2) else Uip(b.d3)
  }

  /** The instruction a distance leads to. */
  function Reached(level: nat, op: Op, at: int, field: int): int {
    at + field / Unit(level, op) + if op == JMPI then 1 else 0
  }

  /** Whether the first field of a branch has 32 bits. */
  predicate Wide(level: nat, op: Op) {
    level >= 80 || op == JMPI || (60 <= level < 70 && op == CALL)
  }

  /** The field of a branch holds the distance. */
  predicate Holds(level: nat, op: Op, distance: int) {
    var v := BranchOffset(level, op, distance);
    if Wide(level, op) then -0x8000_0000 <= v < 0x8000_0000 else -0x8000 <= v < 0x8000
  }

  // ---- what the fields keep ----

  /** A field keeps a value up to a multiple of its range. */
  predicate Keeps(field: int, v: int, holds: bool) {
    (field - v) % 0x1_0000 == 0 && (field == v <==> holds)
  }

  lemma Remainder(x: int, q: int, r: int)
    requires 0 <= r < 0x1_0000 && x == 0x1_0000 * q + r
    ensures x % 0x1_0000 == r
  {
  }

  lemma LowHalf(v: int, q: int, high: int, low: int)
    requires 0 <= low < 0x1_0000 && v == 0x1_0000_0000 * q + (0x1_0000 * high + low)
    ensures v % 0x1_0000 == low && (0x1_0000 * high + low) % 0x1_0000 == low
  {
    Remainder(v, 0x1_0000 * q + high, low);
    Remainder(0x1_0000 * high + low, high, low);
  }

  lemma DwordLow(v: int)
    ensures Dword(v) % 0x1_0000 == Field16(v)
  {
    var d := Dword(v);
    LowHalf(v, v / 0x1_0000_0000, d / 0x1_0000, d % 0x1_0000);
  }

  lemma DwordSigned(v: int)
    ensures Keeps(Signed32(Dword(v)), v, -0x8000_0000 <= v < 0x8000_0000)
  {
    var q, d := v / 0x1_0000_0000, Signed32(Dword(v));
    Remainder(d - v, if d < 0 then -0x1_0000 * (q + 1) else -0x1_0000 * q, 0);
  }

  lemma DwordKeeps(v: int)
    ensures Keeps(Signed32(Dword(v)), v, -0x8000_0000 <= v < 0x8000_0000)
    ensures Keeps(Jip(Dword(v)), v, -0x8000 <= v < 0x8000)
  {
    hide Keeps, Dword, Signed32, Field16, Signed16;
    DwordSigned(v);
    FieldKeeps(v);
    DwordLow(v);
  }

  lemma FieldKeeps(v: int)
    ensures Keeps(Signed16(Field16(v)), v, -0x8000 <= v < 0x8000)
  {
  }

  lemma HalvesKeep(d: u32, v: int)
    ensures Keeps(JumpCount(WithJumpCount(d, v)), v, -0x8000 <= v < 0x8000)
    ensures Keeps(Jip(WithJip(d, v)), v, -0x8000 <= v < 0x8000) && Uip(WithJip(d, v)) == Uip(d)
    ensures Keeps(Uip(WithUip(d, v)), v, -0x8000 <= v < 0x8000) && Jip(WithUip(d, v)) == Jip(d)
  {
    hide Field16, Signed16, Keeps;
    FieldKeeps(v);
    Digits.DivUnique(WithJumpCount(d, v), 0x1_0000, Field16(v), d % 0x1_0000);
    Digits.DivUnique(WithJip(d, v), 0x1_0000, d / 0x1_0000, Field16(v));
    Digits.DivUnique(WithUip(d, v), 0x1_0000, Field16(v), d % 0x1_0000);
  }

  /** A field leads to the target exactly if it is the distance. */
  lemma FieldLeads(level: nat, op: Op, at: int, field: int, distance: int, holds: bool)
    requires Keeps(field, BranchOffset(level, op, distance), holds)
    ensures Reached(level, op, at, field) == at + distance <==> holds
  {
  }

  lemma FirstStored(level: nat, b: Branch, first: int)
    requires b.op != TwoTargets || level >= 70
    ensures Keeps(FirstField(level, OneOffset(level, b, first)), BranchOffset(level, b.op, first),
                  Holds(level, b.op, first))
  {
    hide Jip, Uip, WithJip, WithUip, JumpCount, WithJumpCount, Dword, Signed32, Keeps;
    var v := BranchOffset(level, b.op, first);
    DwordKeeps(v);
    HalvesKeep(b.d1, v);
    HalvesKeep(b.d3, v);
    HalvesKeep(Dword(v), 1);
  }

  lemma BothStored(level: nat, b: Branch, first: int, second: int)
    requires b.op == TwoTargets && level >= 60
    ensures var s := TwoOffsets(level, b, first, second);
            && Keeps(FirstField(level, s), BranchOffset(level, b.op, first), Holds(level, b.op, first))
            && Keeps(SecondField(level, s), BranchOffset(level, b.op, second), Holds(level, b.op, second))
  {
    hide Jip, Uip, WithJip, WithUip, JumpCount, WithJumpCount, Dword, Signed32, Keeps;
    var v, w := BranchOffset(level, b.op, first), BranchOffset(level, b.op, second);
    DwordKeeps(v);
    DwordKeeps(w);
    HalvesKeep(b.d3, v);
    HalvesKeep(WithJip(b.d3, v), w);
  }

  /** A branch that has one distance stored keeps its second field, and one of gen6 with two targets its first. */
  lemma OthersKept(level: nat, b: Branch, first: int)
    requires b.op == TwoTargets && level >= 60
    ensures SecondField(level, OneOffset(level, b, first)) == SecondField(level, b)
    ensures level < 70 ==> FirstField(level, OneOffset(level, b, first)) == FirstField(level, b)
  {
    hide Jip, Uip, WithJip, JumpCount, WithJumpCount, Dword, Signed32;
    HalvesKeep(b.d3, BranchOffset(level, b.op, first));
  }

  // ---- where branches to labels lead ----

  /** A branch to one label, whose distance is still zero, reaches the address of the label picked, if and only
      if its field holds the distance and it is not a JMPI to itself: a distance of zero is not stored, and a
      JMPI without a distance goes on behind itself. */
  lemma OneTargetReached(level: nat, table: seq<(string, nat)>, r: Relocatable, name: string)
    requires r.branch.op != TwoTargets && FirstField(level, r.branch) == 0
    requires r.reloc.first == Some(name) && r.reloc.second == None && r.reloc.secondOffset == 0
    requires Relocated(level, table, r).Some?
    ensures var b, address := Relocated(level, table, r).value.branch, AddressOf(table, name, r.offset).value;
            Reached(level, b.op, r.offset, FirstField(level, b)) == address
            <==> Holds(level, b.op, address - r.offset) && !(b.op == JMPI && address == r.offset)
  {
    hide AddressOf, FirstField, OneOffset, Keeps;
    var d := AddressOf(table, name, r.offset).value - r.offset;
    if d != 0 {
      FirstStored(level, r.branch, d);
      FieldLeads(level, r.branch.op, r.offset, FirstField(level, OneOffset(level, r.branch, d)), d,
                 Holds(level, r.branch.op, d));
    }
  }

  /** A branch to two labels, whose distances are still zero, reaches both, if and only if the fields hold the
      distances and it is not one of gen6 whose second label is at the branch and whose first is not: then the
      first distance goes to the field of the other branches. */
  lemma TwoTargetsReached(level: nat, table: seq<(string, nat)>, r: Relocatable, name: string, name': string)
    requires level >= 60 && r.branch.op == TwoTargets
    requires FirstField(level, r.branch) == 0 && SecondField(level, r.branch) == 0
    requires r.reloc.first == Some(name) && r.reloc.second == Some(name') && Relocated(level, table, r).Some?
    ensures var b := Relocated(level, table, r).value.branch;
            var first, second := AddressOf(table, name, r.offset).value, AddressOf(table, name', r.offset).value;
            Reached(level, b.op, r.offset, FirstField(level, b)) == first
            && Reached(level, b.op, r.offset, SecondField(level, b)) == second
            <==> Holds(level, b.op, first - r.offset) && Holds(level, b.op, second - r.offset)
                 && !(level < 70 && second == r.offset && first != r.offset)
  {
    hide AddressOf, FirstField, SecondField, OneOffset, TwoOffsets, Keeps;
    var b, at := r.branch, r.offset;
    var d, d' := AddressOf(table, name, at).value - at, AddressOf(table, name', at).value - at;
    if d' != 0 {
      BothStored(level, b, d, d');
      var s := TwoOffsets(level, b, d, d');
      FieldLeads(level, b.op, at, FirstField(level, s), d, Holds(level, b.op, d));
      FieldLeads(level, b.op, at, SecondField(level, s), d', Holds(level, b.op, d'));
    } else if d != 0 {
      OthersKept(level, b, d);
      if level >= 70 {
        FirstStored(level, b, d);
        FieldLeads(level, b.op, at, FirstField(level, OneOffset(level, b, d)), d, Holds(level, b.op, d));
      }
    }
  }

  /** In a well-laid program, a branch to one label, with m where it is and r what the parser has left in it, gets
      to what is behind its label: it is put out as instruction r.offset, and the instructions from the one it
      reaches on are those behind the label, under the condition above. */
  lemma BranchReachesLabel(level: nat, es: seq<Entry>, m: nat, r: Relocatable, name: string) returns (i: nat)
    requires NoEntryPointAfterLabel(es) && m < |Laid(es, 0)| && !Laid(es, 0)[m].entry.Label?
    requires r.offset == Laid(es, 0)[m].offset && r.branch.op != TwoTargets && FirstField(level, r.branch) == 0
    requires r.reloc.first == Some(name) && r.reloc.second == None && r.reloc.secondOffset == 0
    requires Relocated(level, LabelTable(Laid(es, 0)), r).Some?
    ensures var items, b := Laid(es, 0), Relocated(level, LabelTable(Laid(es, 0)), r).value.branch;
            && i < |items| && items[i].entry.Label? && items[i].entry.name == name
            && r.offset < |PutOut(items)| && PutOut(items)[r.offset] == items[m].entry
            && items[i].offset <= |PutOut(items)| && PutOut(items)[items[i].offset..] == PutOut(items[i + 1..])
            && (Reached(level, b.op, r.offset, FirstField(level, b)) == items[i].offset
                <==> Holds(level, b.op, items[i].offset - r.offset) && !(b.op == JMPI && items[i].offset == r.offset))
  {
    hide Laid, LabelTable, PutOut, FirstField, OneOffset, Picks, NoEntryPointAfterLabel;
    var table := LabelTable(Laid(es, 0));
    InsnAddress(es, m);
    var k := PickedBy(table, name, r.offset);
    i := PickedAddress(es, name, r.offset, k);
    OneTargetReached(level, table, r, name);
  }

  lemma PickedBy(table: seq<(string, nat)>, name: string, start: nat) returns (k: nat)
    requires AddressOf(table, name, start).Some?
    ensures Picks(table, name, start, k) && AddressOf(table, name, start) == Some(table[k].1)
  {
    k :| Picks(table, name, start, k);
    Picked(table, name, start, k);
  }

  // ---- units and fields ----

  /** Distances are in the units of the emitter, except in JMPIs from gen7.5 on, which count in bytes. */
  lemma UnitsAgree(level: nat, op: Op, spf: bool)
    ensures op != JMPI || level < 75 ==> Unit(level, op) == EuIr.Config(level / 10, spf).Br()
    ensures op == JMPI && level >= 75 ==> Unit(level, op) == 16
  {
  }

  /** The dwords of a branch to one label that is not at the branch, with its distance stored: on gen8 and for the
      branches with a 32-bit field the distance is all of bits3, on gen7 it is the lower half, on gen6 the upper
      half of bits1; an ELSE before gen6 gets a pop count of one.  A JMPI counts from the instruction behind it. */
  lemma OneDistanceStored(level: nat, table: seq<(string, nat)>, r: Relocatable, name: string)
    requires r.reloc.first == Some(name) && r.reloc.second == None && r.reloc.secondOffset == 0
    requires Relocated(level, table, r).Some? && AddressOf(table, name, r.offset) != Some(r.offset)
    ensures var was, now := r.branch, Relocated(level, table, r).value.branch;
            var d := AddressOf(table, name, r.offset).value - r.offset;
            var v := if was.op == JMPI then (d - 1) * (if level >= 75 then 16 else if level >= 50 then 2 else 1)
                     else d * (if level >= 50 then 2 else 1);
            && now.op == was.op && now.d2 == was.d2
            && (if level >= 80 || was.op == JMPI || (60 <= level < 70 && was.op == CALL) then
                  now.d1 == was.d1 && now.d3 == v % 0x1_0000_0000
                else if level >= 70 then
                  now.d1 == was.d1 && now.d3 == was.d3 - was.d3 % 0x1_0000 + v % 0x1_0000
                else if level >= 60 then
                  now.d1 == was.d1 % 0x1_0000 + 0x1_0000 * (v % 0x1_0000) && now.d3 == was.d3
                else
                  now.d1 == was.d1
                  && now.d3 == if was.op == ELSE then 0x1_0000 + v % 0x1_0000 else v % 0x1_0000_0000)
  {
    hide AddressOf;
    DwordLow(BranchOffset(level, r.branch.op, AddressOf(table, name, r.offset).value - r.offset));
  }

  /** The dwords of a branch with two distances, the second of which is not zero: bits3 and bits2 on gen8, before
      that the halves of bits3. */
  lemma TwoDistancesStored(level: nat, b: Branch, first: int, second: int)
    requires b.op == TwoTargets && level >= 60 && second != 0
    ensures var now := Stored(level, b, first, second);
            && now.op == b.op && now.d1 == b.d1
            && if level >= 80 then now.d3 == 2 * first % 0x1_0000_0000 && now.d2 == 2 * second % 0x1_0000_0000
               else now.d2 == b.d2 && now.d3 == 2 * first % 0x1_0000 + 0x1_0000 * (2 * second % 0x1_0000)
  {
  }

  // ---- the failures ----

  /** A JMPI to the label in front of it as the parser leaves it on gen5, with the IP register as destination and
      first source: it is not changed, and goes on behind itself. */
  lemma JumpToItselfFalls()
    ensures var r := Relocatable(3, Branch(JMPI, 0x3400_1c00, 0x1400, 0), Reloc(Some("here"), None, 0, 0));
            && Relocated(50, [("here", 3)], r) == Some(r)
            && Reached(50, JMPI, r.offset, FirstField(50, r.branch)) == 4
  {
    PicksOnly("here", 3, 3);
  }

  /** A gen6 BREAK whose second label is in front of it: the distance to its first label goes to another field, and
      both of its own stay zero. */
  lemma BreakToItselfLost()
    ensures var table := [("here", 3), ("there", 7)];
            var r := Relocatable(3, Branch(TwoTargets, 0, 0, 0), Reloc(Some("there"), Some("here"), 0, 0));
            && Relocated(60, table, r).Some?
            && var b := Relocated(60, table, r).value.branch;
               && b == r.branch.(d1 := 0x8_0000)
               && Reached(60, b.op, 3, FirstField(60, b)) == 3
  {
    var table := [("here", 3), ("there", 7)];
    assert Picks(table, "here", 3, 0) && Picks(table, "there", 3, 1);
    Picked(table, "here", 3, 0);
    Picked(table, "there", 3, 1);
  }

  lemma PicksOnly(name: string, address: nat, start: nat)
    ensures AddressOf([(name, address)], name, start) == Some(address)
  {
    assert Picks([(name, address)], name, start, 0);
    Picked([(name, address)], name, start, 0);
  }

  lemma Picked(table: seq<(string, nat)>, name: string, start: nat, k: nat)
    requires Picks(table, name, start, k)
    ensures AddressOf(table, name, start) == Some(table[k].1)
  {
    var j: nat :| Picks(table, name, start, j) && AddressOf(table, name, start) == Some(table[j].1);
    PicksOnce(table, name, start, k, j);
  }
}
