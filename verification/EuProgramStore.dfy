/** The instruction store of struct brw_compile: compaction of the whole program, the
    program handed to the caller, and the walk that dumps it.  Offsets are counted in
    8-byte chunks, so 16 * nr_insn bytes are 2 * nrInsn chunks. */
module EuProgramStore {
  import opened EuStructs
  import opened EuCodec
  import opened EuProgram
  import opened EuLayout
  import opened EuCompact

  /** The instructions met when walking from the front of a store. */
  function Decode(s: seq<Chunk>): seq<Raw> {
    if s == [] then []
    else if CmptControl(s[0].lo) then [Short(s[0])] + Decode(s[1..])
    else if |s| == 1 then []
    else [Full(InsnAt(s, 0))] + Decode(s[2..])
  }

  lemma DecodeCons(r: Raw, rest: seq<Chunk>)
    requires Proper(r)
    ensures Decode(Encode(r) + rest) == [r] + Decode(rest)
  {
    var s := Encode(r) + rest;
    assert s[0] == Encode(r)[0] && s[Size(r)..] == rest;
    if r.Full? {
      assert s[1] == Encode(r)[1];
    }
  }

  /** The walk reads back the program that was laid out. */
  lemma {:induction false} DecodeFlatten(p: seq<Raw>)
    requires forall k :: 0 <= k < |p| ==> Proper(p[k])
    ensures Decode(Flatten(p)) == p
  {
    if p != [] {
      DecodeFlatten(p[1..]);
      DecodeCons(p[0], Flatten(p[1..]));
    }
  }

  /** An instruction as the dump shows it. */
  function Shown(gen: Gen, r: Raw): Insn {
    match r
    case Full(i) => i
    case Short(c) => Uncompact(gen, c)
  }

  /** Both passes. */
  method RunPasses(gen: Gen, store: array<Chunk>, size: nat, ghost p: seq<Raw>, ghost q: seq<Raw>) returns (end: nat)
    requires LayoutOk(gen, p, q) && q == ShrinkAll(gen, p)
    requires size <= store.Length && store[..size] == Flatten(p)
    modifies store
    ensures end == NewBase(q, |p|) <= size
    ensures store[..end] == Flatten(Laid(q, FixedSeq(gen, p, q), |p|))
    ensures store[..][size..] == old(store[..])[size..]
  {
    FlattenPrefix(p, |p|);
    assert p[..|p|] == p;
    var counts := new int[size];
    var oldIp := new nat[size];
    end := CompactAndMove(gen, store, size, counts, oldIp, p, q);
    LaidSplit(q, q, |q|);
    ghost var s := store[..];
    FixUp(gen, store, end, counts, oldIp, p, q);
    assert store[..][size..] == store[..][end..][size - end..];
    assert s[size..] == s[end..][size - end..];
  }

  /** Compacts the program in the first chunks of a store, and makes its length even. */
  method CompactStore(gen: Gen, store: array<Chunk>, size: nat, ghost p: seq<Raw>) returns (end: nat)
    requires WellFormed(gen, p)
    requires size <= store.Length && store[..size] == Flatten(p)
    modifies store
    ensures end % 2 == 0 && end <= size
    ensures store[..end] == Flatten(Output(gen, p))
    ensures store[..][size..] == old(store[..])[size..]
  {
    ghost var q := ShrinkAll(gen, p);
    WellFormedLayout(gen, p);
    SizeEven(gen, p);
    end := RunPasses(gen, store, size, p, q);
    OutputChunks(gen, p);
    end := PadEnd(store, end, size);
  }

  /** A NOP in the last chunk when the length is odd. */
  method PadEnd(store: array<Chunk>, end: nat, size: nat) returns (end': nat)
    requires end <= size <= store.Length && size % 2 == 0
    modifies store
    ensures end' % 2 == 0 && end' <= size
    ensures store[..end'] == old(store[..end]) + if end % 2 == 1 then [ALIGN_NOP] else []
    ensures store[..][size..] == old(store[..])[size..]
  {
    end' := end;
    if end % 2 == 1 {
      ghost var s := store[..];
      store[end] := ALIGN_NOP;
      assert store[..end + 1] == s[..end] + [ALIGN_NOP];
      assert store[..][size..] == s[size..];
      end' := end + 1;
    }
  }

  lemma OutputChunks(gen: Gen, p: seq<Raw>)
    requires WellFormed(gen, p)
    ensures LayoutOk(gen, p, ShrinkAll(gen, p))
    ensures Flatten(Output(gen, p)) ==
            Flatten(Laid(ShrinkAll(gen, p), FixedSeq(gen, p, ShrinkAll(gen, p)), |p|))
            + if NewBase(ShrinkAll(gen, p), |p|) % 2 == 1 then [ALIGN_NOP] else []
  {
    var q := ShrinkAll(gen, p);
    WellFormedLayout(gen, p);
    FlattenAppend(Laid(q, FixedSeq(gen, p, q), |p|), Tail(q));
    FlattenOne(Short(ALIGN_NOP));
  }

  lemma SizeEven(gen: Gen, p: seq<Raw>)
    requires WellFormed(gen, p)
    ensures |Flatten(p)| % 2 == 0
  {
    FlattenPrefix(p, |p|);
    assert p[..|p|] == p;
  }

  /** The dump of a program. */
  function ShownAll(gen: Gen, p: seq<Raw>): seq<Insn> {
    if p == [] then [] else ShownAll(gen, p[..|p| - 1]) + [Shown(gen, p[|p| - 1])]
  }

  class ProgramStore {
    const gen: int
    var store: array<Chunk>
    var nrInsn: nat
    var nextInsnOffset: nat

    ghost predicate Valid()
      reads this
    {
      nextInsnOffset == 2 * nrInsn <= store.Length
    }

    ghost function Contents(): seq<Chunk>
      reads this, store
      requires Valid()
    {
      store[..nextInsnOffset]
    }

    constructor (gen: int, store: array<Chunk>, nrInsn: nat)
      requires 2 * nrInsn <= store.Length
      ensures Valid() && this.gen == gen && this.store == store && this.nrInsn == nrInsn
    {
      this.gen, this.store, this.nrInsn, this.nextInsnOffset := gen, store, nrInsn, 2 * nrInsn;
    }

    /** Compacts the program p in place.  Before gen6 there is nothing to do. */
    method CompactInstructions(ghost p: seq<Raw>)
      requires Valid() && gen <= 7
      requires gen >= 6 ==> WellFormed(gen, p) && Contents() == Flatten(p)
      modifies this, store
      ensures Valid() && store == old(store)
      ensures gen < 6 ==> Contents() == old(Contents()) && store[..] == old(store[..])
      ensures gen >= 6 ==> Contents() == Flatten(Output(gen, p)) && nextInsnOffset <= old(nextInsnOffset)
      ensures store[..][old(nextInsnOffset)..] == old(store[..][nextInsnOffset..])
    {
      if gen < 6 {
        return;
      }
      nextInsnOffset := CompactStore(gen, store, nextInsnOffset, p);
      nrInsn := nextInsnOffset / 2;
    }

    /** The finished program and its size. */
    method GetProgram(ghost p: seq<Raw>) returns (program: array<Chunk>, sz: nat)
      requires Valid() && gen <= 7
      requires gen >= 6 ==> WellFormed(gen, p) && Contents() == Flatten(p)
      modifies this, store
      ensures Valid() && program == store == old(store) && sz == nextInsnOffset
      ensures gen < 6 ==> program[..sz] == old(Contents())
      ensures gen >= 6 ==> program[..sz] == Flatten(Output(gen, p))
    {
      CompactInstructions(p);
      program, sz := store, nextInsnOffset;
    }
  }

  /** What the walk finds at the offset of instruction k. */
  lemma WalkAt(p: seq<Raw>, k: nat, s: seq<Chunk>, end: nat)
    requires end <= |s| && s[..end] == Flatten(p) && k < |p|
    ensures Start(p, k + 1) == Start(p, k) + Size(p[k]) <= end
    ensures s[Start(p, k)].lo == Header(p[k])
    ensures p[k].Short? ==> s[Start(p, k)] == p[k].chunk
    ensures p[k].Full? ==> InsnAt(s, Start(p, k)) == p[k].insn
  {
    FlattenAt(p, k);
    var at := s[..end][Start(p, k)..][..Size(p[k])];
    assert s[Start(p, k)] == at[0];
    if p[k].Full? {
      assert s[Start(p, k) + 1] == at[1];
    }
  }

  /** One line of the dump, and the size of the instruction it shows. */
  method ShowAt(gen: Gen, store: array<Chunk>, offset: nat, ghost r: Raw) returns (insn: Insn, bytes: nat)
    requires Proper(r) && offset + Size(r) <= store.Length && store[offset].lo == Header(r)
    requires r.Short? ==> store[offset] == r.chunk
    requires r.Full? ==> InsnAt(store[..], offset) == r.insn
    ensures insn == Shown(gen, r) && bytes == Size(r)
  {
    if CmptControl(store[offset].lo) {
      insn, bytes := Uncompact(gen, store[offset]), 1;
    } else {
      insn := Insn(store[offset].lo, store[offset].hi, store[offset + 1].lo, store[offset + 1].hi);
      bytes := 2;
    }
  }

  lemma ShownStep(gen: Gen, p: seq<Raw>, first: nat, k: nat)
    requires first <= k < |p|
    ensures ShownAll(gen, p[first..k + 1]) == ShownAll(gen, p[first..k]) + [Shown(gen, p[k])]
  {
    hide Shown;
    assert p[first..k + 1][..k - first] == p[first..k];
  }

  /** The walk of the dump over a store that holds the instructions p, from the start of one of them to
      the end. */
  method DumpCompile(gen: Gen, store: array<Chunk>, start: nat, end: nat, ghost p: seq<Raw>, ghost first: nat)
    returns (shown: seq<Insn>)
    requires end <= store.Length && store[..end] == Flatten(p)
    requires forall k :: 0 <= k < |p| ==> Proper(p[k])
    requires first <= |p| && start == Start(p, first)
    ensures shown == ShownAll(gen, p[first..])
  {
    hide Shown, Flatten, Start, Header, CmptControl;
    shown := [];
    var offset := start;
    ghost var k := first;
    FlattenPrefix(p, |p|);
    assert p[..|p|] == p;
    while offset < end
      invariant first <= k <= |p| && offset == Start(p, k)
      invariant shown == ShownAll(gen, p[first..k])
    {
      WalkAt(p, k, store[..], end);
      assert Proper(p[k]);
      var insn, bytes := ShowAt(gen, store, offset, p[k]);
      ShownStep(gen, p, first, k);
      shown := shown + [insn];
      offset := offset + bytes;
      k := k + 1;
    }
    StartMonotone(p, k, |p|);
    assert p[first..|p|] == p[first..];
  }
}
