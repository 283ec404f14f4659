/** The in-place compaction of the instruction store. */
module EuCompact {
  import opened Options
  import opened Digits
  import opened EuStructs
  import opened EuCodec
  import opened EuProgram
  import opened EuLayout

  /** The instruction at an offset of the store, as its compaction flag has it read. */
  function InsnAt(s: seq<Chunk>, offset: nat): Insn
    requires offset + 1 < |s|
  {
    Insn(s[offset].lo, s[offset].hi, s[offset + 1].lo, s[offset + 1].hi)
  }

  /** A store with chunks written from an offset on. */
  function Overwrite(s: seq<Chunk>, offset: nat, chunks: seq<Chunk>): (t: seq<Chunk>)
    requires offset + |chunks| <= |s|
    ensures |t| == |s|
  {
    s[..offset] + chunks + s[offset + |chunks|..]
  }

  lemma OverwriteHalves(s: seq<Chunk>, offset: nat, chunks: seq<Chunk>, lo: nat, hi: nat)
    requires offset + |chunks| <= lo <= hi <= |s|
    ensures Overwrite(s, offset, chunks)[..offset + |chunks|] == s[..offset] + chunks
    ensures Overwrite(s, offset, chunks)[lo..hi] == s[lo..hi]
    ensures Overwrite(s, offset, chunks)[hi..] == s[hi..]
  {
  }

  /** The middle of a store, and what overwriting it leaves. */
  lemma OverwriteMiddle(s: seq<Chunk>, end: nat, a: seq<Chunk>, b: seq<Chunk>, c: seq<Chunk>, b': seq<Chunk>)
    requires end <= |s| && s[..end] == a + b + c && |b'| == |b|
    ensures |a| + |b| <= end && s[|a|..|a| + |b|] == b
    ensures Overwrite(s, |a|, b')[..end] == a + b' + c
    ensures Overwrite(s, |a|, b')[end..] == s[end..]
  {
    assert s[|a|..|a| + |b|] == s[..end][|a|..|a| + |b|];
    assert s[..|a|] == s[..end][..|a|];
    assert s[|a| + |b|..end] == s[..end][|a| + |b|..];
  }

  lemma OverwriteSame(s: seq<Chunk>, offset: nat, chunks: seq<Chunk>)
    requires offset + |chunks| <= |s| && s[offset..offset + |chunks|] == chunks
    ensures Overwrite(s, offset, chunks) == s
  {
  }

  lemma OverwriteTwice(s: seq<Chunk>, offset: nat, a: seq<Chunk>, b: seq<Chunk>)
    requires offset + |a| + |b| <= |s|
    ensures Overwrite(Overwrite(s, offset, a), offset + |a|, b) == Overwrite(s, offset, a + b)
  {
  }

  /** The compact form, field by field; gives up at the first field that has none. */
  method CompactForm(gen: Gen, insn: Insn) returns (r: Option<Chunk>)
    ensures r == TryCompact(gen, insn)
  {
    if RefusedOpcode(Opcode(insn.d0)) {
      return None;
    }
    if HasImmediate(insn) {
      return None;
    }
    var control := FindIndex(ControlTable(gen), ControlKey(gen, insn));
    if control < 0 {
      return None;
    }
    var datatype_ := FindIndex(DatatypeTable(gen), DatatypeKey(insn));
    if datatype_ < 0 {
      return None;
    }
    var subreg := FindIndex(SubregTable(gen), SubregKey(insn));
    if subreg < 0 {
      return None;
    }
    var src0 := FindIndex(SrcIndexTable(gen), Src0Key(insn));
    if src0 < 0 {
      return None;
    }
    var src1 := FindIndex(SrcIndexTable(gen), Src1Key(insn));
    if src1 < 0 {
      return None;
    }
    var flag := if gen == 6 then insn.d2 / 0x200_0000 % 2 else 0;
    r := Some(Pack(Fields(
      Opcode(insn.d0), DebugControl(insn.d0), control, datatype_, subreg, AccWrControl(insn.d0),
      ConditionalMod(insn.d0), flag, 1, src0, src1,
      insn.d1 / 0x20_0000 % 0x100, insn.d2 / 0x20 % 0x100, insn.d3 / 0x20 % 0x100)));
  }

  /** Tries to compact the instruction at src into dst; a refusal leaves the store alone. */
  method TryCompactInstruction(gen: Gen, store: array<Chunk>, dst: nat, src: nat) returns (ok: bool)
    requires dst < store.Length && src + 1 < store.Length
    modifies store
    ensures ok == TryCompact(gen, InsnAt(old(store[..]), src)).Some?
    ensures store[..] == if ok then Overwrite(old(store[..]), dst, [TryCompact(gen, InsnAt(old(store[..]), src)).value])
                         else old(store[..])
  {
    var insn := Insn(store[src].lo, store[src].hi, store[src + 1].lo, store[src + 1].hi);
    assert insn == InsnAt(store[..], src);
    var form := CompactForm(gen, insn);
    ok := form.Some?;
    if ok {
      ghost var was := store[..];
      store[dst] := form.value;
      assert store[..] == Overwrite(was, dst, [form.value]);
    }
  }

  /** The chunks of instruction k at the read offset. */
  lemma ReadOffset(p: seq<Raw>, k: nat)
    requires k < |p|
    ensures Flatten(p[k..]) == Encode(p[k]) + Flatten(p[k + 1..])
  {
    assert p[k..][1..] == p[k + 1..];
  }

  /** Adding instruction k to what has been written. */
  lemma WriteStep(q: seq<Raw>, x: seq<Raw>, k: nat)
    requires k < |q| == |x|
    ensures Flatten(Laid(q, x, k + 1)) ==
            Flatten(Laid(q, x, k)) + (if Padded(q, k) then [ALIGN_NOP] else []) + Encode(x[k])
  {
    FlattenAppend(Laid(q, x, k) + Pad(q, k), [x[k]]);
    FlattenAppend(Laid(q, x, k), Pad(q, k));
    FlattenOne(x[k]);
    FlattenOne(Short(ALIGN_NOP));
  }

  /** Positions before the write offset. */
  lemma Earlier(gen: Gen, p: seq<Raw>, q: seq<Raw>, j: nat, k: nat)
    requires LayoutOk(gen, p, q) && j < k <= |p|
    ensures Start(p, j) < Start(p, k)
    ensures NewBase(q, j) <= NewPos(q, j) < NewBase(q, k)
  {
    StartMonotone(p, j, k);
    Distances(gen, p, q, j + 1, k);
    assert NewBase(q, j + 1) == NewPos(q, j) + Size(q[j]);
  }

  /** Where instruction k is, and where the one behind it. */
  lemma Places(q: seq<Raw>, k: nat)
    requires k < |q|
    ensures NewPos(q, k) == NewBase(q, k) + if Padded(q, k) then 1 else 0
    ensures NewBase(q, k + 1) == NewPos(q, k) + Size(q[k])
  {
  }

  /** Whether the bookkeeping arrays are right for the first k instructions. */
  ghost predicate Bookkeeping(p: seq<Raw>, q: seq<Raw>, k: nat, counts: seq<int>, oldIp: seq<nat>)
    requires k <= |p| == |q|
  {
    forall j :: 0 <= j < k ==> BookkeepingAt(p, q, j, counts, oldIp)
  }

  ghost predicate BookkeepingAt(p: seq<Raw>, q: seq<Raw>, j: nat, counts: seq<int>, oldIp: seq<nat>)
    requires j < |p| == |q|
  {
    && Start(p, j) < |counts| && counts[Start(p, j)] == Count(p, q, j)
    && NewPos(q, j) < |oldIp| && oldIp[NewPos(q, j)] == Start(p, j)
    && oldIp[NewBase(q, j)] == Start(p, j)
  }

  lemma BookkeepingStep(gen: Gen, p: seq<Raw>, q: seq<Raw>, k: nat, counts: seq<int>, oldIp: seq<nat>,
                        counts': seq<int>, oldIp': seq<nat>)
    requires LayoutOk(gen, p, q) && k < |p| && Bookkeeping(p, q, k, counts, oldIp)
    requires |counts| == |counts'| && |oldIp| == |oldIp'|
    requires Start(p, k) < |counts| && NewPos(q, k) < |oldIp|
    requires counts' == counts[Start(p, k) := Count(p, q, k)]
    requires oldIp' == oldIp[NewBase(q, k) := Start(p, k)][NewPos(q, k) := Start(p, k)]
    ensures Bookkeeping(p, q, k + 1, counts', oldIp')
  {
    hide Start, NewBase, NewPos, Count, LayoutOkAt;
    Places(q, k);
    forall j | 0 <= j < k + 1 ensures BookkeepingAt(p, q, j, counts', oldIp') {
      if j < k {
        Earlier(gen, p, q, j, k);
        assert BookkeepingAt(p, q, j, counts, oldIp);
      }
    }
  }

  /** memmove of one instruction. */
  method Move(store: array<Chunk>, dst: nat, src: nat, chunks: nat)
    requires dst <= src && src + chunks <= store.Length && 1 <= chunks <= 2
    modifies store
    ensures store[..] == Overwrite(old(store[..]), dst, old(store[src..src + chunks]))
  {
    if chunks == 1 {
      store[dst] := store[src];
    } else {
      store[dst], store[dst + 1] := store[src], store[src + 1];
    }
  }

  function PadChunks(r: Raw, offset: nat): seq<Chunk> {
    if NeedsAlign(r) && offset % 2 == 1 then [ALIGN_NOP] else []
  }

  /** The NOP in front of an end-of-thread message that would be misaligned. */
  method InsertPadding(store: array<Chunk>, src: nat, offset: nat, ghost r: Raw) returns (pos: nat)
    requires offset <= src && src + Size(r) <= store.Length
    requires store[src..src + Size(r)] == Encode(r)
    requires IsSend(Op(r)) ==> r.Full?
    requires NeedsAlign(r) && offset % 2 == 1 ==> offset < src
    modifies store
    ensures pos == offset + |PadChunks(r, offset)| <= src
    ensures store[..] == Overwrite(old(store[..]), offset, PadChunks(r, offset))
  {
    assert store[src] == store[src..src + Size(r)][0];
    assert r.Full? ==> store[src + 1] == store[src..src + Size(r)][1];
    pos := offset;
    if IsSend(Opcode(store[src].lo)) && EndOfThread(store[src + 1].hi) && offset % 2 == 1 {
      store[offset] := ALIGN_NOP;
      pos := offset + 1;
    }
  }

  /** Moves an instruction that stays as it is into place. */
  method MoveUncompacted(store: array<Chunk>, src: nat, offset: nat, bytes: nat, ghost r: Raw) returns (pos: nat)
    requires offset <= src && bytes == Size(r) && src + bytes <= store.Length
    requires store[src..src + bytes] == Encode(r)
    requires IsSend(Op(r)) ==> r.Full?
    requires NeedsAlign(r) && offset % 2 == 1 ==> offset < src
    modifies store
    ensures pos == offset + |PadChunks(r, offset)| <= src
    ensures store[..] == Overwrite(old(store[..]), offset, PadChunks(r, offset) + Encode(r))
  {
    hide Overwrite, Encode, PadChunks, NeedsAlign, IsSend, Op;
    ghost var was := store[..];
    pos := InsertPadding(store, src, offset, r);
    OverwriteHalves(was, offset, PadChunks(r, offset), src, src + bytes);
    if pos != src {
      Move(store, pos, src, bytes);
    } else {
      OverwriteSame(store[..], pos, Encode(r));
    }
    OverwriteTwice(was, offset, PadChunks(r, offset), Encode(r));
  }

  /** One step of the first pass: instruction r, at src, goes to offset as r', the form
      compaction leaves it in. */
  method PlaceInstruction(gen: Gen, store: array<Chunk>, src: nat, offset: nat, ghost r: Raw, ghost r': Raw)
    returns (compacted: bool, pos: nat, bytes: nat)
    requires r' == Shrink(gen, r)
    requires Proper(r) && offset <= src && src + Size(r) <= store.Length
    requires store[src..src + Size(r)] == Encode(r)
    requires IsSend(Op(r)) ==> r.Full? && r' == r
    requires NeedsAlign(r) && offset % 2 == 1 ==> offset < src
    modifies store
    ensures compacted <==> r' != r
    ensures pos == offset + |PadChunks(r', offset)|
    ensures bytes == Size(r) && (compacted ==> bytes == 2)
    ensures store[..] == Overwrite(old(store[..]), offset, PadChunks(r', offset) + Encode(r'))
  {
    ghost var was := store[..];
    var header := store[src].lo;
    assert store[src] == store[src..src + Size(r)][0];
    bytes := if CmptControl(header) then 1 else 2;
    compacted := false;
    if !CmptControl(header) {
      assert InsnAt(was, src) == r.insn by {
        assert store[src + 1] == store[src..src + 2][1];
      }
      compacted := TryCompactInstruction(gen, store, offset, src);
    }
    if compacted {
      pos := offset;
      assert PadChunks(r', offset) + Encode(r') == [TryCompact(gen, r.insn).value];
    } else {
      pos := MoveUncompacted(store, src, offset, bytes, r);
    }
  }

  /** The store and the bookkeeping before step k of the first pass. */
  ghost predicate FirstPass(p: seq<Raw>, q: seq<Raw>, k: nat, size: nat,
                            s: seq<Chunk>, counts: seq<int>, oldIp: seq<nat>) {
    && k <= |p| == |q|
    && Start(p, k) <= size <= |s|
    && NewBase(q, k) <= Start(p, k)
    && s[..NewBase(q, k)] == Flatten(Laid(q, q, k))
    && s[Start(p, k)..size] == Flatten(p[k..])
    && |counts| == |oldIp| == size
    && Bookkeeping(p, q, k, counts, oldIp)
  }

  /** What instruction k is at the start of its step. */
  lemma StepReady(gen: Gen, p: seq<Raw>, q: seq<Raw>, k: nat, size: nat,
                  s: seq<Chunk>, counts: seq<int>, oldIp: seq<nat>)
    requires LayoutOk(gen, p, q) && size == Start(p, |p|)
    requires FirstPass(p, q, k, size, s, counts, oldIp) && k < |p|
    ensures Start(p, k) + Size(p[k]) == Start(p, k + 1) <= size
    ensures s[Start(p, k)..Start(p, k) + Size(p[k])] == Encode(p[k])
    ensures Proper(p[k]) && (IsSend(Op(p[k])) ==> p[k].Full? && q[k] == p[k])
    ensures NewBase(q, k) <= NewPos(q, k) <= Start(p, k)
    ensures NewBase(q, k + 1) <= Start(p, k + 1)
    ensures NeedsAlign(p[k]) && NewBase(q, k) % 2 == 1 ==> NewBase(q, k) < Start(p, k)
  {
    hide Flatten, Laid, Bookkeeping, BranchesInside, Encode;
    WriteBehindRead(gen, p, q, k);
    WriteBehindRead(gen, p, q, k + 1);
    ReadOffset(p, k);
    SliceFront(s, Start(p, k), size, Encode(p[k]), Flatten(p[k + 1..]));
    StartMonotone(p, k + 1, |p|);
    assert LayoutOkAt(gen, p, q[k], k);
  }

  lemma SliceFront<T>(s: seq<T>, from: nat, to: nat, a: seq<T>, b: seq<T>)
    requires from <= to <= |s| && s[from..to] == a + b
    ensures from + |a| <= to && s[from..from + |a|] == a
  {
    assert s[from..from + |a|] == s[from..to][..|a|];
  }

  /** What is written for instruction k. */
  function StepChunks(q: seq<Raw>, k: nat): (chunks: seq<Chunk>)
    requires k < |q|
    ensures NewBase(q, k) + |chunks| == NewBase(q, k + 1)
  {
    Places(q, k);
    PadChunks(q[k], NewBase(q, k)) + Encode(q[k])
  }

  /** What the step does to the two halves of the store. */
  lemma StepDone(gen: Gen, p: seq<Raw>, q: seq<Raw>, k: nat, size: nat, s: seq<Chunk>, s': seq<Chunk>)
    requires LayoutOk(gen, p, q) && k < |p| && size == Start(p, |p|) <= |s|
    requires Start(p, k + 1) <= size && NewBase(q, k) <= Start(p, k) && NewBase(q, k + 1) <= Start(p, k + 1)
    requires s[..NewBase(q, k)] == Flatten(Laid(q, q, k))
    requires s[Start(p, k)..size] == Flatten(p[k..])
    requires s' == Overwrite(s, NewBase(q, k), StepChunks(q, k))
    ensures s'[..NewBase(q, k + 1)] == Flatten(Laid(q, q, k + 1))
    ensures s'[Start(p, k + 1)..size] == Flatten(p[k + 1..])
    ensures s'[size..] == s[size..]
  {
    hide Overwrite, Laid, Flatten, Encode, PadChunks, Start, NewBase, Padded, LayoutOkAt, StepChunks;
    WriteStep(q, q, k);
    StepSizes(p, q, k);
    var base := NewBase(q, k);
    assert s[..base] + StepChunks(q, k) == s[..base] + (if Padded(q, k) then [ALIGN_NOP] else []) + Encode(q[k]);
    OverwriteHalves(s, base, StepChunks(q, k), Start(p, k + 1), size);
    ReadOffset(p, k);
    SliceBehind(s, Start(p, k), Size(p[k]), size);
  }

  lemma StepSizes(p: seq<Raw>, q: seq<Raw>, k: nat)
    requires k < |p| == |q|
    ensures Start(p, k + 1) == Start(p, k) + Size(p[k])
    ensures StepChunks(q, k) == (if Padded(q, k) then [ALIGN_NOP] else []) + Encode(q[k])
  {
  }

  lemma SliceBehind<T>(s: seq<T>, from: nat, n: nat, to: nat)
    requires from + n <= to <= |s|
    ensures s[from + n..to] == s[from..to][n..]
  {
  }

  lemma FirstPassStep(gen: Gen, p: seq<Raw>, q: seq<Raw>, k: nat, size: nat,
                      s: seq<Chunk>, counts: seq<int>, oldIp: seq<nat>,
                      s': seq<Chunk>, counts': seq<int>, oldIp': seq<nat>)
    requires LayoutOk(gen, p, q) && size == Start(p, |p|)
    requires FirstPass(p, q, k, size, s, counts, oldIp) && k < |p|
    requires NewBase(q, k) <= NewPos(q, k) < NewBase(q, k + 1) <= |s| && NewPos(q, k) < size && Start(p, k) < size
    requires s' == Overwrite(s, NewBase(q, k), StepChunks(q, k))
    requires counts' == counts[Start(p, k) := Count(p, q, k)]
    requires oldIp' == oldIp[NewBase(q, k) := Start(p, k)][NewPos(q, k) := Start(p, k)]
    ensures FirstPass(p, q, k + 1, size, s', counts', oldIp')
    ensures s'[size..] == s[size..]
  {
    StepReady(gen, p, q, k, size, s, counts, oldIp);
    StepDone(gen, p, q, k, size, s, s');
    BookkeepingStep(gen, p, q, k, counts, oldIp, counts', oldIp');
  }

  /** The step for instruction k. */
  method PlaceNext(gen: Gen, store: array<Chunk>, src: nat, offset: nat, size: nat,
                   ghost p: seq<Raw>, ghost q: seq<Raw>, ghost k: nat, ghost counts: seq<int>, ghost oldIp: seq<nat>)
    returns (compacted: bool, pos: nat, bytes: nat)
    requires LayoutOk(gen, p, q) && q == ShrinkAll(gen, p) && size == Start(p, |p|)
    requires FirstPass(p, q, k, size, store[..], counts, oldIp) && k < |p|
    requires src == Start(p, k) && offset == NewBase(q, k)
    modifies store
    ensures compacted <==> q[k] != p[k]
    ensures pos == NewPos(q, k) < size && pos + (if compacted then 1 else bytes) == NewBase(q, k + 1) <= store.Length
    ensures src + bytes == Start(p, k + 1)
    ensures store[..] == Overwrite(old(store[..]), NewBase(q, k), StepChunks(q, k))
  {
    StepReady(gen, p, q, k, size, store[..], counts, oldIp);
    ShrinkAllAt(gen, p, k);
    compacted, pos, bytes := PlaceInstruction(gen, store, src, offset, p[k], q[k]);
  }

  /** One iteration of the first pass. */
  method CompactNext(gen: Gen, store: array<Chunk>, counts: array<int>, oldIp: array<nat>,
                     src: nat, offset: nat, compactedCount: int, size: nat,
                     ghost p: seq<Raw>, ghost q: seq<Raw>, ghost k: nat)
    returns (src': nat, offset': nat, compactedCount': int)
    requires LayoutOk(gen, p, q) && q == ShrinkAll(gen, p) && size == Start(p, |p|)
    requires counts as object != oldIp as object
    requires FirstPass(p, q, k, size, store[..], counts[..], oldIp[..]) && k < |p|
    requires src == Start(p, k) && offset == NewBase(q, k) && compactedCount == Count(p, q, k)
    modifies store, counts, oldIp
    ensures FirstPass(p, q, k + 1, size, store[..], counts[..], oldIp[..])
    ensures src' == Start(p, k + 1) && offset' == NewBase(q, k + 1) && compactedCount' == Count(p, q, k + 1)
    ensures store[..][size..] == old(store[..])[size..]
  {
    hide Overwrite, LayoutOkAt, Flatten, Laid, Encode, Bookkeeping, PadChunks, NeedsAlign, ShrinkAll, StepChunks;
    ghost var was, counts0, oldIp0 := store[..], counts[..], oldIp[..];
    StepReady(gen, p, q, k, size, was, counts0, oldIp0);
    oldIp[offset] := src;
    counts[src] := compactedCount;
    var compacted, pos, bytes := PlaceNext(gen, store, src, offset, size, p, q, k, counts0, oldIp0);
    oldIp[pos] := src;
    FirstPassStep(gen, p, q, k, size, was, counts0, oldIp0, store[..], counts[..], oldIp[..]);
    if compacted {
      compactedCount' := compactedCount + 1;
      offset' := pos + 1;
    } else {
      compactedCount' := compactedCount;
      offset' := pos + bytes;
    }
    src' := src + bytes;
  }

  lemma FirstPassStart(p: seq<Raw>, q: seq<Raw>, size: nat, s: seq<Chunk>, counts: seq<int>, oldIp: seq<nat>)
    requires |p| == |q| && size <= |s| && |counts| == |oldIp| == size && s[..size] == Flatten(p)
    ensures FirstPass(p, q, 0, size, s, counts, oldIp)
    ensures Start(p, 0) == 0 && NewBase(q, 0) == 0 && Count(p, q, 0) == 0
  {
    assert p[0..] == p && s[0..size] == s[..size];
  }

  /** First pass: compacts instructions and closes the gaps. */
  method CompactAndMove(gen: Gen, store: array<Chunk>, size: nat, counts: array<int>, oldIp: array<nat>,
                        ghost p: seq<Raw>, ghost q: seq<Raw>)
    returns (end: nat)
    requires LayoutOk(gen, p, q) && q == ShrinkAll(gen, p) && size == Start(p, |p|)
    requires size <= store.Length && counts.Length == oldIp.Length == size
    requires counts as object != oldIp as object
    requires store[..size] == Flatten(p)
    modifies store, counts, oldIp
    ensures end == NewBase(q, |p|)
    ensures FirstPass(p, q, |p|, size, store[..], counts[..], oldIp[..])
    ensures store[..][size..] == old(store[..])[size..]
  {
    hide FirstPass, LayoutOkAt, Flatten, ShrinkAll, Start, NewBase, Count;
    var src, offset, compactedCount := 0, 0, 0;
    ghost var k := 0;
    FirstPassStart(p, q, size, store[..], counts[..], oldIp[..]);
    while src < size
      invariant k <= |p|
      invariant FirstPass(p, q, k, size, store[..], counts[..], oldIp[..])
      invariant src == Start(p, k) && offset == NewBase(q, k) && compactedCount == Count(p, q, k)
      invariant store[..][size..] == old(store[..])[size..]
      decreases |p| - k
    {
      src, offset, compactedCount :=
        CompactNext(gen, store, counts, oldIp, src, offset, compactedCount, size, p, q, k);
      k := k + 1;
    }
    StartMonotone(p, k, |p|);
    end := offset;
  }

  // ---- second pass ----

  function Between(counts: seq<int>, oldIp: int, targetIp: int): int
    requires 0 <= oldIp < |counts| && 0 <= targetIp < |counts|
  {
    counts[targetIp] - counts[oldIp]
  }

  lemma FieldByField(d3: u32, jip: int, uip: int)
    ensures Uip(WithJip(d3, jip)) == Uip(d3)
    ensures WithUip(WithJip(d3, jip), uip) == BreakCont(jip, uip)
  {
    DivUnique(WithJip(d3, jip), 0x1_0000, d3 / 0x1_0000, Field16(jip));
  }

  /** Rewrites the jip and the uip field of the chunk that holds bits2 and bits3. */
  method UpdateUipJip(store: array<Chunk>, at: nat, thisOldIp: int, counts: array<int>)
    requires at < store.Length && 0 <= thisOldIp < counts.Length
    requires 0 <= thisOldIp + Jip(store[at].hi) < counts.Length
    requires 0 <= thisOldIp + Uip(store[at].hi) < counts.Length
    modifies store
    ensures store[..] == old(store[..][at := store[at].(hi := BreakCont(
      Jip(store[at].hi) - Between(counts[..], thisOldIp, thisOldIp + Jip(store[at].hi)),
      Uip(store[at].hi) - Between(counts[..], thisOldIp, thisOldIp + Uip(store[at].hi))))])
  {
    hide Jip, Uip, WithJip, WithUip, BreakCont;
    var d3 := store[at].hi;
    var targetOldIp := thisOldIp + Jip(store[at].hi);
    var jip := Jip(d3) - (counts[targetOldIp] - counts[thisOldIp]);
    store[at] := store[at].(hi := WithJip(store[at].hi, jip));
    FieldByField(d3, jip, 0);
    targetOldIp := thisOldIp + Uip(store[at].hi);
    var uip := Uip(store[at].hi) - (counts[targetOldIp] - counts[thisOldIp]);
    store[at] := store[at].(hi := WithUip(store[at].hi, uip));
    FieldByField(d3, jip, uip);
  }

  /** Rewrites the gen6 jump count of the chunk that holds the header and bits1. */
  method UpdateJumpCount(store: array<Chunk>, at: nat, thisOldIp: int, counts: array<int>)
    requires at < store.Length && 0 <= thisOldIp < counts.Length
    requires 0 <= thisOldIp + JumpCount(store[at].hi) < counts.Length
    modifies store
    ensures store[..] == old(store[..][at := store[at].(hi := WithJumpCount(store[at].hi,
      JumpCount(store[at].hi) - Between(counts[..], thisOldIp, thisOldIp + JumpCount(store[at].hi))))])
  {
    var targetOldIp := thisOldIp + JumpCount(store[at].hi);
    var between := counts[targetOldIp] - counts[thisOldIp];
    store[at] := store[at].(hi := WithJumpCount(store[at].hi, JumpCount(store[at].hi) - between));
  }

  /** A target of instruction k, as the bookkeeping arrays record it. */
  lemma TargetRecorded(p: seq<Raw>, q: seq<Raw>, k: nat, d: int, counts: seq<int>, oldIp: seq<nat>)
    requires k < |p| == |q| && Bookkeeping(p, q, |p|, counts, oldIp) && IsStart(p, Start(p, k) + d)
    ensures 0 <= Start(p, k) + d < |counts| && Start(p, k) < |counts|
    ensures Between(counts, Start(p, k), Start(p, k) + d) == CompactedBetween(p, q, k, d)
  {
    assert BookkeepingAt(p, q, k, counts, oldIp);
    assert BookkeepingAt(p, q, IndexAt(p, Start(p, k) + d), counts, oldIp);
  }

  /** Rewrites the distances of branch k. */
  method FixBranch(gen: Gen, store: array<Chunk>, offset: nat, thisOldIp: nat, counts: array<int>,
                   ghost p: seq<Raw>, ghost q: seq<Raw>, ghost k: nat, ghost oldIp: seq<nat>)
    requires k < |p| == |q| && Bookkeeping(p, q, |p|, counts[..], oldIp) && BranchesInside(gen, p, k)
    requires p[k].Full? && q[k] == p[k] && IsBranch(gen, Op(p[k])) && thisOldIp == Start(p, k)
    requires offset + 1 < store.Length && InsnAt(store[..], offset) == p[k].insn
    modifies store
    ensures store[..] == Overwrite(old(store[..]), offset, Encode(Fixed(gen, p, q, k)))
  {
    hide LayoutOk, Bookkeeping, CompactedBetween, Start, Overwrite, Jip, Uip, JumpCount, BreakCont, WithJumpCount;
    ghost var was := store[..];
    if UsesJumpCount(gen, Opcode(store[offset].lo)) {
      TargetRecorded(p, q, k, Displacement(gen, p[k], AtJip), counts[..], oldIp);
      UpdateJumpCount(store, offset, thisOldIp, counts);
    } else {
      TargetRecorded(p, q, k, Displacement(gen, p[k], AtJip), counts[..], oldIp);
      TargetRecorded(p, q, k, Displacement(gen, p[k], AtUip), counts[..], oldIp);
      UpdateUipJip(store, offset + 1, thisOldIp, counts);
    }
    OverwriteOne(was, store[..], offset, p[k].insn, Fixed(gen, p, q, k).insn);
  }

  /** A change of either chunk of an instruction is a change of the instruction. */
  lemma OverwriteOne(s: seq<Chunk>, s': seq<Chunk>, offset: nat, i: Insn, i': Insn)
    requires offset + 1 < |s| && InsnAt(s, offset) == i
    requires || (s' == s[offset := Chunk(i'.d0, i'.d1)] && i'.d2 == i.d2 && i'.d3 == i.d3)
             || (s' == s[offset + 1 := Chunk(i'.d2, i'.d3)] && i'.d0 == i.d0 && i'.d1 == i.d1)
    ensures s' == Overwrite(s, offset, Encode(Full(i')))
  {
  }

  /** One iteration of the second pass, over instruction k or over the padding in front of it. */
  method FixNext(gen: Gen, store: array<Chunk>, offset: nat, counts: array<int>, oldIp: array<nat>,
                 ghost p: seq<Raw>, ghost q: seq<Raw>, ghost k: nat)
    returns (bytes: nat)
    requires LayoutOk(gen, p, q) && k < |p| && Bookkeeping(p, q, |p|, counts[..], oldIp[..])
    requires NewBase(q, k) <= offset <= NewPos(q, k) && NewPos(q, k) + Size(q[k]) <= store.Length
    requires store[NewPos(q, k)..NewPos(q, k) + Size(q[k])] == Encode(q[k])
    requires offset < NewPos(q, k) ==> store[offset] == ALIGN_NOP
    modifies store
    ensures offset < NewPos(q, k) ==> bytes == 1 && store[..] == old(store[..])
    ensures BranchesInside(gen, p, k)
    ensures offset == NewPos(q, k) ==>
              && bytes == Size(q[k]) == Size(Fixed(gen, p, q, k))
              && store[..] == Overwrite(old(store[..]), offset, Encode(Fixed(gen, p, q, k)))
  {
    ghost var was := store[..];
    StepFacts(gen, p, q, k, counts[..], oldIp[..], was);
    var thisOldIp := oldIp[offset];
    if IsBranch(gen, Opcode(store[offset].lo)) {
      FixBranch(gen, store, offset, thisOldIp, counts, p, q, k, oldIp[..]);
    } else if offset == NewPos(q, k) {
      OverwriteSame(was, offset, Encode(q[k]));
    }
    bytes := if CmptControl(store[offset].lo) then 1 else 2;
  }

  lemma StepFacts(gen: Gen, p: seq<Raw>, q: seq<Raw>, k: nat, counts: seq<int>, oldIp: seq<nat>, s: seq<Chunk>)
    requires LayoutOk(gen, p, q) && k < |p| && Bookkeeping(p, q, |p|, counts, oldIp)
    requires NewPos(q, k) + Size(q[k]) <= |s|
    requires s[NewPos(q, k)..NewPos(q, k) + Size(q[k])] == Encode(q[k])
    ensures BranchesInside(gen, p, k)
    ensures s[NewPos(q, k)].lo == Header(q[k]) == Header(Fixed(gen, p, q, k)) && Proper(q[k])
    ensures Op(q[k]) == Op(p[k])
    ensures Size(Fixed(gen, p, q, k)) == Size(q[k])
    ensures IsBranch(gen, Op(p[k])) ==>
              p[k].Full? && q[k] == p[k] && NewPos(q, k) + 1 < |s| && InsnAt(s, NewPos(q, k)) == p[k].insn
    ensures !IsBranch(gen, Op(p[k])) ==> Fixed(gen, p, q, k) == q[k]
    ensures NewPos(q, k) < |oldIp| && oldIp[NewPos(q, k)] == Start(p, k)
  {
    assert LayoutOkAt(gen, p, q[k], k);
    assert BookkeepingAt(p, q, k, counts, oldIp);
    FixedShape(gen, p, q, k);
    var pos := NewPos(q, k);
    assert s[pos] == s[pos..pos + Size(q[k])][0];
    if q[k].Full? {
      assert s[pos + 1] == s[pos..pos + Size(q[k])][1];
    }
  }

  /** The program when the instructions before k have been fixed up. */
  ghost function Mixed(q: seq<Raw>, f: seq<Raw>, k: nat): seq<Raw>
    requires k <= |q| == |f|
  {
    Laid(q, f, k) + LaidFrom(q, q, k)
  }

  lemma MixedAround(q: seq<Raw>, f: seq<Raw>, k: nat)
    requires k < |q| == |f|
    ensures Mixed(q, f, k) == (Laid(q, f, k) + Pad(q, k)) + [q[k]] + LaidFrom(q, q, k + 1)
    ensures Mixed(q, f, k + 1) == (Laid(q, f, k) + Pad(q, k)) + [f[k]] + LaidFrom(q, q, k + 1)
  {
    hide Pad;
    MoveOver(Laid(q, f, k), Pad(q, k), [q[k]], LaidFrom(q, q, k + 1));
  }

  lemma MixedAt(q: seq<Raw>, f: seq<Raw>, k: nat)
    requires SameSizes(q, f) && k < |q|
    ensures |Flatten(Laid(q, f, k) + Pad(q, k))| == NewPos(q, k)
    ensures Flatten(Mixed(q, f, k)) ==
            Flatten(Laid(q, f, k) + Pad(q, k)) + Encode(q[k]) + Flatten(LaidFrom(q, q, k + 1))
    ensures Flatten(Mixed(q, f, k + 1)) ==
            Flatten(Laid(q, f, k) + Pad(q, k)) + Encode(f[k]) + Flatten(LaidFrom(q, q, k + 1))
  {
    hide Flatten, Mixed, Laid, LaidFrom, Pad, Encode, NewPos;
    LaidLength(q, f, k);
    MixedAround(q, f, k);
    FlattenThree(Laid(q, f, k) + Pad(q, k), q[k], LaidFrom(q, q, k + 1));
    FlattenThree(Laid(q, f, k) + Pad(q, k), f[k], LaidFrom(q, q, k + 1));
  }

  lemma FlattenThree(before: seq<Raw>, r: Raw, after: seq<Raw>)
    ensures Flatten(before + [r] + after) == Flatten(before) + Encode(r) + Flatten(after)
  {
    FlattenAppend(before + [r], after);
    FlattenAppend(before, [r]);
    FlattenOne(r);
  }

  /** Padding in front of instruction k is a NOP. */
  lemma MixedPad(q: seq<Raw>, f: seq<Raw>, k: nat)
    requires SameSizes(q, f) && k < |q| && Padded(q, k)
    ensures NewPos(q, k) == NewBase(q, k) + 1 <= |Flatten(Mixed(q, f, k))|
    ensures Flatten(Mixed(q, f, k))[NewBase(q, k)] == ALIGN_NOP
  {
    MixedAt(q, f, k);
    LaidLength(q, f, k);
    FlattenAppend(Laid(q, f, k), Pad(q, k));
    FlattenOne(Short(ALIGN_NOP));
  }

  lemma MixedEnds(q: seq<Raw>, f: seq<Raw>)
    requires SameSizes(q, f)
    ensures Mixed(q, f, 0) == Laid(q, q, |q|)
    ensures Mixed(q, f, |q|) == Laid(q, f, |q|)
  {
    LaidSplit(q, q, 0);
  }

  /** The store before the walk of the second pass looks at offset. */
  ghost predicate SecondPass(q: seq<Raw>, f: seq<Raw>, k: nat, offset: nat, end: nat, s: seq<Chunk>) {
    && SameSizes(q, f) && k <= |q| && end == NewBase(q, |q|) <= |s|
    && (offset == NewBase(q, k) || (k < |q| && offset == NewPos(q, k)))
    && s[..end] == Flatten(Mixed(q, f, k))
  }

  lemma SecondPassReady(gen: Gen, p: seq<Raw>, q: seq<Raw>, f: seq<Raw>, k: nat, offset: nat, end: nat, s: seq<Chunk>)
    requires LayoutOk(gen, p, q) && SecondPass(q, f, k, offset, end, s) && offset < end
    ensures k < |q| && NewPos(q, k) + Size(q[k]) == NewBase(q, k + 1) <= end
    ensures s[NewPos(q, k)..NewPos(q, k) + Size(q[k])] == Encode(q[k])
    ensures offset < NewPos(q, k) ==> offset + 1 == NewPos(q, k) && s[offset] == ALIGN_NOP
  {
    hide Flatten, Mixed, Laid, LaidFrom, Pad, Encode, LayoutOkAt, NewBase, NewPos, Padded;
    assert k < |q|;
    Places(q, k);
    MixedAt(q, f, k);
    Distances(gen, p, q, k + 1, |q|);
    Middle(s, end, Flatten(Laid(q, f, k) + Pad(q, k)), Encode(q[k]), Flatten(LaidFrom(q, q, k + 1)));
    if Padded(q, k) {
      MixedPad(q, f, k);
      assert s[..end][NewBase(q, k)] == s[NewBase(q, k)];
    }
  }

  lemma Middle<T>(s: seq<T>, end: nat, a: seq<T>, b: seq<T>, c: seq<T>)
    requires end <= |s| && s[..end] == a + b + c
    ensures |a| + |b| <= end && s[|a|..|a| + |b|] == b
  {
    assert s[|a|..|a| + |b|] == s[..end][|a|..|a| + |b|];
  }

  lemma SecondPassStep(gen: Gen, p: seq<Raw>, q: seq<Raw>, f: seq<Raw>, k: nat, offset: nat, end: nat,
                       s: seq<Chunk>, s': seq<Chunk>)
    requires LayoutOk(gen, p, q) && SecondPass(q, f, k, offset, end, s)
    requires k < |q| && offset == NewPos(q, k) && offset + Size(q[k]) <= end
    requires s' == Overwrite(s, offset, Encode(f[k]))
    ensures SecondPass(q, f, k + 1, offset + Size(q[k]), end, s')
    ensures s'[end..] == s[end..]
  {
    hide Flatten, Mixed, Laid, LaidFrom, Pad, Encode, LayoutOkAt, Overwrite;
    MixedAt(q, f, k);
    OverwriteMiddle(s, end, Flatten(Laid(q, f, k) + Pad(q, k)), Encode(q[k]), Flatten(LaidFrom(q, q, k + 1)),
                    Encode(f[k]));
  }

  /** One step of the walk. */
  method FixStep(gen: Gen, store: array<Chunk>, offset: nat, end: nat, counts: array<int>, oldIp: array<nat>,
                 ghost p: seq<Raw>, ghost q: seq<Raw>, ghost f: seq<Raw>, ghost k: nat)
    returns (offset': nat, ghost k': nat)
    requires LayoutOk(gen, p, q) && f == FixedSeq(gen, p, q) && Bookkeeping(p, q, |p|, counts[..], oldIp[..])
    requires SecondPass(q, f, k, offset, end, store[..]) && offset < end
    modifies store
    ensures SecondPass(q, f, k', offset', end, store[..]) && offset < offset'
    ensures store[..][end..] == old(store[..])[end..]
  {
    hide Flatten, Mixed, Fixed, Bookkeeping, BranchesInside, SameSizes;
    ghost var was := store[..];
    SecondPassReady(gen, p, q, f, k, offset, end, was);
    var bytes := FixNext(gen, store, offset, counts, oldIp, p, q, k);
    k' := k;
    if offset == NewPos(q, k) {
      SecondPassStep(gen, p, q, f, k, offset, end, was, store[..]);
      k' := k + 1;
    }
    offset' := offset + bytes;
  }

  /** Second pass: rewrites the branch distances. */
  method FixUp(gen: Gen, store: array<Chunk>, end: nat, counts: array<int>, oldIp: array<nat>,
               ghost p: seq<Raw>, ghost q: seq<Raw>)
    requires LayoutOk(gen, p, q) && Bookkeeping(p, q, |p|, counts[..], oldIp[..])
    requires end == NewBase(q, |q|) <= store.Length && store[..end] == Flatten(Laid(q, q, |q|))
    modifies store
    ensures store[..end] == Flatten(Laid(q, FixedSeq(gen, p, q), |q|))
    ensures store[..][end..] == old(store[..])[end..]
  {
    ghost var f := FixedSeq(gen, p, q);
    MixedEnds(q, f);
    var offset := 0;
    ghost var k := 0;
    while offset < end
      invariant SecondPass(q, f, k, offset, end, store[..])
      invariant store[..][end..] == old(store[..])[end..]
      decreases end - offset
    {
      offset, k := FixStep(gen, store, offset, end, counts, oldIp, p, q, f, k);
    }
    SecondPassEnd(gen, p, q, k, offset, end);
  }

  lemma SecondPassEnd(gen: Gen, p: seq<Raw>, q: seq<Raw>, k: nat, offset: nat, end: nat)
    requires LayoutOk(gen, p, q) && end == NewBase(q, |q|) <= offset && k <= |q|
    requires offset == NewBase(q, k) || (k < |q| && offset == NewPos(q, k))
    ensures k == |q|
  {
    if k < |q| {
      Distances(gen, p, q, k + 1, |q|);
    }
  }
}
