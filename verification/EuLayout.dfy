/** The whole compacted program, as a run of instructions. */
module EuLayout {
  import opened EuStructs
  import opened EuCodec
  import opened EuProgram

  /** What compaction makes of an instruction on its own. */
  function Shrink(gen: Gen, r: Raw): Raw {
    if r.Short? then r
    else
      match TryCompact(gen, r.insn)
      case Some(c) => Short(c)
      case None => r
  }

  function ShrinkAll(gen: Gen, p: seq<Raw>): (q: seq<Raw>)
    ensures |q| == |p|
  {
    if p == [] then [] else ShrinkAll(gen, p[..|p| - 1]) + [Shrink(gen, p[|p| - 1])]
  }

  lemma {:induction false} ShrinkAllAt(gen: Gen, p: seq<Raw>, k: nat)
    requires k < |p|
    ensures ShrinkAll(gen, p)[k] == Shrink(gen, p[k])
  {
    if k < |p| - 1 {
      ShrinkAllAt(gen, p[..|p| - 1], k);
    }
  }

  /** The programs compaction is meant for. */
  ghost predicate WellFormed(gen: Gen, p: seq<Raw>) {
    && Start(p, |p|) % 2 == 0
    && (forall k :: 0 <= k < |p| ==> WellFormedAt(gen, p, k))
  }

  ghost predicate WellFormedAt(gen: Gen, p: seq<Raw>, k: nat)
    requires k < |p|
  {
    && Proper(p[k])
    && !OtherBranch(Op(p[k]))
    // An 8-byte instruction is neither a branch nor a message.
    && (p[k].Short? ==> !IsBranch(gen, Op(p[k])) && !IsSend(Op(p[k])))
    // A message descriptor and the distances of BREAK and CONTINUE are immediates.
    && (p[k].Full? && (IsSend(Op(p[k])) || Op(p[k]) == OPCODE_BREAK || Op(p[k]) == OPCODE_CONTINUE)
        ==> HasImmediate(p[k].insn))
    // End-of-thread messages start out 16-byte aligned.
    && (NeedsAlign(p[k]) ==> Start(p, k) % 2 == 0)
    && BranchesInside(gen, p, k)
  }

  lemma WellFormedLayout(gen: Gen, p: seq<Raw>)
    requires WellFormed(gen, p)
    ensures LayoutOk(gen, p, ShrinkAll(gen, p))
  {
    var q := ShrinkAll(gen, p);
    forall k | 0 <= k < |p| ensures LayoutOkAt(gen, p, q[k], k) {
      ShrinkAllAt(gen, p, k);
      assert WellFormedAt(gen, p, k);
    }
  }

  lemma FixedShape(gen: Gen, p: seq<Raw>, q: seq<Raw>, k: nat)
    requires LayoutOk(gen, p, q) && k < |p|
    ensures BranchesInside(gen, p, k)
    ensures Size(Fixed(gen, p, q, k)) == Size(q[k])
    ensures Op(Fixed(gen, p, q, k)) == Op(q[k]) == Op(p[k])
    ensures Header(Fixed(gen, p, q, k)) == Header(q[k])
    ensures Proper(Fixed(gen, p, q, k))
    ensures !IsBranch(gen, Op(p[k])) ==> Fixed(gen, p, q, k) == q[k]
  {
    assert LayoutOkAt(gen, p, q[k], k);
  }

  function Pad(q: seq<Raw>, k: nat): seq<Raw>
    requires k < |q|
  {
    if Padded(q, k) then [Short(ALIGN_NOP)] else []
  }

  /** The instructions with their distances rewritten. */
  ghost function FixedSeq(gen: Gen, p: seq<Raw>, q: seq<Raw>): (f: seq<Raw>)
    requires LayoutOk(gen, p, q)
    ensures SameSizes(q, f)
    ensures forall k :: 0 <= k < |p| ==> BranchesInside(gen, p, k) && f[k] == Fixed(gen, p, q, k)
  {
    assert forall k :: 0 <= k < |p| ==> LayoutOkAt(gen, p, q[k], k) && BranchesInside(gen, p, k);
    seq(|p|, k requires 0 <= k < |p| && BranchesInside(gen, p, k) => Fixed(gen, p, q, k))
  }

  predicate SameSizes(q: seq<Raw>, x: seq<Raw>) {
    |x| == |q| && forall k :: 0 <= k < |q| ==> Size(x[k]) == Size(q[k])
  }

  /** The first k instructions of x and their padding, laid out by the sizes of q. */
  function Laid(q: seq<Raw>, x: seq<Raw>, k: nat): seq<Raw>
    requires k <= |q| == |x|
  {
    if k == 0 then [] else Laid(q, x, k - 1) + Pad(q, k - 1) + [x[k - 1]]
  }

  /** The instructions of x from k on and their padding. */
  function LaidFrom(q: seq<Raw>, x: seq<Raw>, k: nat): seq<Raw>
    requires k <= |q| == |x|
    decreases |q| - k
  {
    if k == |q| then [] else Pad(q, k) + [x[k]] + LaidFrom(q, x, k + 1)
  }

  lemma FlattenOne(r: Raw)
    ensures Flatten([r]) == Encode(r)
  {
    assert [r][1..] == [];
    assert Encode(r) + [] == Encode(r);
  }

  lemma MoveOver<T>(before: seq<T>, pad: seq<T>, one: seq<T>, after: seq<T>)
    ensures (before + pad + one) + after == before + (pad + one + after)
  {
  }

  lemma {:induction false} LaidSplit(q: seq<Raw>, x: seq<Raw>, k: nat)
    requires k <= |q| == |x|
    ensures Laid(q, x, |q|) == Laid(q, x, k) + LaidFrom(q, x, k)
    decreases |q| - k
  {
    hide Pad;
    if k < |q| {
      LaidSplit(q, x, k + 1);
      MoveOver(Laid(q, x, k), Pad(q, k), [x[k]], LaidFrom(q, x, k + 1));
    }
  }

  lemma {:induction false} LaidLength(q: seq<Raw>, x: seq<Raw>, k: nat)
    requires SameSizes(q, x) && k <= |q|
    ensures |Flatten(Laid(q, x, k))| == NewBase(q, k)
    ensures k < |q| ==> |Flatten(Laid(q, x, k) + Pad(q, k))| == NewPos(q, k)
  {
    if k > 0 {
      LaidLength(q, x, k - 1);
      FlattenAppend(Laid(q, x, k - 1) + Pad(q, k - 1), [x[k - 1]]);
      FlattenOne(x[k - 1]);
    }
    if k < |q| {
      FlattenAppend(Laid(q, x, k), Pad(q, k));
      FlattenOne(Short(ALIGN_NOP));
    }
  }

  /** The compacted program: distances rewritten, end-of-thread messages aligned, length even. */
  ghost function Output(gen: Gen, p: seq<Raw>): seq<Raw>
    requires WellFormed(gen, p)
  {
    var q := ShrinkAll(gen, p);
    WellFormedLayout(gen, p);
    OutputOf(gen, p, q)
  }

  ghost function OutputOf(gen: Gen, p: seq<Raw>, q: seq<Raw>): seq<Raw>
    requires LayoutOk(gen, p, q)
  {
    Laid(q, FixedSeq(gen, p, q), |p|) + Tail(q)
  }

  /** Padding that makes the length even. */
  function Tail(q: seq<Raw>): seq<Raw> {
    if NewBase(q, |q|) % 2 == 1 then [Short(ALIGN_NOP)] else []
  }
}
