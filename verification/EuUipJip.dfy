/** The pass after emission that gives BREAK, CONTINUE, ENDIF and HALT their distances on gen6 and
    gen7, where loop nesting is read off the backward jumps. */
module EuUipJip {
  import opened EuIr
  import opened EuEmit
  import opened EuPatching
  import opened EuTargets

  predicate EndsBlock(insn: Insn) {
    insn.op == ENDIF || insn.op == ELSE || insn.op == WHILE || insn.op == HALT
  }

  /** The first end of a block from offset from on, or 0 if there is none. */
  function NextBlockEnd(code: seq<Insn>, from: nat): (r: nat)
    requires 0 < from <= |code|
    ensures r == 0 || from <= r < |code|
    ensures r != 0 ==> EndsBlock(code[r]) && forall j :: from <= j < r ==> !EndsBlock(code[j])
    ensures r == 0 ==> forall j :: from <= j < |code| ==> !EndsBlock(code[j])
    decreases |code| - from
  {
    if from == |code| then 0
    else if EndsBlock(code[from]) then from
    else NextBlockEnd(code, from + 1)
  }

  /** Both scans see only what is behind their start. */
  lemma {:induction false} ScansSeeSuffix(c: Config, a: seq<Insn>, b: seq<Insn>, start: nat, from: nat)
    requires |a| == |b| && start < from <= |a| && a[from..] == b[from..]
    ensures NextBlockEnd(a, from) == NextBlockEnd(b, from)
    ensures FindLoopEnd(c, a, start, from) == FindLoopEnd(c, b, start, from)
    decreases |a| - from
  {
    if from < |a| {
      assert a[from] == a[from..][0] == b[from];
      assert a[from + 1..] == a[from..][1..] == b[from + 1..];
      ScansSeeSuffix(c, a, b, start, from + 1);
    }
  }

  /** Instruction i with its distances set. */
  function Finished(c: Config, code: seq<Insn>, i: nat): Insn
    requires i < |code|
  {
    var insn := code[i];
    var blockEnd := NextBlockEnd(code, i + 1);
    if IsJumpOut(insn) then
      insn.(fields := insn.fields.(
        jip := Short16(2 * (blockEnd - i)),
        uip := Short16(2 * (FindLoopEnd(c, code, i, i + 1) - i + if insn.op == BREAK && c.gen == 6 then 1 else 0))))
    else if insn.op == ENDIF then
      insn.(fields := insn.fields.(jip := if blockEnd == 0 then 2 else Short16(2 * (blockEnd - i))))
    else if insn.op == HALT then
      insn.(fields := insn.fields.(jip := if blockEnd == 0 then insn.fields.uip else Short16(2 * (blockEnd - i))))
    else insn
  }

  function FinishedAll(c: Config, code: seq<Insn>): (r: seq<Insn>)
    ensures |r| == |code|
  {
    seq(|code|, i requires 0 <= i < |code| => Finished(c, code, i))
  }

  /** The JIP of instruction i, with b the first ENDIF, ELSE, WHILE or HALT behind it, or the end of the code
      if there is none: it names b; without one it goes one instruction on for an ENDIF, and is the UIP for a
      HALT.  No other instruction has its JIP changed. */
  lemma JipNamesBlockEnd(c: Config, code: seq<Insn>, i: nat, b: nat)
    requires i < b <= |code| && 2 * |code| < 0x8000
    requires forall j :: i < j < b ==> code[j].op !in {ENDIF, ELSE, WHILE, HALT}
    requires b < |code| ==> code[b].op in {ENDIF, ELSE, WHILE, HALT}
    ensures var was, now := code[i], FinishedAll(c, code)[i];
            && now == was.(fields := was.fields.(jip := now.fields.jip, uip := now.fields.uip))
            && (was.op !in {BREAK, CONTINUE} ==> now.fields.uip == was.fields.uip)
            && (b < |code| && was.op in {BREAK, CONTINUE, ENDIF, HALT} ==> now.fields.jip == 2 * (b - i))
            && (b == |code| && was.op == ENDIF ==> now.fields.jip == 2)
            && (b == |code| && was.op == HALT ==> now.fields.jip == was.fields.uip)
            && (was.op !in {BREAK, CONTINUE, ENDIF, HALT} ==> now == was)
  {
    hide FindLoopEnd, Short16;
    Short16Fits(2 * (b - i));
    assert NextBlockEnd(code, i + 1) == if b < |code| then b else 0;
  }

  /** Every BREAK and CONTINUE has a loop to leave. */
  ghost predicate JumpsHaveLoops(c: Config, code: seq<Insn>) {
    forall i :: 0 <= i < |code| && IsJumpOut(code[i]) ==> FindLoopEnd(c, code, i, i + 1) != i
  }

  method ScanBlockEnd(code: array<Insn>, n: nat, start: nat) returns (r: nat)
    requires start < n <= code.Length
    ensures r == NextBlockEnd(code[..n], start + 1)
  {
    var ip := start + 1;
    while ip < n
      invariant start < ip <= n && NextBlockEnd(code[..n], start + 1) == NextBlockEnd(code[..n], ip)
    {
      if EndsBlock(code[ip]) {
        return ip;
      }
      ip := ip + 1;
    }
    r := 0;
  }

  method ScanLoopEnd(c: Config, code: array<Insn>, n: nat, start: nat) returns (r: nat)
    requires start < n <= code.Length
    ensures r == FindLoopEnd(c, code[..n], start, start + 1)
  {
    var ip := start + 1;
    while ip < n
      invariant start < ip <= n && FindLoopEnd(c, code[..n], start, start + 1) == FindLoopEnd(c, code[..n], start, ip)
    {
      if code[ip].op == WHILE {
        var jip := if c.gen == 6 then code[ip].fields.gen6Jump else code[ip].fields.jip;
        if 2 * ip + jip <= 2 * start {
          return ip;
        }
      }
      ip := ip + 1;
    }
    r := start;
  }

  lemma FinishedSeesSuffix(c: Config, a: seq<Insn>, b: seq<Insn>, i: nat)
    requires i < |a| == |b| && a[i..] == b[i..]
    ensures Finished(c, a, i) == Finished(c, b, i)
  {
    hide Short16, NextBlockEnd, FindLoopEnd;
    assert a[i] == a[i..][0] == b[i];
    assert a[i + 1..] == a[i..][1..] == b[i + 1..];
    ScansSeeSuffix(c, a, b, i, i + 1);
  }

  /** Instruction i with the distances the scans find for it. */
  method FinishInsn(c: Config, store: array<Insn>, n: nat, i: nat) returns (insn: Insn)
    requires i < n <= store.Length
    requires IsJumpOut(store[i]) ==> FindLoopEnd(c, store[..n], i, i + 1) != i
    ensures insn == Finished(c, store[..n], i)
  {
    hide Short16, NextBlockEnd, FindLoopEnd;
    var blockEnd := ScanBlockEnd(store, n, i);
    insn := store[i];
    if insn.op == BREAK {
      assert blockEnd != 0;
      var loopEnd := ScanLoopEnd(c, store, n, i);
      insn := insn.(fields := insn.fields.(jip := Short16(2 * (blockEnd - i)),
                                           uip := Short16(2 * (loopEnd - i + if c.gen == 6 then 1 else 0))));
    } else if insn.op == CONTINUE {
      assert blockEnd != 0;
      var loopEnd := ScanLoopEnd(c, store, n, i);
      insn := insn.(fields := insn.fields.(jip := Short16(2 * (blockEnd - i)), uip := Short16(2 * (loopEnd - i))));
    } else if insn.op == ENDIF {
      insn := insn.(fields := insn.fields.(jip := if blockEnd == 0 then 2 else Short16(2 * (blockEnd - i))));
    } else if insn.op == HALT {
      insn := insn.(fields := insn.fields.(
        jip := if blockEnd == 0 then insn.fields.uip else Short16(2 * (blockEnd - i))));
    }
  }

  /** Halfway through: i instructions done. */
  function HalfFinished(c: Config, code: seq<Insn>, i: nat): (r: seq<Insn>)
    requires i <= |code|
    ensures |r| == |code|
  {
    FinishedAll(c, code)[..i] + code[i..]
  }

  lemma HalfShape(c: Config, code: seq<Insn>, i: nat)
    requires i < |code|
    ensures HalfFinished(c, code, i)[i..] == code[i..] && HalfFinished(c, code, i)[i] == code[i]
    ensures HalfFinished(c, code, i)[i + 1..] == code[i + 1..]
    ensures HalfFinished(c, code, i)[i := Finished(c, code, i)] == HalfFinished(c, code, i + 1)
  {
    hide Finished;
  }

  lemma OneMoreFinished(c: Config, code: seq<Insn>, i: nat)
    requires i < |code|
    ensures var now := HalfFinished(c, code, i);
            && now[i] == code[i] && FindLoopEnd(c, now, i, i + 1) == FindLoopEnd(c, code, i, i + 1)
            && now[i := Finished(c, now, i)] == HalfFinished(c, code, i + 1)
  {
    hide Finished, FindLoopEnd, HalfFinished;
    HalfShape(c, code, i);
    FinishedSeesSuffix(c, HalfFinished(c, code, i), code, i);
    ScansSeeSuffix(c, HalfFinished(c, code, i), code, i, i + 1);
  }

  lemma HalfEnds(c: Config, code: seq<Insn>)
    ensures HalfFinished(c, code, 0) == code && HalfFinished(c, code, |code|) == FinishedAll(c, code)
  {
    hide Finished;
  }

  /** Instruction i of the program in a store. */
  method FinishAt(p: Compile, i: nat)
    requires p.Valid() && i < |p.Code()|
    requires IsJumpOut(p.Code()[i]) ==> FindLoopEnd(p.c, p.Code(), i, i + 1) != i
    modifies p.store
    ensures p.Valid() && p.Code() == old(p.Code())[i := Finished(p.c, old(p.Code()), i)]
    ensures p.Ifs() == old(p.Ifs()) && p.Loops() == old(p.Loops()) && p.Depths() == old(p.Depths())
  {
    hide Finished, FindLoopEnd, NextBlockEnd, IsJumpOut;
    assert p.store[i] == p.Code()[i];
    var insn := FinishInsn(p.c, p.store, p.nrInsn, i);
    p.Patch(i, insn);
  }

  /** Goes over the emitted program and sets the distances; before gen6 there is nothing to do. */
  method SetUipJip(p: Compile)
    requires p.Valid() && (p.c.gen >= 6 ==> JumpsHaveLoops(p.c, p.Code()))
    modifies p.store
    ensures p.Valid()
    ensures p.Code() == if p.c.gen < 6 then old(p.Code()) else FinishedAll(p.c, old(p.Code()))
    ensures p.Ifs() == old(p.Ifs()) && p.Loops() == old(p.Loops()) && p.Depths() == old(p.Depths())
  {
    hide Finished, FinishedAll, HalfFinished, FindLoopEnd, IsJumpOut;
    if p.c.gen < 6 {
      return;
    }
    ghost var code := p.Code();
    HalfEnds(p.c, code);
    for i := 0 to p.nrInsn
      invariant p.Valid()
      invariant p.Ifs() == old(p.Ifs()) && p.Loops() == old(p.Loops()) && p.Depths() == old(p.Depths())
      invariant p.Code() == HalfFinished(p.c, code, i)
    {
      OneMoreFinished(p.c, code, i);
      FinishAt(p, i);
    }
  }
}
