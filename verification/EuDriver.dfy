/** A client that makes the calls of a structured program, and the code they leave behind. */
module EuDriver {
  import opened Options
  import opened EuIr
  import opened EuEmit
  import opened EuPatches
  import opened EuPatching

  lemma PatchedIfIsIfInsn(c: Config, cur: State, thn: nat, els: Option<nat>)
    ensures var bare := Plain(IF, cur).(predicated := true);
            IfInsn(c, cur, thn, els) ==
            PatchedIf(c, bare, if els.Some? then Some(1 + thn) else None,
                      1 + thn + if els.Some? then 1 + els.value else 0)
  {
  }

  lemma PatchedElseIsElseInsn(c: Config, cur: State, els: nat)
    ensures ElseInsn(c, cur, els) == PatchedElse(c, Plain(ELSE, cur), 1 + els)
  {
  }

  /** Patching a loop whose DO, if any, ends a prefix. */
  lemma PatchedLoopAfter(c: Config, a: seq<Insn>, body: seq<Insn>, do: int, end: int)
    requires do == |a| - 1 && end == |a| + |body|
    ensures PatchedLoop(c, a + body, do, end) == a + PatchedRun(c, body, |a|, end)
  {
  }

  /** The jumps of s fit their fields. */
  predicate JumpsFit(c: Config, s: Stmt) {
    c.PatchesBreaks() ==> c.Br() * (Length(c, s) + 1) < 0x8000
  }

  ghost predicate CanEmit(p: Compile, s: Stmt)
    reads p, p.Repr()
  {
    p.Valid() && p.DepthsAddUp() && JumpsFit(p.c, s)
  }

  /** There is room for the loops of s on the loop stack. */
  predicate HasRoom(p: Compile, s: Stmt)
    reads p
  {
    p.loopStackDepth + LoopDepth(s) < p.loopStack.Length
  }

  /** What the calls of s append is the code of s, with every IF and ELSE patched and, where
      BREAKs are patched at all, every BREAK and CONTINUE of a loop of s; the stacks are as
      they were. */
  twostate predicate Emitted(p: Compile, s: Stmt)
    reads p, p.Repr()
  {
    && old(p.Valid()) && p.Valid() && fresh(p.Repr() - old(p.Repr())) && p.DepthsAddUp()
    && p.loopStack.Length == old(p.loopStack.Length) && p.loopStackDepth == old(p.loopStackDepth)
    && p.Code() == old(p.Code()) + Code(p.c, s, old(p.current), |old(p.Code())|, None,
                                        old(p.Depths()[p.loopStackDepth]), p.c.PatchesBreaks())
    && p.Ifs() == old(p.Ifs()) && p.Loops() == old(p.Loops()) && p.Depths() == old(p.Depths())
    && p.current == After(p.c, s, old(p.current))
  }

  /** Makes the calls of s, up to the one that stores past the end of the loop stack, if there is one:
      there is none exactly if there is room for the loops of s.  In every state in between, the IF
      depths add up. */
  method Emit(p: Compile, s: Stmt) returns (ok: bool)
    requires CanEmit(p, s)
    modifies p.Repr()
    ensures ok <==> old(HasRoom(p, s))
    ensures ok ==> Emitted(p, s)
    decreases s, 2
  {
    ok := true;
    match s {
      case Alu(id) => p.Alu(id);
      case SetPredicated(on) => p.SetCurrent(p.current.(predicated := on));
      case SetInverse(on) => p.SetCurrent(p.current.(inverse := on));
      case SetConditional(on) => p.SetCurrent(p.current.(conditionalMod := on));
      case Seq(_, _) => ok := EmitSeq(p, s);
      case If(_) => ok := EmitIf(p, s);
      case IfElse(_, _) => ok := EmitIfElse(p, s);
      case Loop(_) => ok := EmitLoop(p, s);
      case Break => p.BrwBreakOrCont(BREAK);
      case Continue => p.BrwBreakOrCont(CONTINUE);
    }
  }

  lemma SeqParts(c: Config, a: Stmt, b: Stmt)
    ensures LoopDepth(Seq(a, b)) == if LoopDepth(a) < LoopDepth(b) then LoopDepth(b) else LoopDepth(a)
    ensures JumpsFit(c, Seq(a, b)) ==> JumpsFit(c, a) && JumpsFit(c, b)
  {
  }

  method EmitSeq(p: Compile, s: Stmt) returns (ok: bool)
    requires s.Seq? && CanEmit(p, s)
    modifies p.Repr()
    ensures ok <==> old(HasRoom(p, s))
    ensures ok ==> Emitted(p, s)
    decreases s, 0
  {
    hide Code, After, LoopDepth, JumpsFit, Compile.Valid, Compile.Code, Compile.Ifs, Compile.Loops, Compile.Depths,
         Compile.DepthsAddUp;
    SeqParts(p.c, s.first, s.second);
    CodeSeq(p.c, s.first, s.second, p.current, |p.Code()|, None, p.Depths()[p.loopStackDepth], p.c.PatchesBreaks());
    ok := Emit(p, s.first);
    if ok {
      ok := Emit(p, s.second);
    }
    AfterSeq(p.c, s.first, s.second, old(p.current));
  }

  lemma AfterSeq(c: Config, a: Stmt, b: Stmt, cur: State)
    ensures After(c, Seq(a, b), cur) == After(c, b, After(c, a, cur))
  {
  }

  /** The IF and its first branch. */
  method EmitThen(p: Compile, thn: Stmt, ghost at: nat, ghost d: nat) returns (ok: bool)
    requires CanEmit(p, thn) && at == |p.Code()| && d == p.Depths()[p.loopStackDepth]
    modifies p.Repr()
    ensures ok <==> old(HasRoom(p, thn))
    ensures ok ==> p.Valid() && fresh(p.Repr() - old(p.Repr())) && p.DepthsAddUp()
    ensures ok ==> p.loopStack.Length == old(p.loopStack.Length) && p.loopStackDepth == old(p.loopStackDepth)
    ensures ok ==>
              p.Code() == old(p.Code()) + [Plain(IF, old(p.current)).(predicated := true)]
                          + Code(p.c, thn, Unpredicated(old(p.current)), at + 1, None, d + 1, p.c.PatchesBreaks())
    ensures ok ==> p.Ifs() == old(p.Ifs()) + [at] && p.Loops() == old(p.Loops())
    ensures ok ==> p.Depths() == old(p.Depths())[p.loopStackDepth := d + 1]
    ensures ok ==> p.current == After(p.c, thn, Unpredicated(old(p.current)))
    decreases thn, 3
  {
    hide Code, After, LoopDepth, JumpsFit, Unpredicated, Plain, Compile.Valid, Compile.Code, Compile.Ifs, Compile.Loops,
         Compile.Depths, Compile.DepthsAddUp;
    p.BrwIF();
    ok := Emit(p, thn);
  }

  /** The ELSE and the second branch. */
  method EmitElse(p: Compile, els: Stmt, ghost at: nat, ghost d: nat) returns (ok: bool)
    requires CanEmit(p, els) && at == |p.Code()| && d == p.Depths()[p.loopStackDepth]
    modifies p.Repr()
    ensures ok <==> old(HasRoom(p, els))
    ensures ok ==> p.Valid() && fresh(p.Repr() - old(p.Repr())) && p.DepthsAddUp()
    ensures ok ==> p.loopStack.Length == old(p.loopStack.Length) && p.loopStackDepth == old(p.loopStackDepth)
    ensures ok ==>
              p.Code() == old(p.Code()) + [Plain(ELSE, old(p.current))]
                          + Code(p.c, els, Used(old(p.current)), at + 1, None, d, p.c.PatchesBreaks())
    ensures ok ==> p.Ifs() == old(p.Ifs()) + [at] && p.Loops() == old(p.Loops()) && p.Depths() == old(p.Depths())
    ensures ok ==> p.current == After(p.c, els, Used(old(p.current)))
    decreases els, 3
  {
    hide Code, After, LoopDepth, JumpsFit, Used, Plain, Compile.Valid, Compile.Code, Compile.Ifs, Compile.Loops,
         Compile.Depths, Compile.DepthsAddUp;
    p.BrwELSE();
    ok := Emit(p, els);
  }

  lemma IfPart(c: Config, thn: Stmt)
    ensures LoopDepth(If(thn)) == LoopDepth(thn) && (JumpsFit(c, If(thn)) ==> JumpsFit(c, thn))
  {
  }

  method EmitIf(p: Compile, s: Stmt) returns (ok: bool)
    requires s.If? && CanEmit(p, s)
    modifies p.Repr()
    ensures ok <==> old(HasRoom(p, s))
    ensures ok ==> Emitted(p, s)
    decreases s, 0
  {
    hide Code, After, AfterEndif, LoopDepth, JumpsFit, IfInsn, PatchedIf, PatchedElse, EndifInsns, Unpredicated, Cat3,
         Compile.Valid, Compile.Code, Compile.Ifs, Compile.Loops, Compile.Depths, Compile.DepthsAddUp;
    ghost var c, code, cur, d := p.c, p.Code(), p.current, p.Depths()[p.loopStackDepth];
    ghost var cur1 := Unpredicated(cur);
    ghost var thn := Code(c, s.thn, cur1, |code| + 1, None, d + 1, c.PatchesBreaks());
    ghost var ifs, depths := p.Ifs(), p.Depths();
    IfPart(c, s.thn);
    ok := EmitThen(p, s.thn, |code|, d);
    if !ok {
      return;
    }
    CloseIf(p, code, cur, thn, ifs, depths);
    CodeIf(c, s.thn, cur, |code|, None, d, c.PatchesBreaks());
  }

  /** The ENDIF of a block without ELSE. */
  method CloseIf(p: Compile, ghost code: seq<Insn>, ghost cur: State, ghost thn: seq<Insn>, ghost ifs: seq<nat>,
                 ghost depths: seq<nat>)
    requires p.Valid() && p.DepthsAddUp() && |depths| == p.loopStackDepth + 1
    requires p.Code() == code + [Plain(IF, cur).(predicated := true)] + thn
    requires p.Ifs() == ifs + [|code|]
    requires p.Depths() == depths[p.loopStackDepth := depths[p.loopStackDepth] + 1]
    modifies p.Repr()
    ensures p.Valid() && fresh(p.Repr() - old(p.Repr())) && p.DepthsAddUp()
    ensures p.loopStack.Length == old(p.loopStack.Length) && p.loopStackDepth == old(p.loopStackDepth)
    ensures p.Code() == code + Cat3([IfInsn(p.c, cur, |thn|, None)], thn, EndifInsns(p.c, old(p.current)))
    ensures p.Ifs() == ifs && p.Loops() == old(p.Loops()) && p.Depths() == depths
    ensures p.current == AfterEndif(p.c, old(p.current))
  {
    hide IfInsn, PatchedIf, PatchedElse, EndifInsns, AfterEndif, Compile.Valid, Compile.Code, Compile.Ifs,
         Compile.Loops, Compile.Depths, Compile.DepthsAddUp;
    var c := p.c;
    PatchAfter(code, Plain(IF, cur).(predicated := true), thn, IfInsn(c, cur, |thn|, None));
    PatchedIfIsIfInsn(c, cur, |thn|, None);
    Reassociate(code, [IfInsn(c, cur, |thn|, None)], thn, EndifInsns(c, p.current));
    p.BrwENDIF();
    assert p.Ifs() == ifs && p.Depths() == depths;
  }

  lemma IfElseParts(c: Config, thn: Stmt, els: Stmt)
    ensures LoopDepth(IfElse(thn, els)) == if LoopDepth(thn) < LoopDepth(els) then LoopDepth(els) else LoopDepth(thn)
    ensures JumpsFit(c, IfElse(thn, els)) ==> JumpsFit(c, thn) && JumpsFit(c, els)
  {
  }

  /** IF, both branches and the ELSE. */
  method EmitBranches(p: Compile, s: Stmt, ghost at: nat, ghost d: nat) returns (ok: bool, ghost cur2: State)
    requires s.IfElse? && CanEmit(p, s) && at == |p.Code()| && d == p.Depths()[p.loopStackDepth]
    modifies p.Repr()
    ensures ok <==> old(HasRoom(p, s))
    ensures ok ==> p.Valid() && fresh(p.Repr() - old(p.Repr())) && p.DepthsAddUp()
    ensures ok ==> p.loopStack.Length == old(p.loopStack.Length) && p.loopStackDepth == old(p.loopStackDepth)
    ensures cur2 == After(p.c, s.thn, Unpredicated(old(p.current)))
    ensures ok ==>
              p.Code() == old(p.Code()) + [Plain(IF, old(p.current)).(predicated := true)]
                          + Code(p.c, s.thn, Unpredicated(old(p.current)), at + 1, None, d + 1, p.c.PatchesBreaks())
                          + [Plain(ELSE, cur2)]
                          + Code(p.c, s.els, Used(cur2), at + 1 + Length(p.c, s.thn) + 1, None, d + 1,
                                 p.c.PatchesBreaks())
    ensures ok ==> p.Ifs() == old(p.Ifs()) + [at] + [at + 1 + Length(p.c, s.thn)] && p.Loops() == old(p.Loops())
    ensures ok ==> p.Depths() == old(p.Depths())[p.loopStackDepth := d + 1]
    ensures ok ==> p.current == After(p.c, s.els, Used(cur2))
    decreases s, 0
  {
    hide Code, After, LoopDepth, JumpsFit, Unpredicated, Used, Plain, Length, Compile.Valid, Compile.Code, Compile.Ifs,
         Compile.Loops, Compile.Depths, Compile.DepthsAddUp;
    IfElseParts(p.c, s.thn, s.els);
    cur2 := After(p.c, s.thn, Unpredicated(p.current));
    ok := EmitThen(p, s.thn, at, d);
    if ok {
      ok := EmitElse(p, s.els, at + 1 + Length(p.c, s.thn), d + 1);
    }
  }

  method EmitIfElse(p: Compile, s: Stmt) returns (ok: bool)
    requires s.IfElse? && CanEmit(p, s)
    modifies p.Repr()
    ensures ok <==> old(HasRoom(p, s))
    ensures ok ==> Emitted(p, s)
    decreases s, 1
  {
    hide Code, After, AfterEndif, Cat5, Length, LoopDepth, JumpsFit, IfInsn, ElseInsn, EndifInsns, Used, Unpredicated,
         Compile.Valid, Compile.Code, Compile.Ifs, Compile.Loops, Compile.Depths, Compile.DepthsAddUp;
    ghost var c, code, cur, d := p.c, p.Code(), p.current, p.Depths()[p.loopStackDepth];
    ghost var n := Length(c, s.thn);
    ghost var ifs, depths := p.Ifs(), p.Depths();
    ghost var cur2;
    ok, cur2 := EmitBranches(p, s, |code|, d);
    if !ok {
      return;
    }
    ghost var thn := Code(c, s.thn, Unpredicated(cur), |code| + 1, None, d + 1, c.PatchesBreaks());
    ghost var els := Code(c, s.els, Used(cur2), |code| + 1 + n + 1, None, d + 1, c.PatchesBreaks());
    CloseIfElse(p, code, cur, thn, cur2, els, ifs, depths);
    CodeIfElse(c, s.thn, s.els, cur, |code|, None, d, c.PatchesBreaks());
  }

  /** The ENDIF of a block with both branches. */
  method CloseIfElse(p: Compile, ghost code: seq<Insn>, ghost cur: State, ghost thn: seq<Insn>, ghost cur2: State,
                     ghost els: seq<Insn>, ghost ifs: seq<nat>, ghost depths: seq<nat>)
    requires p.Valid() && p.DepthsAddUp() && |depths| == p.loopStackDepth + 1
    requires p.Code() == code + [Plain(IF, cur).(predicated := true)] + thn + [Plain(ELSE, cur2)] + els
    requires p.Ifs() == ifs + [|code|] + [|code| + 1 + |thn|]
    requires p.Depths() == depths[p.loopStackDepth := depths[p.loopStackDepth] + 1]
    modifies p.Repr()
    ensures p.Valid() && fresh(p.Repr() - old(p.Repr())) && p.DepthsAddUp()
    ensures p.loopStack.Length == old(p.loopStack.Length) && p.loopStackDepth == old(p.loopStackDepth)
    ensures p.Code() == code + Cat5([IfInsn(p.c, cur, |thn|, Some(|els|))], thn, [ElseInsn(p.c, cur2, |els|)], els,
                                    EndifInsns(p.c, old(p.current)))
    ensures p.Ifs() == ifs && p.Loops() == old(p.Loops()) && p.Depths() == depths
    ensures p.current == AfterEndif(p.c, old(p.current))
  {
    hide IfInsn, ElseInsn, PatchedIf, PatchedElse, EndifInsns, AfterEndif, Compile.Valid, Compile.Code, Compile.Ifs,
         Compile.Loops, Compile.Depths, Compile.DepthsAddUp;
    PatchAfterTwo(code, Plain(IF, cur).(predicated := true), thn, Plain(ELSE, cur2), els,
                  IfInsn(p.c, cur, |thn|, Some(|els|)), ElseInsn(p.c, cur2, |els|), EndifInsns(p.c, p.current));
    PatchedIfIsIfInsn(p.c, cur, |thn|, Some(|els|));
    PatchedElseIsElseInsn(p.c, cur2, |els|);
    StacksRestored(p.Ifs(), ifs, |code|, |code| + 1 + |thn|, p.Depths(), depths, p.loopStackDepth);
    p.BrwENDIF();
  }

  lemma LoopPart(c: Config, body: Stmt)
    ensures LoopDepth(Loop(body)) == 1 + LoopDepth(body) && (JumpsFit(c, Loop(body)) ==> JumpsFit(c, body))
  {
  }

  /** The start of a loop and its body. */
  method EmitBody(p: Compile, body: Stmt, ghost at: nat) returns (ok: bool)
    requires CanEmit(p, Loop(body)) && at == |p.Code()|
    modifies p.Repr()
    ensures ok <==> old(HasRoom(p, Loop(body)))
    ensures ok ==> p.Valid() && fresh(p.Repr() - old(p.Repr())) && p.DepthsAddUp()
    ensures ok ==> p.loopStack.Length == old(p.loopStack.Length) && p.loopStackDepth == old(p.loopStackDepth) + 1
    ensures ok ==>
              p.Code() == (old(p.Code()) + DoInsns(p.c, old(p.current)))
                          + Code(p.c, body, AfterDo(p.c, old(p.current)), at + DoLength(p.c), None, 0,
                                 p.c.PatchesBreaks())
    ensures ok ==> p.Ifs() == old(p.Ifs()) && p.Loops() == old(p.Loops()) + [at] && p.Depths() == old(p.Depths()) + [0]
    ensures ok ==> p.current == After(p.c, body, AfterDo(p.c, old(p.current)))
    decreases body, 3
  {
    hide Code, After, AfterDo, LoopDepth, JumpsFit, DoInsns, Compile.Valid, Compile.Code, Compile.Ifs, Compile.Loops,
         Compile.Depths, Compile.DepthsAddUp;
    LoopPart(p.c, body);
    ok := p.BrwDO();
    if ok {
      ok := Emit(p, body);
    }
  }

  method EmitLoop(p: Compile, s: Stmt) returns (ok: bool)
    requires s.Loop? && CanEmit(p, s)
    modifies p.Repr()
    ensures ok <==> old(HasRoom(p, s))
    ensures ok ==> Emitted(p, s)
    decreases s, 0
  {
    hide Code, After, AfterDo, Unpredicated, LoopDepth, JumpsFit, PatchedLoop, PatchedRun, WhileInsn, DoInsns, Cat3,
         Compile.Valid, Compile.Code, Compile.Ifs, Compile.Loops, Compile.Depths, Compile.DepthsAddUp;
    ghost var c, code, cur, d := p.c, p.Code(), p.current, p.Depths()[p.loopStackDepth];
    ghost var cur1 := AfterDo(c, cur);
    ghost var head := code + DoInsns(c, cur);
    ghost var body := Code(c, s.body, cur1, |head|, None, 0, c.PatchesBreaks());
    ghost var loops, depths := p.Loops(), p.Depths();
    ok := EmitBody(p, s.body, |code|);
    if !ok {
      return;
    }
    ghost var last := WhileInsn(c, p.current, |body|);
    BodyFits(c, s.body);
    LoopPatched(c, s.body, cur1, head, |code|);
    p.BrwWHILE();
    CodeLoop(c, s.body, cur, |code|, None, d, c.PatchesBreaks());
    LoopShape(c, s.body, cur);
    ghost var patched := Code(c, s.body, cur1, |head|, if c.PatchesBreaks() then Some(|head| + |body|) else None, 0,
                              c.PatchesBreaks());
    ReassociateLoop(code, DoInsns(c, cur), patched, [last]);
    assert p.Loops() == loops && p.Depths() == depths;
  }

  lemma BodyFits(c: Config, body: Stmt)
    ensures JumpsFit(c, Loop(body)) && c.PatchesBreaks() ==> c.Br() * (Length(c, body) + 1) < 0x8000
  {
  }

  lemma ReassociateLoop(a: seq<Insn>, b: seq<Insn>, x: seq<Insn>, y: seq<Insn>)
    ensures (a + b + x) + y == a + Cat3(b, x, y)
  {
  }

  /** What closing a loop patches in its body. */
  lemma LoopPatched(c: Config, body: Stmt, cur: State, head: seq<Insn>, do: int)
    requires do == |head| - DoLength(c)
    requires c.PatchesBreaks() ==> c.Br() * (Length(c, body) + 1) < 0x8000
    ensures var open := Code(c, body, cur, |head|, None, 0, c.PatchesBreaks());
            var end := |head| + |open|;
            c.PatchesBreaks() ==>
              PatchedLoop(c, head + open, do, end) == head + Code(c, body, cur, |head|, Some(end), 0, true)
  {
    hide Code, PatchedLoop, PatchedRun;
    if c.PatchesBreaks() {
      var open := Code(c, body, cur, |head|, None, 0, true);
      PatchedLoopAfter(c, head, open, do, |head| + |open|);
      PatchedCode(c, body, cur, |head|, |head| + |open|, 0);
    }
  }

  lemma Reassociate(a: seq<Insn>, b: seq<Insn>, x: seq<Insn>, y: seq<Insn>)
    ensures (a + b + x) + y == a + (b + x + y) && b + [] == b && a + b + [] == a + b
  {
  }

  lemma StacksRestored(ifs: seq<nat>, ifs0: seq<nat>, x: nat, y: nat, depths: seq<nat>, depths0: seq<nat>, k: nat)
    requires ifs == ifs0 + [x] + [y] && k < |depths0| && depths == depths0[k := depths0[k] + 1]
    ensures ifs[|ifs| - 1] == y && ifs[|ifs| - 2] == x && ifs[..|ifs| - 2] == ifs0
    ensures depths[k := depths[k] - 1] == depths0
  {
  }

  /** Patching the instruction behind a prefix. */
  lemma PatchAfter(a: seq<Insn>, x: Insn, b: seq<Insn>, y: Insn)
    ensures (a + [x] + b)[|a|] == x
    ensures (a + [x] + b)[|a| := y] == a + [y] + b
  {
  }

  lemma PatchAfterTwo(a: seq<Insn>, x: Insn, b: seq<Insn>, y: Insn, d: seq<Insn>, x': Insn, y': Insn, tail: seq<Insn>)
    ensures var s := (a + [x] + b) + [y] + d;
            && s[|a|] == x && s[|a| + 1 + |b|] == y
            && s[|a| := x'][|a| + 1 + |b| := y'] + tail == a + ([x'] + b + [y'] + d + tail)
  {
  }
}
