/** The emitter: struct brw_compile with its growing instruction store and its IF and loop
    stacks, and the calls that emit and back-patch flow control. */
module EuEmit {
  import opened Options
  import opened EuIr
  import opened EuPatches
  import opened EuStacks

  const NO_INSN := Insn(ALU, 0, false, false, false, NO_FIELDS)

  class Compile {
    const c: Config
    var store: array<Insn>
    var nrInsn: nat
    var current: State
    var ifStack: array<nat>
    var ifStackDepth: nat
    var loopStack: array<nat>
    var ifDepthInLoop: array<nat>
    var loopStackDepth: nat

    ghost function Repr(): (r: set<object>)
      reads this
      ensures this in r
    {
      {this, store, ifStack, loopStack, ifDepthInLoop}
    }

    /** Everything but that the loop stack has room for its entries. */
    ghost predicate Shape()
      reads this, Repr()
    {
      && ifStack != loopStack && ifStack != ifDepthInLoop && loopStack != ifDepthInLoop
      && 0 < store.Length && nrInsn <= store.Length
      && ifStackDepth < ifStack.Length
      && 0 < loopStack.Length == ifDepthInLoop.Length
      && (forall i :: 0 <= i < ifStackDepth ==> ifStack[i] < nrInsn)
      && (forall i :: 0 <= i < loopStackDepth && i < loopStack.Length ==> loopStack[i] <= nrInsn)
    }

    ghost predicate Valid()
      reads this, Repr()
    {
      Shape() && loopStackDepth < loopStack.Length
    }

    /** The IF depths of the open loops add up to the IFs on the IF stack. */
    ghost predicate DepthsAddUp()
      requires Valid()
      reads this, Repr()
    {
      Balanced(Code(), Ifs(), Depths())
    }

    /** The instructions emitted so far. */
    ghost function Code(): (r: seq<Insn>)
      requires Valid()
      reads this, Repr()
      ensures |r| == nrInsn
    {
      store[..nrInsn]
    }

    /** The open IF and ELSE instructions, outermost first. */
    ghost function Ifs(): seq<nat>
      requires Valid()
      reads this, Repr()
    {
      ifStack[..ifStackDepth]
    }

    /** The starts of the open loops, outermost first. */
    ghost function Loops(): seq<nat>
      requires Valid()
      reads this, Repr()
    {
      loopStack[..loopStackDepth]
    }

    /** The IF blocks open outside any loop and in each of the open loops. */
    ghost function Depths(): (r: seq<nat>)
      requires Valid()
      reads this, Repr()
      ensures |r| == loopStackDepth + 1
    {
      ifDepthInLoop[..loopStackDepth + 1]
    }

    constructor (c: Config)
      ensures Valid() && fresh(Repr()) && this.c == c
      ensures Code() == [] && Ifs() == [] && Loops() == [] && Depths() == [0]
      ensures current == State(false, false, false) && loopStack.Length == 16 && DepthsAddUp()
    {
      this.c := c;
      store := new Insn[1024](_ => NO_INSN);
      nrInsn := 0;
      current := State(false, false, false);
      ifStack := new nat[16](_ => 0);
      ifStackDepth := 0;
      loopStack := new nat[16](_ => 0);
      ifDepthInLoop := new nat[16](_ => 0);
      loopStackDepth := 0;
    }

    /** Doubles the instruction store if it is full. */
    method EnsureRoom()
      requires Valid()
      modifies this`store
      ensures Valid() && nrInsn < store.Length && (store == old(store) || fresh(store))
      ensures Code() == old(Code()) && Ifs() == old(Ifs()) && Loops() == old(Loops()) && Depths() == old(Depths())
    {
      if nrInsn + 1 > store.Length {
        var grown := new Insn[2 * store.Length](i requires 0 <= i reads this, store =>
          if i < store.Length then store[i] else NO_INSN);
        assert grown[..nrInsn] == store[..nrInsn];
        store := grown;
      }
    }

    method Append(insn: Insn)
      requires Valid() && nrInsn < store.Length
      modifies this`nrInsn, store
      ensures Valid() && Code() == old(Code()) + [insn]
      ensures Ifs() == old(Ifs()) && Loops() == old(Loops()) && Depths() == old(Depths())
    {
      store[nrInsn] := insn;
      nrInsn := nrInsn + 1;
    }

    method SetCurrent(cur: State)
      requires Valid()
      modifies this`current
      ensures Valid() && current == cur
      ensures Code() == old(Code()) && Ifs() == old(Ifs()) && Loops() == old(Loops()) && Depths() == old(Depths())
    {
      current := cur;
    }

    /** Appends a copy of the default instruction; a conditional modifier is used once and
        leaves predication on. */
    method NextInsn(op: Opcode)
      requires Valid()
      modifies Repr()
      ensures Valid() && fresh(Repr() - old(Repr()))
      ensures Code() ==
              old(Code() + [Insn(op, 0, current.predicated, current.inverse, current.conditionalMod, NO_FIELDS)])
      ensures Ifs() == old(Ifs()) && Loops() == old(Loops()) && Depths() == old(Depths())
      ensures loopStack.Length == old(loopStack.Length) && loopStackDepth == old(loopStackDepth)
      ensures current == old(State(current.predicated || current.conditionalMod, current.inverse, false))
      ensures current == old(Used(current))
    {
      hide Valid, Shape, Code, Ifs, Loops, Depths;
      EnsureRoom();
      Append(Plain(op, current));
      if current.conditionalMod {
        SetCurrent(current.(conditionalMod := false, predicated := true));
      }
    }

    /** Changes an instruction that has been emitted. */
    method Patch(at: nat, insn: Insn)
      requires Valid() && at < nrInsn
      modifies store
      ensures Valid() && Code() == old(Code())[at := insn]
      ensures Ifs() == old(Ifs()) && Loops() == old(Loops()) && Depths() == old(Depths())
    {
      store[at] := insn;
    }

    method PushIfStack(insn: nat)
      requires Valid() && insn < nrInsn
      modifies this`ifStack, this`ifStackDepth, ifStack
      ensures Valid() && (ifStack == old(ifStack) || fresh(ifStack))
      ensures Ifs() == old(Ifs()) + [insn]
      ensures Code() == old(Code()) && Loops() == old(Loops()) && Depths() == old(Depths())
    {
      ifStack[ifStackDepth] := insn;
      ifStackDepth := ifStackDepth + 1;
      if ifStack.Length <= ifStackDepth {
        var grown := new nat[2 * ifStack.Length](i requires 0 <= i reads this, ifStack =>
          if i < ifStack.Length then ifStack[i] else 0);
        assert grown[..ifStackDepth] == ifStack[..ifStackDepth];
        ifStack := grown;
      }
    }

    method PopIfStack() returns (insn: nat)
      requires Valid() && Ifs() != []
      modifies this`ifStackDepth
      ensures Valid() && insn < nrInsn
      ensures old(Ifs()) == Ifs() + [insn]
      ensures Code() == old(Code()) && Loops() == old(Loops()) && Depths() == old(Depths())
    {
      ifStackDepth := ifStackDepth - 1;
      insn := ifStack[ifStackDepth];
    }

    /** The growth test comes too late to help: it compares the size with the old depth, while the write
        to the IF depths goes one past it.  Returns false instead of a store past the end of a stack. */
    method PushLoopStack(insn: nat) returns (ok: bool)
      requires Shape() && insn <= nrInsn
      modifies this`loopStackDepth, this`loopStack, this`ifDepthInLoop, loopStack, ifDepthInLoop
      ensures ok <==> old(loopStackDepth) + 1 < old(if loopStack.Length < loopStackDepth then 2 * loopStack.Length
                                                    else loopStack.Length)
      ensures old(loopStackDepth <= loopStack.Length) ==>
                loopStack == old(loopStack) && ifDepthInLoop == old(ifDepthInLoop)
      ensures ok && old(Valid()) ==> Valid()
      ensures ok && old(Valid()) ==> Loops() == old(Loops()) + [insn] && Depths() == old(Depths()) + [0]
      ensures ok && old(Valid()) ==> Code() == old(Code()) && Ifs() == old(Ifs())
    {
      if loopStack.Length < loopStackDepth {
        loopStack := new nat[2 * loopStack.Length](i requires 0 <= i reads this, loopStack =>
          if i < loopStack.Length then loopStack[i] else 0);
        ifDepthInLoop := new nat[2 * ifDepthInLoop.Length](i requires 0 <= i reads this, ifDepthInLoop =>
          if i < ifDepthInLoop.Length then ifDepthInLoop[i] else 0);
      }
      if loopStack.Length <= loopStackDepth {
        return false;
      }
      loopStack[loopStackDepth] := insn;
      loopStackDepth := loopStackDepth + 1;
      ok := loopStackDepth < ifDepthInLoop.Length;
      if ok {
        ifDepthInLoop[loopStackDepth] := 0;
      }
    }

    method SetIfDepth(depth: nat)
      requires Valid()
      modifies ifDepthInLoop
      ensures Valid()
      ensures Depths() == old(Depths())[loopStackDepth := depth]
      ensures Code() == old(Code()) && Ifs() == old(Ifs()) && Loops() == old(Loops())
    {
      ifDepthInLoop[loopStackDepth] := depth;
    }

    // ---- the calls ----

    /** A straight-line instruction. */
    method Alu(id: nat)
      requires Valid()
      modifies Repr()
      ensures Valid() && fresh(Repr() - old(Repr())) && loopStack.Length == old(loopStack.Length)
      ensures loopStackDepth == old(loopStackDepth)
      ensures Code() == old(Code()) + [Plain(ALU, old(current)).(id := id)]
      ensures Ifs() == old(Ifs()) && Loops() == old(Loops()) && Depths() == old(Depths())
      ensures current == old(Used(current))
      ensures old(DepthsAddUp()) ==> DepthsAddUp()
    {
      hide Balanced;
      ghost var code, ifs, depths, insn := Code(), Ifs(), Depths(), Plain(ALU, current).(id := id);
      NextInsn(ALU);
      Patch(nrInsn - 1, store[nrInsn - 1].(id := id));
      assert Code() == code + [insn];
      if Balanced(code, ifs, depths) {
        AppendKeepsBalance(code, ifs, depths, [insn]);
      }
    }

    /** Appends an instruction with some of its fields overridden. */
    method NextInsnWith(op: Opcode, predicated: bool, fields: Fields)
      requires Valid()
      modifies Repr()
      ensures Valid() && fresh(Repr() - old(Repr())) && loopStack.Length == old(loopStack.Length)
      ensures loopStackDepth == old(loopStackDepth)
      ensures Code() == old(Code()) + [Plain(op, old(current)).(predicated := predicated, fields := fields)]
      ensures Ifs() == old(Ifs()) && Loops() == old(Loops()) && Depths() == old(Depths())
      ensures current == old(Used(current))
    {
      ghost var was, insn := Code(), Plain(op, current).(predicated := predicated, fields := fields);
      NextInsn(op);
      Patch(nrInsn - 1, store[nrInsn - 1].(predicated := predicated, fields := fields));
      assert Code() == was + [insn];
    }

    method BrwIF()
      requires Valid()
      modifies Repr()
      ensures Valid() && fresh(Repr() - old(Repr())) && loopStack.Length == old(loopStack.Length)
      ensures loopStackDepth == old(loopStackDepth)
      ensures Code() == old(Code()) + [Plain(IF, old(current)).(predicated := true)]
      ensures Ifs() == old(Ifs()) + [|old(Code())|] && Loops() == old(Loops())
      ensures Depths() == old(Depths()[loopStackDepth := Depths()[loopStackDepth] + 1])
      ensures current == old(State(false, current.inverse, false)) == old(Unpredicated(current))
      ensures old(DepthsAddUp()) ==> DepthsAddUp()
    {
      hide Balanced, Valid, Shape, Code, Ifs, Loops, Depths;
      ghost var code, ifs, depths := Code(), Ifs(), Depths();
      NextInsnWith(IF, true, NO_FIELDS);
      ghost var insn := Plain(IF, old(current)).(predicated := true);
      PushIfStack(nrInsn - 1);
      CountIf();
      SetCurrent(current.(predicated := false));
      if Balanced(code, ifs, depths) {
        IfKeepsBalance(code, ifs, depths, insn);
      }
    }

    /** One more IF is open in the innermost loop. */
    method CountIf()
      requires Valid()
      modifies ifDepthInLoop
      ensures Valid() && Code() == old(Code()) && Ifs() == old(Ifs()) && Loops() == old(Loops())
      ensures Depths() == old(Depths()[loopStackDepth := Depths()[loopStackDepth] + 1])
    {
      assert ifDepthInLoop[loopStackDepth] == Depths()[loopStackDepth];
      SetIfDepth(ifDepthInLoop[loopStackDepth] + 1);
    }

    method BrwELSE()
      requires Valid()
      modifies Repr()
      ensures Valid() && fresh(Repr() - old(Repr())) && loopStack.Length == old(loopStack.Length)
      ensures loopStackDepth == old(loopStackDepth)
      ensures Code() == old(Code()) + [Plain(ELSE, old(current))]
      ensures Ifs() == old(Ifs()) + [|old(Code())|] && Loops() == old(Loops()) && Depths() == old(Depths())
      ensures current == old(Used(current))
      ensures old(DepthsAddUp()) ==> DepthsAddUp()
    {
      hide Balanced, Valid, Shape, Code, Ifs, Loops, Depths;
      ghost var code, ifs, depths := Code(), Ifs(), Depths();
      NextInsn(ELSE);
      PushIfStack(nrInsn - 1);
      if Balanced(code, ifs, depths) {
        ElseKeepsBalance(code, ifs, depths, Plain(ELSE, old(current)));
      }
    }

    /** The fields of an ENDIF. */
    static function EndifFields(c: Config): Fields {
      if c.gen < 6 then NO_FIELDS.(popCount := 1)
      else if c.gen == 6 then NO_FIELDS.(gen6Jump := 2)
      else NO_FIELDS.(jip := 2)
    }

    /** Emits the ENDIF, unless jumps are ADDs, and counts the block as left. */
    method EmitEndif()
      requires Valid() && 0 < Depths()[loopStackDepth]
      modifies Repr()
      ensures Valid() && fresh(Repr() - old(Repr())) && loopStack.Length == old(loopStack.Length)
      ensures loopStackDepth == old(loopStackDepth)
      ensures Code() == old(Code()) + EndifInsns(c, old(current))
      ensures Ifs() == old(Ifs()) && Loops() == old(Loops())
      ensures Depths() == old(Depths()[loopStackDepth := Depths()[loopStackDepth] - 1])
      ensures current == AfterEndif(c, old(current))
    {
      var emitEndif := !c.AddsToIp();
      if emitEndif {
        NextInsnWith(ENDIF, current.predicated, EndifFields(c));
      }
      assert ifDepthInLoop[loopStackDepth] == Depths()[loopStackDepth];
      SetIfDepth(ifDepthInLoop[loopStackDepth] - 1);
    }

    /** The innermost open block: its IF, and behind it its ELSE if it has one. */
    ghost predicate BlockOpen()
      requires Valid()
      reads this, Repr()
    {
      && Ifs() != []
      && var top := Ifs()[|Ifs()| - 1];
         || Code()[top].op == IF
         || (Code()[top].op == ELSE && 2 <= |Ifs()| && Ifs()[|Ifs()| - 2] < top
             && Code()[Ifs()[|Ifs()| - 2]].op == IF)
    }

    lemma TopInCode()
      requires Valid() && Ifs() != []
      ensures forall i :: 0 <= i < |Ifs()| ==> Ifs()[i] < |Code()|
    {
    }

    /** Pops the IF and the ELSE of the innermost block and patches them for an ENDIF at offset n. */
    method PopAndPatch(n: nat)
      requires Valid() && BlockOpen() && Ifs()[|Ifs()| - 1] < n <= nrInsn
      modifies this`ifStackDepth, store
      ensures Valid()
      ensures var code, ifs := old(Code()), old(Ifs());
              var top := ifs[|ifs| - 1];
              if code[top].op == IF then
                && Ifs() == ifs[..|ifs| - 1]
                && Code() == code[top := PatchedIf(c, code[top], None, n - top)]
              else
                var at := ifs[|ifs| - 2];
                && Ifs() == ifs[..|ifs| - 2]
                && Code() == code[at := PatchedIf(c, code[at], Some(top - at), n - at)]
                                 [top := PatchedElse(c, code[top], n - top)]
      ensures Loops() == old(Loops()) && Depths() == old(Depths())
    {
      var top := PopIfStack();
      assert store[top] == Code()[top];
      if store[top].op == ELSE {
        var at := PopIfStack();
        PatchBoth(at, top, n);
      } else {
        Patch(top, PatchedIf(c, store[top], None, n - top));
      }
    }

    /** Closes a block. */
    method BrwENDIF()
      requires Valid() && BlockOpen() && 0 < Depths()[loopStackDepth]
      modifies Repr()
      ensures Valid() && fresh(Repr() - old(Repr())) && loopStack.Length == old(loopStack.Length)
      ensures loopStackDepth == old(loopStackDepth)
      ensures var code, ifs := old(Code()), old(Ifs());
              var top, n := ifs[|ifs| - 1], |code|;
              if code[top].op == IF then
                && Ifs() == ifs[..|ifs| - 1]
                && Code() == code[top := PatchedIf(c, code[top], None, n - top)] + EndifInsns(c, old(current))
              else
                var at := ifs[|ifs| - 2];
                && Ifs() == ifs[..|ifs| - 2]
                && Code() == code[at := PatchedIf(c, code[at], Some(top - at), n - at)]
                                 [top := PatchedElse(c, code[top], n - top)] + EndifInsns(c, old(current))
      ensures Loops() == old(Loops())
      ensures Depths() == old(Depths()[loopStackDepth := Depths()[loopStackDepth] - 1])
      ensures current == AfterEndif(c, old(current))
      ensures old(DepthsAddUp()) ==> DepthsAddUp()
    {
      hide PatchedIf, PatchedElse, EndifInsns, Balanced, Valid, Shape, Code, Ifs, Loops, Depths;
      ghost var code, ifs, depths := Code(), Ifs(), Depths();
      var n := nrInsn;
      TopInCode();
      EmitEndif();
      assert n == |code| && forall i :: 0 <= i < n ==> Code()[i] == code[i];
      assert n <= |Code()| == nrInsn;
      PopAndPatch(n);
      if Balanced(code, ifs, depths) {
        BrwEndifKeepsBalance(c, code, ifs, depths, EndifInsns(c, old(current)));
      }
    }

    /** Patches an IF and its ELSE for an ENDIF at offset n. */
    method PatchBoth(at: nat, els: nat, n: nat)
      requires Valid() && at < els < n && els < nrInsn
      modifies store
      ensures Valid()
      ensures Code() == old(Code()[at := PatchedIf(c, Code()[at], Some(els - at), n - at)]
                                  [els := PatchedElse(c, Code()[els], n - els)])
      ensures Ifs() == old(Ifs()) && Loops() == old(Loops()) && Depths() == old(Depths())
    {
      Patch(at, PatchedIf(c, store[at], Some(els - at), n - at));
      Patch(els, PatchedElse(c, store[els], n - els));
    }

    /** BREAK or CONTINUE, with the number of IF blocks it leaves. */
    method BrwBreakOrCont(op: Opcode)
      requires Valid() && (op == BREAK || op == CONTINUE)
      modifies Repr()
      ensures Valid() && fresh(Repr() - old(Repr())) && loopStack.Length == old(loopStack.Length)
      ensures loopStackDepth == old(loopStackDepth)
      ensures Code() ==
              old(Code()) + [BreakInsn(c, op, old(current), |old(Code())|, None, old(Depths()[loopStackDepth]))]
      ensures Ifs() == old(Ifs()) && Loops() == old(Loops()) && Depths() == old(Depths())
      ensures current == old(Used(current))
      ensures old(DepthsAddUp()) ==> DepthsAddUp()
    {
      hide Balanced;
      ghost var code, ifs, depths := Code(), Ifs(), Depths();
      var popCount := if c.gen < 6 then ifDepthInLoop[loopStackDepth] % 16 else 0;
      NextInsnWith(op, current.predicated, NO_FIELDS.(popCount := popCount));
      if Balanced(code, ifs, depths) {
        AppendKeepsBalance(code, ifs, depths, Code()[|code|..]);
      }
    }

    /** Opens a loop; only where BREAKs are patched there is a DO instruction. */
    method BrwDO() returns (ok: bool)
      requires Valid()
      modifies Repr()
      ensures ok <==> old(loopStackDepth) + 1 < old(loopStack.Length)
      ensures ok ==> Valid() && fresh(Repr() - old(Repr())) && loopStack.Length == old(loopStack.Length)
      ensures ok ==> loopStackDepth == old(loopStackDepth) + 1
      ensures ok ==> Code() == old(Code()) + DoInsns(c, old(current))
      ensures ok ==> Ifs() == old(Ifs()) && Loops() == old(Loops()) + [|old(Code())|] && Depths() == old(Depths()) + [0]
      ensures ok ==> current == AfterDo(c, old(current))
      ensures ok && old(DepthsAddUp()) ==> DepthsAddUp()
    {
      hide Balanced, Shape, Code, Ifs, Loops, Depths;
      ghost var code, ifs, depths := Code(), Ifs(), Depths();
      if c.gen >= 6 || c.spf {
        ok := PushLoopStack(nrInsn);
      } else {
        NextInsnWith(DO, false, NO_FIELDS);
        ok := PushLoopStack(nrInsn - 1);
      }
      if ok && Balanced(code, ifs, depths) {
        AppendKeepsBalance(code, ifs, depths, DoInsns(c, old(current)));
      }
    }

    /** Patches the BREAKs and CONTINUEs of the loop that ends with the instruction at end,
        from the last one up. */
    method PatchBreakCont(do: nat, end: nat)
      requires Valid() && do < end < nrInsn
      modifies store
      ensures Valid()
      ensures Code() == PatchedLoop(c, old(Code())[..end], do, end) + old(Code())[end..]
      ensures Ifs() == old(Ifs()) && Loops() == old(Loops()) && Depths() == old(Depths())
    {
      ghost var code := Code();
      var at := end - 1;
      while at != do
        invariant Valid() && do <= at < end
        invariant Ifs() == old(Ifs()) && Loops() == old(Loops()) && Depths() == old(Depths())
        invariant |Code()| == |code|
        invariant forall i :: 0 <= i < |code| ==>
                    store[i] == if at < i < end then PatchedBreak(c, code[i], i, end) else code[i]
      {
        if store[at].op == BREAK && store[at].fields.jumpCount == 0 {
          store[at] := store[at].(fields := store[at].fields.(jumpCount := Short16(c.Br() * (end - at + 1))));
        } else if store[at].op == CONTINUE && store[at].fields.jumpCount == 0 {
          store[at] := store[at].(fields := store[at].fields.(jumpCount := Short16(c.Br() * (end - at))));
        }
        at := at - 1;
      }
      assert Code() == PatchedLoop(c, code[..end], do, end) + code[end..];
    }

    /** Emits the jump back to the loop start at offset do. */
    method EmitWhile(do: nat)
      requires Valid() && do + DoLength(c) <= nrInsn
      modifies Repr()
      ensures Valid() && fresh(Repr() - old(Repr())) && loopStack.Length == old(loopStack.Length)
      ensures loopStackDepth == old(loopStackDepth)
      ensures Code() == old(Code()) + [WhileInsn(c, old(current), |old(Code())| - do - DoLength(c))]
      ensures Ifs() == old(Ifs()) && Loops() == old(Loops()) && Depths() == old(Depths())
      ensures current == old(Used(current))
    {
      var jump: int := do as int - nrInsn as int;
      if c.gen >= 7 {
        NextInsnWith(WHILE, current.predicated, NO_FIELDS.(jip := Short16(c.Br() * jump)));
      } else if c.gen == 6 {
        NextInsnWith(WHILE, current.predicated, NO_FIELDS.(gen6Jump := Short16(c.Br() * jump)));
      } else if c.spf {
        NextInsnWith(ADD, current.predicated, NO_FIELDS.(ud := 16 * jump));
      } else {
        NextInsnWith(WHILE, current.predicated, NO_FIELDS.(jumpCount := Short16(c.Br() * (jump + 1))));
      }
    }

    /** Closes the innermost loop. */
    method BrwWHILE()
      requires Valid() && Loops() != [] && 0 < loopStackDepth
      requires Loops()[|Loops()| - 1] + DoLength(c) <= |Code()|
      modifies Repr()
      ensures Valid() && fresh(Repr() - old(Repr())) && loopStack.Length == old(loopStack.Length)
      ensures loopStackDepth == old(loopStackDepth) - 1
      ensures var do, n := old(Loops()[|Loops()| - 1]), |old(Code())|;
              Code() == (if c.PatchesBreaks() then PatchedLoop(c, old(Code()), do, n) else old(Code()))
                        + [WhileInsn(c, old(current), n - do - DoLength(c))]
      ensures Ifs() == old(Ifs()) && Loops() == old(Loops()[..|Loops()| - 1])
      ensures Depths() == old(Depths()[..loopStackDepth])
      ensures current == old(State(false, current.inverse, false)) == old(Unpredicated(current))
      ensures old(DepthsAddUp() && Depths()[loopStackDepth] == 0) ==> DepthsAddUp()
    {
      hide WhileInsn, PatchedLoop, Balanced;
      ghost var code, ifs, depths := Code(), Ifs(), Depths();
      var n := nrInsn;
      var do := loopStack[loopStackDepth - 1];
      assert do == Loops()[|Loops()| - 1];
      EmitWhile(do);
      if c.PatchesBreaks() {
        ghost var last := Code()[n..];
        assert Code()[..n] == code;
        PatchBreakCont(do, n);
      }
      CloseLoop();
      if Balanced(code, ifs, depths) && depths[|depths| - 1] == 0 {
        WhileKeepsBalance(c, code, ifs, depths, do, Code()[n]);
      }
    }

    method CloseLoop()
      requires Valid() && Loops() != []
      modifies this`current, this`loopStackDepth
      ensures Valid() && Code() == old(Code()) && Ifs() == old(Ifs())
      ensures Loops() == old(Loops()[..|Loops()| - 1])
      ensures Depths() == old(Depths()[..|Loops()|])
      ensures current == old(current).(predicated := false)
    {
      current := current.(predicated := false);
      loopStackDepth := loopStackDepth - 1;
    }
  }
}
