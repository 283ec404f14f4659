/** The whole way from the calls of a structured program to the finished instructions, and what
    these do. */
module EuMeaning {
  import opened Options
  import opened EuIr
  import opened EuTargets
  import opened EuUipJip
  import opened EuFinished
  import opened EuSemantics
  import opened EuRefinement
  import EuDriver
  import EuEmit

  const INITIAL := State(false, false, false)

  /** What is left in the store when the calls of s have been made and the program has been
      finished. */
  function Program(c: Config, s: Stmt): (r: seq<Insn>)
    ensures |r| == Length(c, s)
  {
    var code := Code(c, s, INITIAL, 0, None, 0, c.PatchesBreaks());
    if c.gen >= 6 then FinishedAll(c, code) else code
  }

  /** Generates the code of s, up to the call that stores past the end of the loop stack, if there is
      one: there is none exactly if loops are nested at most fifteen deep. */
  method Generate(c: Config, s: Stmt) returns (p: EuEmit.Compile, ok: bool)
    requires c.PatchesBreaks() ==> c.Br() * (Length(c, s) + 1) < 0x8000
    requires c.gen >= 6 ==> 2 * Length(c, s) < 0x8000 && !FreeJump(s)
    ensures fresh(p)
    ensures ok <==> LoopDepth(s) < 16
    ensures ok ==> p.Valid() && p.Code() == Program(c, s) && p.Ifs() == [] && p.Loops() == []
  {
    hide Code, FinishedAll, JumpsHaveLoops, Length;
    p := new EuEmit.Compile(c);
    ok := EuDriver.Emit(p, s);
    if !ok {
      return;
    }
    assert p.Code() == Code(c, s, INITIAL, 0, None, 0, c.PatchesBreaks());
    if c.gen >= 6 {
      EmittedJumpsHaveLoops(c, s, INITIAL, false);
    }
    SetUipJip(p);
  }

  /** Loops nested n deep. */
  function Nest(n: nat): Stmt {
    if n == 0 then Alu(0) else Loop(Nest(n - 1))
  }

  lemma {:induction false} NestDepth(c: Config, n: nat)
    ensures LoopDepth(Nest(n)) == n && !FreeJump(Nest(n)) && Length(c, Nest(n)) <= 2 * n + 1
  {
    if n > 0 {
      NestDepth(c, n - 1);
    }
  }

  /** The sixteenth nested loop is stored past the end of the loop stack, on every generation. */
  method SixteenLoops(c: Config) returns (p: EuEmit.Compile, ok: bool)
    ensures !ok
  {
    NestDepth(c, 16);
    p, ok := Generate(c, Nest(16));
  }

  ghost predicate Halts(c: Config, flag: Flag, prog: seq<Insn>, trace: Trace) {
    exists n: nat :: Run(c, flag, prog, Point(0, []), n) == Point(|prog|, trace)
  }

  ghost predicate Ends(c: Config, flag: Flag, s: Stmt, trace: Trace) {
    exists fuel: nat :: EndsWithin(c, flag, s, trace, fuel)
  }

  predicate EndsWithin(c: Config, flag: Flag, s: Stmt, trace: Trace, fuel: nat) {
    var r := Eval(c, flag, s, INITIAL, [], fuel);
    r.Done? && r.trace == trace
  }

  ghost predicate CanRun(c: Config, s: Stmt) {
    Runs(c, Place(s, INITIAL, 0, None, 0)) && Fits(Length(c, s))
  }

  // ---- the settled code ----

  function Settled(c: Config, s: Stmt): (r: seq<Insn>)
    ensures |r| == Length(c, s)
  {
    Code(c, s, INITIAL, 0, None, 0, true)
  }

  lemma SettledSits(c: Config, s: Stmt)
    requires Fits(Length(c, s))
    ensures Sits(c, Settled(c, s), Place(s, INITIAL, 0, None, 0))
  {
    hide At, Code, Length;
    var p := Place(s, INITIAL, 0, None, 0);
    forall i | 0 <= i < Length(c, s)
      ensures Settled(c, s)[p.at + i] == At(c, p, true, i)
    {
      CodeAt(c, p, true, i);
    }
  }

  /** A program that has been left stays left. */
  lemma RunStays(c: Config, flag: Flag, prog: seq<Insn>, n: nat, m: nat, trace: Trace)
    requires n <= m && Run(c, flag, prog, Point(0, []), n) == Point(|prog|, trace)
    ensures Run(c, flag, prog, Point(0, []), m) == Point(|prog|, trace)
  {
    RunSplits(c, flag, prog, Point(0, []), n, m - n);
  }

  lemma SettledHalts(c: Config, flag: Flag, s: Stmt, trace: Trace)
    requires CanRun(c, s)
    ensures Halts(c, flag, Settled(c, s), trace) <==> Ends(c, flag, s, trace)
  {
    hide Run, Eval, Settled, Length, Sits, Runs;
    var prog, p := Settled(c, s), Place(s, INITIAL, 0, None, 0);
    SettledSits(c, s);
    if fuel: nat :| EndsWithin(c, flag, s, trace, fuel) {
      var k := Simulates(c, flag, prog, p, [], fuel);
      assert Run(c, flag, prog, Point(0, []), k) == Point(|prog|, trace);
    }
    if n: nat :| Run(c, flag, prog, Point(0, []), n) == Point(|prog|, trace) {
      var k := Simulates(c, flag, prog, p, [], n);
      var r := Eval(c, flag, s, INITIAL, [], n);
      if r.OutOfFuel? {
        RunStays(c, flag, prog, n, k, trace);
        assert false;
      } else {
        RunStays(c, flag, prog, n, n + k, trace);
        RunStays(c, flag, prog, k, n + k, r.trace);
        assert EndsWithin(c, flag, s, trace, n);
      }
    }
  }

  // ---- the generated code ----

  /** The JIPs the finishing pass sets are not looked at by a channel that jumps. */
  lemma JipOfJumpsOut(c: Config, flag: Flag, a: Insn, b: Insn, pt: Point)
    requires SameButJip(a, b) && (a != b ==> IsJumpOut(a) || a.op == ENDIF)
    ensures Next(c, flag, a, pt) == Next(c, flag, b, pt)
  {
  }

  /** Every instruction of the generated code does what its settled form does. */
  lemma GeneratedStep(c: Config, flag: Flag, s: Stmt, pt: Point, i: nat)
    requires CanRun(c, s) && i < Length(c, s)
    ensures Next(c, flag, Program(c, s)[i], pt) == Next(c, flag, Settled(c, s)[i], pt)
  {
    hide Code, Next, At, Length, FreeJump, FitsSpf, Finished;
    var p := Place(s, INITIAL, 0, None, 0);
    if c.gen >= 6 {
      var code := Code(c, s, INITIAL, 0, None, 0, false);
      assert Program(c, s)[i] == Finished(c, code, i);
      FinishedIsSettled(c, s, INITIAL, i);
      FinishedKeepsOp(c, code, i);
      JipOfJumpsOut(c, flag, Program(c, s)[i], Settled(c, s)[i], pt);
    } else {
      SettlingChangesJumps(c, p, p, i);
      SpfHasNoJumps(c, p, i);
      CodeAt(c, p, false, i);
      CodeAt(c, p, true, i);
    }
  }

  /** In single program flow a BREAK or CONTINUE is never patched: its distance stays zero. */
  lemma SpfJumpsUnpatched(c: Config, s: Stmt, i: nat)
    requires c.AddsToIp() && i < Length(c, s) && IsJumpOut(Program(c, s)[i])
    ensures Program(c, s)[i].fields.jumpCount == 0
  {
    hide Code, At, Length, OpenIfs, LoopEnd;
    var p := Place(s, INITIAL, 0, None, 0);
    CodeAt(c, p, false, i);
    JumpsOut(c, p, false, i);
  }

  lemma FinishedKeepsOp(c: Config, code: seq<Insn>, i: nat)
    requires i < |code|
    ensures Finished(c, code, i).op == code[i].op
  {
  }

  lemma {:induction false} SpfHasNoJumps(c: Config, p: Place, i: nat)
    requires c.AddsToIp() && FitsSpf(c, p.s, p.cur) && i < Length(c, p.s)
    ensures !IsJumpOut(At(c, p, false, i))
    decreases p.s
  {
    hide Locate, Length, After, FitsSpf;
    FitsSpfStep(c, p, i);
    match Locate(c, p, false, i)
    case Own(_) =>
    case Inner(q, j) => SpfHasNoJumps(c, q, j);
  }

  lemma FitsSpfStep(c: Config, p: Place, i: nat)
    requires c.AddsToIp() && FitsSpf(c, p.s, p.cur) && i < Length(c, p.s)
    ensures var part := Locate(c, p, false, i);
            if part.Own? then !IsJumpOut(part.insn) else FitsSpf(c, part.place.s, part.place.cur)
  {
    hide After, WhileInsn, IfInsn, ElseInsn, DoInsns, EndifInsns;
    if Locate(c, p, false, i).Own? {
      OwnInsn(c, p, false, i);
    }
  }

  lemma {:induction false} GeneratedRun(c: Config, flag: Flag, s: Stmt, pt: Point, n: nat)
    requires CanRun(c, s)
    ensures Run(c, flag, Program(c, s), pt, n) == Run(c, flag, Settled(c, s), pt, n)
    decreases n
  {
    hide Next, Program, Settled, CanRun;
    if 0 < n && 0 <= pt.pc < Length(c, s) {
      GeneratedStep(c, flag, s, pt, pt.pc);
      GeneratedRun(c, flag, s, Next(c, flag, Program(c, s)[pt.pc], pt), n - 1);
    }
  }

  /** The generated instructions reach their end, having executed the straight-line instructions
      of a trace, exactly if the structured program ends with that trace. */
  lemma GeneratedHalts(c: Config, flag: Flag, s: Stmt, trace: Trace)
    requires CanRun(c, s)
    ensures Halts(c, flag, Program(c, s), trace) <==> Ends(c, flag, s, trace)
  {
    hide Run, Program, Settled, CanRun, Ends;
    SettledHalts(c, flag, s, trace);
    if n: nat :| Run(c, flag, Program(c, s), Point(0, []), n) == Point(|Program(c, s)|, trace) {
      GeneratedRun(c, flag, s, Point(0, []), n);
    }
    if n: nat :| Run(c, flag, Settled(c, s), Point(0, []), n) == Point(|Settled(c, s)|, trace) {
      GeneratedRun(c, flag, s, Point(0, []), n);
    }
  }

  /** While the structured program is still looping, so is the generated one, with the same
      straight-line instructions executed and at least a step for every round. */
  lemma GeneratedLoops(c: Config, flag: Flag, s: Stmt, fuel: nat) returns (k: nat)
    requires CanRun(c, s) && Eval(c, flag, s, INITIAL, [], fuel).OutOfFuel?
    ensures fuel <= k
    ensures var pt := Run(c, flag, Program(c, s), Point(0, []), k);
            pt.trace == Eval(c, flag, s, INITIAL, [], fuel).trace && 0 <= pt.pc < |Program(c, s)|
  {
    hide Run, Eval, Settled, Program, Length, Sits, Runs;
    SettledSits(c, s);
    k := Simulates(c, flag, Settled(c, s), Place(s, INITIAL, 0, None, 0), [], fuel);
    GeneratedRun(c, flag, s, Point(0, []), k);
  }

  /** Under an inverted predicate the conversion to ADDs turns an IF around: with a flag that is
      never set, the branch is to be executed, but the generated code jumps over it. */
  lemma InvertedIfSkipsBranch()
    ensures var c, flag, s := Config(5, true), (_: Trace) => false, Seq(SetInverse(true), If(Alu(1)));
            && Halts(c, flag, Program(c, s), [])
            && !Ends(c, flag, s, [])
  {
    var c, flag, s := Config(5, true), (_: Trace) => false, Seq(SetInverse(true), If(Alu(1)));
    var cur := INITIAL.(inverse := true);
    var prog := Program(c, s);
    CodeSeq(c, s.first, s.second, INITIAL, 0, None, 0, false);
    CodeIf(c, s.second.thn, cur, 0, None, 0, false);
    assert prog[0] == IfInsn(c, cur, 1, None);
    assert Next(c, flag, prog[0], Point(0, [])) == Point(2, []);
    assert Run(c, flag, prog, Point(0, []), 1) == Run(c, flag, prog, Point(2, []), 0);
    forall fuel: nat
      ensures !EndsWithin(c, flag, s, [], fuel)
    {
      assert Eval(c, flag, If(Alu(1)), cur, [], fuel) == Eval(c, flag, Alu(1), Unpredicated(cur), [], fuel);
      assert Eval(c, flag, s, INITIAL, [], fuel).trace == [Plain(ALU, cur).(id := 1)];
    }
  }

  /** A first branch that compares, and so turns predication on, and a second one that turns it off. */
  function Compares(): Stmt {
    IfElse(Seq(SetConditional(true), Alu(1)), Seq(SetPredicated(false), Alu(2)))
  }

  lemma BranchCode(c: Config, first: Stmt, id: nat, cur: State, at: nat, d: nat)
    requires Length(c, first) == 0
    ensures Code(c, Seq(first, Alu(id)), cur, at, None, d, false) == [Plain(ALU, After(c, first, cur)).(id := id)]
    ensures Length(c, Seq(first, Alu(id))) == 1
  {
    hide After;
    CodeSeq(c, first, Alu(id), cur, at, None, d, false);
  }

  lemma ComparesCode(c: Config)
    requires c == Config(5, true)
    ensures Program(c, Compares()) ==
            [IfInsn(c, INITIAL, 1, Some(1)), Insn(ALU, 1, false, false, true, NO_FIELDS),
             ElseInsn(c, State(true, false, false), 1), Insn(ALU, 2, false, false, false, NO_FIELDS)]
  {
    hide IfInsn, ElseInsn, Code;
    var thn, els := Compares().thn, Compares().els;
    CodeIfElse(c, thn, els, INITIAL, 0, None, 0, false);
    BranchCode(c, thn.first, 1, INITIAL, 1, 1);
    BranchCode(c, els.first, 2, State(true, false, false), 3, 1);
  }

  /** A converted ELSE is predicated if the first branch leaves predication on.  When the comparison comes
      out false, the generated code falls through it, and executes both branches. */
  lemma PredicatedElseFallsThrough()
    ensures var c, flag, s := Config(5, true), (trace: Trace) => trace == [], Compares();
            var one := Insn(ALU, 1, false, false, true, NO_FIELDS);
            var two := Insn(ALU, 2, false, false, false, NO_FIELDS);
            && Halts(c, flag, Program(c, s), [one, two])
            && Ends(c, flag, s, [one])
            && !Ends(c, flag, s, [one, two])
  {
    hide Program;
    var c, flag, s := Config(5, true), (trace: Trace) => trace == [], Compares();
    var one := Insn(ALU, 1, false, false, true, NO_FIELDS);
    var two := Insn(ALU, 2, false, false, false, NO_FIELDS);
    var prog := Program(c, s);
    ComparesCode(c);
    assert Next(c, flag, prog[0], Point(0, [])) == Point(1, []);
    assert Next(c, flag, prog[1], Point(1, [])) == Point(2, [one]);
    assert Next(c, flag, prog[2], Point(2, [one])) == Point(3, [one]);
    assert Next(c, flag, prog[3], Point(3, [one])) == Point(4, [one, two]);
    assert Run(c, flag, prog, Point(0, []), 4) == Point(4, [one, two]) by {
      assert Run(c, flag, prog, Point(3, [one]), 1) == Run(c, flag, prog, Point(4, [one, two]), 0);
      assert Run(c, flag, prog, Point(2, [one]), 2) == Run(c, flag, prog, Point(3, [one]), 1);
      assert Run(c, flag, prog, Point(1, []), 3) == Run(c, flag, prog, Point(2, [one]), 2);
    }
    forall fuel: nat
      ensures Eval(c, flag, s, INITIAL, [], fuel) == Done([one], fuel)
    {
      assert Eval(c, flag, s.thn, INITIAL, [], fuel) == Done([one], fuel);
    }
    assert EndsWithin(c, flag, s, [one], 0);
  }
}
