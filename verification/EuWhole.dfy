/** The whole way from a structured program to the compacted instruction store, on gen6 and gen7, and that
    a channel executes there what the program says. */
module EuWhole {
  import opened EuIr
  import opened EuTargets
  import opened EuSemantics
  import opened EuMeaning
  import opened EuWords
  import opened EuProgram
  import EuBlocks
  import Codec = EuCodec
  import Words = EuStructs
  import EuLayout
  import EuEmit
  import EuProgramStore
  import Store = EuSimulation

  // ---- what a channel fetches ----

  /** The way a channel leaves an instruction; out of a BREAK on gen7 it goes to the WHILE, and falls through. */
  function StepExits(c: Config, flag: Flag, insn: Insn, trace: Trace): (r: seq<Exit>)
    ensures r != []
  {
    var passes := Passes(flag, insn.predicated, insn.inverse, trace);
    match insn.op
    case IF => [if passes then Fall else AtJip]
    case ELSE => [AtJip]
    case WHILE => [if passes then AtJip else Fall]
    case BREAK => if !passes then [Fall] else if c.gen == 7 then [AtUip, Fall] else [AtUip]
    case CONTINUE => [if passes then AtUip else Fall]
    case _ => [Fall]
  }

  /** The instructions fetched in one step. */
  function StepSeen(c: Config, flag: Flag, prog: seq<Insn>, pc: nat, trace: Trace): seq<Insn>
    requires pc < |prog|
  {
    var insn := prog[pc];
    var w := pc + insn.fields.uip / 2;
    if c.gen == 7 && insn.op == BREAK && 0 <= w < |prog| && Passes(flag, insn.predicated, insn.inverse, trace) then
      [insn, prog[w]]
    else [insn]
  }

  function Exits(c: Config, flag: Flag, prog: seq<Insn>, pt: Point, n: nat): seq<Exit>
    decreases n
  {
    if n == 0 || !(0 <= pt.pc < |prog|) then []
    else StepExits(c, flag, prog[pt.pc], pt.trace) + Exits(c, flag, prog, Next(c, flag, prog[pt.pc], pt), n - 1)
  }

  function Seen(c: Config, flag: Flag, prog: seq<Insn>, pt: Point, n: nat): seq<Insn>
    decreases n
  {
    if n == 0 || !(0 <= pt.pc < |prog|) then []
    else StepSeen(c, flag, prog, pt.pc, pt.trace) + Seen(c, flag, prog, Next(c, flag, prog[pt.pc], pt), n - 1)
  }

  /** What a channel executes of the instructions it fetches, behind what it has executed before. */
  function Executed(flag: Flag, seen: seq<Insn>, trace: Trace): Trace {
    if seen == [] then trace
    else
      var insn := seen[0];
      Executed(flag, seen[1..],
               if insn.op == ALU && Passes(flag, insn.predicated, insn.inverse, trace) then trace + [insn] else trace)
  }

  lemma {:induction false} ExecutedConcat(flag: Flag, a: seq<Insn>, b: seq<Insn>, trace: Trace)
    ensures Executed(flag, a + b, trace) == Executed(flag, b, Executed(flag, a, trace))
  {
    hide Passes;
    if a == [] {
      assert a + b == b;
    } else {
      assert (a + b)[0] == a[0] && (a + b)[1..] == a[1..] + b;
      var insn := a[0];
      ExecutedConcat(flag, a[1..], b,
                     if insn.op == ALU && Passes(flag, insn.predicated, insn.inverse, trace) then trace + [insn]
                     else trace);
    }
  }

  function InWords(alu: Encoding, seen: seq<Insn>): (r: seq<Raw>)
    ensures |r| == |seen|
  {
    seq(|seen|, i requires 0 <= i < |seen| => Full(WordsOf(alu, seen[i])))
  }

  lemma InWordsConcat(alu: Encoding, a: seq<Insn>, b: seq<Insn>)
    ensures InWords(alu, a + b) == InWords(alu, a) + InWords(alu, b)
  {
    hide WordsOf;
  }

  // ---- one step ----

  /** A word of the program leaves as its instruction says, and is not where the machine stops. */
  lemma FetchedInsn(c: Config, s: Stmt, alu: Encoding, last: Words.Insn, i: nat)
    requires 6 <= c.gen <= 7 && CanRun(c, s) && Straight(alu) && i < Length(c, s)
    ensures var r := Stored(c, s, alu, last)[i];
            && r == Full(WordsOf(alu, Program(c, s)[i])) && Proper(r)
            && Op(r) != Words.OPCODE_NOP && !NeedsAlign(r)
            && Displacement(c.gen, r, Fall) == 2
            && (Program(c, s)[i].op == ALU ==> forall e :: Displacement(c.gen, r, e) == 2)
  {
    hide Program, Length, Stored, JumpWords;
    StoredAt(c, s, alu, last, i);
    if Program(c, s)[i].op != ALU {
      StoredJump(c, s, alu, last, i);
      ProgramModern(c, s, i);
    }
  }

  /** One fetch in the store, with the exit the channel takes. */
  lemma FetchStep(c: Config, s: Stmt, alu: Encoding, last: Words.Insn, i: nat, e: Exit, rest: seq<Exit>)
    requires 6 <= c.gen <= 7 && CanRun(c, s) && Straight(alu) && i < Length(c, s)
    ensures var p := Stored(c, s, alu, last);
            Store.Run(c.gen, Flatten(p), 2 * i, [e] + rest) ==
            [Full(WordsOf(alu, Program(c, s)[i]))]
            + Store.Run(c.gen, Flatten(p), 2 * i + Displacement(c.gen, p[i], e), rest)
  {
    hide Program, Length, Stored, Displacement, Flatten, WordsOf, Store.Run, Store.Fetch, Start, NeedsAlign, CanRun;
    var p := Stored(c, s, alu, last);
    FetchedInsn(c, s, alu, last, i);
    StoredStart(c, s, alu, last, i);
    Store.FetchFlatten(p, i);
    Store.RunGo(c.gen, Flatten(p), 2 * i, p[i], [e] + rest);
    assert ([e] + rest)[1..] == rest;
  }

  /** Half a distance is a number of instructions. */
  lemma Halves(n: nat, i: nat, d: int)
    requires Inside(n, i, d)
    ensures 2 * i + d == 2 * (i + d / 2) && 0 <= i + d / 2 <= n
  {
  }

  /** Where the exits of an instruction lead. */
  lemma ExitsLead(c: Config, s: Stmt, alu: Encoding, last: Words.Insn, i: nat)
    requires 6 <= c.gen <= 7 && CanRun(c, s) && i < Length(c, s) && Program(c, s)[i].op != ALU
    ensures var r, insn, n := Stored(c, s, alu, last)[i], Program(c, s)[i], Length(c, s);
            && (EuBlocks.Jumps(insn.op) ==>
                  2 * i + Displacement(c.gen, r, AtJip) == 2 * (i + JumpBy(c, insn)) && 0 <= i + JumpBy(c, insn) <= n)
            && (IsJumpOut(insn) ==>
                  2 * i + Displacement(c.gen, r, AtUip) == 2 * (i + insn.fields.uip / 2)
                  && 0 <= i + insn.fields.uip / 2 <= n)
            && (c.gen == 7 && insn.op == BREAK ==> i + insn.fields.uip / 2 < n)
  {
    hide Program, Length, Stored, JumpWords, Displacement, Inside, CanRun;
    StoredJump(c, s, alu, last, i);
    ProgramModern(c, s, i);
    AllInside(c, s, i);
    var n, f := Length(c, s), Program(c, s)[i].fields;
    Halves(n, i, f.jip);
    Halves(n, i, f.uip);
    Halves(n, i, f.gen6Jump);
    if IsJumpOut(Program(c, s)[i]) {
      var w := JumpOutInside(c, s, i);
    }
  }

  /** Fetching what one step of a channel fetches. */
  ghost predicate Fetches(c: Config, s: Stmt, alu: Encoding, last: Words.Insn, from: int, exits: seq<Exit>,
                          seen: seq<Insn>, to: int, rest: seq<Exit>)
    requires 6 <= c.gen <= 7
  {
    var p := Stored(c, s, alu, last);
    Store.Run(c.gen, Flatten(p), 2 * from, exits + rest) ==
    InWords(alu, seen) + Store.Run(c.gen, Flatten(p), 2 * to, rest)
  }

  lemma FetchOne(c: Config, s: Stmt, alu: Encoding, last: Words.Insn, i: nat, e: Exit, to: int, rest: seq<Exit>)
    requires 6 <= c.gen <= 7 && CanRun(c, s) && Straight(alu) && i < Length(c, s)
    requires 2 * i + Displacement(c.gen, Stored(c, s, alu, last)[i], e) == 2 * to
    ensures Fetches(c, s, alu, last, i, [e], [Program(c, s)[i]], to, rest)
  {
    hide Program, Length, Stored, Displacement, Flatten, WordsOf, Store.Run, CanRun;
    FetchStep(c, s, alu, last, i, e, rest);
    assert InWords(alu, [Program(c, s)[i]]) == [Full(WordsOf(alu, Program(c, s)[i]))];
  }

  lemma FetchTwo(c: Config, s: Stmt, alu: Encoding, last: Words.Insn, i: nat, e: Exit, w: nat, rest: seq<Exit>)
    requires 6 <= c.gen <= 7 && CanRun(c, s) && Straight(alu) && i < Length(c, s) && w < Length(c, s)
    requires 2 * i + Displacement(c.gen, Stored(c, s, alu, last)[i], e) == 2 * w
    ensures Fetches(c, s, alu, last, i, [e, Fall], [Program(c, s)[i], Program(c, s)[w]], w + 1, rest)
  {
    hide Program, Length, Stored, Displacement, Flatten, WordsOf, Store.Run, CanRun;
    FetchOne(c, s, alu, last, i, e, w, [Fall] + rest);
    FetchedInsn(c, s, alu, last, w);
    FetchOne(c, s, alu, last, w, Fall, w + 1, rest);
    var a, b := Program(c, s)[i], Program(c, s)[w];
    InWordsConcat(alu, [a], [b]);
    assert [a] + [b] == [a, b] && [e] + ([Fall] + rest) == [e, Fall] + rest;
  }

  /** One step of a channel, in the store. */
  ghost predicate StepAgrees(c: Config, s: Stmt, flag: Flag, alu: Encoding, last: Words.Insn, pt: Point,
                             rest: seq<Exit>)
    requires 6 <= c.gen <= 7 && 0 <= pt.pc < Length(c, s)
  {
    var insn := Program(c, s)[pt.pc];
    var next := Next(c, flag, insn, pt);
    && 0 <= next.pc <= Length(c, s)
    && Fetches(c, s, alu, last, pt.pc, StepExits(c, flag, insn, pt.trace),
               StepSeen(c, flag, Program(c, s), pt.pc, pt.trace), next.pc, rest)
  }

  /** An instruction that goes on behind itself. */
  lemma FallFetches(c: Config, s: Stmt, flag: Flag, alu: Encoding, last: Words.Insn, pt: Point, rest: seq<Exit>)
    requires 6 <= c.gen <= 7 && CanRun(c, s) && Straight(alu) && 0 <= pt.pc < Length(c, s)
    requires StepExits(c, flag, Program(c, s)[pt.pc], pt.trace) == [Fall]
    ensures StepAgrees(c, s, flag, alu, last, pt, rest)
  {
    hide Program, Length, Stored, Displacement, CanRun, Passes, Fetches, JumpBy, Straight;
    ProgramModern(c, s, pt.pc);
    FetchedInsn(c, s, alu, last, pt.pc);
    FetchOne(c, s, alu, last, pt.pc, Fall, pt.pc + 1, rest);
  }

  lemma BlockFetches(c: Config, s: Stmt, flag: Flag, alu: Encoding, last: Words.Insn, pt: Point, rest: seq<Exit>)
    requires 6 <= c.gen <= 7 && CanRun(c, s) && Straight(alu) && 0 <= pt.pc < Length(c, s)
    requires StepExits(c, flag, Program(c, s)[pt.pc], pt.trace) == [AtJip]
    ensures StepAgrees(c, s, flag, alu, last, pt, rest)
  {
    hide Program, Length, Stored, Displacement, CanRun, Passes, Fetches, JumpBy, Straight;
    var insn := Program(c, s)[pt.pc];
    ProgramModern(c, s, pt.pc);
    ExitsLead(c, s, alu, last, pt.pc);
    FetchOne(c, s, alu, last, pt.pc, AtJip, pt.pc + JumpBy(c, insn), rest);
  }

  lemma JumpOutFetches(c: Config, s: Stmt, flag: Flag, alu: Encoding, last: Words.Insn, pt: Point, rest: seq<Exit>)
    requires 6 <= c.gen <= 7 && CanRun(c, s) && Straight(alu) && 0 <= pt.pc < Length(c, s)
    requires StepExits(c, flag, Program(c, s)[pt.pc], pt.trace)[0] == AtUip
    ensures StepAgrees(c, s, flag, alu, last, pt, rest)
  {
    hide Program, Length, Stored, Displacement, CanRun, Passes, Fetches, JumpBy, Straight;
    var insn := Program(c, s)[pt.pc];
    var w := pt.pc + insn.fields.uip / 2;
    ExitsLead(c, s, alu, last, pt.pc);
    BreakBy(c, insn);
    if c.gen == 7 && insn.op == BREAK {
      FetchTwo(c, s, alu, last, pt.pc, AtUip, w, rest);
    } else {
      FetchOne(c, s, alu, last, pt.pc, AtUip, w, rest);
    }
  }

  lemma StepFetches(c: Config, s: Stmt, flag: Flag, alu: Encoding, last: Words.Insn, pt: Point, rest: seq<Exit>)
    requires 6 <= c.gen <= 7 && CanRun(c, s) && Straight(alu) && 0 <= pt.pc < Length(c, s)
    ensures StepAgrees(c, s, flag, alu, last, pt, rest)
  {
    hide Program, Length, Stored, Passes, StepAgrees, CanRun, Straight;
    match StepExits(c, flag, Program(c, s)[pt.pc], pt.trace)[0]
    case Fall => FallFetches(c, s, flag, alu, last, pt, rest);
    case AtJip => BlockFetches(c, s, flag, alu, last, pt, rest);
    case AtUip => JumpOutFetches(c, s, flag, alu, last, pt, rest);
  }

  lemma BreakBy(c: Config, insn: Insn)
    requires IsJumpOut(insn)
    ensures JumpBy(c, insn) == insn.fields.uip / 2 + if insn.op == BREAK && c.gen >= 7 then 1 else 0
  {
  }

  lemma ExecutedOne(flag: Flag, insn: Insn, trace: Trace)
    ensures Executed(flag, [insn], trace) ==
            if insn.op == ALU && Passes(flag, insn.predicated, insn.inverse, trace) then trace + [insn] else trace
  {
    hide Passes;
    assert [insn][1..] == [];
  }

  /** And what it executes of it. */
  lemma StepExecutes(c: Config, s: Stmt, flag: Flag, pt: Point)
    requires 6 <= c.gen <= 7 && CanRun(c, s) && 0 <= pt.pc < Length(c, s)
    ensures var prog := Program(c, s);
            Executed(flag, StepSeen(c, flag, prog, pt.pc, pt.trace), pt.trace) == Next(c, flag, prog[pt.pc], pt).trace
  {
    hide Program, Length, CanRun, Passes, JumpBy;
    var prog := Program(c, s);
    var seen := StepSeen(c, flag, prog, pt.pc, pt.trace);
    ProgramModern(c, s, pt.pc);
    if |seen| == 2 {
      var w := JumpOutInside(c, s, pt.pc);
      ExecutedOne(flag, prog[w], pt.trace);
      assert seen[1..] == [prog[w]];
    } else {
      ExecutedOne(flag, prog[pt.pc], pt.trace);
    }
  }

  // ---- a whole run ----

  lemma Chain(c: Config, s: Stmt, alu: Encoding, last: Words.Insn, from: int, exits: seq<Exit>, seen: seq<Insn>,
              mid: int, exits': seq<Exit>, seen': seq<Insn>, to: int, rest: seq<Exit>)
    requires 6 <= c.gen <= 7
    requires Fetches(c, s, alu, last, from, exits, seen, mid, exits' + rest)
    requires Fetches(c, s, alu, last, mid, exits', seen', to, rest)
    ensures Fetches(c, s, alu, last, from, exits + exits', seen + seen', to, rest)
  {
    hide Stored, Store.Run, Flatten;
    assert (exits + exits') + rest == exits + (exits' + rest);
    InWordsConcat(alu, seen, seen');
  }

  lemma NothingFetched(c: Config, s: Stmt, alu: Encoding, last: Words.Insn, i: int, rest: seq<Exit>)
    requires 6 <= c.gen <= 7
    ensures Fetches(c, s, alu, last, i, [], [], i, rest)
  {
    hide Stored, Store.Run, Flatten;
    assert [] + rest == rest;
    assert InWords(alu, []) == [];
  }

  /** n steps of a channel, in the store. */
  lemma {:induction false} RunFetches(c: Config, s: Stmt, flag: Flag, alu: Encoding, last: Words.Insn, pt: Point,
                                      n: nat, rest: seq<Exit>)
    requires 6 <= c.gen <= 7 && CanRun(c, s) && Straight(alu) && 0 <= pt.pc <= Length(c, s)
    ensures var prog := Program(c, s);
            var end := Run(c, flag, prog, pt, n);
            && 0 <= end.pc <= Length(c, s)
            && Fetches(c, s, alu, last, pt.pc, Exits(c, flag, prog, pt, n), Seen(c, flag, prog, pt, n), end.pc, rest)
            && Executed(flag, Seen(c, flag, prog, pt, n), pt.trace) == end.trace
    decreases n
  {
    hide Program, Length, Fetches, CanRun, Next, StepExits, StepSeen, Straight;
    var prog := Program(c, s);
    if n == 0 || pt.pc == Length(c, s) {
      NothingFetched(c, s, alu, last, pt.pc, rest);
    } else {
      var next := Next(c, flag, prog[pt.pc], pt);
      var exits, seen := StepExits(c, flag, prog[pt.pc], pt.trace), StepSeen(c, flag, prog, pt.pc, pt.trace);
      var exits', seen' := Exits(c, flag, prog, next, n - 1), Seen(c, flag, prog, next, n - 1);
      StepFetches(c, s, flag, alu, last, pt, exits' + rest);
      StepExecutes(c, s, flag, pt);
      RunFetches(c, s, flag, alu, last, next, n - 1, rest);
      Chain(c, s, alu, last, pt.pc, exits, seen, next.pc, exits', seen', Run(c, flag, prog, next, n - 1).pc, rest);
      ExecutedConcat(flag, seen, seen', pt.trace);
    }
  }

  /** The message stops the machine. */
  lemma LastStops(c: Config, s: Stmt, alu: Encoding, last: Words.Insn)
    requires 6 <= c.gen <= 7 && EndsThread(last)
    ensures Store.Run(c.gen, Flatten(Stored(c, s, alu, last)), 2 * Length(c, s), []) == [Full(last)]
  {
    hide Program, Length, Stored, Flatten, Store.Run, Store.Fetch, Start;
    var p, n := Stored(c, s, alu, last), Length(c, s);
    StoredAt(c, s, alu, last, n);
    StoredStart(c, s, alu, last, n);
    Store.FetchFlatten(p, n);
    Store.RunStop(c.gen, Flatten(p), 2 * n, p[n], []);
  }

  /** In front of the message no padding is inserted. */
  lemma {:induction false} NoPadding(c: Config, s: Stmt, alu: Encoding, last: Words.Insn, q: seq<Raw>, k: nat)
    requires 6 <= c.gen <= 7 && CanRun(c, s) && Straight(alu) && k <= Length(c, s)
    requires LayoutOk(c.gen, Stored(c, s, alu, last), q)
    ensures Nops(q, k) == 0
  {
    hide Program, Length, Stored, Displacement, CanRun, Start, NewBase, Straight;
    if k > 0 {
      NoPadding(c, s, alu, last, q, k - 1);
      FetchedInsn(c, s, alu, last, k - 1);
      assert LayoutOkAt(c.gen, Stored(c, s, alu, last), q[k - 1], k - 1);
    }
  }

  /** So every branch of the program arrives where it should. */
  lemma StoredArrives(c: Config, s: Stmt, alu: Encoding, last: Words.Insn, q: seq<Raw>)
    requires 6 <= c.gen <= 7 && CanRun(c, s) && Straight(alu) && EndsThread(last)
    requires LayoutOk(c.gen, Stored(c, s, alu, last), q)
    ensures Store.BranchesArrive(c.gen, Stored(c, s, alu, last), q)
  {
    hide Program, Length, Stored, Displacement, CanRun, Start, Nops, Straight, Padded, EndsThread;
    var p, n := Stored(c, s, alu, last), Length(c, s);
    forall k: nat, e: Exit | k < |p| && e != Fall && IsBranch(c.gen, Op(p[k]))
      ensures Store.ArrivesAt(c.gen, p, q, k, e)
    {
      assert LayoutOkAt(c.gen, p, q[k], k);
      if k == n {
        LastNoBranch(c, s, alu, last);
        assert false;
      }
      NoPadding(c, s, alu, last, q, k);
      NoPadding(c, s, alu, last, q, IndexAt(p, Start(p, k) + Displacement(c.gen, p[k], e)));
    }
  }

  lemma LastNoBranch(c: Config, s: Stmt, alu: Encoding, last: Words.Insn)
    requires EndsThread(last) && 6 <= c.gen <= 7
    ensures !IsBranch(c.gen, Op(Stored(c, s, alu, last)[Length(c, s)]))
  {
    hide Program, Length, Stored;
    StoredAt(c, s, alu, last, Length(c, s));
  }

  /** The effects of what a channel fetches from the front of the compacted store, when it leaves instructions as
      it does in n steps of the generated code. */
  ghost function Trail(c: Config, flag: Flag, s: Stmt, alu: Encoding, last: Words.Insn, n: nat): seq<Words.Insn>
    requires 6 <= c.gen <= 7 && EuLayout.WellFormed(c.gen, Stored(c, s, alu, last))
  {
    Store.Effects(c.gen, Store.Run(c.gen, Flatten(EuLayout.Output(c.gen, Stored(c, s, alu, last))), 0,
                                   Exits(c, flag, Program(c, s), Point(0, []), n)))
  }

  lemma StoppedAt(c: Config, s: Stmt, alu: Encoding, last: Words.Insn, i: nat)
    requires 6 <= c.gen <= 7 && CanRun(c, s) && Straight(alu) && EndsThread(last) && i <= Length(c, s)
    ensures var p := Stored(c, s, alu, last);
            Store.Run(c.gen, Flatten(p), 2 * i, []) == [p[i]]
  {
    hide Program, Length, Stored, Flatten, Store.Run, Store.Fetch, Start, CanRun, Straight, EndsThread, NeedsAlign;
    var p := Stored(c, s, alu, last);
    if i == Length(c, s) {
      LastStops(c, s, alu, last);
      StoredAt(c, s, alu, last, i);
    } else {
      FetchedInsn(c, s, alu, last, i);
      StoredStart(c, s, alu, last, i);
      Store.FetchFlatten(p, i);
      Store.RunStop(c.gen, Flatten(p), 2 * i, p[i], []);
    }
  }

  /** In any number of steps the compacted store is followed just as the generated code is: what is fetched are the
      instructions of the steps, and the one, or the message, where they end. */
  lemma TrailFollows(c: Config, flag: Flag, s: Stmt, alu: Encoding, last: Words.Insn, n: nat)
    requires 6 <= c.gen <= 7 && CanRun(c, s) && Straight(alu) && EndsThread(last)
    ensures EuLayout.WellFormed(c.gen, Stored(c, s, alu, last))
    ensures var prog := Program(c, s);
            var seen, end := Seen(c, flag, prog, Point(0, []), n), Run(c, flag, prog, Point(0, []), n);
            && 0 <= end.pc <= Length(c, s) && Executed(flag, seen, []) == end.trace
            && Trail(c, flag, s, alu, last, n) ==
               Store.Effects(c.gen, InWords(alu, seen) + [Stored(c, s, alu, last)[end.pc]])
  {
    hide Program, Length, Stored, CanRun, Straight, EndsThread, Run, Store.Run, Store.Effects, Flatten, Exits, Seen,
         EuLayout.WellFormed, EuLayout.Output, LayoutOk, Store.BranchesArrive, EuLayout.ShrinkAll;
    var prog, p := Program(c, s), Stored(c, s, alu, last);
    var exits := Exits(c, flag, prog, Point(0, []), n);
    StoredWellFormed(c, s, alu, last);
    EuLayout.WellFormedLayout(c.gen, p);
    StoredArrives(c, s, alu, last, EuLayout.ShrinkAll(c.gen, p));
    RunFetches(c, s, flag, alu, last, Point(0, []), n, []);
    StoppedAt(c, s, alu, last, Run(c, flag, prog, Point(0, []), n).pc);
    Store.CompactionPreservesRuns(c.gen, p, exits);
    assert exits + [] == exits;
  }

  lemma EffectKeepsOp(gen: Codec.Gen, w: Words.Insn)
    ensures Words.Opcode(Store.Effect(gen, Full(w)).d0) == Words.Opcode(w.d0)
  {
    hide Codec.TryCompact;
    ClearedOp(gen, w);
  }

  lemma ClearedOp(gen: Codec.Gen, w: Words.Insn)
    ensures Words.Opcode(Codec.ClearUnencoded(gen, w).d0) == Words.Opcode(w.d0)
  {
    var a, b := w.d0 / 0x80 % 2, w.d0 / 0x2000_0000 % 2;
    assert Codec.ClearUnencoded(gen, w).d0 == w.d0 - 0x80 * (a + 0x40_0000 * b);
  }

  lemma MessageEffect(gen: Codec.Gen, w: Words.Insn)
    requires IsSend(Words.Opcode(w.d0)) && Codec.HasImmediate(w)
    ensures Store.Effect(gen, Full(w)) == w
  {
  }

  /** The message is told from everything in front of it. */
  lemma MessageTold(c: Config, s: Stmt, alu: Encoding, last: Words.Insn, i: nat)
    requires 6 <= c.gen <= 7 && CanRun(c, s) && Straight(alu) && EndsThread(last) && i <= Length(c, s)
    ensures Store.Effect(c.gen, Stored(c, s, alu, last)[i]) == last <==> i == Length(c, s)
  {
    hide Program, Length, Stored, CanRun, JumpWords, Store.Effect, Words.Opcode, Words.CmptControl, Codec.HasImmediate,
         Words.EndOfThread;
    StoredAt(c, s, alu, last, i);
    MessageEffect(c.gen, last);
    if i < Length(c, s) {
      var insn := Program(c, s)[i];
      EffectKeepsOp(c.gen, WordsOf(alu, insn));
      if insn.op != ALU {
        StoredJump(c, s, alu, last, i);
        ProgramModern(c, s, i);
      } else {
        assert IsStraight(alu(insn));
        if IsSend(Words.Opcode(alu(insn).d0)) {
          MessageEffect(c.gen, alu(insn));
        }
      }
    }
  }

  lemma {:induction false} EffectsEnd(gen: Codec.Gen, a: seq<Raw>, x: Raw)
    ensures var e := Store.Effects(gen, a + [x]); |e| == |a| + 1 && e[|a|] == Store.Effect(gen, x)
  {
    hide Store.Effect;
    if a == [] {
      assert a + [x] == [x];
    } else {
      assert (a + [x])[1..] == a[1..] + [x];
      EffectsEnd(gen, a[1..], x);
    }
  }

  /** The channel reaches the message, having executed the trace. */
  ghost predicate Reaches(c: Config, flag: Flag, s: Stmt, alu: Encoding, last: Words.Insn, trace: Trace, n: nat)
    requires 6 <= c.gen <= 7 && EuLayout.WellFormed(c.gen, Stored(c, s, alu, last))
  {
    var trail := Trail(c, flag, s, alu, last, n);
    && trail != [] && trail[|trail| - 1] == last
    && Executed(flag, Seen(c, flag, Program(c, s), Point(0, []), n), []) == trace
  }

  lemma ReachesEnd(c: Config, flag: Flag, s: Stmt, alu: Encoding, last: Words.Insn, trace: Trace, n: nat)
    requires 6 <= c.gen <= 7 && CanRun(c, s) && Straight(alu) && EndsThread(last)
    ensures EuLayout.WellFormed(c.gen, Stored(c, s, alu, last))
    ensures Reaches(c, flag, s, alu, last, trace, n)
            <==> Run(c, flag, Program(c, s), Point(0, []), n) == Point(|Program(c, s)|, trace)
  {
    hide Program, Length, Stored, CanRun, Straight, EndsThread, Run, Trail, Store.Effects, Store.Effect, Seen,
         EuLayout.WellFormed, InWords;
    var prog := Program(c, s);
    var end := Run(c, flag, prog, Point(0, []), n);
    TrailFollows(c, flag, s, alu, last, n);
    MessageTold(c, s, alu, last, end.pc);
    EffectsEnd(c.gen, InWords(alu, Seen(c, flag, prog, Point(0, []), n)), Stored(c, s, alu, last)[end.pc]);
  }

  /** From the program to the compacted store: a structured program ends with a trace if and only if a channel
      that runs from the front of the compacted store reaches the message, having executed just that trace. */
  lemma WholeWay(c: Config, flag: Flag, s: Stmt, trace: Trace, alu: Encoding, last: Words.Insn)
    requires 6 <= c.gen <= 7 && CanRun(c, s) && Straight(alu) && EndsThread(last)
    ensures EuLayout.WellFormed(c.gen, Stored(c, s, alu, last))
    ensures Ends(c, flag, s, trace) <==> exists n :: Reaches(c, flag, s, alu, last, trace, n)
  {
    hide Program, Length, Stored, CanRun, Straight, EndsThread, Ends, Run, Reaches, EuLayout.WellFormed;
    StoredWellFormed(c, s, alu, last);
    GeneratedHalts(c, flag, s, trace);
    forall n: nat
      ensures Reaches(c, flag, s, alu, last, trace, n)
              <==> Run(c, flag, Program(c, s), Point(0, []), n) == Point(|Program(c, s)|, trace)
    {
      ReachesEnd(c, flag, s, alu, last, trace, n);
    }
  }

  // ---- the calls ----

  lemma OneMoreWord(p: seq<Raw>, i: nat)
    requires i < |p| && p[i].Full?
    ensures Flatten(p[..i + 1]) ==
            Flatten(p[..i]) + [Words.Chunk(p[i].insn.d0, p[i].insn.d1), Words.Chunk(p[i].insn.d2, p[i].insn.d3)]
  {
    hide Flatten;
    assert p[..i + 1] == p[..i] + [p[i]];
    FlattenAppend(p[..i], [p[i]]);
    EuLayout.FlattenOne(p[i]);
  }

  lemma MoreChunks(s: seq<Words.Chunk>, s': seq<Words.Chunk>, i: nat, a: Words.Chunk, b: Words.Chunk)
    requires i + 1 < |s| && s' == s[i := a][i + 1 := b]
    ensures s'[..i + 2] == s[..i] + [a, b]
  {
  }

  /** One instruction into the store. */
  method StoreWords(store: array<Words.Chunk>, w: Words.Insn, i: nat, ghost p: seq<Raw>)
    requires i < |p| && p[i] == Full(w) && 2 * i + 1 < store.Length && store[..2 * i] == Flatten(p[..i])
    modifies store
    ensures store[..2 * i + 2] == Flatten(p[..i + 1])
  {
    hide Flatten;
    ghost var was := store[..];
    OneMoreWord(p, i);
    store[2 * i] := Words.Chunk(w.d0, w.d1);
    store[2 * i + 1] := Words.Chunk(w.d2, w.d3);
    MoreChunks(was, store[..], 2 * i, Words.Chunk(w.d0, w.d1), Words.Chunk(w.d2, w.d3));
    assert was[..2 * i] == Flatten(p[..i]);
  }

  /** The finished instructions in words, and the message behind them. */
  method StoreAll(c: Config, s: Stmt, alu: Encoding, last: Words.Insn, code: EuEmit.Compile)
    returns (store: array<Words.Chunk>)
    requires code.Valid() && code.Code() == Program(c, s)
    ensures fresh(store) && store.Length == 2 * code.nrInsn + 2
    ensures store[..] == Flatten(Stored(c, s, alu, last))
  {
    hide Program, Length, Flatten, Stored;
    ghost var p := Stored(c, s, alu, last);
    var n := code.nrInsn;
    store := new Words.Chunk[2 * n + 2](_ => Words.Chunk(0, 0));
    assert store[..0] == Flatten(p[..0]) by { NoWords(p); }
    for i := 0 to n
      invariant code.Valid() && code.Code() == Program(c, s) && store[..2 * i] == Flatten(p[..i])
    {
      assert code.store[i] == Program(c, s)[i];
      StoredAt(c, s, alu, last, i);
      StoreWords(store, WordsOf(alu, code.store[i]), i, p);
    }
    StoredAt(c, s, alu, last, n);
    StoreWords(store, last, n, p);
    assert p[..n + 1] == p && store[..2 * n + 2] == store[..];
  }

  /** Makes the calls of a program, ends it with a message and hands the finished program out: what the store
      then holds is the compacted program. */
  method Assemble(c: Config, s: Stmt, alu: Encoding, last: Words.Insn)
    returns (ok: bool, program: array<Words.Chunk>, sz: nat)
    requires 6 <= c.gen <= 7 && CanRun(c, s) && Straight(alu) && EndsThread(last)
    ensures EuLayout.WellFormed(c.gen, Stored(c, s, alu, last))
    ensures ok <==> LoopDepth(s) < 16
    ensures ok ==> sz <= program.Length && program[..sz] == Flatten(EuLayout.Output(c.gen, Stored(c, s, alu, last)))
  {
    hide Program, Length, Flatten, Straight, EndsThread, EuLayout.WellFormed, EuLayout.Output, Stored;
    StoredWellFormed(c, s, alu, last);
    var code: EuEmit.Compile;
    code, ok := Generate(c, s);
    if !ok {
      program, sz := new Words.Chunk[0], 0;
      return;
    }
    var store := StoreAll(c, s, alu, last, code);
    var whole := new EuProgramStore.ProgramStore(c.gen, store, code.nrInsn + 1);
    assert whole.Contents() == store[..];
    program, sz := whole.GetProgram(Stored(c, s, alu, last));
  }

  lemma NoWords(p: seq<Raw>)
    ensures Flatten(p[..0]) == []
  {
  }
}
