/** What a structured program means for one channel, and that the emitted instructions mean the
    same: with ADDs to the instruction pointer (gen4 and gen5, single program flow) and with the
    jump fields of gen6 and gen7. */
module EuSemantics {
  import opened Options
  import opened EuIr
  import opened EuPatching
  import opened EuFinished

  /** The straight-line instructions executed so far; they determine the flag register. */
  type Trace = seq<Insn>
  type Flag = Trace -> bool

  predicate Passes(flag: Flag, predicated: bool, inverse: bool, trace: Trace) {
    !predicated || flag(trace) != inverse
  }

  // ---- structured programs ----

  /** How a statement is left, with the loop rounds not used; OutOfFuel at the back edge that
      would exceed them. */
  datatype Outcome =
    | Done(trace: Trace, fuel: nat)
    | Broke(trace: Trace, fuel: nat)
    | Continued(trace: Trace, fuel: nat)
    | OutOfFuel(trace: Trace)
  {
    function Left(): nat {
      if OutOfFuel? then 0 else fuel
    }
  }

  /** The state of the instruction defaults is that of the emitter, so it depends on which of its calls
      emit an instruction. */
  function Eval(c: Config, flag: Flag, s: Stmt, cur: State, trace: Trace, fuel: nat): (r: Outcome)
    ensures r.Left() <= fuel
    decreases fuel, s
  {
    match s
    case Alu(id) =>
      Done(if Passes(flag, cur.predicated, cur.inverse, trace) then trace + [Plain(ALU, cur).(id := id)] else trace,
           fuel)
    case SetPredicated(_) => Done(trace, fuel)
    case SetInverse(_) => Done(trace, fuel)
    case SetConditional(_) => Done(trace, fuel)
    case Seq(a, b) =>
      var r := Eval(c, flag, a, cur, trace, fuel);
      if r.Done? then Eval(c, flag, b, After(c, a, cur), r.trace, r.fuel) else r
    case If(thn) =>
      if flag(trace) != cur.inverse then Eval(c, flag, thn, Unpredicated(cur), trace, fuel) else Done(trace, fuel)
    case IfElse(thn, els) =>
      var cur1 := Unpredicated(cur);
      if flag(trace) != cur.inverse then Eval(c, flag, thn, cur1, trace, fuel)
      else Eval(c, flag, els, Used(After(c, thn, cur1)), trace, fuel)
    case Loop(body) =>
      var cur1 := AfterDo(c, cur);
      var r, end := Eval(c, flag, body, cur1, trace, fuel), After(c, body, cur1);
      if r.OutOfFuel? then r
      else if r.Broke? then Done(r.trace, r.fuel)
      else if !Passes(flag, end.predicated, end.inverse, r.trace) then Done(r.trace, r.fuel)
      else if r.fuel == 0 then OutOfFuel(r.trace)
      else Eval(c, flag, s, cur, r.trace, r.fuel - 1)
    case Break => if Passes(flag, cur.predicated, cur.inverse, trace) then Broke(trace, fuel) else Done(trace, fuel)
    case Continue =>
      if Passes(flag, cur.predicated, cur.inverse, trace) then Continued(trace, fuel) else Done(trace, fuel)
  }

  // ---- flat programs ----

  datatype Point = Point(pc: int, trace: Trace)

  /** How far an instruction jumps, in instructions.  The UIP of a BREAK names the WHILE on gen7,
      and the channel resumes behind it. */
  function JumpBy(c: Config, insn: Insn): int {
    match insn.op
    case ADD => insn.fields.ud / 16
    case BREAK => insn.fields.uip / 2 + if c.gen >= 7 then 1 else 0
    case CONTINUE => insn.fields.uip / 2
    case _ =>
      if c.gen < 6 then insn.fields.jumpCount / c.Br()
      else (if c.gen == 6 then insn.fields.gen6Jump else insn.fields.jip) / 2
  }

  function Next(c: Config, flag: Flag, insn: Insn, pt: Point): Point {
    var passes := Passes(flag, insn.predicated, insn.inverse, pt.trace);
    match insn.op
    case ALU => Point(pt.pc + 1, if passes then pt.trace + [insn] else pt.trace)
    case IF => pt.(pc := pt.pc + if passes then 1 else JumpBy(c, insn))
    case ELSE => pt.(pc := pt.pc + JumpBy(c, insn))
    case ADD => pt.(pc := pt.pc + if passes then JumpBy(c, insn) else 1)
    case WHILE => pt.(pc := pt.pc + if passes then JumpBy(c, insn) else 1)
    case BREAK => pt.(pc := pt.pc + if passes then JumpBy(c, insn) else 1)
    case CONTINUE => pt.(pc := pt.pc + if passes then JumpBy(c, insn) else 1)
    case _ => pt.(pc := pt.pc + 1)
  }

  /** n steps, or as many as there are until the program is left. */
  function Run(c: Config, flag: Flag, prog: seq<Insn>, pt: Point, n: nat): Point
    decreases n
  {
    if n == 0 || !(0 <= pt.pc < |prog|) then pt
    else Run(c, flag, prog, Next(c, flag, prog[pt.pc], pt), n - 1)
  }

  lemma {:induction false} RunSplits(c: Config, flag: Flag, prog: seq<Insn>, pt: Point, n: nat, m: nat)
    ensures Run(c, flag, prog, pt, n + m) == Run(c, flag, prog, Run(c, flag, prog, pt, n), m)
    decreases n
  {
    hide Next;
    if n == 0 {
    } else if 0 <= pt.pc < |prog| {
      RunSplits(c, flag, prog, Next(c, flag, prog[pt.pc], pt), n - 1, m);
    } else {
      assert Run(c, flag, prog, pt, m) == pt;
    }
  }

  // ---- which programs ----

  /** What single program flow needs: no BREAK or CONTINUE, no IF under an inverted predicate,
      no predicated ELSE. */
  predicate FitsSpf(c: Config, s: Stmt, cur: State) {
    match s
    case Seq(a, b) => FitsSpf(c, a, cur) && FitsSpf(c, b, After(c, a, cur))
    case If(thn) => !cur.inverse && FitsSpf(c, thn, Unpredicated(cur))
    case IfElse(thn, els) =>
      var cur1 := Unpredicated(cur);
      var cur2 := After(c, thn, cur1);
      !cur.inverse && FitsSpf(c, thn, cur1) && !cur2.predicated && FitsSpf(c, els, Used(cur2))
    case Loop(body) => FitsSpf(c, body, AfterDo(c, cur))
    case Break => false
    case Continue => false
    case _ => true
  }

  predicate Runs(c: Config, p: Place) {
    if c.AddsToIp() then FitsSpf(c, p.s, p.cur)
    else 6 <= c.gen <= 7 && (FreeJump(p.s) ==> p.loop.Some?)
  }

  /** A jump of up to one more than the program's length fits its field. */
  predicate Fits(n: nat) {
    2 * (n + 1) < 0x8000
  }

  ghost predicate Sits(c: Config, prog: seq<Insn>, p: Place) {
    && p.at + Length(c, p.s) <= |prog| && Fits(|prog|)
    && (p.loop.Some? ==> p.at + Length(c, p.s) <= p.loop.value < |prog|)
    && forall i :: 0 <= i < Length(c, p.s) ==> prog[p.at + i] == At(c, p, true, i)
  }

  /** Where control goes when a statement is left. */
  predicate Leaves(c: Config, p: Place, r: Outcome, pt: Point)
  {
    && pt.trace == r.trace
    && match r
       case Done(_, _) => pt.pc == p.at + Length(c, p.s)
       case Broke(_, _) => p.loop.Some? && pt.pc == p.loop.value + 1
       case Continued(_, _) => p.loop.Some? && pt.pc == p.loop.value
       case OutOfFuel(_) => p.at <= pt.pc < p.at + Length(c, p.s)
  }

  /** k steps take the flat program from the start of a statement to where the structured program
      leaves it, and there is a step for every loop round used. */
  ghost predicate Matches(c: Config, flag: Flag, prog: seq<Insn>, p: Place, trace: Trace, fuel: nat, k: nat) {
    var r := Eval(c, flag, p.s, p.cur, trace, fuel);
    Leaves(c, p, r, Run(c, flag, prog, Point(p.at, trace), k)) && fuel <= k + r.Left()
  }

  // ---- the jumps ----

  /** A converted IF jumps exactly when its branch is to be skipped, if and only if the IF was
      emitted without inverted predicate: the conversion sets the inversion, it does not flip it. */
  lemma ConvertedIf(c: Config, cur: State, thn: nat, els: Option<nat>)
    requires c.AddsToIp()
    ensures var insn := IfInsn(c, cur, thn, els);
            (forall flag: Flag, trace: Trace ::
               Passes(flag, insn.predicated, insn.inverse, trace) <==> !(flag(trace) != cur.inverse)) <==> !cur.inverse
  {
    var flag: Flag := _ => true;
    var insn := IfInsn(c, cur, thn, els);
    assert Passes(flag, insn.predicated, insn.inverse, []) == false;
  }

  /** A converted ELSE always jumps, if and only if it was emitted unpredicated. */
  lemma ConvertedElse(c: Config, cur: State, els: nat)
    requires c.AddsToIp()
    ensures var insn := ElseInsn(c, cur, els);
            (forall flag: Flag, trace: Trace :: Passes(flag, insn.predicated, insn.inverse, trace)) <==> !cur.predicated
  {
    var flag: Flag := _ => cur.inverse;
    var insn := ElseInsn(c, cur, els);
    assert Passes(flag, insn.predicated, insn.inverse, []) == !cur.predicated;
  }

  lemma IfStep(c: Config, flag: Flag, cur: State, pt: Point, thn: nat, els: Option<nat>)
    requires (c.AddsToIp() && !cur.inverse) || 6 <= c.gen <= 7
    requires Fits(thn + 1 + if els.Some? then els.value + 1 else 0)
    ensures Next(c, flag, IfInsn(c, cur, thn, els), pt) ==
            pt.(pc := pt.pc + if flag(pt.trace) != cur.inverse then 1 else if els.Some? then thn + 2 else thn + 1)
  {
    hide Short16;
    Short16Fits(2 * (thn + 1));
    Short16Fits(2 * (thn + 2));
  }

  lemma ElseStep(c: Config, flag: Flag, cur: State, pt: Point, els: nat)
    requires (c.AddsToIp() && !cur.predicated) || 6 <= c.gen <= 7
    requires Fits(els + 1)
    ensures Next(c, flag, ElseInsn(c, cur, els), pt) == pt.(pc := pt.pc + els + 1)
  {
    hide Short16;
    Short16Fits(2 * (els + 1));
  }

  /** On every generation: on gen4 and gen5 outside single program flow to behind the DO. */
  lemma WhileStep(c: Config, flag: Flag, cur: State, pt: Point, body: nat)
    requires c.gen <= 7 && Fits(body)
    ensures Next(c, flag, WhileInsn(c, cur, body), pt) ==
            pt.(pc := if Passes(flag, cur.predicated, cur.inverse, pt.trace) then pt.pc - body else pt.pc + 1)
  {
    hide Short16;
    Short16Fits(-(c.Br() * body));
  }

  lemma BreakStep(c: Config, flag: Flag, op: Opcode, cur: State, pt: Point, at: nat, w: nat, d: nat)
    requires (op == BREAK || op == CONTINUE) && 6 <= c.gen <= 7
    requires at < w && Fits(w - at)
    ensures Next(c, flag, BreakInsn(c, op, cur, at, Some(w), d), pt) ==
            pt.(pc := if !Passes(flag, cur.predicated, cur.inverse, pt.trace) then pt.pc + 1
                      else pt.pc + w - at + if op == BREAK then 1 else 0)
  {
    hide Short16;
    Short16Fits(2 * (w - at));
    Short16Fits(2 * (w - at + 1));
  }

  lemma EndifStep(c: Config, flag: Flag, cur: State, pt: Point)
    requires EndifLength(c) == 1
    ensures Next(c, flag, EndifInsns(c, cur)[0], pt) == pt.(pc := pt.pc + 1)
  {
  }
}
