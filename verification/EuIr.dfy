/** Structured programs, the flat instructions the emitter makes of them, and the code a
    structured program should become, given in one go with every target known in advance. */
module EuIr {
  import opened Options
  import EuStructs

  datatype Opcode = ALU | ADD | IF | IFF | ELSE | ENDIF | DO | WHILE | BREAK | CONTINUE | HALT

  /** The jump fields of an instruction: bits3.ud of an ADD to IP (bytes), bits3.if_else,
      bits1.branch_gen6 and bits3.break_cont. */
  datatype Fields = Fields(ud: int, jumpCount: int, popCount: int, gen6Jump: int, jip: int, uip: int)

  const NO_FIELDS := Fields(0, 0, 0, 0, 0, 0)

  /** id tells straight-line instructions apart; predicated and inverse are the predicate control of the
      header, conditional says whether there is a conditional modifier. */
  datatype Insn = Insn(op: Opcode, id: nat, predicated: bool, inverse: bool, conditional: bool, fields: Fields)

  /** The generation, and whether single program flow is on. */
  datatype Config = Config(gen: nat, spf: bool) {
    /** IF, ELSE and WHILE are emitted as ADDs to the instruction pointer. */
    predicate AddsToIp() {
      gen < 6 && spf
    }

    /** BREAK and CONTINUE are patched when their loop is closed. */
    predicate PatchesBreaks() {
      gen < 6 && !spf
    }

    /** Jump units in one instruction. */
    function Br(): int {
      if gen >= 5 then 2 else 1
    }
  }

  /** What a signed 16-bit field keeps of a distance. */
  function Short16(v: int): int {
    EuStructs.Signed16(EuStructs.Field16(v))
  }

  /** What the default instruction state passes on to the next instruction. */
  datatype State = State(predicated: bool, inverse: bool, conditionalMod: bool)

  /** A conditional modifier is used by one instruction, and turns predication on for the next. */
  function Used(cur: State): State {
    if cur.conditionalMod then cur.(conditionalMod := false, predicated := true) else cur
  }

  /** Behind an IF or a WHILE predication is off. */
  function Unpredicated(cur: State): State {
    Used(cur).(predicated := false)
  }

  /** The sequences of calls a client makes: one straight-line instruction, changes of the default
      instruction state, and IF, loops, BREAK and CONTINUE. */
  datatype Stmt =
    | Alu(id: nat)
    | SetPredicated(on: bool)
    | SetInverse(on: bool)
    | SetConditional(on: bool)
    | Seq(first: Stmt, second: Stmt)
    | If(thn: Stmt)
    | IfElse(thn: Stmt, els: Stmt)
    | Loop(body: Stmt)
    | Break
    | Continue

  /** The instruction state behind the ENDIF, if there is one. */
  function AfterEndif(c: Config, cur: State): State {
    if c.AddsToIp() then cur else Used(cur)
  }

  /** The instruction state behind the DO, if there is one. */
  function AfterDo(c: Config, cur: State): State {
    if c.PatchesBreaks() then Used(cur) else cur
  }

  /** The instruction state after the calls. */
  function After(c: Config, s: Stmt, cur: State): State {
    match s
    case Alu(_) => Used(cur)
    case SetPredicated(on) => cur.(predicated := on)
    case SetInverse(on) => cur.(inverse := on)
    case SetConditional(on) => cur.(conditionalMod := on)
    case Seq(a, b) => After(c, b, After(c, a, cur))
    case If(thn) => AfterEndif(c, After(c, thn, Unpredicated(cur)))
    case IfElse(thn, els) => AfterEndif(c, After(c, els, Used(After(c, thn, Unpredicated(cur)))))
    case Loop(body) => Unpredicated(After(c, body, AfterDo(c, cur)))
    case Break => Used(cur)
    case Continue => Used(cur)
  }

  /** Instructions emitted. */
  function Length(c: Config, s: Stmt): nat {
    match s
    case Alu(_) => 1
    case SetPredicated(_) => 0
    case SetInverse(_) => 0
    case SetConditional(_) => 0
    case Seq(a, b) => Length(c, a) + Length(c, b)
    case If(thn) => 1 + Length(c, thn) + EndifLength(c)
    case IfElse(thn, els) => 1 + Length(c, thn) + 1 + Length(c, els) + EndifLength(c)
    case Loop(body) => DoLength(c) + Length(c, body) + 1
    case Break => 1
    case Continue => 1
  }

  function EndifLength(c: Config): nat {
    if c.AddsToIp() then 0 else 1
  }

  function DoLength(c: Config): nat {
    if c.PatchesBreaks() then 1 else 0
  }

  /** How deep loops are nested. */
  function LoopDepth(s: Stmt): nat {
    match s
    case Seq(a, b) => if LoopDepth(a) < LoopDepth(b) then LoopDepth(b) else LoopDepth(a)
    case If(thn) => LoopDepth(thn)
    case IfElse(a, b) => if LoopDepth(a) < LoopDepth(b) then LoopDepth(b) else LoopDepth(a)
    case Loop(body) => 1 + LoopDepth(body)
    case _ => 0
  }

  function Plain(op: Opcode, cur: State): Insn {
    Insn(op, 0, cur.predicated, cur.inverse, cur.conditionalMod, NO_FIELDS)
  }

  /** The IF of a block whose branches have the given lengths, once its ENDIF is reached. */
  function IfInsn(c: Config, cur: State, thn: nat, els: Option<nat>): Insn {
    var toElse := 1 + thn;
    var toEndif := 1 + thn + if els.Some? then 1 + els.value else 0;
    var bare := Plain(IF, cur).(predicated := true);
    if c.AddsToIp() then
      bare.(op := ADD, inverse := true,
            fields := NO_FIELDS.(ud := if els.Some? then 16 * (toElse + 1) else 16 * toEndif))
    else if c.gen < 6 then
      if els.None? then bare.(op := IFF, fields := NO_FIELDS.(jumpCount := Short16(c.Br() * (toEndif + 1))))
      else bare.(fields := NO_FIELDS.(jumpCount := Short16(c.Br() * toElse)))
    else if c.gen == 6 then
      bare.(fields := NO_FIELDS.(gen6Jump := Short16(c.Br() * if els.None? then toEndif else toElse + 1)))
    else
      bare.(fields := NO_FIELDS.(jip := Short16(c.Br() * if els.None? then toEndif else toElse + 1),
                                 uip := Short16(c.Br() * toEndif)))
  }

  function ElseInsn(c: Config, cur: State, els: nat): Insn {
    var toEndif := 1 + els;
    var bare := Plain(ELSE, cur);
    if c.AddsToIp() then bare.(op := ADD, fields := NO_FIELDS.(ud := 16 * toEndif))
    else if c.gen < 6 then bare.(fields := NO_FIELDS.(jumpCount := Short16(c.Br() * (toEndif + 1)), popCount := 1))
    else if c.gen == 6 then bare.(fields := NO_FIELDS.(gen6Jump := Short16(c.Br() * toEndif)))
    else bare.(fields := NO_FIELDS.(jip := Short16(c.Br() * toEndif)))
  }

  function EndifInsns(c: Config, cur: State): (r: seq<Insn>)
    ensures |r| == EndifLength(c)
  {
    if c.AddsToIp() then []
    else if c.gen < 6 then [Plain(ENDIF, cur).(fields := NO_FIELDS.(popCount := 1))]
    else if c.gen == 6 then [Plain(ENDIF, cur).(fields := NO_FIELDS.(gen6Jump := 2))]
    else [Plain(ENDIF, cur).(fields := NO_FIELDS.(jip := 2))]
  }

  function DoInsns(c: Config, cur: State): (r: seq<Insn>)
    ensures |r| == DoLength(c)
  {
    if c.PatchesBreaks() then [Plain(DO, cur).(predicated := false)] else []
  }

  function WhileInsn(c: Config, cur: State, body: nat): Insn {
    if c.AddsToIp() then Plain(ADD, cur).(fields := NO_FIELDS.(ud := -16 * body))
    else if c.gen < 6 then Plain(WHILE, cur).(fields := NO_FIELDS.(jumpCount := Short16(-(c.Br() * body))))
    else if c.gen == 6 then Plain(WHILE, cur).(fields := NO_FIELDS.(gen6Jump := Short16(-(c.Br() * body))))
    else Plain(WHILE, cur).(fields := NO_FIELDS.(jip := Short16(-(c.Br() * body))))
  }

  /** BREAK or CONTINUE at offset at, with loop the offset of the WHILE it belongs to, when that
      is settled. */
  function BreakInsn(c: Config, op: Opcode, cur: State, at: nat, loop: Option<nat>, ifDepth: nat): Insn
    requires op == BREAK || op == CONTINUE
  {
    var bare := Plain(op, cur).(fields := NO_FIELDS.(popCount := if c.gen < 6 then ifDepth % 16 else 0));
    if loop.None? then bare
    else if c.gen < 6 then
      bare.(fields := bare.fields.(jumpCount := BreakDistance(c, op, at, loop.value)))
    else
      bare.(fields := bare.fields.(uip := BreakDistance(c, op, at, loop.value)))
  }

  /** To just past the WHILE for a BREAK (to the WHILE itself on gen7), to the WHILE for a CONTINUE. */
  function BreakDistance(c: Config, op: Opcode, at: int, loop: int): int {
    Short16(c.Br() * (loop - at + if op == BREAK && c.gen <= 6 then 1 else 0))
  }

  function Cat2<T>(a: seq<T>, b: seq<T>): (r: seq<T>)
    ensures |r| == |a| + |b|
  {
    a + b
  }

  function Cat3<T>(a: seq<T>, b: seq<T>, c: seq<T>): (r: seq<T>)
    ensures |r| == |a| + |b| + |c|
  {
    a + b + c
  }

  function Cat5<T>(a: seq<T>, b: seq<T>, c: seq<T>, d: seq<T>, e: seq<T>): (r: seq<T>)
    ensures |r| == |a| + |b| + |c| + |d| + |e|
  {
    a + b + c + d + e
  }

  /** The code of s, emitted from offset at on.  loop is the WHILE of the enclosing loop, when
      jumps to it are settled; with patched, loops of s settle the jumps of their own bodies.
      ifDepth counts the IF blocks open in the innermost loop. */
  function Code(c: Config, s: Stmt, cur: State, at: nat, loop: Option<nat>, ifDepth: nat, patched: bool): (r: seq<Insn>)
    ensures |r| == Length(c, s)
    decreases s
  {
    match s
    case Alu(id) => [Plain(ALU, cur).(id := id)]
    case SetPredicated(_) => []
    case SetInverse(_) => []
    case SetConditional(_) => []
    case Seq(a, b) =>
      Cat2(Code(c, a, cur, at, loop, ifDepth, patched),
           Code(c, b, After(c, a, cur), at + Length(c, a), loop, ifDepth, patched))
    case If(thn) =>
      var cur1 := Unpredicated(cur);
      Cat3([IfInsn(c, cur, Length(c, thn), None)],
           Code(c, thn, cur1, at + 1, loop, ifDepth + 1, patched),
           EndifInsns(c, After(c, thn, cur1)))
    case IfElse(thn, els) =>
      var cur1 := Unpredicated(cur);
      var cur2 := After(c, thn, cur1);
      Cat5([IfInsn(c, cur, Length(c, thn), Some(Length(c, els)))],
           Code(c, thn, cur1, at + 1, loop, ifDepth + 1, patched),
           [ElseInsn(c, cur2, Length(c, els))],
           Code(c, els, Used(cur2), at + 1 + Length(c, thn) + 1, loop, ifDepth + 1, patched),
           EndifInsns(c, After(c, els, Used(cur2))))
    case Loop(body) =>
      var first, cur1 := at + DoLength(c), AfterDo(c, cur);
      var n := Length(c, body);
      Cat3(DoInsns(c, cur),
           Code(c, body, cur1, first, if patched then Some(first + n) else None, 0, patched),
           [WhileInsn(c, After(c, body, cur1), n)])
    case Break => [BreakInsn(c, BREAK, cur, at, loop, ifDepth)]
    case Continue => [BreakInsn(c, CONTINUE, cur, at, loop, ifDepth)]
  }

  // The code of each kind of statement.

  lemma CodeSeq(c: Config, a: Stmt, b: Stmt, cur: State, at: nat, loop: Option<nat>, d: nat, patched: bool)
    ensures Code(c, Seq(a, b), cur, at, loop, d, patched) ==
            Cat2(Code(c, a, cur, at, loop, d, patched),
                 Code(c, b, After(c, a, cur), at + Length(c, a), loop, d, patched))
  {
    hide Cat2, Cat3, Cat5, IfInsn, ElseInsn, EndifInsns, DoInsns, WhileInsn, BreakInsn, Plain, After, Used,
         Unpredicated;
  }

  lemma CodeIf(c: Config, thn: Stmt, cur: State, at: nat, loop: Option<nat>, d: nat, patched: bool)
    ensures Length(c, If(thn)) == 1 + Length(c, thn) + EndifLength(c)
    ensures var cur1 := Unpredicated(cur);
            && After(c, If(thn), cur) == AfterEndif(c, After(c, thn, cur1))
            && Code(c, If(thn), cur, at, loop, d, patched) ==
               Cat3([IfInsn(c, cur, Length(c, thn), None)], Code(c, thn, cur1, at + 1, loop, d + 1, patched),
                    EndifInsns(c, After(c, thn, cur1)))
  {
    hide Cat2, Cat3, Cat5, IfInsn, ElseInsn, EndifInsns, DoInsns, WhileInsn, BreakInsn, Plain, Used, Unpredicated;
  }

  lemma CodeIfElse(c: Config, thn: Stmt, els: Stmt, cur: State, at: nat, loop: Option<nat>, d: nat, patched: bool)
    ensures Length(c, IfElse(thn, els)) == 1 + Length(c, thn) + 1 + Length(c, els) + EndifLength(c)
    ensures var cur1 := Unpredicated(cur);
            var cur2 := After(c, thn, cur1);
            && After(c, IfElse(thn, els), cur) == AfterEndif(c, After(c, els, Used(cur2)))
            && Code(c, IfElse(thn, els), cur, at, loop, d, patched) ==
               Cat5([IfInsn(c, cur, Length(c, thn), Some(Length(c, els)))],
                    Code(c, thn, cur1, at + 1, loop, d + 1, patched),
                    [ElseInsn(c, cur2, Length(c, els))],
                    Code(c, els, Used(cur2), at + 1 + Length(c, thn) + 1, loop, d + 1, patched),
                    EndifInsns(c, After(c, els, Used(cur2))))
  {
    hide Cat2, Cat3, Cat5, IfInsn, ElseInsn, EndifInsns, DoInsns, WhileInsn, BreakInsn, Plain, Used, Unpredicated;
  }

  lemma CodeLoop(c: Config, body: Stmt, cur: State, at: nat, loop: Option<nat>, d: nat, patched: bool)
    ensures var first, n, cur1 := at + DoLength(c), Length(c, body), AfterDo(c, cur);
            Code(c, Loop(body), cur, at, loop, d, patched) ==
            Cat3(DoInsns(c, cur), Code(c, body, cur1, first, if patched then Some(first + n) else None, 0, patched),
                 [WhileInsn(c, After(c, body, cur1), n)])
  {
    hide Cat2, Cat3, Cat5, IfInsn, ElseInsn, EndifInsns, DoInsns, WhileInsn, BreakInsn, Plain, After, Used, AfterDo,
         Unpredicated, DoLength;
  }

  lemma LoopShape(c: Config, body: Stmt, cur: State)
    ensures Length(c, Loop(body)) == DoLength(c) + Length(c, body) + 1
    ensures After(c, Loop(body), cur) == Unpredicated(After(c, body, AfterDo(c, cur)))
  {
    hide Used, Unpredicated, AfterDo, DoLength;
  }

  // ---- the instruction at an offset ----

  /** A statement in its surroundings, as in Code. */
  datatype Place = Place(s: Stmt, cur: State, at: nat, loop: Option<nat>, ifDepth: nat)

  /** Where an instruction of a statement comes from: the statement itself, or instruction i of
      one of its parts. */
  datatype Part = Own(insn: Insn) | Inner(place: Place, i: nat)

  function PlaceCode(c: Config, p: Place, patched: bool): seq<Insn> {
    Code(c, p.s, p.cur, p.at, p.loop, p.ifDepth, patched)
  }

  function Locate(c: Config, p: Place, patched: bool, i: nat): (r: Part)
    requires i < Length(c, p.s)
    ensures r.Inner? ==> r.place.s < p.s && r.i < Length(c, r.place.s) && r.place.at + r.i == p.at + i
  {
    var Place(s, cur, at, loop, d) := p;
    match s
    case Alu(id) => Own(Plain(ALU, cur).(id := id))
    case Seq(a, b) =>
      var n := Length(c, a);
      if i < n then Inner(Place(a, cur, at, loop, d), i)
      else Inner(Place(b, After(c, a, cur), at + n, loop, d), i - n)
    case If(thn) =>
      var cur1, n := Unpredicated(cur), Length(c, thn);
      if i == 0 then Own(IfInsn(c, cur, n, None))
      else if i - 1 < n then Inner(Place(thn, cur1, at + 1, loop, d + 1), i - 1)
      else Own(EndifInsns(c, After(c, thn, cur1))[i - 1 - n])
    case IfElse(thn, els) =>
      var cur1, n, m := Unpredicated(cur), Length(c, thn), Length(c, els);
      var cur2 := After(c, thn, cur1);
      if i == 0 then Own(IfInsn(c, cur, n, Some(m)))
      else if i - 1 < n then Inner(Place(thn, cur1, at + 1, loop, d + 1), i - 1)
      else if i - 1 == n then Own(ElseInsn(c, cur2, m))
      else if i - 2 - n < m then Inner(Place(els, Used(cur2), at + 1 + n + 1, loop, d + 1), i - 2 - n)
      else Own(EndifInsns(c, After(c, els, Used(cur2)))[i - 2 - n - m])
    case Loop(body) =>
      var k, n, cur1 := DoLength(c), Length(c, body), AfterDo(c, cur);
      if i < k then Own(DoInsns(c, cur)[i])
      else if i - k < n then Inner(Place(body, cur1, at + k, if patched then Some(at + k + n) else None, 0), i - k)
      else Own(WhileInsn(c, After(c, body, cur1), n))
    case Break => Own(BreakInsn(c, BREAK, cur, at, loop, d))
    case Continue => Own(BreakInsn(c, CONTINUE, cur, at, loop, d))
  }

  /** Instruction i of the code of a statement. */
  function At(c: Config, p: Place, patched: bool, i: nat): Insn
    requires i < Length(c, p.s)
    decreases p.s
  {
    match Locate(c, p, patched, i)
    case Own(insn) => insn
    case Inner(q, j) => At(c, q, patched, j)
  }

  lemma CodeStep(c: Config, p: Place, patched: bool, i: nat)
    requires i < Length(c, p.s)
    ensures var part := Locate(c, p, patched, i);
            PlaceCode(c, p, patched)[i] ==
            if part.Own? then part.insn else PlaceCode(c, part.place, patched)[part.i]
  {
    hide IfInsn, ElseInsn, EndifInsns, DoInsns, WhileInsn, BreakInsn, After, Plain, Code, Cat2, Cat3, Cat5, Used,
         Unpredicated, AfterDo, AfterEndif;
    var Place(s, cur, at, loop, d) := p;
    match s
    case Seq(a, b) =>
      CodeSeq(c, a, b, cur, at, loop, d, patched);
      Cat2At(Code(c, a, cur, at, loop, d, patched),
             Code(c, b, After(c, a, cur), at + Length(c, a), loop, d, patched), i);
    case If(_) => CodeStepIf(c, p, patched, i);
    case IfElse(_, _) => CodeStepIfElse(c, p, patched, i);
    case Loop(_) => CodeStepLoop(c, p, patched, i);
    case _ => CodeLeaf(c, s, cur, at, loop, d, patched);
  }

  lemma CodeStepIf(c: Config, p: Place, patched: bool, i: nat)
    requires p.s.If? && i < Length(c, p.s)
    ensures var part := Locate(c, p, patched, i);
            PlaceCode(c, p, patched)[i] ==
            if part.Own? then part.insn else PlaceCode(c, part.place, patched)[part.i]
  {
    hide IfInsn, EndifInsns, After, Code, Cat3, Unpredicated;
    var Place(s, cur, at, loop, d) := p;
    var cur1 := Unpredicated(cur);
    CodeIf(c, s.thn, cur, at, loop, d, patched);
    Cat3At([IfInsn(c, cur, Length(c, s.thn), None)], Code(c, s.thn, cur1, at + 1, loop, d + 1, patched),
           EndifInsns(c, After(c, s.thn, cur1)), i);
  }

  lemma CodeStepIfElse(c: Config, p: Place, patched: bool, i: nat)
    requires p.s.IfElse? && i < Length(c, p.s)
    ensures var part := Locate(c, p, patched, i);
            PlaceCode(c, p, patched)[i] ==
            if part.Own? then part.insn else PlaceCode(c, part.place, patched)[part.i]
  {
    hide IfInsn, ElseInsn, EndifInsns, After, Code, Cat5, Used, Unpredicated;
    var Place(s, cur, at, loop, d) := p;
    var cur1, n, m := Unpredicated(cur), Length(c, s.thn), Length(c, s.els);
    var cur2 := After(c, s.thn, cur1);
    CodeIfElse(c, s.thn, s.els, cur, at, loop, d, patched);
    Cat5At([IfInsn(c, cur, n, Some(m))], Code(c, s.thn, cur1, at + 1, loop, d + 1, patched), [ElseInsn(c, cur2, m)],
           Code(c, s.els, Used(cur2), at + 1 + n + 1, loop, d + 1, patched),
           EndifInsns(c, After(c, s.els, Used(cur2))), i);
  }

  lemma CodeStepLoop(c: Config, p: Place, patched: bool, i: nat)
    requires p.s.Loop? && i < Length(c, p.s)
    ensures var part := Locate(c, p, patched, i);
            PlaceCode(c, p, patched)[i] ==
            if part.Own? then part.insn else PlaceCode(c, part.place, patched)[part.i]
  {
    hide DoInsns, WhileInsn, After, Code, Cat3, AfterDo, DoLength;
    var Place(s, cur, at, loop, d) := p;
    var first, n, cur1 := at + DoLength(c), Length(c, s.body), AfterDo(c, cur);
    CodeLoop(c, s.body, cur, at, loop, d, patched);
    Cat3At(DoInsns(c, cur), Code(c, s.body, cur1, first, if patched then Some(first + n) else None, 0, patched),
           [WhileInsn(c, After(c, s.body, cur1), n)], i);
  }

  lemma Cat2At<T>(a: seq<T>, b: seq<T>, i: nat)
    requires i < |a| + |b|
    ensures Cat2(a, b)[i] == if i < |a| then a[i] else b[i - |a|]
  {
  }

  lemma Cat3At<T>(a: seq<T>, b: seq<T>, c: seq<T>, i: nat)
    requires i < |a| + |b| + |c|
    ensures Cat3(a, b, c)[i] ==
            if i < |a| then a[i] else if i - |a| < |b| then b[i - |a|] else c[i - |a| - |b|]
  {
  }

  lemma Cat5At<T>(a: seq<T>, b: seq<T>, c: seq<T>, d: seq<T>, e: seq<T>, i: nat)
    requires i < |a| + |b| + |c| + |d| + |e|
    ensures Cat5(a, b, c, d, e)[i] ==
            if i < |a| then a[i]
            else if i - |a| < |b| then b[i - |a|]
            else if i - |a| - |b| < |c| then c[i - |a| - |b|]
            else if i - |a| - |b| - |c| < |d| then d[i - |a| - |b| - |c|]
            else e[i - |a| - |b| - |c| - |d|]
  {
  }

  lemma CodeLeaf(c: Config, s: Stmt, cur: State, at: nat, loop: Option<nat>, d: nat, patched: bool)
    requires s.Alu? || s.Break? || s.Continue?
    ensures Locate(c, Place(s, cur, at, loop, d), patched, 0).Own?
    ensures Code(c, s, cur, at, loop, d, patched) == [Locate(c, Place(s, cur, at, loop, d), patched, 0).insn]
  {
  }

  lemma {:induction false} CodeAt(c: Config, p: Place, patched: bool, i: nat)
    requires i < Length(c, p.s)
    ensures PlaceCode(c, p, patched)[i] == At(c, p, patched, i)
    decreases p.s
  {
    hide PlaceCode, Locate, Length;
    CodeStep(c, p, patched, i);
    match Locate(c, p, patched, i)
    case Own(_) =>
    case Inner(q, j) => CodeAt(c, q, patched, j);
  }

  /** The loop around a part of a statement is found in the part, or is the statement. */
  lemma LoopEndStep(c: Config, p: Place, patched: bool, i: nat)
    requires i < Length(c, p.s)
    ensures var part := Locate(c, p, patched, i);
            LoopEnd(c, p.s, p.at, p.at + i) ==
            if part.Own? then None
            else if LoopEnd(c, part.place.s, part.place.at, p.at + i).Some? then
              LoopEnd(c, part.place.s, part.place.at, p.at + i)
            else if p.s.Loop? then Some(p.at + Length(c, p.s) - 1) else None
  {
    hide IfInsn, ElseInsn, EndifInsns, DoInsns, WhileInsn, BreakInsn, After, Plain, Used, Unpredicated, AfterDo;
  }

  /** The WHILE of the innermost loop around offset i, in the code of s. */
  function LoopEnd(c: Config, s: Stmt, at: nat, i: int): Option<nat> {
    match s
    case Seq(a, b) =>
      if i < at + Length(c, a) then LoopEnd(c, a, at, i) else LoopEnd(c, b, at + Length(c, a), i)
    case If(thn) => if at < i <= at + Length(c, thn) then LoopEnd(c, thn, at + 1, i) else None
    case IfElse(thn, els) =>
      var n := Length(c, thn);
      if at < i <= at + n then LoopEnd(c, thn, at + 1, i)
      else if at + n + 1 < i < at + n + 2 + Length(c, els) then LoopEnd(c, els, at + 1 + n + 1, i)
      else None
    case Loop(body) =>
      var first := at + DoLength(c);
      if first <= i < first + Length(c, body) then
        var inner := LoopEnd(c, body, first, i);
        if inner.Some? then inner else Some(first + Length(c, body))
      else None
    case _ => None
  }
}
