/** Why the pop count of a BREAK or CONTINUE is right at every moment of an emission: the IF depths of
    the open loops always add up to the IFs on the IF stack.  The calls of EuEmit keep it so. */
module EuStacks {
  import opened Options
  import opened EuIr
  import opened EuPatches

  function Sum(s: seq<nat>): nat {
    if s == [] then 0 else Sum(s[..|s| - 1]) + s[|s| - 1]
  }

  predicate InCode(code: seq<Insn>, ifs: seq<nat>) {
    && (forall i :: 0 <= i < |ifs| ==> ifs[i] < |code| && (code[ifs[i]].op == IF || code[ifs[i]].op == ELSE))
    && (forall i, j :: 0 <= i < j < |ifs| ==> ifs[i] < ifs[j])
  }

  /** The IFs among the open blocks' instructions. */
  function IfCount(code: seq<Insn>, ifs: seq<nat>): nat
    requires InCode(code, ifs)
  {
    if ifs == [] then 0
    else IfCount(code, ifs[..|ifs| - 1]) + if code[ifs[|ifs| - 1]].op == IF then 1 else 0
  }

  ghost predicate Balanced(code: seq<Insn>, ifs: seq<nat>, depths: seq<nat>) {
    InCode(code, ifs) && depths != [] && Sum(depths) == IfCount(code, ifs)
  }

  lemma {:induction false} SumUpdate(s: seq<nat>, k: nat, v: nat)
    requires k < |s|
    ensures Sum(s[k := v]) == Sum(s) - s[k] + v
  {
    var n := |s| - 1;
    if k == n {
      assert s[k := v][..n] == s[..n];
    } else {
      assert s[k := v][..n] == s[..n][k := v];
      SumUpdate(s[..n], k, v);
    }
  }

  lemma {:induction false} IfCountSame(code: seq<Insn>, code': seq<Insn>, ifs: seq<nat>)
    requires InCode(code, ifs) && forall i :: 0 <= i < |ifs| ==> ifs[i] < |code'| && code'[ifs[i]].op == code[ifs[i]].op
    ensures InCode(code', ifs) && IfCount(code', ifs) == IfCount(code, ifs)
  {
    if ifs != [] {
      IfCountSame(code, code', ifs[..|ifs| - 1]);
    }
  }

  lemma IfCountPush(code: seq<Insn>, ifs: seq<nat>, insn: Insn)
    requires InCode(code, ifs) && (insn.op == IF || insn.op == ELSE)
    ensures InCode(code + [insn], ifs + [|code|])
    ensures IfCount(code + [insn], ifs + [|code|]) == IfCount(code, ifs) + if insn.op == IF then 1 else 0
  {
    assert (ifs + [|code|])[..|ifs|] == ifs;
    IfCountSame(code, code + [insn], ifs);
  }

  /** brw_IF */
  lemma IfKeepsBalance(code: seq<Insn>, ifs: seq<nat>, depths: seq<nat>, insn: Insn)
    requires Balanced(code, ifs, depths) && insn.op == IF
    ensures Balanced(code + [insn], ifs + [|code|], depths[|depths| - 1 := depths[|depths| - 1] + 1])
  {
    hide IfCount;
    IfCountPush(code, ifs, insn);
    SumUpdate(depths, |depths| - 1, depths[|depths| - 1] + 1);
  }

  /** brw_ELSE */
  lemma ElseKeepsBalance(code: seq<Insn>, ifs: seq<nat>, depths: seq<nat>, insn: Insn)
    requires Balanced(code, ifs, depths) && insn.op == ELSE
    ensures Balanced(code + [insn], ifs + [|code|], depths)
  {
    hide IfCount;
    IfCountPush(code, ifs, insn);
  }

  /** Taking the innermost block off, with its IF or with its IF and its ELSE: n entries, one of them an
      IF.  What is patched in the code is behind the entries that stay. */
  lemma EndifKeepsBalance(code: seq<Insn>, ifs: seq<nat>, depths: seq<nat>, n: nat, code': seq<Insn>)
    requires Balanced(code, ifs, depths) && 0 < depths[|depths| - 1]
    requires 1 <= n <= 2 && n <= |ifs| && |code| <= |code'|
    requires code[ifs[|ifs| - n]].op == IF && (n == 2 ==> code[ifs[|ifs| - 1]].op == ELSE)
    requires forall i :: 0 <= i < ifs[|ifs| - n] ==> code'[i] == code[i]
    ensures Balanced(code', ifs[..|ifs| - n], depths[|depths| - 1 := depths[|depths| - 1] - 1])
  {
    var rest, k := ifs[..|ifs| - n], |depths| - 1;
    if n == 2 {
      var mid := ifs[..|ifs| - 1];
      assert mid[..|mid| - 1] == rest && mid[|mid| - 1] == ifs[|ifs| - 2];
      assert IfCount(code, mid) == IfCount(code, rest) + 1;
    }
    IfCountSame(code, code', rest);
    SumUpdate(depths, k, depths[k] - 1);
  }

  /** brw_ENDIF, by its contract: what it patches is at the entries it pops. */
  lemma BrwEndifKeepsBalance(c: Config, code: seq<Insn>, ifs: seq<nat>, depths: seq<nat>, tail: seq<Insn>)
    requires Balanced(code, ifs, depths) && 0 < depths[|depths| - 1] && ifs != []
    requires code[ifs[|ifs| - 1]].op == ELSE ==> 2 <= |ifs| && code[ifs[|ifs| - 2]].op == IF
    ensures var top, n, depths' := ifs[|ifs| - 1], |code|, depths[|depths| - 1 := depths[|depths| - 1] - 1];
            if code[top].op == IF then
              Balanced(code[top := PatchedIf(c, code[top], None, n - top)] + tail, ifs[..|ifs| - 1], depths')
            else
              var at := ifs[|ifs| - 2];
              Balanced(code[at := PatchedIf(c, code[at], Some(top - at), n - at)]
                           [top := PatchedElse(c, code[top], n - top)] + tail, ifs[..|ifs| - 2], depths')
  {
    hide Sum, IfCount, PatchedIf, PatchedElse;
    var top, n := ifs[|ifs| - 1], |code|;
    if code[top].op == IF {
      EndifKeepsBalance(code, ifs, depths, 1, code[top := PatchedIf(c, code[top], None, n - top)] + tail);
    } else {
      var at := ifs[|ifs| - 2];
      EndifKeepsBalance(code, ifs, depths, 2, code[at := PatchedIf(c, code[at], Some(top - at), n - at)]
                                                  [top := PatchedElse(c, code[top], n - top)] + tail);
    }
  }

  /** brw_DO, and every call that only appends. */
  lemma AppendKeepsBalance(code: seq<Insn>, ifs: seq<nat>, depths: seq<nat>, more: seq<Insn>)
    requires Balanced(code, ifs, depths)
    ensures Balanced(code + more, ifs, depths) && Balanced(code + more, ifs, depths + [0])
  {
    IfCountSame(code, code + more, ifs);
    assert (depths + [0])[..|depths|] == depths;
  }

  /** brw_WHILE, with all blocks of the loop closed: patching changes no opcode. */
  lemma WhileKeepsBalance(c: Config, code: seq<Insn>, ifs: seq<nat>, depths: seq<nat>, do: int, insn: Insn)
    requires Balanced(code, ifs, depths) && 2 <= |depths| && depths[|depths| - 1] == 0
    ensures Balanced(PatchedLoop(c, code, do, |code|) + [insn], ifs, depths[..|depths| - 1])
    ensures Balanced(code + [insn], ifs, depths[..|depths| - 1])
  {
    IfCountSame(code, PatchedLoop(c, code, do, |code|) + [insn], ifs);
    IfCountSame(code, code + [insn], ifs);
  }
}
