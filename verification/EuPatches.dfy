/** What closing blocks and loops changes in instructions that have been emitted. */
module EuPatches {
  import opened Options
  import opened EuIr

  /** The IF of a block, patched: toElse and toEndif are the offsets from it to its ELSE, if it
      has one, and to its ENDIF, or to where the ENDIF would be. */
  function PatchedIf(c: Config, insn: Insn, toElse: Option<nat>, toEndif: nat): Insn {
    if c.AddsToIp() then
      insn.(op := ADD, inverse := true,
            fields := insn.fields.(ud := match toElse case None => 16 * toEndif case Some(n) => 16 * (n + 1)))
    else if c.gen < 6 then
      match toElse
      case None =>
        insn.(op := IFF, fields := insn.fields.(jumpCount := Short16(c.Br() * (toEndif + 1)), popCount := 0))
      case Some(n) => insn.(fields := insn.fields.(jumpCount := Short16(c.Br() * n), popCount := 0))
    else if c.gen == 6 then
      var target := match toElse case None => toEndif case Some(n) => n + 1;
      insn.(fields := insn.fields.(gen6Jump := Short16(c.Br() * target)))
    else
      var target := match toElse case None => toEndif case Some(n) => n + 1;
      insn.(fields := insn.fields.(uip := Short16(c.Br() * toEndif), jip := Short16(c.Br() * target)))
  }

  function PatchedElse(c: Config, insn: Insn, toEndif: nat): Insn {
    if c.AddsToIp() then insn.(op := ADD, fields := insn.fields.(ud := 16 * toEndif))
    else if c.gen < 6 then
      insn.(fields := insn.fields.(jumpCount := Short16(c.Br() * (toEndif + 1)), popCount := 1))
    else if c.gen == 6 then insn.(fields := insn.fields.(gen6Jump := Short16(c.Br() * toEndif)))
    else insn.(fields := insn.fields.(jip := Short16(c.Br() * toEndif)))
  }

  /** A BREAK or CONTINUE at offset at is given its distance to the WHILE at offset end, unless
      it has a distance already. */
  function PatchedBreak(c: Config, insn: Insn, at: int, end: int): Insn {
    if insn.fields.jumpCount != 0 then insn
    else if insn.op == BREAK then
      insn.(fields := insn.fields.(jumpCount := Short16(c.Br() * (end - at + 1))))
    else if insn.op == CONTINUE then
      insn.(fields := insn.fields.(jumpCount := Short16(c.Br() * (end - at))))
    else insn
  }

  /** The instructions behind the DO, patched. */
  function PatchedLoop(c: Config, code: seq<Insn>, do: int, end: int): (r: seq<Insn>)
    ensures |r| == |code|
  {
    seq(|code|, i requires 0 <= i < |code| => if do < i then PatchedBreak(c, code[i], i, end) else code[i])
  }
}
