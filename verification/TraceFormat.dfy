/** The trace of buffer, context, execution and wait events: packed little-endian records, and what
    the replayer makes of a stream of bytes. */
module TraceFormat {

  type byte = x: int | 0 <= x < 0x100
  type u32 = x: int | 0 <= x < 0x1_0000_0000
  type u64 = x: int | 0 <= x < 0x1_0000_0000_0000_0000

  const ADD_BO: byte := 0
  const DEL_BO: byte := 1
  const ADD_CTX: byte := 2
  const DEL_CTX: byte := 3
  const EXEC: byte := 4
  const WAIT: byte := 5

  const MAGIC := 0xdead_beef
  const VERSION := 1

  // The field widths of the records, in bytes.
  const HEADER := [4, 4]
  const ADD_BO_RECORD := [4, 8]
  const HANDLE_RECORD := [4]
  const EXEC_RECORD := [4, 8, 4]
  const OBJECT_RECORD := [4, 4, 8, 8, 8, 8, 8]
  const RELOC_RECORD := [4, 4, 8, 8, 4, 4]

  datatype Reloc = Reloc(target: u32, delta: u32, offset: u64, presumed: u64, read: u32, write: u32)

  datatype Object = Object(handle: u32, alignment: u64, offset: u64, flags: u64, rsvd1: u64, rsvd2: u64,
                           relocs: seq<Reloc>)

  datatype Event =
    | AddBo(handle: u32, size: u64)
    | DelBo(handle: u32)
    | AddCtx(handle: u32)
    | DelCtx(handle: u32)
    | Exec(flags: u64, context: u32, objects: seq<Object>)
    | Wait(handle: u32)

  /** The counts fit their 32-bit fields. */
  predicate Countable(e: Event) {
    e.Exec? ==>
      |e.objects| < 0x1_0000_0000 && forall i :: 0 <= i < |e.objects| ==> |e.objects[i].relocs| < 0x1_0000_0000
  }

  // ---- numbers ----

  function Put(v: nat, n: nat): (r: seq<byte>)
    ensures |r| == n
  {
    if n == 0 then [] else [v % 0x100] + Put(v / 0x100, n - 1)
  }

  function Get(s: seq<byte>): nat {
    if s == [] then 0 else s[0] + 0x100 * Get(s[1..])
  }

  function Range(n: nat): nat {
    if n == 0 then 1 else 0x100 * Range(n - 1)
  }

  lemma Ranges()
    ensures Range(4) == 0x1_0000_0000 && Range(8) == 0x1_0000_0000_0000_0000
  {
    assert Range(4) == 0x100 * (0x100 * (0x100 * (0x100 * Range(0))));
    assert Range(8) == 0x100 * (0x100 * (0x100 * (0x100 * Range(4))));
  }

  lemma {:induction false} GetPut(v: nat, n: nat)
    requires v < Range(n)
    ensures Get(Put(v, n)) == v
  {
    if n != 0 {
      GetPut(v / 0x100, n - 1);
    }
  }

  lemma {:induction false} PutGet(s: seq<byte>)
    ensures Get(s) < Range(|s|) && Put(Get(s), |s|) == s
  {
    if s != [] {
      PutGet(s[1..]);
    }
  }

  // ---- records ----

  function Total(widths: seq<nat>): nat {
    if widths == [] then 0 else widths[0] + Total(widths[1..])
  }

  function PutAll(vals: seq<nat>, widths: seq<nat>): (r: seq<byte>)
    requires |vals| == |widths|
    ensures |r| == Total(widths)
  {
    if vals == [] then [] else Put(vals[0], widths[0]) + PutAll(vals[1..], widths[1..])
  }

  function GetAll(s: seq<byte>, widths: seq<nat>): (vals: seq<nat>)
    requires |s| == Total(widths)
    ensures |vals| == |widths|
  {
    if widths == [] then [] else [Get(s[..widths[0]])] + GetAll(s[widths[0]..], widths[1..])
  }

  predicate InRange(vals: seq<nat>, widths: seq<nat>) {
    |vals| == |widths| && forall i :: 0 <= i < |vals| ==> vals[i] < Range(widths[i])
  }

  lemma {:induction false} GetPutAll(vals: seq<nat>, widths: seq<nat>)
    requires InRange(vals, widths)
    ensures GetAll(PutAll(vals, widths), widths) == vals
  {
    hide Get, Put;
    if vals != [] {
      GetPut(vals[0], widths[0]);
      GetPutAll(vals[1..], widths[1..]);
      var s := PutAll(vals, widths);
      assert s[..widths[0]] == Put(vals[0], widths[0]) && s[widths[0]..] == PutAll(vals[1..], widths[1..]);
    }
  }

  lemma {:induction false} PutGetAll(s: seq<byte>, widths: seq<nat>)
    requires |s| == Total(widths)
    ensures InRange(GetAll(s, widths), widths)
    ensures PutAll(GetAll(s, widths), widths) == s
  {
    hide Get, Put, Range;
    if widths == [] {
      assert s == [];
    } else {
      var n, vals := widths[0], GetAll(s, widths);
      PutGet(s[..n]);
      PutGetAll(s[n..], widths[1..]);
      assert vals[0] == Get(s[..n]) && vals[1..] == GetAll(s[n..], widths[1..]);
      assert s == s[..n] + s[n..];
      InRangeCons(vals, widths);
    }
  }

  lemma InRangeCons(vals: seq<nat>, widths: seq<nat>)
    requires |vals| == |widths| > 0 && vals[0] < Range(widths[0]) && InRange(vals[1..], widths[1..])
    ensures InRange(vals, widths)
  {
    hide Range;
    forall i | 0 <= i < |vals|
      ensures vals[i] < Range(widths[i])
    {
      assert i > 0 ==> vals[i] == vals[1..][i - 1] && widths[i] == widths[1..][i - 1];
    }
  }
}
