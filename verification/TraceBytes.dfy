/** What a trace is, byte by byte: the order of its parts, and every field of every record at its place,
    with the lowest byte first. */
module TraceBytes {
  import opened Digits
  import opened TraceFormat
  import opened Trace

  /** The bytes of a 32-bit field, and of a 64-bit field. */
  function Four(v: u32): (r: seq<byte>)
    ensures |r| == 4
  {
    [v % 0x100, v / 0x100 % 0x100, v / 0x1_0000 % 0x100, v / 0x100_0000]
  }

  function Eight(v: u64): seq<byte> {
    Four(v % 0x1_0000_0000) + Four(v / 0x1_0000_0000)
  }

  lemma PutStep(v: nat, n: nat)
    requires n > 0
    ensures Put(v, n) == [v % 0x100] + Put(v / 0x100, n - 1)
  {
  }

  lemma FourDigits(b0: nat, b1: nat, b2: nat, b3: nat, q: nat)
    requires b0 < 0x100 && b1 < 0x100 && b2 < 0x100 && b3 < 0x100
    ensures var v := b0 + 0x100 * b1 + 0x1_0000 * b2 + 0x100_0000 * b3 + 0x1_0000_0000 * q;
            && v % 0x100 == b0 && v / 0x100 % 0x100 == b1 && v / 0x100 / 0x100 % 0x100 == b2
            && v / 0x100 / 0x100 / 0x100 % 0x100 == b3 && v / 0x100 / 0x100 / 0x100 / 0x100 == q
            && v / 0x1_0000_0000 == q
  {
    var v3 := b3 + 0x100 * q;
    var v2 := b2 + 0x100 * v3;
    var v1 := b1 + 0x100 * v2;
    DivUnique(b0 + 0x100 * v1, 0x100, v1, b0);
    DivUnique(v1, 0x100, v2, b1);
    DivUnique(v2, 0x100, v3, b2);
    DivUnique(v3, 0x100, q, b3);
    DivUnique(b0 + 0x100 * v1, 0x1_0000_0000, q, b0 + 0x100 * b1 + 0x1_0000 * b2 + 0x100_0000 * b3);
  }

  /** The bytes of a number below 2^32 that stands at the low end of a longer one. */
  lemma LowBytes(x: u32, q: nat)
    ensures var v := x + 0x1_0000_0000 * q;
            && Four(x) == [v % 0x100, v / 0x100 % 0x100, v / 0x100 / 0x100 % 0x100, v / 0x100 / 0x100 / 0x100 % 0x100]
            && v / 0x100 / 0x100 / 0x100 / 0x100 == q
  {
    DivTwice(x, 0x100, 0x100);
    DivTwice(x, 0x1_0000, 0x100);
    var b0, b1, b2, b3 := x % 0x100, x / 0x100 % 0x100, x / 0x1_0000 % 0x100, x / 0x100_0000;
    assert x == b0 + 0x100 * b1 + 0x1_0000 * b2 + 0x100_0000 * b3;
    FourDigits(b0, b1, b2, b3, q);
  }

  lemma PutFour(x: u32, q: nat, n: nat)
    requires n >= 4
    ensures Put(x + 0x1_0000_0000 * q, n) == Four(x) + Put(q, n - 4)
  {
    var v := x + 0x1_0000_0000 * q;
    LowBytes(x, q);
    PutStep(v, n);
    PutStep(v / 0x100, n - 1);
    PutStep(v / 0x100 / 0x100, n - 2);
    PutStep(v / 0x100 / 0x100 / 0x100, n - 3);
  }

  lemma PutFields(v: u32, w: u64)
    ensures Put(v, 4) == Four(v) && Put(w, 8) == Eight(w)
  {
    hide Four, Put;
    var x, q: u32 := w % 0x1_0000_0000, w / 0x1_0000_0000;
    PutFour(v, 0, 4);
    PutFour(x, q, 8);
    PutFour(q, 0, 4);
    PutNothing(0);
  }

  lemma PutNothing(v: nat)
    ensures Put(v, 0) == []
  {
  }

  // ---- records ----

  lemma {:induction false} PutAllAppend(a: seq<nat>, n: seq<nat>, b: seq<nat>, m: seq<nat>)
    requires |a| == |n| && |b| == |m|
    ensures PutAll(a + b, n + m) == PutAll(a, n) + PutAll(b, m)
  {
    hide Put;
    if a == [] {
      assert a + b == b && n + m == m;
    } else {
      assert (a + b)[1..] == a[1..] + b && (n + m)[1..] == n[1..] + m;
      PutAllAppend(a[1..], n[1..], b, m);
    }
  }

  lemma OneField(v: nat, n: nat)
    ensures PutAll([v], [n]) == Put(v, n)
  {
    hide Put;
    assert [v][1..] == [] && [n][1..] == [];
  }

  lemma ShortField(v: u32)
    ensures PutAll([v], [4]) == Four(v)
  {
    OneField(v, 4);
    PutFields(v, 0);
  }

  lemma LongField(v: u64)
    ensures PutAll([v], [8]) == Eight(v)
  {
    OneField(v, 8);
    PutFields(0, v);
  }

  lemma ShortFields(v: u32, w: u32)
    ensures PutAll([v, w], [4, 4]) == Four(v) + Four(w)
  {
    hide PutAll, Four;
    ShortField(v);
    ShortField(w);
    PutAllAppend([v], [4], [w], [4]);
    assert [v] + [w] == [v, w] && [4] + [4] == [4, 4];
  }

  lemma LongFields(v: u64, w: u64)
    ensures PutAll([v, w], [8, 8]) == Eight(v) + Eight(w)
  {
    hide PutAll, Eight;
    LongField(v);
    LongField(w);
    PutAllAppend([v], [8], [w], [8]);
    assert [v] + [w] == [v, w] && [8] + [8] == [8, 8];
  }

  lemma MixedFields(v: u32, w: u64)
    ensures PutAll([v, w], [4, 8]) == Four(v) + Eight(w)
  {
    hide PutAll, Four, Eight;
    ShortField(v);
    LongField(w);
    PutAllAppend([v], [4], [w], [8]);
    assert [v] + [w] == [v, w] && [4] + [8] == [4, 8];
  }

  /** A trace starts with its magic and its version. */
  lemma TraceStarts(es: seq<Event>)
    requires AllCountable(es)
    ensures WriteTrace(es) == [0xef, 0xbe, 0xad, 0xde, 1, 0, 0, 0] + WriteEvents(es)
  {
    hide PutAll, WriteEvents;
    ShortFields(0xdead_beef, 1);
  }

  /** An event is its command and its fields, and an execution the records of its objects behind them. */
  lemma EventStarts(e: Event)
    requires Countable(e)
    ensures e.AddBo? ==> WriteEvent(e) == [0] + Four(e.handle) + Eight(e.size)
    ensures e.DelBo? ==> WriteEvent(e) == [1] + Four(e.handle)
    ensures e.AddCtx? ==> WriteEvent(e) == [2] + Four(e.handle)
    ensures e.DelCtx? ==> WriteEvent(e) == [3] + Four(e.handle)
    ensures e.Exec? ==>
              WriteEvent(e) == [4] + Four(|e.objects|) + Eight(e.flags) + Four(e.context) + WriteObjects(e.objects)
    ensures e.Wait? ==> WriteEvent(e) == [5] + Four(e.handle)
  {
    hide PutAll, WriteObjects, Four, Eight;
    match e
    case AddBo(handle, size) => MixedFields(handle, size);
    case Exec(flags, context, objects) =>
      MixedFields(|objects|, flags);
      ShortField(context);
      PutAllAppend([|objects|, flags], [4, 8], [context], [4]);
      assert [|objects|, flags] + [context] == [|objects|, flags, context] && [4, 8] + [4] == EXEC_RECORD;
    case _ => ShortField(e.handle);
  }

  lemma Joined<T>(a: T, b: T, c: T, d: T, e: T, f: T, g: T)
    ensures [a, b] + [c, d] + [e, f] == [a, b, c, d, e, f]
    ensures [a, b] + [c, d] + [e, f] + [g] == [a, b, c, d, e, f, g]
  {
  }

  function ObjectBytes(o: Object): seq<byte>
    requires |o.relocs| < 0x1_0000_0000
  {
    Four(o.handle) + Four(|o.relocs|) + Eight(o.alignment) + Eight(o.offset) + Eight(o.flags) + Eight(o.rsvd1)
    + Eight(o.rsvd2)
  }

  /** The fields of an object, and the records of its relocations behind them. */
  lemma ObjectStarts(o: Object)
    requires |o.relocs| < 0x1_0000_0000
    ensures WriteObject(o) == ObjectBytes(o) + WriteRelocs(o.relocs)
  {
    hide PutAll, WriteRelocs, ObjectBytes, ObjectFields;
    ObjectRecord(o);
  }

  lemma ObjectRecord(o: Object)
    requires |o.relocs| < 0x1_0000_0000
    ensures PutAll(ObjectFields(o), OBJECT_RECORD) == ObjectBytes(o)
  {
    hide PutAll, Four, Eight;
    var a, b, c, d := [o.handle, |o.relocs|], [o.alignment, o.offset], [o.flags, o.rsvd1], [o.rsvd2];
    ShortFields(o.handle, |o.relocs|);
    LongFields(o.alignment, o.offset);
    LongFields(o.flags, o.rsvd1);
    LongField(o.rsvd2);
    PutAllAppend(a, [4, 4], b, [8, 8]);
    PutAllAppend(a + b, [4, 4] + [8, 8], c, [8, 8]);
    PutAllAppend(a + b + c, [4, 4] + [8, 8] + [8, 8], d, [8]);
    Joined<nat>(o.handle, |o.relocs|, o.alignment, o.offset, o.flags, o.rsvd1, o.rsvd2);
    Joined(4, 4, 8, 8, 8, 8, 8);
  }

  function RelocBytes(r: Reloc): seq<byte> {
    Four(r.target) + Four(r.delta) + Eight(r.offset) + Eight(r.presumed) + Four(r.read) + Four(r.write)
  }

  lemma RelocRecord(r: Reloc)
    ensures PutAll(RelocFields(r), RELOC_RECORD) == RelocBytes(r)
  {
    hide PutAll, Four, Eight;
    var a, b, c := [r.target, r.delta], [r.offset, r.presumed], [r.read, r.write];
    ShortFields(r.target, r.delta);
    LongFields(r.offset, r.presumed);
    ShortFields(r.read, r.write);
    PutAllAppend(a, [4, 4], b, [8, 8]);
    PutAllAppend(a + b, [4, 4] + [8, 8], c, [4, 4]);
    Joined<nat>(r.target, r.delta, r.offset, r.presumed, r.read, r.write, 0);
    Joined(4, 4, 8, 8, 4, 4, 0);
  }

  // ---- where the parts are ----

  lemma RelocLength(r: Reloc)
    ensures |RelocBytes(r)| == 32
  {
  }

  lemma {:induction false} RelocsLength(rs: seq<Reloc>)
    ensures |WriteRelocs(rs)| == 32 * |rs|
  {
    hide PutAll, RelocBytes;
    if rs != [] {
      RelocRecord(rs[0]);
      RelocLength(rs[0]);
      RelocsLength(rs[1..]);
    }
  }

  /** Relocation i is the i-th record of 32 bytes. */
  lemma {:induction false} RelocPlace(rs: seq<Reloc>, i: nat)
    requires i < |rs|
    ensures 32 * i + 32 <= |WriteRelocs(rs)| && WriteRelocs(rs)[32 * i..32 * i + 32] == RelocBytes(rs[i])
  {
    hide RelocBytes, PutAll;
    RelocRecord(rs[0]);
    RelocLength(rs[0]);
    RelocsLength(rs);
    if i > 0 {
      RelocPlace(rs[1..], i - 1);
      FurtherOn(RelocBytes(rs[0]), WriteRelocs(rs[1..]), 32 * (i - 1), 32 * i);
    }
  }

  lemma FurtherOn<T>(a: seq<T>, b: seq<T>, from: nat, to: nat)
    requires from <= to <= |b|
    ensures (a + b)[|a| + from..|a| + to] == b[from..to]
  {
  }

  /** Object i is behind the objects in front of it. */
  lemma {:induction false} ObjectPlace(os: seq<Object>, i: nat)
    requires i < |os| && forall j :: 0 <= j < |os| ==> |os[j].relocs| < 0x1_0000_0000
    ensures WriteObjects(os) == WriteObjects(os[..i]) + WriteObject(os[i]) + WriteObjects(os[i + 1..])
  {
    hide WriteObject;
    if i == 0 {
      assert os[..0] == [] && WriteObjects(os[..0]) == [];
    } else {
      ObjectPlace(os[1..], i - 1);
      assert os[..i][1..] == os[1..][..i - 1] && os[1..][i..] == os[i + 1..];
    }
  }

  /** Event i is behind the events in front of it. */
  lemma {:induction false} EventPlace(es: seq<Event>, i: nat)
    requires i < |es| && AllCountable(es)
    ensures WriteEvents(es) == WriteEvents(es[..i]) + WriteEvent(es[i]) + WriteEvents(es[i + 1..])
  {
    hide WriteEvent, Countable;
    if i == 0 {
      assert es[..0] == [] && WriteEvents(es[..0]) == [];
    } else {
      EventPlace(es[1..], i - 1);
      assert es[..i][1..] == es[1..][..i - 1] && es[1..][i..] == es[i + 1..];
    }
  }

  // ---- streams that are no traces ----

  lemma FourDiffer(v: u32, w: u32)
    requires Four(v) == Four(w)
    ensures v == w
  {
    FourSum(v);
    FourSum(w);
    assert Four(v)[0] == Four(w)[0] && Four(v)[1] == Four(w)[1] && Four(v)[2] == Four(w)[2] && Four(v)[3] == Four(w)[3];
  }

  lemma FourSum(v: u32)
    ensures v == v % 0x100 + 0x100 * (v / 0x100 % 0x100) + 0x1_0000 * (v / 0x1_0000 % 0x100)
                 + 0x100_0000 * (v / 0x100_0000)
  {
    DivTwice(v, 0x100, 0x100);
    DivTwice(v, 0x1_0000, 0x100);
  }

  lemma HeaderOf(s: seq<byte>)
    requires |s| >= 8
    ensures var r := TakeRecord(s, HEADER);
            && r.Parsed? && |r.value| == 2 && r.rest == s[8..]
            && (r.value[0] == MAGIC <==> s[..4] == [0xef, 0xbe, 0xad, 0xde])
            && (r.value[1] == VERSION <==> s[4..8] == [1, 0, 0, 0])
  {
    hide PutAll, GetAll, Four;
    assert Total(HEADER) == 8;
    PutTake(s, HEADER);
    Ranges();
    var v := TakeRecord(s, HEADER).value;
    assert v[0] < Range(HEADER[0]) && v[1] < Range(HEADER[1]);
    ShortFields(v[0], v[1]);
    assert v == [v[0], v[1]];
    assert s[..4] == Four(v[0]) && s[4..8] == Four(v[1]);
    KnownWords();
    if s[..4] == Four(MAGIC) {
      FourDiffer(v[0], MAGIC);
    }
    if s[4..8] == Four(VERSION) {
      FourDiffer(v[1], VERSION);
    }
  }

  lemma KnownWords()
    ensures Four(MAGIC) == [0xef, 0xbe, 0xad, 0xde] && Four(VERSION) == [1, 0, 0, 0]
  {
    assert Four(0xdead_beef) == [0xef, 0xbe, 0xad, 0xde];
    assert Four(1) == [1, 0, 0, 0];
  }

  /** What is found first: a stream that is too short, a wrong magic, a wrong version, no event at all, and a
      command that there is not. */
  lemma FirstFault(s: seq<byte>)
    ensures |s| < 8 ==> ReadTrace(s) == Rejected(Truncated)
    ensures |s| >= 8 && s[..4] != [0xef, 0xbe, 0xad, 0xde] ==> ReadTrace(s) == Rejected(BadMagic)
    ensures |s| >= 8 && s[..4] == [0xef, 0xbe, 0xad, 0xde] && s[4..8] != [1, 0, 0, 0] ==>
              ReadTrace(s) == Rejected(BadVersion)
    ensures s == [0xef, 0xbe, 0xad, 0xde, 1, 0, 0, 0] ==> ReadTrace(s) == Rejected(Truncated)
    ensures |s| > 8 && s[..4] == [0xef, 0xbe, 0xad, 0xde] && s[4..8] == [1, 0, 0, 0] && s[8] > 5 ==>
              ReadTrace(s) == Rejected(UnknownCommand(s[8]))
  {
    hide TakeAddBo, TakeExec, TakeHandle, GetAll;
    if |s| < 8 {
      assert Total(HEADER) == 8;
    } else {
      HeaderOf(s);
    }
  }
}
