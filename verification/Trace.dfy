/** Writing a trace and replaying it. */
module Trace {
  import opened TraceFormat

  datatype Error = BadMagic | BadVersion | UnknownCommand(cmd: byte) | Truncated

  /** A value read off the front of a stream, and what is left of the stream.  Reading past the end,
      which the replayer does not notice, is an error here. */
  datatype Parsed<+T> = Parsed(value: T, rest: seq<byte>) | Failed(error: Error)

  datatype Replay = Replayed(events: seq<Event>) | Rejected(error: Error)

  // ---- what is written ----

  function RelocFields(r: Reloc): (v: seq<nat>)
    ensures InRange(v, RELOC_RECORD)
  {
    Ranges();
    [r.target, r.delta, r.offset, r.presumed, r.read, r.write]
  }

  function RelocOf(v: seq<nat>): Reloc
    requires InRange(v, RELOC_RECORD)
  {
    Ranges();
    assert forall i :: 0 <= i < 6 ==> v[i] < Range(RELOC_RECORD[i]);
    Reloc(v[0], v[1], v[2], v[3], v[4], v[5])
  }

  function ObjectFields(o: Object): (v: seq<nat>)
    requires |o.relocs| < 0x1_0000_0000
    ensures InRange(v, OBJECT_RECORD)
  {
    Ranges();
    [o.handle, |o.relocs|, o.alignment, o.offset, o.flags, o.rsvd1, o.rsvd2]
  }

  function ObjectOf(v: seq<nat>, relocs: seq<Reloc>): Object
    requires InRange(v, OBJECT_RECORD)
  {
    Ranges();
    assert forall i :: 0 <= i < 7 ==> v[i] < Range(OBJECT_RECORD[i]);
    Object(v[0], v[2], v[3], v[4], v[5], v[6], relocs)
  }

  function WriteRelocs(rs: seq<Reloc>): seq<byte> {
    if rs == [] then [] else PutAll(RelocFields(rs[0]), RELOC_RECORD) + WriteRelocs(rs[1..])
  }

  function WriteObject(o: Object): seq<byte>
    requires |o.relocs| < 0x1_0000_0000
  {
    PutAll(ObjectFields(o), OBJECT_RECORD) + WriteRelocs(o.relocs)
  }

  function WriteObjects(os: seq<Object>): seq<byte>
    requires forall i :: 0 <= i < |os| ==> |os[i].relocs| < 0x1_0000_0000
  {
    if os == [] then [] else WriteObject(os[0]) + WriteObjects(os[1..])
  }

  function WriteEvent(e: Event): seq<byte>
    requires Countable(e)
  {
    match e
    case AddBo(handle, size) => [ADD_BO] + PutAll([handle, size], ADD_BO_RECORD)
    case DelBo(handle) => [DEL_BO] + PutAll([handle], HANDLE_RECORD)
    case AddCtx(handle) => [ADD_CTX] + PutAll([handle], HANDLE_RECORD)
    case DelCtx(handle) => [DEL_CTX] + PutAll([handle], HANDLE_RECORD)
    case Exec(flags, context, objects) =>
      [EXEC] + PutAll([|objects|, flags, context], EXEC_RECORD) + WriteObjects(objects)
    case Wait(handle) => [WAIT] + PutAll([handle], HANDLE_RECORD)
  }

  predicate AllCountable(es: seq<Event>) {
    forall i :: 0 <= i < |es| ==> Countable(es[i])
  }

  function WriteEvents(es: seq<Event>): seq<byte>
    requires AllCountable(es)
  {
    if es == [] then [] else WriteEvent(es[0]) + WriteEvents(es[1..])
  }

  function WriteTrace(es: seq<Event>): seq<byte>
    requires AllCountable(es)
  {
    PutAll([MAGIC, VERSION], HEADER) + WriteEvents(es)
  }

  // ---- what is read ----

  function TakeRecord(s: seq<byte>, widths: seq<nat>): (r: Parsed<seq<nat>>)
    ensures r.Parsed? ==> InRange(r.value, widths) && |s| == Total(widths) + |r.rest|
  {
    var n := Total(widths);
    if |s| < n then Failed(Truncated)
    else
      PutGetAll(s[..n], widths);
      Parsed(GetAll(s[..n], widths), s[n..])
  }

  function TakeRelocs(s: seq<byte>, n: nat): (r: Parsed<seq<Reloc>>)
    ensures r.Parsed? ==> |r.value| == n && |r.rest| <= |s|
    decreases n
  {
    if n == 0 then Parsed([], s)
    else
      match TakeRecord(s, RELOC_RECORD)
      case Failed(e) => Failed(e)
      case Parsed(v, s1) => Prefixed([RelocOf(v)], TakeRelocs(s1, n - 1))
  }

  /** Values read before, in front of those still to be read. */
  function Prefixed<T>(before: seq<T>, p: Parsed<seq<T>>): Parsed<seq<T>> {
    match p
    case Failed(e) => Failed(e)
    case Parsed(v, s) => Parsed(before + v, s)
  }

  function TakeObject(s: seq<byte>): (r: Parsed<Object>)
    ensures r.Parsed? ==> |r.rest| <= |s|
  {
    match TakeRecord(s, OBJECT_RECORD)
    case Failed(e) => Failed(e)
    case Parsed(v, s1) =>
      match TakeRelocs(s1, v[1])
      case Failed(e) => Failed(e)
      case Parsed(relocs, s2) => Parsed(ObjectOf(v, relocs), s2)
  }

  function TakeObjects(s: seq<byte>, n: nat): (r: Parsed<seq<Object>>)
    ensures r.Parsed? ==> |r.value| == n && |r.rest| <= |s|
    decreases n
  {
    if n == 0 then Parsed([], s)
    else
      match TakeObject(s)
      case Failed(e) => Failed(e)
      case Parsed(o, s1) => Prefixed([o], TakeObjects(s1, n - 1))
  }

  function TakeHandle(s: seq<byte>): (r: Parsed<u32>)
    ensures r.Parsed? ==> |r.rest| <= |s|
  {
    match TakeRecord(s, HANDLE_RECORD)
    case Failed(e) => Failed(e)
    case Parsed(v, s1) =>
      Ranges();
      assert v[0] < Range(HANDLE_RECORD[0]);
      Parsed(v[0], s1)
  }

  function TakeAddBo(s: seq<byte>): (r: Parsed<Event>)
    ensures r.Parsed? ==> |r.rest| <= |s|
  {
    match TakeRecord(s, ADD_BO_RECORD)
    case Failed(e) => Failed(e)
    case Parsed(v, s1) =>
      Ranges();
      assert v[0] < Range(ADD_BO_RECORD[0]) && v[1] < Range(ADD_BO_RECORD[1]);
      Parsed(AddBo(v[0], v[1]), s1)
  }

  function TakeExec(s: seq<byte>): (r: Parsed<Event>)
    ensures r.Parsed? ==> |r.rest| <= |s|
  {
    match TakeRecord(s, EXEC_RECORD)
    case Failed(e) => Failed(e)
    case Parsed(v, s1) =>
      Ranges();
      assert v[1] < Range(EXEC_RECORD[1]) && v[2] < Range(EXEC_RECORD[2]);
      match TakeObjects(s1, v[0])
      case Failed(e) => Failed(e)
      case Parsed(objects, s2) => Parsed(Exec(v[1], v[2], objects), s2)
  }

  function TakeEvent(s: seq<byte>): (r: Parsed<Event>)
    ensures r.Parsed? ==> |r.rest| < |s|
  {
    if s == [] then Failed(Truncated)
    else if s[0] == ADD_BO then TakeAddBo(s[1..])
    else if s[0] == EXEC then TakeExec(s[1..])
    else if s[0] > WAIT then Failed(UnknownCommand(s[0]))
    else
      match TakeHandle(s[1..])
      case Failed(e) => Failed(e)
      case Parsed(h, s1) =>
        Parsed(if s[0] == DEL_BO then DelBo(h) else if s[0] == ADD_CTX then AddCtx(h)
               else if s[0] == DEL_CTX then DelCtx(h) else Wait(h), s1)
  }

  /** One event at least, then until the end of the stream. */
  function TakeEvents(s: seq<byte>): (r: Replay)
    decreases |s|
  {
    match TakeEvent(s)
    case Failed(e) => Rejected(e)
    case Parsed(e, s1) => if s1 == [] then Replayed([e]) else After([e], TakeEvents(s1))
  }

  function After(before: seq<Event>, r: Replay): Replay {
    match r
    case Rejected(e) => Rejected(e)
    case Replayed(es) => Replayed(before + es)
  }

  function ReadTrace(s: seq<byte>): Replay {
    match TakeRecord(s, HEADER)
    case Failed(e) => Rejected(e)
    case Parsed(v, s1) =>
      if v[0] != MAGIC then Rejected(BadMagic) else if v[1] != VERSION then Rejected(BadVersion) else TakeEvents(s1)
  }

  // ---- reading undoes writing ----

  lemma TakePut(v: seq<nat>, widths: seq<nat>, s: seq<byte>)
    requires InRange(v, widths)
    ensures TakeRecord(PutAll(v, widths) + s, widths) == Parsed(v, s)
  {
    hide GetAll, PutAll;
    GetPutAll(v, widths);
    var t := PutAll(v, widths);
    assert (t + s)[..|t|] == t && (t + s)[|t|..] == s;
  }

  lemma PutTake(s: seq<byte>, widths: seq<nat>)
    requires TakeRecord(s, widths).Parsed?
    ensures var r := TakeRecord(s, widths); PutAll(r.value, widths) + r.rest == s
  {
    hide GetAll, PutAll;
    PutGetAll(s[..Total(widths)], widths);
  }

  lemma {:induction false} RelocsBack(rs: seq<Reloc>, s: seq<byte>)
    ensures TakeRelocs(WriteRelocs(rs) + s, |rs|) == Parsed(rs, s)
  {
    hide TakeRecord, PutAll, InRange;
    if rs == [] {
      assert WriteRelocs(rs) + s == s;
    } else {
      var v, t := RelocFields(rs[0]), WriteRelocs(rs[1..]);
      assert WriteRelocs(rs) + s == PutAll(v, RELOC_RECORD) + (t + s);
      TakePut(v, RELOC_RECORD, t + s);
      RelocsBack(rs[1..], s);
      assert [rs[0]] + rs[1..] == rs;
    }
  }

  lemma ObjectBack(o: Object, s: seq<byte>)
    requires |o.relocs| < 0x1_0000_0000
    ensures TakeObject(WriteObject(o) + s) == Parsed(o, s)
  {
    hide TakeRecord, PutAll, InRange, WriteRelocs, TakeRelocs;
    var v, t := ObjectFields(o), WriteRelocs(o.relocs);
    assert WriteObject(o) + s == PutAll(v, OBJECT_RECORD) + (t + s);
    TakePut(v, OBJECT_RECORD, t + s);
    RelocsBack(o.relocs, s);
  }

  lemma Reassociate(a: seq<byte>, b: seq<byte>, c: seq<byte>)
    ensures a + b + c == a + (b + c)
  {
  }

  lemma TakeFirstObject(s: seq<byte>, n: nat, o: Object, rest: seq<byte>)
    requires 0 < n && TakeObject(s) == Parsed(o, rest)
    ensures TakeObjects(s, n) == Prefixed([o], TakeObjects(rest, n - 1))
  {
    hide TakeObject, Prefixed;
  }

  lemma WriteFirstObject(os: seq<Object>, s: seq<byte>)
    requires os != [] && forall i :: 0 <= i < |os| ==> |os[i].relocs| < 0x1_0000_0000
    ensures WriteObjects(os) + s == WriteObject(os[0]) + (WriteObjects(os[1..]) + s)
  {
    hide WriteObject;
    Reassociate(WriteObject(os[0]), WriteObjects(os[1..]), s);
  }

  lemma NoObjectsBack(s: seq<byte>)
    ensures TakeObjects(WriteObjects([]) + s, 0) == Parsed([], s)
  {
    assert [] + s == s;
  }

  lemma {:induction false} ObjectsBack(os: seq<Object>, s: seq<byte>)
    requires forall i :: 0 <= i < |os| ==> |os[i].relocs| < 0x1_0000_0000
    ensures TakeObjects(WriteObjects(os) + s, |os|) == Parsed(os, s)
  {
    hide WriteObject, WriteObjects, TakeObject, TakeObjects;
    if os == [] {
      NoObjectsBack(s);
    } else {
      var t := WriteObjects(os[1..]) + s;
      WriteFirstObject(os, s);
      ObjectBack(os[0], t);
      TakeFirstObject(WriteObjects(os) + s, |os|, os[0], t);
      ObjectsBack(os[1..], s);
      assert [os[0]] + os[1..] == os;
    }
  }

  lemma HandleBack(h: u32, s: seq<byte>)
    ensures TakeHandle(PutAll([h], HANDLE_RECORD) + s) == Parsed(h, s)
  {
    hide PutAll, TakeRecord;
    Ranges();
    TakePut([h], HANDLE_RECORD, s);
  }

  lemma AddBoBack(handle: u32, size: u64, s: seq<byte>)
    ensures TakeAddBo(PutAll([handle, size], ADD_BO_RECORD) + s) == Parsed(AddBo(handle, size), s)
  {
    hide PutAll, TakeRecord;
    Ranges();
    TakePut([handle, size], ADD_BO_RECORD, s);
  }

  lemma ExecBack(e: Event, s: seq<byte>)
    requires e.Exec? && Countable(e)
    ensures TakeExec(PutAll([|e.objects|, e.flags, e.context], EXEC_RECORD) + WriteObjects(e.objects) + s) ==
            Parsed(e, s)
  {
    hide PutAll, TakeRecord, TakeObjects, WriteObjects;
    Ranges();
    var v, t := [|e.objects|, e.flags, e.context], WriteObjects(e.objects);
    assert PutAll(v, EXEC_RECORD) + t + s == PutAll(v, EXEC_RECORD) + (t + s);
    TakePut(v, EXEC_RECORD, t + s);
    ObjectsBack(e.objects, s);
  }

  lemma Command(cmd: byte, a: seq<byte>, s: seq<byte>)
    ensures var t := [cmd] + a + s; t != [] && t[0] == cmd && t[1..] == a + s
  {
  }

  lemma ExecEventBack(e: Event, s: seq<byte>)
    requires e.Exec? && Countable(e)
    ensures TakeEvent(WriteEvent(e) + s) == Parsed(e, s)
  {
    hide PutAll, TakeAddBo, TakeExec, TakeHandle, WriteObjects;
    var v, t := PutAll([|e.objects|, e.flags, e.context], EXEC_RECORD), WriteObjects(e.objects);
    Command(EXEC, v + t, s);
    Reassociate([EXEC], v, t);
    ExecBack(e, s);
  }

  lemma OtherEventBack(e: Event, s: seq<byte>)
    requires !e.Exec?
    ensures TakeEvent(WriteEvent(e) + s) == Parsed(e, s)
  {
    hide PutAll, TakeAddBo, TakeExec, TakeHandle, WriteObjects;
    if e.AddBo? {
      Command(ADD_BO, PutAll([e.handle, e.size], ADD_BO_RECORD), s);
      AddBoBack(e.handle, e.size, s);
    } else {
      var cmd := if e.DelBo? then DEL_BO else if e.AddCtx? then ADD_CTX else if e.DelCtx? then DEL_CTX else WAIT;
      Command(cmd, PutAll([e.handle], HANDLE_RECORD), s);
      HandleBack(e.handle, s);
    }
  }

  lemma EventBack(e: Event, s: seq<byte>)
    requires Countable(e)
    ensures TakeEvent(WriteEvent(e) + s) == Parsed(e, s)
  {
    hide TakeEvent, WriteEvent, Countable;
    if e.Exec? {
      ExecEventBack(e, s);
    } else {
      OtherEventBack(e, s);
    }
  }

  /** Replaying what was written gives the events back, if there are any: on an empty trace the replayer
      reads past the end. */
  lemma {:induction false} EventsBack(es: seq<Event>)
    requires AllCountable(es)
    ensures TakeEvents(WriteEvents(es)) == if es == [] then Rejected(Truncated) else Replayed(es)
  {
    hide WriteEvent, TakeEvent;
    if es == [] {
      NoEvent();
    } else {
      var t := WriteEvents(es[1..]);
      EventBack(es[0], t);
      EventsBack(es[1..]);
      if es[1..] == [] {
        assert t == [] && es == [es[0]];
      } else {
        EventBack(es[1], WriteEvents(es[1..][1..]));
        assert t != [] by { NoEvent(); }
        assert [es[0]] + es[1..] == es;
      }
    }
  }

  lemma NoEvent()
    ensures TakeEvent([]) == Failed(Truncated)
  {
  }

  lemma TraceBack(es: seq<Event>)
    requires AllCountable(es)
    ensures ReadTrace(WriteTrace(es)) == if es == [] then Rejected(Truncated) else Replayed(es)
  {
    hide PutAll, TakeRecord, TakeEvents, WriteEvents;
    Ranges();
    TakePut([MAGIC, VERSION], HEADER, WriteEvents(es));
    EventsBack(es);
  }

  // ---- writing undoes reading ----

  lemma FieldsBack(v: seq<nat>)
    ensures InRange(v, RELOC_RECORD) ==> RelocFields(RelocOf(v)) == v
    ensures InRange(v, OBJECT_RECORD) ==> |v| == 7 && v[1] < 0x1_0000_0000
    ensures InRange(v, OBJECT_RECORD) ==>
              forall relocs: seq<Reloc> :: |relocs| == v[1] ==> ObjectFields(ObjectOf(v, relocs)) == v
  {
    Ranges();
    assert InRange(v, OBJECT_RECORD) ==> v[1] < Range(OBJECT_RECORD[1]);
  }

  lemma {:induction false} RelocsAgain(s: seq<byte>, n: nat)
    requires TakeRelocs(s, n).Parsed?
    ensures var r := TakeRelocs(s, n); WriteRelocs(r.value) + r.rest == s
    decreases n
  {
    hide TakeRecord, PutAll, InRange, RelocFields;
    if n != 0 {
      PutTake(s, RELOC_RECORD);
      var r := TakeRecord(s, RELOC_RECORD);
      RelocsAgain(r.rest, n - 1);
      var t := TakeRelocs(s, n);
      FieldsBack(r.value);
      assert t.value[1..] == TakeRelocs(r.rest, n - 1).value;
    }
  }

  lemma ObjectAgain(s: seq<byte>)
    requires TakeObject(s).Parsed?
    ensures var r := TakeObject(s); |r.value.relocs| < 0x1_0000_0000 && WriteObject(r.value) + r.rest == s
  {
    hide TakeRecord, TakeRelocs, PutAll, InRange, ObjectFields;
    PutTake(s, OBJECT_RECORD);
    var r := TakeRecord(s, OBJECT_RECORD);
    FieldsBack(r.value);
    RelocsAgain(r.rest, r.value[1]);
  }

  lemma {:induction false} ObjectsAgain(s: seq<byte>, n: nat)
    requires TakeObjects(s, n).Parsed?
    ensures var r := TakeObjects(s, n);
            && (forall i :: 0 <= i < |r.value| ==> |r.value[i].relocs| < 0x1_0000_0000)
            && WriteObjects(r.value) + r.rest == s
    decreases n
  {
    hide TakeObject, WriteObject;
    if n != 0 {
      ObjectAgain(s);
      ObjectsAgain(TakeObject(s).rest, n - 1);
      var t := TakeObjects(s, n);
      assert t.value[1..] == TakeObjects(TakeObject(s).rest, n - 1).value;
    }
  }

  lemma HandleAgain(s: seq<byte>)
    requires TakeHandle(s).Parsed?
    ensures PutAll([TakeHandle(s).value], HANDLE_RECORD) + TakeHandle(s).rest == s
  {
    hide TakeRecord, PutAll;
    PutTake(s, HANDLE_RECORD);
    assert TakeRecord(s, HANDLE_RECORD).value == [TakeHandle(s).value];
  }

  lemma AddBoAgain(s: seq<byte>)
    requires TakeAddBo(s).Parsed?
    ensures var r := TakeAddBo(s);
            r.value.AddBo? && PutAll([r.value.handle, r.value.size], ADD_BO_RECORD) + r.rest == s
  {
    hide TakeRecord, PutAll;
    PutTake(s, ADD_BO_RECORD);
    var r := TakeAddBo(s);
    assert TakeRecord(s, ADD_BO_RECORD).value == [r.value.handle, r.value.size];
  }

  lemma ExecAgain(s: seq<byte>)
    requires TakeExec(s).Parsed?
    ensures var r := TakeExec(s);
            && r.value.Exec? && Countable(r.value)
            && PutAll([|r.value.objects|, r.value.flags, r.value.context], EXEC_RECORD)
               + WriteObjects(r.value.objects) + r.rest == s
  {
    hide TakeRecord, PutAll, TakeObjects, WriteObjects;
    Ranges();
    PutTake(s, EXEC_RECORD);
    var v := TakeRecord(s, EXEC_RECORD);
    assert v.value[0] < Range(EXEC_RECORD[0]);
    ObjectsAgain(v.rest, v.value[0]);
    var r := TakeExec(s);
    assert v.value == [|r.value.objects|, r.value.flags, r.value.context];
  }

  lemma EventAgain(s: seq<byte>)
    requires TakeEvent(s).Parsed?
    ensures var r := TakeEvent(s); Countable(r.value) && WriteEvent(r.value) + r.rest == s
  {
    hide PutAll, TakeAddBo, TakeExec, TakeHandle, WriteObjects;
    var t := s[1..];
    assert s == [s[0]] + t;
    if s[0] == ADD_BO {
      AddBoAgain(t);
    } else if s[0] == EXEC {
      ExecAgain(t);
    } else {
      HandleAgain(t);
    }
  }

  lemma {:induction false} EventsAgain(s: seq<byte>)
    requires TakeEvents(s).Replayed?
    ensures var es := TakeEvents(s).events; es != [] && AllCountable(es) && WriteEvents(es) == s
    decreases |s|
  {
    hide TakeEvent, WriteEvent, Countable;
    EventAgain(s);
    var r := TakeEvent(s);
    var es := TakeEvents(s).events;
    if r.rest == [] {
      assert WriteEvents(es[1..]) == [];
    } else {
      EventsAgain(r.rest);
      assert es[1..] == TakeEvents(r.rest).events;
    }
  }

  /** Only streams the tracer could have written are replayed to the end: nothing of the stream is
      skipped or misread. */
  lemma TraceAgain(s: seq<byte>)
    requires ReadTrace(s).Replayed?
    ensures var es := ReadTrace(s).events; es != [] && AllCountable(es) && WriteTrace(es) == s
  {
    hide PutAll, TakeRecord, TakeEvents, WriteEvents;
    PutTake(s, HEADER);
    var r := TakeRecord(s, HEADER);
    EventsAgain(r.rest);
    assert r.value == [MAGIC, VERSION];
  }
}
