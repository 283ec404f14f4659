/** The tracer, which appends records to its file, and the replayer's walk over the mapped file. */
module TraceTools {
  import opened TraceFormat
  import opened Trace

  /** I915_EXEC_FENCE_IN or I915_EXEC_FENCE_OUT. */
  predicate UsesFences(flags: u64) {
    flags / 0x1_0000 % 4 != 0
  }

  class Tracer {
    var file: seq<byte>

    constructor ()
      ensures file == WriteTrace([])
    {
      file := PutAll([MAGIC, VERSION], HEADER);
    }

    /** An execution; refused, with nothing written, if it uses fences. */
    method Exec(flags: u64, context: u32, objects: seq<Object>) returns (ok: bool)
      requires Countable(Event.Exec(flags, context, objects))
      modifies this
      ensures ok <==> flags / 0x1_0000 % 4 == 0
      ensures file == old(file) + if ok then WriteEvent(Event.Exec(flags, context, objects)) else []
    {
      hide PutAll, WriteObjects, WriteObject, WriteEvent;
      if UsesFences(flags) {
        return false;
      }
      var count: u32 := |objects|;
      ExecBytes(file, flags, context, objects);
      file := file + [EXEC] + PutAll([count, flags, context], EXEC_RECORD);
      LogObjects(objects);
      ok := true;
    }

    method LogObjects(objects: seq<Object>)
      requires forall i :: 0 <= i < |objects| ==> |objects[i].relocs| < 0x1_0000_0000
      modifies this
      ensures file == old(file) + WriteObjects(objects)
    {
      hide WriteObjects, WriteObject;
      NoObjects();
      for i := 0 to |objects|
        invariant file == old(file) + WriteObjects(objects[..i])
      {
        LogObject(objects[i]);
        WriteObjectsAppend(objects[..i], objects[i]);
        assert objects[..i + 1] == objects[..i] + [objects[i]];
      }
      assert objects[..|objects|] == objects;
    }

    /** An object's record, and its relocations as they are. */
    method LogObject(o: Object)
      requires |o.relocs| < 0x1_0000_0000
      modifies this
      ensures file == old(file) + WriteObject(o)
    {
      hide PutAll, WriteRelocs, ObjectFields;
      file := file + PutAll(ObjectFields(o), OBJECT_RECORD);
      file := file + WriteRelocs(o.relocs);
    }

    /** The other events are one record each. */
    method Log(e: Event)
      requires !e.Exec?
      modifies this
      ensures file == old(file) + WriteEvent(e)
    {
      match e
      case AddBo(handle, size) => file := file + ([ADD_BO] + PutAll([handle, size], ADD_BO_RECORD));
      case DelBo(handle) => file := file + ([DEL_BO] + PutAll([handle], HANDLE_RECORD));
      case AddCtx(handle) => file := file + ([ADD_CTX] + PutAll([handle], HANDLE_RECORD));
      case DelCtx(handle) => file := file + ([DEL_CTX] + PutAll([handle], HANDLE_RECORD));
      case Wait(handle) => file := file + ([WAIT] + PutAll([handle], HANDLE_RECORD));
    }

    /** A whole sequence of events; those with fences end the tracing. */
    method Record(es: seq<Event>) returns (n: nat)
      requires AllCountable(es)
      modifies this
      ensures n <= |es| && file == old(file) + WriteEvents(es[..n])
      ensures n < |es| ==> es[n].Exec? && UsesFences(es[n].flags)
    {
      hide WriteEvent;
      n := 0;
      while n < |es|
        invariant n <= |es| && file == old(file) + WriteEvents(es[..n])
      {
        assert es[..n + 1] == es[..n] + [es[n]];
        WriteEventsAppend(es[..n], es[n]);
        match es[n] {
          case Exec(flags, context, objects) =>
            var ok := Exec(flags, context, objects);
            if !ok {
              return;
            }
          case _ => Log(es[n]);
        }
        n := n + 1;
      }
    }
  }

  lemma ExecRecord(flags: u64, context: u32, objects: seq<Object>)
    requires Countable(Event.Exec(flags, context, objects))
    ensures WriteEvent(Event.Exec(flags, context, objects)) ==
            [EXEC] + PutAll([|objects|, flags, context], EXEC_RECORD) + WriteObjects(objects)
  {
    hide PutAll, WriteObjects, Countable;
  }

  lemma ExecBytes(file: seq<byte>, flags: u64, context: u32, objects: seq<Object>)
    requires Countable(Event.Exec(flags, context, objects))
    ensures file + [EXEC] + PutAll([|objects|, flags, context], EXEC_RECORD) + WriteObjects(objects) ==
            file + WriteEvent(Event.Exec(flags, context, objects))
  {
    hide PutAll, WriteObjects, WriteEvent;
    ExecRecord(flags, context, objects);
    Append(file, [EXEC], PutAll([|objects|, flags, context], EXEC_RECORD), WriteObjects(objects));
  }

  lemma Append(file: seq<byte>, a: seq<byte>, b: seq<byte>, c: seq<byte>)
    ensures file + a + b + c == file + (a + b + c)
  {
  }

  lemma NoObjects()
    ensures WriteObjects([]) == []
  {
  }

  lemma {:induction false} WriteObjectsAppend(os: seq<Object>, o: Object)
    requires |o.relocs| < 0x1_0000_0000 && forall i :: 0 <= i < |os| ==> |os[i].relocs| < 0x1_0000_0000
    ensures WriteObjects(os + [o]) == WriteObjects(os) + WriteObject(o)
  {
    hide WriteObject;
    if os == [] {
      assert os + [o] == [o] && WriteObjects([o]) == WriteObject(o) + WriteObjects([]);
    } else {
      assert (os + [o])[1..] == os[1..] + [o];
      WriteObjectsAppend(os[1..], o);
    }
  }

  lemma {:induction false} WriteEventsAppend(es: seq<Event>, e: Event)
    requires Countable(e) && AllCountable(es)
    ensures AllCountable(es + [e]) && WriteEvents(es + [e]) == WriteEvents(es) + WriteEvent(e)
  {
    hide WriteEvent, Countable;
    if es == [] {
      assert es + [e] == [e] && WriteEvents([e]) == WriteEvent(e) + WriteEvents([]);
    } else {
      assert (es + [e])[1..] == es[1..] + [e];
      WriteEventsAppend(es[1..], e);
    }
  }

  // ---- the replayer ----

  /** Reads a record at ptr; at is where it ends. */
  method ReplayRecord(bytes: seq<byte>, ptr: nat, widths: seq<nat>) returns (r: Parsed<seq<nat>>, at: nat)
    requires ptr <= |bytes|
    ensures r == TakeRecord(bytes[ptr..], widths)
    ensures r.Parsed? ==> ptr <= at <= |bytes| && r.rest == bytes[at..]
  {
    r, at := TakeRecord(bytes[ptr..], widths), ptr;
    if r.Parsed? {
      at := ptr + Total(widths);
      assert bytes[ptr..][Total(widths)..] == bytes[at..];
    }
  }

  method ReplayRelocs(bytes: seq<byte>, ptr: nat, n: nat) returns (r: Parsed<seq<Reloc>>, at: nat)
    requires ptr <= |bytes|
    ensures r == TakeRelocs(bytes[ptr..], n)
    ensures r.Parsed? ==> ptr <= at <= |bytes| && r.rest == bytes[at..]
  {
    hide TakeRecord, InRange;
    at := ptr;
    var relocs: seq<Reloc> := [];
    PrefixedNothing(TakeRelocs(bytes[ptr..], n));
    for j := 0 to n
      invariant ptr <= at <= |bytes|
      invariant TakeRelocs(bytes[ptr..], n) == Prefixed(relocs, TakeRelocs(bytes[at..], n - j))
    {
      var v, next := ReplayRecord(bytes, at, RELOC_RECORD);
      if v.Failed? {
        return Failed(v.error), at;
      }
      PrefixedTwice(relocs, [RelocOf(v.value)], TakeRelocs(bytes[next..], n - j - 1));
      relocs, at := relocs + [RelocOf(v.value)], next;
    }
    assert relocs + [] == relocs;
    r := Parsed(relocs, bytes[at..]);
  }

  lemma PrefixedNothing<T>(p: Parsed<seq<T>>)
    ensures Prefixed([], p) == p
  {
    if p.Parsed? {
      assert [] + p.value == p.value;
    }
  }

  lemma PrefixedTwice<T>(a: seq<T>, b: seq<T>, p: Parsed<seq<T>>)
    ensures Prefixed(a, Prefixed(b, p)) == Prefixed(a + b, p)
  {
    if p.Parsed? {
      assert a + (b + p.value) == a + b + p.value;
    }
  }

  /** One object, as the round trip's decoder takes it. */
  method ReplayObject(bytes: seq<byte>, ptr: nat) returns (r: Parsed<Object>, at: nat)
    requires ptr <= |bytes|
    ensures r == TakeObject(bytes[ptr..])
    ensures r.Parsed? ==> ptr <= at <= |bytes| && r.rest == bytes[at..]
  {
    hide TakeRecord, TakeRelocs;
    var v, next := ReplayRecord(bytes, ptr, OBJECT_RECORD);
    if v.Failed? {
      return Failed(v.error), ptr;
    }
    var relocs, last := ReplayRelocs(bytes, next, v.value[1]);
    if relocs.Failed? {
      return Failed(relocs.error), ptr;
    }
    r, at := Parsed(ObjectOf(v.value, relocs.value), bytes[last..]), last;
  }

  method ReplayObjects(bytes: seq<byte>, ptr: nat, n: nat) returns (r: Parsed<seq<Object>>, at: nat)
    requires ptr <= |bytes|
    ensures r == TakeObjects(bytes[ptr..], n)
    ensures r.Parsed? ==> ptr <= at <= |bytes| && r.rest == bytes[at..]
  {
    hide TakeObject;
    at := ptr;
    var objects: seq<Object> := [];
    PrefixedNothing(TakeObjects(bytes[ptr..], n));
    for i := 0 to n
      invariant ptr <= at <= |bytes|
      invariant TakeObjects(bytes[ptr..], n) == Prefixed(objects, TakeObjects(bytes[at..], n - i))
    {
      var o, next := ReplayObject(bytes, at);
      if o.Failed? {
        return Failed(o.error), at;
      }
      PrefixedTwice(objects, [o.value], TakeObjects(bytes[next..], n - i - 1));
      objects, at := objects + [o.value], next;
    }
    assert objects + [] == objects;
    r := Parsed(objects, bytes[at..]);
  }

  /** One round of the replay loop. */
  method ReplayEvent(bytes: seq<byte>, ptr: nat) returns (r: Parsed<Event>, at: nat)
    requires ptr <= |bytes|
    ensures r == TakeEvent(bytes[ptr..])
    ensures r.Parsed? ==> ptr < at <= |bytes| && r.rest == bytes[at..]
  {
    hide TakeRecord, TakeObjects;
    at := ptr;
    if ptr == |bytes| {
      return Failed(Truncated), at;
    }
    Ranges();
    var cmd := bytes[ptr];
    at := ptr + 1;
    assert bytes[ptr..][0] == cmd && bytes[ptr..][1..] == bytes[at..];
    var v;
    match cmd {
      case 0 =>
        v, at := ReplayRecord(bytes, at, ADD_BO_RECORD);
        if v.Parsed? {
          assert v.value[0] < Range(ADD_BO_RECORD[0]) && v.value[1] < Range(ADD_BO_RECORD[1]);
          return Parsed(AddBo(v.value[0], v.value[1]), bytes[at..]), at;
        }
      case 4 =>
        v, at := ReplayRecord(bytes, at, EXEC_RECORD);
        if v.Parsed? {
          assert v.value[1] < Range(EXEC_RECORD[1]) && v.value[2] < Range(EXEC_RECORD[2]);
          var objects, last := ReplayObjects(bytes, at, v.value[0]);
          if objects.Failed? {
            return Failed(objects.error), at;
          }
          at := last;
          return Parsed(Event.Exec(v.value[1], v.value[2], objects.value), bytes[at..]), at;
        }
      case _ =>
        if cmd > WAIT {
          return Failed(UnknownCommand(cmd)), at;
        }
        v, at := ReplayRecord(bytes, at, HANDLE_RECORD);
        if v.Parsed? {
          assert v.value[0] < Range(HANDLE_RECORD[0]);
          var h: u32 := v.value[0];
          var e := if cmd == DEL_BO then DelBo(h) else if cmd == ADD_CTX then AddCtx(h)
                   else if cmd == DEL_CTX then DelCtx(h) else Wait(h);
          return Parsed(e, bytes[at..]), at;
        }
    }
    r := Failed(v.error);
  }

  /** The whole replay: the header, then events until the end of the file, one at least. */
  method ReplayTrace(bytes: seq<byte>) returns (r: Replay)
    ensures r == ReadTrace(bytes)
  {
    hide TakeRecord, TakeEvent;
    assert bytes[0..] == bytes;
    var v, at := ReplayRecord(bytes, 0, HEADER);
    if v.Failed? {
      return Rejected(v.error);
    }
    if v.value[0] != MAGIC {
      return Rejected(BadMagic);
    }
    if v.value[1] != VERSION {
      return Rejected(BadVersion);
    }
    var events: seq<Event> := [];
    ghost var all := bytes[at..];
    while true
      invariant at <= |bytes| && TakeEvents(all) == After(events, TakeEvents(bytes[at..]))
      decreases |bytes| - at
    {
      var e, next := ReplayEvent(bytes, at);
      if e.Failed? {
        return Rejected(e.error);
      }
      AfterTwice(events, [e.value], TakeEvents(bytes[next..]));
      events, at := events + [e.value], next;
      if at == |bytes| {
        return Replayed(events);
      }
    }
  }

  lemma AfterTwice(a: seq<Event>, b: seq<Event>, r: Replay)
    ensures After(a, After(b, r)) == After(a + b, r)
  {
    if r.Replayed? {
      assert a + (b + r.events) == a + b + r.events;
    }
  }

  /** Recording events and replaying the file gives back exactly the events recorded. */
  method RecordAndReplay(es: seq<Event>) returns (n: nat, r: Replay)
    requires AllCountable(es)
    ensures n <= |es| && (n < |es| ==> es[n].Exec? && UsesFences(es[n].flags))
    ensures r == if n == 0 then Rejected(Truncated) else Replayed(es[..n])
  {
    hide PutAll, WriteEvents, ReadTrace;
    var tracer := new Tracer();
    n := tracer.Record(es);
    assert WriteEvents([]) == [] by { NoEvents(); }
    assert tracer.file == WriteTrace(es[..n]);
    r := ReplayTrace(tracer.file);
    TraceBack(es[..n]);
  }

  lemma NoEvents()
    ensures WriteEvents([]) == []
  {
  }
}
