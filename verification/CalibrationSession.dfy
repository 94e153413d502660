/** The calibration session and its recovery journal.

    Before a calibration is first written, its exact connect-time bytes go into a journal;
    a failed write or an explicit restore puts them back, and a clean disconnect leaves
    nothing behind. Any command may fail, and writes may be corrupted inside their span. */
module CalibrationSession {
  import opened Common
  import opened XcpMemory

  /** Address ranges of the CHARACTERISTICs, fixed while a session is connected. */
  type Catalog = map<string, Span>
  type Journal = map<string, seq<byte>>

  datatype Request = Request(name: string, bytes: Option<seq<byte>>)
  datatype Outcome =
    | Done | EmptyRequest | NoClient | LinkLost | UnknownName | Overlapping
    | WriteFailed        // the error of the write; everything it touched was restored
    | RestoreFailed      // some original value could not be put back and verified
    | PendingWithoutClient | ConnectFailed | StopFailed | DisconnectFailed

  /** How the slave and the transport answer: connecting, describing the connection, stopping an
      acquisition, closing the connection. */
  datatype Answers = Answers(answers: bool, describes: bool, stops: bool, closes: bool)

  const ALL_WELL := Answers(true, true, true, true)

  /** Nothing fails on this link, and every calibration of the catalogue can be reached. */
  ghost predicate Works(slave: Slave, catalog: Catalog) {
    slave.faithful && forall n :: n in catalog ==> Reaches(slave, catalog[n])
  }

  ghost predicate Reaches(slave: Slave, s: Span) {
    s.start < s.end && Accessible(slave, true, s.start, s.end - s.start, s.extension, 2)
  }

  predicate Overlap(s: Span, t: Span) { s.extension == t.extension && s.start < t.end && t.start < s.end }

  /** Two spans overlap exactly when they share a location. */
  lemma OverlapIff(s: Span, t: Span)
    requires s.start < s.end && t.start < t.end
    ensures Overlap(s, t) <==> exists l :: InSpan(l, s) && InSpan(l, t)
  {
    var l := Location(s.extension, if s.start < t.start then t.start else s.start);
    assert Overlap(s, t) ==> InSpan(l, s) && InSpan(l, t);
  }

  /** `after` differs from `before` only inside the spans of `names`. */
  ghost predicate Confined(catalog: Catalog, names: set<string>, before: Memory, after: Memory) {
    && after.Keys == before.Keys
    && forall l :: l in before && after[l] != before[l] ==> Inside(catalog, names, l)
  }

  ghost predicate Inside(catalog: Catalog, names: set<string>, l: Location) {
    exists n :: n in names && n in catalog && InSpan(l, catalog[n])
  }

  ghost predicate PairwiseDisjoint(catalog: Catalog, names: set<string>) {
    forall a, b :: a in names && b in names && a != b && a in catalog && b in catalog ==> !Overlap(catalog[a], catalog[b])
  }

  /** The span of `name` overlaps that of no other name in the set. */
  ghost predicate Apart(catalog: Catalog, name: string, names: set<string>)
    requires name in catalog
  {
    forall n :: n in names && n in catalog && n != name ==> !Overlap(catalog[name], catalog[n])
  }

  /** The journal's promise relative to the memory `origin` at connect time. */
  ghost predicate JournalOk(catalog: Catalog, journal: Journal, origin: Memory, mem: Memory) {
    && Total(origin)
    && journal.Keys <= catalog.Keys
    && PairwiseDisjoint(catalog, journal.Keys)
    && (forall n :: n in journal ==> ValidSpan(catalog[n]) && journal[n] == Bytes(origin, catalog[n]))
    && Confined(catalog, journal.Keys, origin, mem)
  }

  lemma BytesOutside(before: Memory, after: Memory, s: Span, t: Span)
    requires Total(before) && OnlyIn(before, after, s) && !Overlap(s, t) && ValidSpan(t)
    ensures Total(after) && Bytes(after, t) == Bytes(before, t)
  {}

  lemma ConfinedBytes(catalog: Catalog, names: set<string>, before: Memory, after: Memory, t: Span)
    requires Total(before) && Confined(catalog, names, before, after) && ValidSpan(t)
    requires forall n :: n in names && n in catalog ==> !Overlap(catalog[n], t)
    ensures Total(after) && Bytes(after, t) == Bytes(before, t)
  {
    forall l | l in before && InSpan(l, t) ensures after[l] == before[l] {
      assert !Inside(catalog, names, l);
    }
  }

  lemma ConfinedJoins(catalog: Catalog, names: set<string>, a: Memory, b: Memory, c: Memory, n: string)
    requires Confined(catalog, names, a, b) && n in names && n in catalog && OnlyIn(b, c, catalog[n])
    ensures Confined(catalog, names, a, c)
  {
    forall l | l in a && c[l] != a[l] ensures Inside(catalog, names, l) {
      if b[l] != a[l] { assert Inside(catalog, names, l); } else { assert InSpan(l, catalog[n]); }
    }
  }

  lemma ConfinedMore(catalog: Catalog, names: set<string>, more: set<string>, a: Memory, b: Memory, c: Memory)
    requires Confined(catalog, names, a, b) && Confined(catalog, more, b, c) && more <= names
    ensures Confined(catalog, names, a, c)
  {
    forall l | l in a && c[l] != a[l] ensures Inside(catalog, names, l) {
      if b[l] != a[l] { assert Inside(catalog, names, l); } else { assert Inside(catalog, more, l); }
    }
  }

  /** A value read before the first write of its name is still the connect-time value. */
  lemma JournalAdds(catalog: Catalog, journal: Journal, origin: Memory, mem: Memory, n: string)
    requires JournalOk(catalog, journal, origin, mem) && Total(mem) && n in catalog && n !in journal && ValidSpan(catalog[n])
    requires Apart(catalog, n, journal.Keys)
    ensures JournalOk(catalog, journal[n := Bytes(mem, catalog[n])], origin, mem)
  {
    hide Bytes, Total, PairwiseDisjoint, Apart, Overlap, Confined, Inside, ValidSpan;
    PairwiseAdds(catalog, journal.Keys, n);
    ConfinedBytes(catalog, journal.Keys, origin, mem, catalog[n]);
    var more := journal[n := Bytes(mem, catalog[n])];
    assert more.Keys == journal.Keys + {n};
    ConfinedGrows(catalog, journal.Keys, more.Keys, origin, mem);
  }

  lemma ConfinedGrows(catalog: Catalog, names: set<string>, more: set<string>, before: Memory, after: Memory)
    requires names <= more && Confined(catalog, names, before, after)
    ensures Confined(catalog, more, before, after)
  {}

  lemma PairwiseAdds(catalog: Catalog, names: set<string>, n: string)
    requires PairwiseDisjoint(catalog, names) && n in catalog && Apart(catalog, n, names)
    ensures PairwiseDisjoint(catalog, names + {n})
    ensures forall k :: k in names && k in catalog && k != n ==> !Overlap(catalog[k], catalog[n])
  {}

  lemma SameByte(a: Memory, b: Memory, s: Span, l: Location)
    requires Total(a) && Total(b) && ValidSpan(s) && InSpan(l, s) && Bytes(a, s) == Bytes(b, s)
    ensures l in a && l in b && a[l] == b[l]
  {
    var i := l.address - s.start;
    assert l == Location(s.extension, s.start + i);
    assert Bytes(a, s)[i] == Bytes(b, s)[i];
  }

  /** Writes inside a journalled span, corrupted or not, keep the promise. */
  lemma JournalCoversWrite(catalog: Catalog, journal: Journal, origin: Memory, mem: Memory, after: Memory, n: string)
    requires JournalOk(catalog, journal, origin, mem) && n in journal && OnlyIn(mem, after, catalog[n])
    ensures JournalOk(catalog, journal, origin, after)
  {
    ConfinedJoins(catalog, journal.Keys, origin, mem, after, n);
  }

  /** Once the original bytes are read back, the entry may go. */
  lemma JournalDrops(catalog: Catalog, journal: Journal, origin: Memory, mem: Memory, n: string)
    requires JournalOk(catalog, journal, origin, mem) && Total(mem) && n in journal && Bytes(mem, catalog[n]) == journal[n]
    ensures JournalOk(catalog, journal - {n}, origin, mem)
  {
    hide Bytes, Total;
    forall l | l in origin && mem[l] != origin[l] ensures Inside(catalog, (journal - {n}).Keys, l) {
      assert Inside(catalog, journal.Keys, l);
      var k :| k in journal.Keys && k in catalog && InSpan(l, catalog[k]);
      if k == n {
        SameByte(mem, origin, catalog[n], l);
        assert false;
      }
    }
  }

  lemma JournalEmpty(catalog: Catalog, journal: Journal, origin: Memory, mem: Memory)
    requires JournalOk(catalog, journal, origin, mem) && journal == map[]
    ensures mem == origin
  {
    forall l | l in origin ensures mem[l] == origin[l] {
      assert !Inside(catalog, journal.Keys, l);
    }
  }

  lemma JournalStart(catalog: Catalog, mem: Memory)
    requires Total(mem)
    ensures JournalOk(catalog, map[], mem, mem)
  {}

  function SetOf(names: seq<string>): set<string> { set n | n in names }

  function NamesOf(requests: seq<Request>): (names: seq<string>)
    ensures |names| == |requests|
  {
    seq(|requests|, i requires 0 <= i < |requests| => requests[i].name)
  }

  /** The requests come from a mapping: every name at most once, every value encoded to the size of its scalar. */
  ghost predicate WellFormed(catalog: Catalog, requests: seq<Request>) {
    && (forall i, j :: 0 <= i < j < |requests| ==> requests[i].name != requests[j].name)
    && (forall i :: 0 <= i < |requests| && requests[i].name in catalog && requests[i].bytes.Some? ==>
      |requests[i].bytes.value| == catalog[requests[i].name].end - catalog[requests[i].name].start)
  }

  /** Every value can be encoded. */
  predicate AllEncode(requests: seq<Request>) { forall i :: 0 <= i < |requests| ==> requests[i].bytes.Some? }

  /** Index of the first value that cannot be encoded. */
  function FirstBad(requests: seq<Request>): (k: nat)
    ensures k <= |requests| && (k == |requests| <==> AllEncode(requests))
    ensures forall i :: 0 <= i < k ==> requests[i].bytes.Some?
    ensures k < |requests| ==> requests[k].bytes.None?
  {
    if requests == [] || requests[0].bytes.None? then 0 else 1 + FirstBad(requests[1..])
  }

  /** No request overlaps a journalled span of another name, or another request. */
  ghost predicate NonOverlapping(catalog: Catalog, journalled: set<string>, names: seq<string>)
    requires SetOf(names) <= catalog.Keys
  {
    forall n :: n in names ==> Apart(catalog, n, journalled + SetOf(names))
  }

  lemma ApartFewer(catalog: Catalog, name: string, names: set<string>, more: set<string>)
    requires name in catalog && names <= more && !Apart(catalog, name, names)
    ensures !Apart(catalog, name, more)
  {}

  lemma ApartWithin(catalog: Catalog, name: string, names: set<string>, more: set<string>)
    requires name in catalog && names <= more && Apart(catalog, name, more)
    ensures Apart(catalog, name, names)
  {}

  lemma ApartSymmetric(catalog: Catalog, a: string, b: string, names: set<string>)
    requires a in catalog && b in catalog && a in names + {b} && Apart(catalog, a, names) && Apart(catalog, b, names)
    ensures Apart(catalog, a, names + {b})
  {}

  /** The names a write comes to before it meets a value that cannot be encoded, and that one. */
  function Tried(requests: seq<Request>): seq<string> { NamesOf(requests)[..Min(FirstBad(requests) + 1, |requests|)] }

  /** The request is in effect: its scalar holds exactly the requested bytes. */
  ghost predicate Holds(catalog: Catalog, request: Request, mem: Memory) {
    && Total(mem) && request.name in catalog && ValidSpan(catalog[request.name])
    && request.bytes == Some(Bytes(mem, catalog[request.name]))
  }

  ghost predicate AllHold(catalog: Catalog, requests: seq<Request>, count: nat, mem: Memory)
    requires count <= |requests|
  {
    forall j :: 0 <= j < count ==> Holds(catalog, requests[j], mem)
  }

  /** Writing the span of one request leaves the earlier, disjoint ones in effect. */
  lemma StillHold(catalog: Catalog, requests: seq<Request>, count: nat, before: Memory, after: Memory)
    requires count < |requests| && AllHold(catalog, requests, count, before) && requests[count].name in catalog
    requires OnlyIn(before, after, catalog[requests[count].name])
    requires forall j :: 0 <= j < count ==> requests[j].name != requests[count].name
    requires Apart(catalog, requests[count].name, SetOf(NamesOf(requests)))
    ensures AllHold(catalog, requests, count, after)
  {
    hide OnlyIn, Total, Bytes, ValidSpan, Overlap;
    forall j | 0 <= j < count ensures Holds(catalog, requests[j], after) {
      assert Holds(catalog, requests[j], before);
      assert NamesOf(requests)[j] in SetOf(NamesOf(requests));
      BytesOutside(before, after, catalog[requests[count].name], catalog[requests[j].name]);
    }
  }

  lemma HoldsOneMore(catalog: Catalog, requests: seq<Request>, count: nat, mem: Memory)
    requires count < |requests| && AllHold(catalog, requests, count, mem) && Holds(catalog, requests[count], mem)
    ensures AllHold(catalog, requests, count + 1, mem)
  {}

  /** What the first `count` requests want under the empty name is in effect. */
  ghost predicate HoldsUnderEmpty(catalog: Catalog, requests: seq<Request>, count: nat, mem: Memory)
    requires count <= |requests|
  {
    forall j :: 0 <= j < count && requests[j].name == "" ==> Holds(catalog, requests[j], mem)
  }

  /** Restoring the other names leaves the value under the empty name in effect. */
  lemma EmptyStays(catalog: Catalog, requests: seq<Request>, journalled: set<string>, count: nat, before: Memory, after: Memory)
    requires count <= |requests| && AllHold(catalog, requests, count, before) && SetOf(NamesOf(requests)) <= catalog.Keys
    requires NonOverlapping(catalog, journalled, NamesOf(requests))
    requires Confined(catalog, SetOf(NamesOf(requests)) - {""}, before, after)
    ensures HoldsUnderEmpty(catalog, requests, count, after)
  {
    hide Confined, Total, Bytes, ValidSpan, Overlap;
    var names := NamesOf(requests);
    forall j | 0 <= j < count && requests[j].name == "" ensures Holds(catalog, requests[j], after) {
      assert Holds(catalog, requests[j], before) && names[j] in names;
      OverlapSymmetric(catalog, "");
      ConfinedBytes(catalog, SetOf(names) - {""}, before, after, catalog[""]);
    }
  }

  /** Every entry that left the journal has its original bytes back in memory; the others are as
      they were. */
  ghost predicate PutBack(catalog: Catalog, before: Journal, now: Journal, mem: Memory) {
    && now.Keys <= before.Keys && (forall n :: n in now ==> now[n] == before[n])
    && forall n :: n in before && n !in now ==>
      n in catalog && ValidSpan(catalog[n]) && Total(mem) && Bytes(mem, catalog[n]) == before[n]
  }

  lemma RemovedIsBack(catalog: Catalog, before: Journal, now: Journal, origin: Memory, start: Memory, mem: Memory)
    requires before != map[] ==> JournalOk(catalog, before, origin, start)
    requires now != map[] || before != map[] ==> JournalOk(catalog, now, origin, mem)
    requires now.Keys <= before.Keys
    ensures PutBack(catalog, before, now, mem)
  {
    hide Overlap, Bytes, ValidSpan, Confined;
    forall n | n in before && n !in now
      ensures n in catalog && ValidSpan(catalog[n]) && Total(mem) && Bytes(mem, catalog[n]) == before[n]
    {
      OverlapSymmetric(catalog, n);
      ConfinedBytes(catalog, now.Keys, origin, mem, catalog[n]);
    }
  }

  lemma OverlapSymmetric(catalog: Catalog, n: string)
    requires n in catalog
    ensures forall k :: k in catalog ==> (Overlap(catalog[n], catalog[k]) <==> Overlap(catalog[k], catalog[n]))
  {}

  class Session {
    const slave: Slave
    const catalog: Catalog
    var attached: bool   // `_client is not None`
    var connected: bool  // `_client.connected`
    var originalBytes: Journal
    var originalSpans: map<string, Span>
    ghost var origin: Memory  // slave memory at the last successful connect

    ghost predicate Valid()
      reads this, slave
    {
      && Total(slave.mem)
      && (forall n :: n in catalog ==> catalog[n].start < catalog[n].end)
      && originalSpans.Keys == originalBytes.Keys
      && (forall n :: n in originalSpans ==> n in catalog && originalSpans[n] == catalog[n])
      && (attached || originalBytes != map[] ==> JournalOk(catalog, originalBytes, origin, slave.mem))
    }

    /** The connect-time memory is back unless the session is attached or some original is pending. */
    ghost predicate Restored()
      reads this, slave
    {
      attached || originalBytes != map[] || slave.mem == origin
    }

    /** Nothing is pending, or there is a link to put it back over. */
    predicate Live()
      reads this`attached, this`connected, this`originalBytes
    {
      (attached && connected) || originalBytes == map[]
    }

    constructor (slave: Slave, catalog: Catalog)
      requires Total(slave.mem) && forall n :: n in catalog ==> catalog[n].start < catalog[n].end
      ensures Valid() && !attached && this.slave == slave && this.catalog == catalog && originalBytes == map[]
    {
      this.slave, this.catalog := slave, catalog;
      attached, connected, originalBytes, originalSpans, origin := false, false, map[], map[], slave.mem;
    }

    /** `_validate_non_overlapping`, scanning the journal and the earlier entries. */
    method ValidateNonOverlapping(names: seq<string>) returns (ok: bool)
      requires SetOf(names) <= catalog.Keys && originalSpans.Keys == originalBytes.Keys
      requires forall n :: n in originalSpans ==> n in catalog && originalSpans[n] == catalog[n]
      ensures ok <==> NonOverlapping(catalog, originalBytes.Keys, names)
    {
      hide Overlap, Apart;
      var spans := originalSpans;
      for i := 0 to |names|
        invariant spans.Keys == originalBytes.Keys + SetOf(names[..i])
        invariant forall n :: n in spans ==> n in catalog && spans[n] == catalog[n]
        invariant forall j :: 0 <= j < i ==> Apart(catalog, names[j], spans.Keys)
      {
        var hit := OverlapsAny(names[i], catalog[names[i]], spans);
        if hit {
          ApartFewer(catalog, names[i], spans.Keys, originalBytes.Keys + SetOf(names));
          return false;
        }
        forall j | 0 <= j < i ensures Apart(catalog, names[j], spans.Keys + {names[i]}) {
          ApartSymmetric(catalog, names[j], names[i], spans.Keys);
        }
        ApartSymmetric(catalog, names[i], names[i], spans.Keys);
        spans := spans[names[i] := catalog[names[i]]];
        assert spans.Keys == originalBytes.Keys + SetOf(names[..i]) + {names[i]};
        assert names[..i+1] == names[..i] + [names[i]];
      }
      assert names[..|names|] == names;
      ok := true;
    }

    /** The scan of one entry over all spans seen so far. */
    method OverlapsAny(name: string, span: Span, spans: map<string, Span>) returns (hit: bool)
      requires name in catalog && span == catalog[name]
      requires forall n :: n in spans ==> n in catalog && spans[n] == catalog[n]
      ensures !hit <==> Apart(catalog, name, spans.Keys)
    {
      var others := spans.Keys;
      while others != {}
        invariant others <= spans.Keys
        invariant Apart(catalog, name, spans.Keys - others)
        decreases others
      {
        var other :| other in others;
        if other != name && Overlap(span, spans[other]) { return true; }
        others := others - {other};
      }
      hit := false;
    }

    /** One pass of `restore_calibrations`: write the original bytes back, read them, and
        forget the entry only when they match. */
    method RestoreOne(name: string) returns (restored: bool)
      requires Valid() && name in originalBytes
      modifies this`originalBytes, this`originalSpans, slave
      ensures Valid()
      ensures originalBytes == if restored then old(originalBytes) - {name} else old(originalBytes)
      ensures OnlyIn(old(slave.mem), slave.mem, catalog[name])
      ensures Works(slave, catalog) && connected ==> restored
    {
      hide Confined, JournalOk, Bytes, OnlyIn, Total, PairwiseDisjoint, Patch;
      assert Works(slave, catalog) && connected ==> CanRestore(catalog[name]) by { WorksRestores(name); }
      hide Works, Accessible;
      var original, span := originalBytes[name], catalog[name];
      JournalEntry(catalog, originalBytes, origin, slave.mem, name);
      BytesOfPatch(slave.mem, span, original);
      var w := WriteMemory(slave, connected, span.start, original, span.extension);
      JournalCoversWrite(catalog, originalBytes, origin, old(slave.mem), slave.mem, name);
      StaysTotal(old(slave.mem), slave.mem, span);
      if w.Err? { return false; }
      var actual := ReadMemory(slave, connected, span.start, span.end - span.start, span.extension);
      if actual.Err? || actual.value != original { return false; }
      JournalDrops(catalog, originalBytes, origin, slave.mem, name);
      originalBytes, originalSpans := originalBytes - {name}, originalSpans - {name};
      restored := true;
    }

    /** Writing and reading back the span succeed. */
    ghost predicate CanRestore(s: Span)
      reads this`connected
    {
      && slave.faithful
      && Accessible(slave, connected, s.start, s.end - s.start, s.extension, 2)
      && Accessible(slave, connected, s.start, s.end - s.start, s.extension, 1)
    }

    lemma WorksRestores(name: string)
      requires name in catalog && catalog[name].start <= catalog[name].end
      ensures Works(slave, catalog) && connected ==> CanRestore(catalog[name])
    {}

    /** The loop of `restore_calibrations` over the selected names. */
    method RestoreNames(selected: seq<string>) returns (ok: bool)
      requires Valid()
      modifies this`originalBytes, this`originalSpans, slave
      ensures Valid()
      ensures originalBytes.Keys <= old(originalBytes.Keys)
      ensures forall n :: n in old(originalBytes) && n !in selected ==> n in originalBytes
      ensures ok ==> forall n :: n in selected ==> n !in originalBytes
      ensures !ok && Distinct(selected) ==> exists n :: n in selected && n in originalBytes
      ensures Confined(catalog, SetOf(selected), old(slave.mem), slave.mem)
      ensures Works(slave, catalog) && connected ==> ok
    {
      hide Confined, JournalOk, Total, Bytes, OnlyIn, Works;
      ghost var start := slave.mem;
      ok := true;
      ConfinedStart(catalog, SetOf(selected), start);
      for i := 0 to |selected|
        invariant Valid()
        invariant originalBytes.Keys <= old(originalBytes.Keys)
        invariant forall n :: n in old(originalBytes) && n !in selected ==> n in originalBytes
        invariant ok ==> forall j :: 0 <= j < i ==> selected[j] !in originalBytes
        invariant !ok && Distinct(selected) ==> exists j :: 0 <= j < i && selected[j] in originalBytes
        invariant Works(slave, catalog) && connected ==> ok
        invariant Confined(catalog, SetOf(selected), start, slave.mem)
      {
        var name := selected[i];
        if name in originalBytes {
          ghost var before := slave.mem;
          var restored := RestoreOne(name);
          ConfinedJoins(catalog, SetOf(selected), start, before, slave.mem, name);
          ok := ok && restored;
        }
      }
    }

    /** One entry of `write_calibrations`: journal the original bytes first, then write and verify. */
    method WriteOne(request: Request) returns (ok: bool)
      requires Valid() && attached && connected && request.name in catalog
      requires request.bytes.Some? ==> |request.bytes.value| == catalog[request.name].end - catalog[request.name].start
      requires Apart(catalog, request.name, originalBytes.Keys)
      modifies this`originalBytes, this`originalSpans, slave
      ensures Valid()
      ensures originalBytes.Keys == old(originalBytes.Keys) || originalBytes.Keys == old(originalBytes.Keys) + {request.name}
      ensures ok ==> request.name in originalBytes && Holds(catalog, request, slave.mem)
      ensures Works(slave, catalog) ==> request.name in originalBytes && ok == request.bytes.Some?
      ensures OnlyIn(old(slave.mem), slave.mem, catalog[request.name])
    {
      hide Confined, JournalOk, Bytes, OnlyIn, Total, PairwiseDisjoint, Apart, ValidSpan, Accessible;
      assert Works(slave, catalog) ==> CanRestore(catalog[request.name]) by { WorksRestores(request.name); }
      hide Works;
      var name, span := request.name, catalog[request.name];
      NothingWritten(slave.mem, span.extension, span.start, span.end);
      if name !in originalBytes {
        var journalled := JournalOriginal(name);
        if !journalled { return false; }
      }
      var w := WriteCharacteristic(slave, connected, span, request.bytes);
      JournalCoversWrite(catalog, originalBytes, origin, old(slave.mem), slave.mem, name);
      ok := w.Ok?;
    }

    method JournalOriginal(name: string) returns (ok: bool)
      requires Valid() && attached && connected && name in catalog && name !in originalBytes
      requires Apart(catalog, name, originalBytes.Keys)
      modifies this`originalBytes, this`originalSpans, slave`extension, slave`address
      ensures Valid()
      ensures originalBytes.Keys == if ok then old(originalBytes.Keys) + {name} else old(originalBytes.Keys)
      ensures CanRestore(catalog[name]) ==> ok
    {
      hide Confined, JournalOk, Bytes, Total, PairwiseDisjoint, Apart, ValidSpan, Accessible;
      var span := catalog[name];
      var original := ReadMemory(slave, connected, span.start, span.end - span.start, span.extension);
      if original.Err? { return false; }
      AccessibleSpan(slave, connected, span);
      JournalAdds(catalog, originalBytes, origin, slave.mem, name);
      originalBytes, originalSpans := originalBytes[name := original.value], originalSpans[name := span];
      ok := true;
    }

    /** One turn of the loop of `write_calibrations`. */
    method WriteNext(requests: seq<Request>, count: nat, ghost journalled: set<string>, ghost start: Memory) returns (ok: bool)
      requires Valid() && attached && connected && WellFormed(catalog, requests) && count < |requests|
      requires SetOf(NamesOf(requests)) <= catalog.Keys && NonOverlapping(catalog, journalled, NamesOf(requests))
      requires journalled <= originalBytes.Keys <= journalled + SetOf(NamesOf(requests)[..count])
      requires AllHold(catalog, requests, count, slave.mem) && Confined(catalog, SetOf(NamesOf(requests)), start, slave.mem)
      modifies this`originalBytes, this`originalSpans, slave
      ensures Valid()
      ensures old(originalBytes.Keys) <= originalBytes.Keys <= journalled + SetOf(NamesOf(requests)[..count + 1])
      ensures AllHold(catalog, requests, if ok then count + 1 else count, slave.mem)
      ensures Works(slave, catalog) ==>
        && ok == requests[count].bytes.Some?
        && originalBytes.Keys == old(originalBytes.Keys) + {requests[count].name}
      ensures ok ==> requests[count].name in originalBytes
      ensures SetOf(NamesOf(requests)[..count + 1]) == SetOf(NamesOf(requests)[..count]) + {requests[count].name}
      ensures Confined(catalog, SetOf(NamesOf(requests)), start, slave.mem)
    {
      hide Confined, JournalOk, Total, Bytes, OnlyIn, Holds, AllHold, Apart, NamesOf, WellFormed, NonOverlapping, SetOf, Works;
      ghost var before := slave.mem;
      EntryReady(catalog, requests, journalled, originalBytes.Keys, count);
      ok := WriteOne(requests[count]);
      ConfinedJoins(catalog, SetOf(NamesOf(requests)), start, before, slave.mem, requests[count].name);
      StillHold(catalog, requests, count, before, slave.mem);
      if ok { HoldsOneMore(catalog, requests, count, slave.mem); }
    }

    /** The `try` block of `write_calibrations`: `count` is how many entries were written. */
    method WriteEntries(requests: seq<Request>) returns (count: nat)
      requires Valid() && attached && connected && WellFormed(catalog, requests)
      requires SetOf(NamesOf(requests)) <= catalog.Keys
      requires NonOverlapping(catalog, originalBytes.Keys, NamesOf(requests))
      modifies this`originalBytes, this`originalSpans, slave
      ensures Valid() && count <= |requests|
      ensures old(originalBytes.Keys) <= originalBytes.Keys
      ensures originalBytes.Keys <= old(originalBytes.Keys) + SetOf(NamesOf(requests)[..Min(count + 1, |requests|)])
      ensures AllHold(catalog, requests, count, slave.mem)
      ensures Works(slave, catalog) ==>
        && count == FirstBad(requests)
        && originalBytes.Keys == old(originalBytes.Keys) + SetOf(NamesOf(requests)[..Min(count + 1, |requests|)])
      ensures Confined(catalog, SetOf(NamesOf(requests)), old(slave.mem), slave.mem)
    {
      hide Confined, JournalOk, Total, Bytes, OnlyIn, Holds, AllHold, Apart, NamesOf, WellFormed, NonOverlapping, SetOf, Works, FirstBad;
      ghost var names, start := NamesOf(requests), originalBytes.Keys;
      ConfinedStart(catalog, SetOf(names), slave.mem);
      NoneHold(catalog, requests, slave.mem);
      NoNames(names);
      count := 0;
      while count < |requests|
        invariant Valid() && count <= |requests| == |names|
        invariant start <= originalBytes.Keys <= start + SetOf(names[..count])
        invariant AllHold(catalog, requests, count, slave.mem)
        invariant Confined(catalog, SetOf(names), old(slave.mem), slave.mem)
        invariant Works(slave, catalog) ==> count <= FirstBad(requests) && originalBytes.Keys == start + SetOf(names[..count])
      {
        var ok := WriteNext(requests, count, start, old(slave.mem));
        if !ok { return; }
        count := count + 1;
      }
      assert names[..|names|] == names;
    }

    /** `restore_calibrations`: all pending names, in any order, or the given ones. */
    method RestoreCalibrations(names: Option<seq<string>>) returns (r: Outcome)
      requires Valid()
      modifies this`originalBytes, this`originalSpans, slave
      ensures Valid()
      ensures !(attached && connected) ==> r == NoClient
      ensures r == Done && names.None? ==> originalBytes == map[] && slave.mem == origin
      ensures r == Done && names.Some? ==> forall n :: n in names.value && n != "" ==> n !in originalBytes
      ensures originalBytes.Keys <= old(originalBytes.Keys)
      ensures r in {Done, RestoreFailed, NoClient, EmptyRequest}
      ensures r == NoClient || r == EmptyRequest ==> slave.mem == old(slave.mem) && originalBytes == old(originalBytes)
      ensures r == RestoreFailed ==> exists n :: n in originalBytes && (names.None? || n in names.value)
      ensures PutBack(catalog, old(originalBytes), originalBytes, slave.mem)
      ensures Works(slave, catalog) && attached && connected ==> r == Done || (r == EmptyRequest && names.Some?)
    {
      hide Confined, JournalOk, Total, Bytes, OnlyIn, Works, PutBack;
      RemovedIsBack(catalog, originalBytes, originalBytes, origin, slave.mem, slave.mem);
      if !(attached && connected) { return NoClient; }
      var selected;
      if names.None? {
        selected := Listing(originalBytes.Keys);
      } else {
        selected := UniqueNames(names.value);
        if selected == [] { return EmptyRequest; }
      }
      ghost var before, start := originalBytes, slave.mem;
      var ok := RestoreNames(selected);
      RemovedIsBack(catalog, before, originalBytes, origin, start, slave.mem);
      if names.None? && ok {
        assert originalBytes.Keys == {};
        JournalEmpty(catalog, originalBytes, origin, slave.mem);
      }
      r := if ok then Done else RestoreFailed;
    }

    /** `write_calibrations`. Success: every requested value is in effect and journalled.
        `WriteFailed`: whatever the call journalled is restored, except under an empty name; if none
        of its names was pending before, the call left no trace at all exactly when no empty name
        was journalled. Refusals change nothing. */
    method WriteCalibrations(requests: seq<Request>) returns (r: Outcome)
      requires Valid() && WellFormed(catalog, requests)
      modifies this`originalBytes, this`originalSpans, slave
      ensures Valid()
      ensures r == EmptyRequest <==> requests == []
      ensures r == NoClient <==> requests != [] && !(attached && connected)
      ensures requests != [] && attached && connected ==> (r == UnknownName <==> !(SetOf(NamesOf(requests)) <= catalog.Keys))
      ensures requests != [] && attached && connected && SetOf(NamesOf(requests)) <= catalog.Keys ==>
        (r == Overlapping <==> !NonOverlapping(catalog, old(originalBytes.Keys), NamesOf(requests)))
      ensures r in {EmptyRequest, NoClient, UnknownName, Overlapping} ==>
        slave.mem == old(slave.mem) && originalBytes == old(originalBytes)
      ensures r in {EmptyRequest, NoClient, UnknownName, Overlapping, Done, WriteFailed, RestoreFailed}
      ensures r == Done ==> AllHold(catalog, requests, |requests|, slave.mem) && old(originalBytes.Keys) <= originalBytes.Keys
      ensures r == WriteFailed ==> originalBytes.Keys - {""} <= old(originalBytes.Keys)
      ensures r == WriteFailed && "" !in NamesOf(requests) ==> originalBytes.Keys <= old(originalBytes.Keys)
      ensures r == WriteFailed && SetOf(NamesOf(requests)) !! old(originalBytes.Keys) ==>
        (slave.mem == old(slave.mem) && originalBytes.Keys == old(originalBytes.Keys)
         <==> !("" in NamesOf(requests) && "" in originalBytes))
      ensures Works(slave, catalog) && AllEncode(requests) ==> r != WriteFailed && r != RestoreFailed
      ensures Works(slave, catalog) && r !in {EmptyRequest, NoClient, UnknownName, Overlapping} && !AllEncode(requests) ==>
        && r == (if UniqueNames(Tried(requests)) == [] then RestoreFailed else WriteFailed)
        && ("" in Tried(requests) ==> "" in originalBytes)
        && (SetOf(NamesOf(requests)) !! old(originalBytes.Keys) ==>
          (slave.mem == old(slave.mem) && originalBytes.Keys == old(originalBytes.Keys) <==> "" !in Tried(requests)))
        && HoldsUnderEmpty(catalog, requests, FirstBad(requests), slave.mem)
      ensures Confined(catalog, SetOf(NamesOf(requests)), old(slave.mem), slave.mem)
    {
      hide Works, AllEncode, HoldsUnderEmpty, Overlap, Apart, Distinct;
      hide Confined, JournalOk, Total, Bytes, OnlyIn, NonOverlapping, WellFormed, AllHold, PairwiseDisjoint, NamesOf;
      var names := NamesOf(requests);
      ConfinedStart(catalog, SetOf(names), slave.mem);
      if requests == [] { return EmptyRequest; }
      if !(attached && connected) { return NoClient; }
      if !(SetOf(NamesOf(requests)) <= catalog.Keys) { return UnknownName; }
      var apart := ValidateNonOverlapping(NamesOf(requests));
      if !apart { return Overlapping; }
      var count := WriteEntries(requests);
      if count == |requests| { return Done; }
      hide FirstBad;
      ghost var written := slave.mem;
      var restored := Recover(names, count + 1, old(originalBytes), old(slave.mem));
      EmptyStays(catalog, requests, old(originalBytes.Keys), count, written, slave.mem);
      r := if restored then WriteFailed else RestoreFailed;
    }

    /** The way out of a failed write: the first `count` names are restored, those that are empty
        excepted; with no other name it fails at once. */
    method Recover(names: seq<string>, count: nat, ghost before: Journal, ghost start: Memory) returns (restored: bool)
      requires Valid() && attached && connected && count <= |names| && SetOf(names) <= catalog.Keys
      requires JournalOk(catalog, before, origin, start) && NonOverlapping(catalog, before.Keys, names)
      requires before.Keys <= originalBytes.Keys <= before.Keys + SetOf(names[..count])
      requires Confined(catalog, SetOf(names), start, slave.mem)
      modifies this`originalBytes, this`originalSpans, slave
      ensures Valid()
      ensures restored ==> originalBytes.Keys == old(originalBytes.Keys) - (SetOf(names[..count]) - {""})
      ensures UniqueNames(names[..count]) == [] ==> !restored && originalBytes == old(originalBytes)
      ensures "" in old(originalBytes) ==> "" in originalBytes
      ensures originalBytes.Keys <= before.Keys && SetOf(names) !! before.Keys ==>
        restored ==> slave.mem == start && originalBytes.Keys == before.Keys
      ensures Confined(catalog, SetOf(names), start, slave.mem)
      ensures Confined(catalog, SetOf(names) - {""}, old(slave.mem), slave.mem)
      ensures Works(slave, catalog) ==> (restored <==> UniqueNames(names[..count]) != [])
    {
      hide Confined, JournalOk, Total, Bytes, OnlyIn, NonOverlapping, PairwiseDisjoint, Works;
      ghost var written, middle := originalBytes.Keys, slave.mem;
      var selected := UniqueNames(names[..count]);
      ConfinedStart(catalog, SetOf(names) - {""}, middle);
      if selected == [] { return false; }
      restored := RestoreNames(selected);
      hide UniqueNames;
      ConfinedMore(catalog, SetOf(names) - {""}, SetOf(selected), middle, middle, slave.mem);
      ConfinedMore(catalog, SetOf(names), SetOf(selected), start, middle, slave.mem);
      if !restored { return; }
      assert forall n :: n in originalBytes <==> n in written && n !in selected;
      hide SetOf;
      if originalBytes.Keys <= before.Keys && SetOf(names) !! before.Keys {
        RolledBack(catalog, before, originalBytes, origin, start, slave.mem, names);
        OthersStay(before.Keys, written, originalBytes.Keys, names, selected);
      }
    }

    /** `connect`, with every way it can fail. The connect-time memory becomes the reference.
        `dropped` are the pending names whose originals the call forgets without having tried to
        put them back. */
    method Connect(how: Answers) returns (r: Outcome, dropped: set<string>)
      requires Valid()
      modifies this, slave
      ensures Valid()
      ensures r == Done ==> attached && connected && originalBytes == map[] && origin == slave.mem
      ensures r == Done && !(old(attached) && old(connected)) ==> slave.mem == old(slave.mem)
      ensures r == Done && old(attached) && (old(connected) || old(originalBytes) == map[]) ==> slave.mem == old(origin)
      ensures dropped == if (old(attached) && old(connected)) || !how.answers then {} else old(originalBytes.Keys)
      ensures r == Done ==> (dropped == {} <==> old(Live()))
      ensures old(Live()) ==> Live()
      ensures r == Done && dropped != {} ==> slave.mem == old(slave.mem)
      ensures dropped == {} && old(Restored()) ==> Restored() && origin == old(origin)
      ensures how == ALL_WELL && (Works(slave, catalog) || !(old(attached) && old(connected))) ==> r == Done
    {
      if attached && originalBytes == map[] { JournalEmpty(catalog, originalBytes, origin, slave.mem); }
      hide Confined, JournalOk, Total, Bytes, OnlyIn, Works;
      if attached && connected {
        r, dropped := Disconnect(true, how);
        if r != Done { return; }
      }
      r, dropped := Open(how);
    }

    /** The new client: its first answer, then the journal is cleared, then its description. */
    method Open(how: Answers) returns (r: Outcome, dropped: set<string>)
      requires Valid()
      modifies this
      ensures Valid()
      ensures r == if how.answers && how.describes then Done else ConnectFailed
      ensures r == Done ==> attached && connected && originalBytes == map[] && origin == slave.mem
      ensures dropped == if how.answers then old(originalBytes.Keys) else {}
      ensures how.answers ==> origin == slave.mem && originalBytes == map[] && connected
      ensures !how.answers ==> origin == old(origin) && originalBytes == old(originalBytes) && !attached
    {
      hide Confined, JournalOk, Total, Bytes;
      if !how.answers {
        attached := false;
        return ConnectFailed, {};
      }
      dropped := originalBytes.Keys;
      attached, connected, originalBytes, originalSpans := true, true, map[], map[];
      origin := slave.mem;
      JournalStart(catalog, slave.mem);
      attached := how.describes;
      r := if how.describes then Done else ConnectFailed;
    }

    /** `disconnect`: with `restore` it returns normally from an attached session only if the
        slave memory is byte for byte what it was at connect time. `dropped` are the pending names
        that a disconnect without `restore` gives up. */
    method Disconnect(restore: bool, how: Answers) returns (r: Outcome, dropped: set<string>)
      requires Valid()
      modifies this`attached, this`originalBytes, this`originalSpans, slave
      ensures Valid() && origin == old(origin)
      ensures r == Done ==> !attached && originalBytes == map[]
      ensures restore && old(attached) && !attached ==> slave.mem == origin && originalBytes == map[]
      ensures !restore || !old(attached) ==> slave.mem == old(slave.mem)
      ensures restore && old(originalBytes) != map[] && !(old(attached) && old(connected)) ==>
        r != Done && slave.mem == old(slave.mem) && originalBytes == old(originalBytes)
      ensures !old(attached) ==> !attached
      ensures restore && old(Live()) ==> Live()
      ensures restore && !old(attached) ==> originalBytes == old(originalBytes)
      ensures dropped == if restore || r == StopFailed then {} else old(originalBytes.Keys)
      ensures !restore && dropped == {} ==> originalBytes == old(originalBytes)
      ensures dropped == {} && old(Restored()) ==> Restored() && origin == old(origin)
      ensures restore && how.stops && how.closes && Works(slave, catalog) && old(attached) && old(connected) ==> r == Done
    {
      hide JournalOk, Confined, Total, Works;
      if attached {
        r, dropped := Leave(restore, how);
      } else if restore && originalBytes != map[] {
        r, dropped := PendingWithoutClient, {};
      } else {
        r, dropped := Done, if restore then {} else originalBytes.Keys;
        originalBytes, originalSpans := map[], map[];
      }
    }

    /** `disconnect` while there is a client: restore, stop the acquisition, close. */
    method Leave(restore: bool, how: Answers) returns (r: Outcome, dropped: set<string>)
      requires Valid() && attached
      modifies this`attached, this`originalBytes, this`originalSpans, slave
      ensures Valid()
      ensures r == Done ==> !attached && originalBytes == map[]
      ensures restore && !attached ==> slave.mem == origin && originalBytes == map[]
      ensures !restore ==> slave.mem == old(slave.mem)
      ensures restore && old(originalBytes) != map[] && !old(connected) ==>
        r != Done && slave.mem == old(slave.mem) && originalBytes == old(originalBytes)
      ensures dropped == if restore || r == StopFailed then {} else old(originalBytes.Keys)
      ensures !restore && dropped == {} ==> originalBytes == old(originalBytes)
      ensures dropped == {} && !attached ==> slave.mem == origin
      ensures attached || originalBytes == map[]
      ensures old(originalBytes) == map[] ==> originalBytes == map[]
      ensures restore && how.stops && how.closes && Works(slave, catalog) && old(connected) ==> r == Done
    {
      hide JournalOk, Total, Works;
      dropped := {};
      if restore {
        r := RestoreAll();
        if r != Done { return; }
      } else {
        PendingOrRestored();
      }
      if !how.stops { return StopFailed, dropped; }
      if !restore { dropped := originalBytes.Keys; }
      attached, originalBytes, originalSpans := false, map[], map[];
      r := if how.closes then Done else DisconnectFailed;
    }

    /** The restore of a disconnect: nothing to do, no link, or every pending original. */
    method RestoreAll() returns (r: Outcome)
      requires Valid() && attached
      modifies this`originalBytes, this`originalSpans, slave
      ensures Valid()
      ensures r == Done ==> originalBytes == map[] && slave.mem == origin
      ensures r !in {StopFailed, DisconnectFailed}
      ensures old(originalBytes) == map[] ==> originalBytes == map[]
      ensures old(originalBytes) != map[] && !connected ==>
        r != Done && slave.mem == old(slave.mem) && originalBytes == old(originalBytes)
      ensures Works(slave, catalog) && connected ==> r == Done
    {
      PendingOrRestored();
      hide JournalOk, Total, Works, PutBack;
      if originalBytes == map[] { return Done; }
      if !connected { return LinkLost; }
      r := RestoreCalibrations(None);
    }

    lemma PendingOrRestored()
      requires Valid() && attached
      ensures originalBytes != map[] || slave.mem == origin
    {
      if originalBytes == map[] { JournalEmpty(catalog, originalBytes, origin, slave.mem); }
    }

    /** The client object is closed behind the session's back. */
    method LoseClient()
      requires Valid()
      modifies this`connected
      ensures Valid() && !connected
    {
      hide JournalOk;
      connected := false;
    }
  }

  datatype Command =
    | Attach(how: Answers) | Write(requests: seq<Request>) | Restore(names: Option<seq<string>>)
    | Detach(restore: bool, how: Answers) | Lose

  /** Every run of session calls, each failing wherever it likes, keeps the journal's promise.
      `dropped` are the names that some call gave up while they were pending: a disconnect without
      `restore`, or a connect of a session that was not live. While there are none, the connect-time
      memory is back unless some original is pending. There are none in a careful run, whatever fails. */
  method RunSession(session: Session, commands: seq<Command>) returns (dropped: set<string>)
    requires session.Valid()
    requires forall i :: 0 <= i < |commands| && commands[i].Write? ==> WellFormed(session.catalog, commands[i].requests)
    modifies session, session.slave
    ensures session.Valid()
    ensures dropped == {} && old(session.Restored()) ==> session.Restored() && session.origin == old(session.origin)
    ensures Careful(commands, old(session.Live())) ==> dropped == {}
    ensures Undisturbed(commands) && Works(session.slave, session.catalog) && old(session.attached && session.connected) ==>
      session.attached && session.connected && dropped == {}
  {
    hide JournalOk, WellFormed, Confined, Total, PutBack, Works, AllHold, NonOverlapping, NamesOf, Bytes, HoldsUnderEmpty;
    dropped := {};
    for i := 0 to |commands|
      invariant session.Valid()
      invariant dropped == {} && old(session.Restored()) ==> session.Restored() && session.origin == old(session.origin)
      invariant Careful(commands, old(session.Live())) ==> dropped == {}
      invariant Careful(commands, old(session.Live())) && old(session.Live()) && NoneLost(commands, i) ==> session.Live()
      invariant Undisturbed(commands) && Works(session.slave, session.catalog) && old(session.attached && session.connected) ==>
        session.attached && session.connected && dropped == {}
    {
      var r, more := Done, {};
      match commands[i] {
        case Attach(how) => r, more := session.Connect(how);
        case Write(requests) => r := session.WriteCalibrations(requests);
        case Restore(names) => r := session.RestoreCalibrations(names);
        case Detach(restore, how) => r, more := session.Disconnect(restore, how);
        case Lose => session.LoseClient();
      }
      assert dropped + more == {} ==> dropped == {} && more == {};
      dropped := dropped + more;
    }
  }

  /** Every disconnect restores, and nobody connects after the link was lost, or at all if the
      session was not live. */
  predicate Careful(commands: seq<Command>, live: bool) {
    forall j :: 0 <= j < |commands| ==>
      && (commands[j].Detach? ==> commands[j].restore)
      && (commands[j].Attach? ==> live && NoneLost(commands, j))
  }

  predicate NoneLost(commands: seq<Command>, n: nat)
    requires n <= |commands|
  {
    forall i :: 0 <= i < n ==> !commands[i].Lose?
  }

  /** The link is never lost, nobody disconnects, and every connect goes well. */
  predicate Undisturbed(commands: seq<Command>) {
    forall i :: 0 <= i < |commands| ==>
      !commands[i].Lose? && !commands[i].Detach? && (commands[i].Attach? ==> commands[i].how == ALL_WELL)
  }

  /** Nothing a session did survives a clean disconnect: from the connect, through any run of
      writes, restores, further connects, disconnects and failures that gives no pending value up,
      to a `disconnect(restore=True)` that returns normally. A careful run gives nothing up, whatever
      fails. In an undisturbed run on a link where nothing fails the disconnect does return normally. */
  method LeavesNoTrace(slave: Slave, catalog: Catalog, connect: Answers, commands: seq<Command>, disconnect: Answers)
    returns (clean: bool, dropped: set<string>)
    requires Total(slave.mem) && forall n :: n in catalog ==> catalog[n].start < catalog[n].end
    requires forall i :: 0 <= i < |commands| && commands[i].Write? ==> WellFormed(catalog, commands[i].requests)
    modifies slave
    ensures clean && dropped == {} ==> slave.mem == old(slave.mem)
    ensures Careful(commands, true) ==> dropped == {} && (clean ==> slave.mem == old(slave.mem))
    ensures Works(slave, catalog) && connect == ALL_WELL && disconnect == ALL_WELL && Undisturbed(commands) ==>
      clean && dropped == {}
  {
    hide JournalOk, WellFormed, Confined, Total, Works, Undisturbed, Careful;
    var session := new Session(slave, catalog);
    var up, none := session.Connect(connect);
    if up != Done { return false, none; }
    dropped := RunSession(session, commands);
    var closed, last := session.Disconnect(true, disconnect);
    clean := closed == Done;
  }

  /** The exception: a session whose link was lost while a value was pending and that connects
      again forgets it. On a link where nothing else ever fails, the written value is still there
      after a `disconnect(restore=True)` that returns normally. */
  method ReconnectForgets(slave: Slave, catalog: Catalog, name: string, bytes: seq<byte>) returns (clean: bool)
    requires Total(slave.mem) && Works(slave, catalog) && name in catalog
    requires forall n :: n in catalog ==> ValidSpan(catalog[n]) && catalog[n].start < catalog[n].end
    requires |bytes| == catalog[name].end - catalog[name].start && bytes != Bytes(slave.mem, catalog[name])
    modifies slave
    ensures clean && Total(slave.mem) && Bytes(slave.mem, catalog[name]) == bytes && slave.mem != old(slave.mem)
  {
    hide JournalOk, Confined, Total, Works, Bytes, OnlyIn, ValidSpan;
    var request := [Request(name, Some(bytes))];
    assert NamesOf(request) == [name] && WellFormed(catalog, request);
    assert SetOf(NamesOf(request)) == {name} && NonOverlapping(catalog, {}, NamesOf(request));
    hide WellFormed, NonOverlapping;
    var session := new Session(slave, catalog);
    var up, none := session.Connect(ALL_WELL);
    var written := session.WriteCalibrations(request);
    assert AllHold(catalog, request, 1, slave.mem) && Holds(catalog, request[0], slave.mem);
    session.LoseClient();
    var again, dropped := session.Connect(ALL_WELL);
    var closed, nothing := session.Disconnect(true, ALL_WELL);
    clean := closed == Done;
  }

  /** A failed write that names an empty name: on a link where nothing fails, the value written
      under the empty name stays in memory and pending although the call reports that it rolled
      back, because the second value cannot be encoded and the restore skips empty names. */
  method EmptyNameStaysPending(slave: Slave, catalog: Catalog, other: string, bytes: seq<byte>)
    returns (session: Session, r: Outcome)
    requires Total(slave.mem) && Works(slave, catalog) && "" in catalog && other in catalog && other != ""
    requires forall n :: n in catalog ==> ValidSpan(catalog[n]) && catalog[n].start < catalog[n].end
    requires !Overlap(catalog[""], catalog[other]) && !Overlap(catalog[other], catalog[""])
    requires |bytes| == catalog[""].end - catalog[""].start && bytes != Bytes(slave.mem, catalog[""])
    modifies slave
    ensures r == WriteFailed && session.Valid() && session.originalBytes.Keys == {""} && slave.mem != old(slave.mem)
  {
    hide JournalOk, Confined, Total, Works, Bytes, ValidSpan, WellFormed, NonOverlapping, Overlap, UniqueNames, Tried, AllEncode;
    hide NamesOf, SetOf, FirstBad, AllHold, Reaches;
    var requests := [Request("", Some(bytes)), Request(other, None)];
    TwoRequests(catalog, other, bytes);
    session := new Session(slave, catalog);
    var up, none := session.Connect(ALL_WELL);
    assert session.originalBytes.Keys == {};
    r := session.WriteCalibrations(requests);
    EmptyHeld(catalog, requests, bytes, slave.mem);
  }

  lemma EmptyHeld(catalog: Catalog, requests: seq<Request>, bytes: seq<byte>, mem: Memory)
    requires |requests| > 1 && requests[0] == Request("", Some(bytes)) && HoldsUnderEmpty(catalog, requests, 1, mem)
    ensures Total(mem) && "" in catalog && ValidSpan(catalog[""]) && Bytes(mem, catalog[""]) == bytes
  {
    assert Holds(catalog, requests[0], mem);
  }

  lemma TwoRequests(catalog: Catalog, other: string, bytes: seq<byte>)
    requires "" in catalog && other in catalog && other != ""
    requires !Overlap(catalog[""], catalog[other]) && !Overlap(catalog[other], catalog[""])
    requires |bytes| == catalog[""].end - catalog[""].start
    ensures var requests := [Request("", Some(bytes)), Request(other, None)];
      && WellFormed(catalog, requests) && SetOf(NamesOf(requests)) == {"", other} && !AllEncode(requests)
      && NonOverlapping(catalog, {}, NamesOf(requests))
      && FirstBad(requests) == 1 && "" in Tried(requests) && UniqueNames(Tried(requests)) != []
  {
    var requests := [Request("", Some(bytes)), Request(other, None)];
    assert NamesOf(requests) == ["", other];
    assert requests[1..][0] == requests[1] && FirstBad(requests) == 1;
    assert Tried(requests) == ["", other];
    assert other in UniqueNames(["", other]);
  }

  /** Any enumeration of the pending names. */
  method Listing(names: set<string>) returns (list: seq<string>)
    ensures SetOf(list) == names && Distinct(list)
  {
    list := [];
    var rest := names;
    while rest != {}
      invariant rest <= names && SetOf(list) == names - rest && Distinct(list)
      decreases rest
    {
      var n :| n in rest;
      assert SetOf(list + [n]) == SetOf(list) + {n} && n !in list;
      list, rest := list + [n], rest - {n};
    }
  }

  ghost predicate Distinct(names: seq<string>) { forall i, j :: 0 <= i < j < |names| ==> names[i] != names[j] }

  /** `_unique_names`: the first occurrence of every name that is not empty. */
  function UniqueNames(names: seq<string>): (r: seq<string>)
    ensures forall n :: n in r <==> n in names && n != ""
    ensures Distinct(r)
  {
    if names == [] then []
    else
      var before, last := UniqueNames(names[..|names|-1]), names[|names|-1];
      if last == "" || last in before then before else before + [last]
  }

  lemma AccessibleSpan(slave: Slave, connected: bool, span: Span)
    requires span.start < span.end && Accessible(slave, connected, span.start, span.end - span.start, span.extension, 1)
    ensures ValidSpan(span)
  {}

  /** What the checks before the loop guarantee for entry `count` when its turn comes. */
  lemma EntryReady(catalog: Catalog, requests: seq<Request>, start: set<string>, now: set<string>, count: nat)
    requires WellFormed(catalog, requests) && SetOf(NamesOf(requests)) <= catalog.Keys && count < |requests|
    requires NonOverlapping(catalog, start, NamesOf(requests)) && now <= start + SetOf(NamesOf(requests)[..count])
    ensures var r := requests[count];
      && r.name in catalog && r.name in SetOf(NamesOf(requests))
      && (r.bytes.Some? ==> |r.bytes.value| == catalog[r.name].end - catalog[r.name].start)
      && Apart(catalog, r.name, now) && Apart(catalog, r.name, SetOf(NamesOf(requests)))
      && (forall j :: 0 <= j < count ==> requests[j].name != r.name)
    ensures SetOf(NamesOf(requests)[..count + 1]) == SetOf(NamesOf(requests)[..count]) + {requests[count].name}
  {
    hide Overlap;
    var names := NamesOf(requests);
    assert names[count] in names && names[..count + 1] == names[..count] + [names[count]];
    ApartWithin(catalog, names[count], now, start + SetOf(names));
    ApartWithin(catalog, names[count], SetOf(names), start + SetOf(names));
  }

  /** A failed call none of whose names was pending, once rolled back, changed no byte. */
  lemma RolledBack(catalog: Catalog, before: Journal, now: Journal, origin: Memory, start: Memory, mem: Memory, names: seq<string>)
    requires JournalOk(catalog, before, origin, start) && JournalOk(catalog, now, origin, mem)
    requires now.Keys <= before.Keys && SetOf(names) !! before.Keys && SetOf(names) <= catalog.Keys
    requires NonOverlapping(catalog, before.Keys, names) && Confined(catalog, SetOf(names), start, mem)
    ensures mem == start
  {
    hide Bytes, Total, ValidSpan, PairwiseDisjoint;
    forall l | l in start ensures mem[l] == start[l] {
      if Inside(catalog, SetOf(names), l) {
        var n :| n in SetOf(names) && n in catalog && InSpan(l, catalog[n]);
        assert Apart(catalog, n, before.Keys + SetOf(names));
        assert forall k :: k in before.Keys && k in catalog ==> !InSpan(l, catalog[k]);
        assert !Inside(catalog, before.Keys, l) && !Inside(catalog, now.Keys, l);
        assert start[l] == origin[l] && mem[l] == origin[l];
      }
    }
  }

  lemma OthersStay(before: set<string>, written: set<string>, now: set<string>, names: seq<string>, selected: seq<string>)
    requires before <= written && SetOf(names) !! before && now <= before
    requires forall n :: n in selected ==> n in names
    requires forall n :: n in now <==> n in written && n !in selected
    ensures now == before
  {
    assert forall n :: n in before ==> n !in SetOf(names);
  }

  lemma NoNames(names: seq<string>)
    ensures SetOf(names[..0]) == {}
  {}

  lemma NoneHold(catalog: Catalog, requests: seq<Request>, mem: Memory)
    ensures AllHold(catalog, requests, 0, mem)
  {}

  lemma ConfinedStart(catalog: Catalog, names: set<string>, mem: Memory)
    ensures Confined(catalog, names, mem, mem)
  {}

  lemma StaysTotal(before: Memory, after: Memory, s: Span)
    requires Total(before) && OnlyIn(before, after, s)
    ensures Total(after)
  {}

  lemma JournalEntry(catalog: Catalog, journal: Journal, origin: Memory, mem: Memory, n: string)
    requires JournalOk(catalog, journal, origin, mem) && n in journal
    ensures n in catalog && ValidSpan(catalog[n]) && |journal[n]| == catalog[n].end - catalog[n].start
  {}
}
