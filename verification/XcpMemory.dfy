/** Chunked byte access to slave memory over XCP (ASAM MCD-1 XCP V1.0, Part 2 Protocol
    Layer, section 1.6: SET_MTA, UPLOAD and DOWNLOAD).

    The slave and the transport are foreign code. Any command may fail; a DOWNLOAD that
    fails or is corrupted may leave anything in the bytes it addressed and touches nothing
    else; an UPLOAD of the right length tells the truth. On a `faithful` link every command
    succeeds and stores what it was sent. */
module XcpMemory {
  import opened Common

  const ADDRESS_LIMIT: nat := 0x1_0000_0000
  const EXTENSION_LIMIT: nat := 0x100

  datatype Error = BadSize | BadAddress | NotConnected | NotByteAddressed | MaxCtoTooSmall | CommandFailed | ShortUpload | NotReadBack | BadValue
  type Reply<T> = Result<T, Error>

  datatype Location = Location(extension: nat, address: nat)
  datatype Span = Span(extension: nat, start: nat, end: nat)

  type Memory = map<Location, byte>

  predicate InSpan(l: Location, s: Span) { l.extension == s.extension && s.start <= l.address < s.end }

  predicate ValidSpan(s: Span) { s.extension < EXTENSION_LIMIT && s.start < ADDRESS_LIMIT && s.start <= s.end <= ADDRESS_LIMIT }

  /** Every location a command can address exists. */
  ghost predicate Total(m: Memory) {
    forall l: Location :: l.extension < EXTENSION_LIMIT && l.address < ADDRESS_LIMIT ==> l in m
  }

  function Bytes(m: Memory, s: Span): (b: seq<byte>)
    requires ValidSpan(s) && Total(m)
    ensures |b| == s.end - s.start
  {
    seq(s.end - s.start, i requires 0 <= i < s.end - s.start => m[Location(s.extension, s.start + i)])
  }

  /** `m` with the bytes of the span replaced by the payload. */
  function Patch(m: Memory, s: Span, payload: seq<byte>): (p: Memory)
    requires s.start + |payload| == s.end
    ensures p.Keys == m.Keys
  {
    map l | l in m :: if InSpan(l, s) then payload[l.address - s.start] else m[l]
  }

  lemma BytesOfPatch(m: Memory, s: Span, payload: seq<byte>)
    requires ValidSpan(s) && Total(m) && s.start + |payload| == s.end
    ensures Total(Patch(m, s, payload)) && Bytes(Patch(m, s, payload), s) == payload
  {}

  /** Two adjacent writes are one write of the concatenation. */
  lemma PatchAppend(m: Memory, extension: nat, start: nat, a: seq<byte>, b: seq<byte>)
    ensures Patch(Patch(m, Span(extension, start, start + |a|), a), Span(extension, start + |a|, start + |a| + |b|), b)
         == Patch(m, Span(extension, start, start + |a| + |b|), a + b)
  {}

  lemma BytesAppend(m: Memory, extension: nat, start: nat, mid: nat, end: nat)
    requires Total(m) && ValidSpan(Span(extension, start, end)) && start <= mid < end
    ensures Bytes(m, Span(extension, start, mid)) + Bytes(m, Span(extension, mid, end)) == Bytes(m, Span(extension, start, end))
  {}

  lemma NoBytes(m: Memory, extension: nat, address: nat)
    requires Total(m) && ValidSpan(Span(extension, address, address))
    ensures Bytes(m, Span(extension, address, address)) == []
  {}

  /** Only locations of the span may differ. */
  ghost predicate OnlyIn(before: Memory, after: Memory, s: Span) {
    after.Keys == before.Keys && forall l :: l in before && !InSpan(l, s) ==> after[l] == before[l]
  }

  class Slave {
    var mem: Memory
    var extension: nat  // memory transfer address
    var address: nat
    const maxCto: nat
    const byteAddressed: bool
    const faithful: bool

    constructor (mem: Memory, maxCto: nat, byteAddressed: bool, faithful: bool)
      requires Total(mem)
      ensures this.mem == mem && this.maxCto == maxCto && this.byteAddressed == byteAddressed && this.faithful == faithful
    {
      this.mem, this.maxCto, this.byteAddressed, this.faithful := mem, maxCto, byteAddressed, faithful;
      extension, address := 0, 0;
    }

    method SetMta(toAddress: nat, toExtension: nat) returns (ok: bool)
      modifies this`extension, this`address
      ensures faithful ==> ok
      ensures ok ==> address == toAddress && extension == toExtension
    {
      ok := *;
      if faithful || ok { ok, address, extension := true, toAddress, toExtension; }
    }

    method Upload(count: nat) returns (ok: bool, data: seq<byte>)
      requires Total(mem) && 1 <= count <= 0xFF && count + 1 <= maxCto
      requires ValidSpan(Span(extension, address, address + count))
      modifies this`address
      ensures faithful ==> ok && |data| == count
      ensures ok && |data| == count ==>
        data == Bytes(mem, Span(extension, old(address), old(address) + count)) && address == old(address) + count
    {
      var fails, short := *, *;
      if faithful || !fails {
        ok, data, address := true, Bytes(mem, Span(extension, address, address + count)), address + count;
      } else {
        ok, data := short, [];
      }
    }

    method Download(payload: seq<byte>) returns (ok: bool)
      requires 1 <= |payload| <= 0xFF && |payload| + 2 <= maxCto
      modifies this`mem, this`address
      ensures OnlyIn(old(mem), mem, Span(extension, old(address), old(address) + |payload|))
      ensures faithful ==> ok && mem == Patch(old(mem), Span(extension, old(address), old(address) + |payload|), payload)
      ensures ok ==> address == old(address) + |payload|
    {
      var stored: seq<byte>, lost := *, *;
      var span := Span(extension, address, address + |payload|);
      if faithful || |stored| != |payload| { stored := payload; }
      mem := Patch(mem, span, stored);
      ok := faithful || !lost;
      if ok { address := address + |payload|; }
    }
  }

  /** The checks of `_validate_address_span`: 32-bit address, 8-bit extension, no wrap past the end. */
  predicate Addressable(address: int, size: int, extension: int) {
    0 <= address < ADDRESS_LIMIT && 0 <= extension < EXTENSION_LIMIT && (size > 0 ==> size - 1 <= ADDRESS_LIMIT - 1 - address)
  }

  /** The checks pass exactly when there is such an extension, and an address of 32 bits for every
      byte and for the span's own start. */
  lemma AddressableIff(address: int, size: nat, extension: int)
    ensures Addressable(address, size, extension) <==>
      && 0 <= extension <= 0xFF && 0 <= address <= 0xFFFF_FFFF
      && forall a :: InRun(a, address, size) ==> a <= 0xFFFF_FFFF
  {
    assert size > 0 ==> InRun(address + size - 1, address, size);
  }

  predicate InRun(a: int, address: int, size: nat) { address <= a < address + size }

  /** The span lies in the 32-bit address space of an 8-bit extension. */
  predicate Fits(address: int, size: int, extension: int) {
    0 <= extension <= 0xFF && 0 <= address <= 0xFFFF_FFFF && 0 <= size && address + size <= 0x1_0000_0000
  }

  /** When a read or a write of `size` bytes gets past every check of the client. */
  predicate Accessible(slave: Slave, connected: bool, address: int, size: int, extension: int, overhead: nat) {
    size >= 0 && Addressable(address, size, extension) && connected && (size == 0 || (slave.byteAddressed && slave.maxCto > overhead))
  }

  /** `read_memory`: on success exactly the bytes of the span, whatever the chunking. */
  method ReadMemory(slave: Slave, connected: bool, address: int, size: int, extension: int) returns (r: Reply<seq<byte>>)
    requires Total(slave.mem)
    modifies slave`extension, slave`address
    ensures r.Ok? ==>
      && Accessible(slave, connected, address, size, extension, 1)
      && r.value == Bytes(slave.mem, Span(extension, address, address + size))
    ensures slave.faithful ==> (r.Ok? <==> Accessible(slave, connected, address, size, extension, 1))
    ensures size < 0 ==> r == Err(BadSize)
    ensures size >= 0 && !Fits(address, size, extension) ==> r == Err(BadAddress)
    ensures Fits(address, size, extension) && !connected ==> r == Err(NotConnected)
    ensures Fits(address, size, extension) && connected && size == 0 ==> r == Ok([])
    ensures Fits(address, size, extension) && connected && size > 0 && !slave.byteAddressed ==> r == Err(NotByteAddressed)
    ensures Fits(address, size, extension) && connected && size > 0 && slave.byteAddressed && slave.maxCto < 2 ==> r == Err(MaxCtoTooSmall)
    ensures slave.faithful && connected && slave.byteAddressed && slave.maxCto >= 2 && Fits(address, size, extension) ==> r.Ok?
  {
    hide Bytes;
    if size < 0 { return Err(BadSize); }
    if !Addressable(address, size, extension) { return Err(BadAddress); }
    if !connected { return Err(NotConnected); }
    if size == 0 {
      NoBytes(slave.mem, extension, address);
      return Ok([]);
    }
    if !slave.byteAddressed { return Err(NotByteAddressed); }
    var maxChunk := Min(0xFF, slave.maxCto - 1);
    if maxChunk < 1 { return Err(MaxCtoTooSmall); }
    var ok := slave.SetMta(address, extension);
    if !ok { return Err(CommandFailed); }
    var result: seq<byte>, remaining := [], size;
    NoBytes(slave.mem, extension, address);
    while remaining > 0
      invariant 0 <= remaining <= size
      invariant slave.extension == extension && slave.address == address + size - remaining
      invariant result == Bytes(slave.mem, Span(extension, address, slave.address))
    {
      var chunkSize := Min(remaining, maxChunk);
      ghost var mid := slave.address;
      var sent, chunk := slave.Upload(chunkSize);
      if !sent { return Err(CommandFailed); }
      if |chunk| != chunkSize { return Err(ShortUpload); }
      BytesAppend(slave.mem, extension, address, mid, mid + chunkSize);
      result, remaining := result + chunk, remaining - chunkSize;
    }
    r := Ok(result);
  }

  /** `write_memory`: never touches anything outside the span; on a faithful link it stores
      exactly the payload. */
  method WriteMemory(slave: Slave, connected: bool, address: int, payload: seq<byte>, extension: int) returns (r: Reply<()>)
    requires Total(slave.mem)
    modifies slave
    ensures !Addressable(address, |payload|, extension) ==> r.Err? && slave.mem == old(slave.mem)
    ensures Addressable(address, |payload|, extension) ==>
      OnlyIn(old(slave.mem), slave.mem, Span(extension, address, address + |payload|))
    ensures r.Ok? ==> Accessible(slave, connected, address, |payload|, extension, 2)
    ensures slave.faithful ==> (r.Ok? <==> Accessible(slave, connected, address, |payload|, extension, 2))
    ensures !Fits(address, |payload|, extension) ==> r == Err(BadAddress)
    ensures Fits(address, |payload|, extension) && !connected ==> r == Err(NotConnected)
    ensures Fits(address, |payload|, extension) && connected && payload == [] ==> r == Ok(())
    ensures Fits(address, |payload|, extension) && connected && payload != [] && !slave.byteAddressed ==> r == Err(NotByteAddressed)
    ensures Fits(address, |payload|, extension) && connected && payload != [] && slave.byteAddressed && slave.maxCto < 3 ==>
      r == Err(MaxCtoTooSmall)
    ensures slave.faithful && connected && slave.byteAddressed && slave.maxCto >= 3 && Fits(address, |payload|, extension) ==> r.Ok?
    ensures slave.faithful && r.Ok? ==> slave.mem == Patch(old(slave.mem), Span(extension, address, address + |payload|), payload)
    ensures slave.faithful && r.Err? ==> slave.mem == old(slave.mem)
  {
    if !Addressable(address, |payload|, extension) { return Err(BadAddress); }
    if !connected { return Err(NotConnected); }
    if payload == [] {
      NothingWritten(slave.mem, extension, address, address);
      return Ok(());
    }
    if !slave.byteAddressed { return Err(NotByteAddressed); }
    var maxChunk := Min(0xFF, slave.maxCto - 2);
    if maxChunk < 1 { return Err(MaxCtoTooSmall); }
    r := DownloadAll(slave, address, payload, extension, maxChunk);
  }

  /** SET_MTA and the DOWNLOAD loop. */
  method DownloadAll(slave: Slave, address: nat, payload: seq<byte>, extension: nat, maxChunk: nat) returns (r: Reply<()>)
    requires 1 <= maxChunk <= 0xFF && maxChunk + 2 <= slave.maxCto
    modifies slave
    ensures OnlyIn(old(slave.mem), slave.mem, Span(extension, address, address + |payload|))
    ensures slave.faithful ==> r.Ok? && slave.mem == Patch(old(slave.mem), Span(extension, address, address + |payload|), payload)
  {
    hide OnlyIn, Patch;
    ghost var start := slave.mem;
    NothingWritten(start, extension, address, address + |payload|);
    var ok := slave.SetMta(address, extension);
    if !ok { return Err(CommandFailed); }
    var offset := 0;
    NothingWritten(start, extension, address, address);
    while offset < |payload|
      invariant 0 <= offset <= |payload|
      invariant slave.extension == extension && slave.address == address + offset
      invariant OnlyIn(start, slave.mem, Span(extension, address, address + |payload|))
      invariant slave.faithful ==> slave.mem == Patch(start, Span(extension, address, address + offset), payload[..offset])
    {
      var next := Min(offset + maxChunk, |payload|);
      ghost var before := slave.mem;
      var sent := slave.Download(payload[offset..next]);
      OnlyInJoins(start, before, slave.mem, Span(extension, address + offset, address + next), Span(extension, address, address + |payload|));
      PatchAppend(start, extension, address, payload[..offset], payload[offset..next]);
      assert payload[..offset] + payload[offset..next] == payload[..next];
      if !sent { return Err(CommandFailed); }
      offset := next;
    }
    assert payload[..|payload|] == payload;
    r := Ok(());
  }

  lemma NothingWritten(m: Memory, extension: nat, start: nat, end: nat)
    requires start <= end
    ensures OnlyIn(m, m, Span(extension, start, end)) && Patch(m, Span(extension, start, start), []) == m
  {}

  /** Changes confined to a part of the span are confined to the span. */
  lemma OnlyInJoins(a: Memory, b: Memory, c: Memory, part: Span, whole: Span)
    requires OnlyIn(a, b, whole) && OnlyIn(b, c, part)
    requires part.extension == whole.extension && whole.start <= part.start && part.end <= whole.end
    ensures OnlyIn(a, c, whole)
  {}

  /** A write followed by a read of the same span gives back the payload. */
  method WriteThenRead(slave: Slave, address: int, payload: seq<byte>, extension: int) returns (r: Reply<seq<byte>>)
    requires Total(slave.mem) && slave.faithful
    modifies slave
    ensures Accessible(slave, true, address, |payload|, extension, 2) ==>
      r == Ok(payload) && slave.mem == Patch(old(slave.mem), Span(extension, address, address + |payload|), payload)
  {
    var w := WriteMemory(slave, true, address, payload, extension);
    if w.Err? { return Err(w.error); }
    BytesOfPatch(old(slave.mem), Span(extension, address, address + |payload|), payload);
    r := ReadMemory(slave, true, address, |payload|, extension);
  }

  /** `write_characteristic` with verification: success means the span holds the requested
      bytes even on a link that corrupts writes. `None` stands for a value that cannot be encoded. */
  method WriteCharacteristic(slave: Slave, connected: bool, span: Span, request: Option<seq<byte>>) returns (r: Reply<()>)
    requires Total(slave.mem) && span.start <= span.end && (request.Some? ==> |request.value| == span.end - span.start)
    modifies slave
    ensures Total(slave.mem) && OnlyIn(old(slave.mem), slave.mem, span)
    ensures r.Ok? ==> ValidSpan(span) && connected && request.Some? && Bytes(slave.mem, span) == request.value
    ensures slave.faithful && request.Some? && Accessible(slave, connected, span.start, span.end - span.start, span.extension, 2) ==> r.Ok?
  {
    hide Patch;
    if request.None? { return Err(BadValue); }
    var w := WriteMemory(slave, connected, span.start, request.value, span.extension);
    if w.Err? { return Err(w.error); }
    var back := ReadMemory(slave, connected, span.start, span.end - span.start, span.extension);
    if slave.faithful { BytesOfPatch(old(slave.mem), span, request.value); }
    if back.Err? { return Err(back.error); }
    if back.value != request.value { return Err(NotReadBack); }
    r := Ok(());
  }
}
