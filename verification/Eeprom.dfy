/** The bounded driver of the external configuration memory. */
module Eeprom {
  import opened Wrappers
  import opened NorImage
  import opened NorDevice

  datatype EepromError = Bus | OutOfRange | Unaligned | Busy | WriteProtected | Rewritten

  const BUSY_POLL_ATTEMPTS: int := 100_000

  /** The errors that are the device's doing, or its bus's; all others are the caller's. */
  predicate ByDevice(e: EepromError) { e.Bus? || e.Busy? || e.WriteProtected? }

  function FaultOf(e: EepromError): Fault
    requires ByDevice(e)
  {
    match e
    case Bus => LostTransfer
    case Busy => LateFinish
    case WriteProtected => RefusedLatch
  }

  function Failure<T>(r: Result<T, EepromError>): Option<EepromError> {
    if r.Err? then Some(r.error) else None
  }

  /** A call blames the device exactly when the device let it down, and for the fault it
      stopped at. */
  predicate Blames(before: seq<Fault>, after: seq<Fault>, error: Option<EepromError>) {
    if error.Some? && ByDevice(error.value)
    then before < after && after[|after| - 1] == FaultOf(error.value)
    else after == before
  }

  // ---------------------------------------------------------------- Regions

  datatype RegionError = RegionUnaligned | RegionEmpty | RegionVendorReserved | RegionOutOfRange

  datatype RegionFields = RegionFields(origin: u32, len: u32)

  /** What a claim grants: whole sectors above the vendor's area and inside the device. */
  predicate Claimable(origin: u32, len: u32) {
    && origin % SECTOR_BYTES == 0 && len % SECTOR_BYTES == 0
    && len != 0
    && VENDOR_RESERVED_BYTES <= origin
    && origin + len <= CAPACITY_BYTES
  }

  /** A claimed region: the only way to obtain one is `Claim`. */
  type Region = r: RegionFields | Claimable(r.origin, r.len)
    witness RegionFields(VENDOR_RESERVED_BYTES, SECTOR_BYTES)

  /** Grants a region, or says which rule it breaks. */
  function Claim(origin: u32, len: u32): (r: Result<Region, RegionError>)
    ensures r.Ok? <==> Claimable(origin, len)
    ensures r.Ok? ==> r.value.origin == origin && r.value.len == len
    ensures r == Err(RegionUnaligned) <==> origin % SECTOR_BYTES != 0 || len % SECTOR_BYTES != 0
    ensures r == Err(RegionEmpty) <==> origin % SECTOR_BYTES == 0 && len == 0
    ensures r == Err(RegionVendorReserved) <==>
              origin % SECTOR_BYTES == 0 && len % SECTOR_BYTES == 0 && len != 0 && origin < VENDOR_RESERVED_BYTES
  {
    if origin % SECTOR_BYTES != 0 || len % SECTOR_BYTES != 0 then Err(RegionUnaligned)
    else if len == 0 then Err(RegionEmpty)
    else if origin < VENDOR_RESERVED_BYTES then Err(RegionVendorReserved)
    else if origin + len <= CAPACITY_BYTES then Ok(RegionFields(origin, len))
    else Err(RegionOutOfRange)
  }

  function Sectors(region: Region): (n: u32)
    ensures n * SECTOR_BYTES == region.len
  {
    region.len / SECTOR_BYTES
  }

  /** Where on the device an access to a region lies, if it lies inside the region. */
  function Resolve(region: Region, offset: u32, len: u32): (r: Option<u32>)
    ensures r.Some? <==> offset + len <= region.len
    ensures r.Some? ==> r.value == region.origin + offset && r.value + len <= CAPACITY_BYTES
  {
    if offset + len <= U32_MAX && region.origin + offset <= U32_MAX && offset + len <= region.len
    then Some(region.origin + offset)
    else None
  }

  // ---------------------------------------------------------------- Addressing

  /** How many bytes are left in the page from an address on. */
  function PageSplit(at: u32): (n: nat)
    ensures 1 <= n <= PAGE_BYTES && at % PAGE_BYTES + n == PAGE_BYTES
  {
    PAGE_BYTES - at % PAGE_BYTES
  }

  /** Byte `index` of an address, the lowest first. */
  function AddressByte(address: u32, index: nat): (b: u8)
    requires index < 3
  {
    (address / (if index == 0 then 1 else if index == 1 then 0x100 else 0x1_0000)) % 0x100
  }

  function Header(command: u8, address: u32): (h: seq<u8>)
    ensures |h| == 4 && h[0] == command
  {
    [command, AddressByte(address, 2), AddressByte(address, 1), AddressByte(address, 0)]
  }

  /** The device decodes the address the driver encoded, highest byte first. */
  lemma HeaderRoundTrip(command: u8, address: u32)
    requires address < ADDRESS_SPACE
    ensures HeaderAddress(Header(command, address)) == address
    ensures var h := Header(command, address);
            h[0] == command && h[1] == address / 0x1_0000 && h[3] == address % 0x100
  {
    var a: int := address;
    assert a / 0x1_0000 == a / 0x100 / 0x100;
    assert a == a / 0x100 * 0x100 + a % 0x100;
    assert a / 0x100 == a / 0x100 / 0x100 * 0x100 + a / 0x100 % 0x100;
  }

  /** One completed or interrupted change: the bytes went from `from` towards `to`, got all
      the way if it passed, and every image on the way is a mixture of the two. */
  ghost predicate Change(from: Image, to: Image, before: seq<Image>, now: Image, after: seq<Image>, passed: bool) {
    && |now| == |from| == |to|
    && (passed ==> now == to)
    && Torn(now, from, to)
    && TracedWithin(before, after, from, to)
  }

  /** The bytes an access outside every claimed region must never reach. */
  ghost predicate Guarded(factory: Image, m: Image) {
    SameOutside(m, factory, VENDOR_RESERVED_BYTES, CAPACITY_BYTES)
  }

  /** A change confined to the claimable area keeps the rest of the device as it was, in
      every image it passes through. */
  lemma ChangeIsGuarded(factory: Image, from: Image, to: Image, before: seq<Image>, after: seq<Image>, now: Image)
    requires Torn(now, from, to) && TracedWithin(before, after, from, to)
    requires Guarded(factory, from)
    requires SameOutside(to, from, VENDOR_RESERVED_BYTES, CAPACITY_BYTES)
    ensures Guarded(factory, now)
    ensures forall k :: |before| <= k < |after| ==> Guarded(factory, after[k])
  {}

  /** Erasing or programming inside the claimable area keeps the rest as it was. */
  lemma TargetsAreGuarded(factory: Image, m: Image, at: int, end: int, bytes: seq<byte>)
    requires Guarded(factory, m) && VENDOR_RESERVED_BYTES <= at <= end <= CAPACITY_BYTES <= |m|
    ensures Guarded(factory, Erased(m, at, end))
    ensures |bytes| == end - at ==> Guarded(factory, AndAt(m, at, bytes))
  {}

  /** One step of a longer change, itself completed or interrupted. */
  lemma ChangeStep(from: Image, to: Image, before: seq<Image>, mid: Image, traced: seq<Image>,
                   next: Image, now: Image, after: seq<Image>, passed: bool)
    requires Torn(mid, from, to) && TracedWithin(before, traced, from, to)
    requires Torn(next, from, to) && Change(mid, next, traced, now, after, passed)
    ensures Torn(now, from, to) && TracedWithin(before, after, from, to)
  {
    TornIsConvex(now, mid, next, from, to);
    TracedWithinWidens(traced, after, mid, next, from, to);
    TracedWithinJoins(before, traced, after, from, to);
  }

  lemma EraseStep(from: Image, lo: int, mid: int, next: int, hi: int)
    requires 0 <= lo <= mid <= next <= hi <= |from|
    ensures Erased(Erased(from, lo, mid), mid, next) == Erased(from, lo, next)
    ensures Torn(Erased(from, lo, mid), from, Erased(from, lo, hi))
    ensures Torn(Erased(from, lo, next), from, Erased(from, lo, hi))
  {
    ErasedPrefixIsTorn(from, lo, mid, hi);
    ErasedPrefixIsTorn(from, lo, next, hi);
  }

  lemma EraseEnds(from: Image, region: Region)
    requires |from| == ADDRESS_SPACE
    ensures Erased(from, region.origin, region.origin) == from
    ensures SameOutside(Erased(from, region.origin, region.origin + region.len), from,
                        VENDOR_RESERVED_BYTES, CAPACITY_BYTES)
  {}

  /** One chunk of a split program: the part done so far grows by the chunk. */
  lemma ProgramStep(from: Image, address: u32, bytes: seq<byte>, done: nat, n: nat)
    requires address + |bytes| <= |from| && done + n <= |bytes|
    ensures AndAt(AndAt(from, address, bytes[..done]), address + done, bytes[done..][..n])
         == AndAt(from, address, bytes[..done + n])
    ensures Torn(AndAt(from, address, bytes[..done]), from, AndAt(from, address, bytes))
    ensures Torn(AndAt(from, address, bytes[..done + n]), from, AndAt(from, address, bytes))
  {
    hide AndAt, Torn;
    AndAtJoins(from, address, bytes[..done], bytes[done..][..n]);
    assert bytes[..done] + bytes[done..][..n] == bytes[..done + n];
    AndAtPrefixIsTorn(from, address, bytes, done);
    AndAtPrefixIsTorn(from, address, bytes, done + n);
  }

  /** Programming none of the bytes, and programming all of them. */
  lemma ProgramEnds(from: Image, address: u32, bytes: seq<byte>)
    requires address + |bytes| <= |from|
    ensures AndAt(from, address, bytes[..0]) == from
    ensures bytes[..|bytes|] == bytes
    ensures Torn(from, from, AndAt(from, address, bytes))
    ensures Torn(AndAt(from, address, bytes), from, AndAt(from, address, bytes))
  {}

  lemma ConfinedProgramIsGuarded(factory: Image, from: Image, address: u32, bytes: seq<byte>,
                                 before: seq<Image>, after: seq<Image>, now: Image)
    requires VENDOR_RESERVED_BYTES <= address && address + |bytes| <= CAPACITY_BYTES <= |from|
    requires Torn(now, from, AndAt(from, address, bytes))
    requires TracedWithin(before, after, from, AndAt(from, address, bytes))
    requires Guarded(factory, from)
    ensures Guarded(factory, now)
    ensures forall k :: |before| <= k < |after| ==> Guarded(factory, after[k])
  {
    ChangeIsGuarded(factory, from, AndAt(from, address, bytes), before, after, now);
  }

  /** Programming over erased bytes writes exactly the bytes. */
  lemma WrittenOverErased(from: Image, region: Region, bytes: seq<byte>)
    requires |from| == ADDRESS_SPACE && |bytes| <= region.len
    requires forall i :: region.origin <= i < region.origin + region.len ==> from[i] == ERASED_BYTE
    ensures AndAt(from, region.origin, bytes)[region.origin..region.origin + |bytes|] == bytes
    ensures forall i :: region.origin + |bytes| <= i < region.origin + region.len ==>
              AndAt(from, region.origin, bytes)[i] == ERASED_BYTE
  {}

  lemma PagesAlign(origin: u32, written: u32, n: nat)
    requires origin % SECTOR_BYTES == 0 && written % PAGE_BYTES == 0 && n <= PageSplit(origin)
    ensures (origin + written) % PAGE_BYTES == 0
    ensures PageSplit(origin) == PAGE_BYTES
    ensures n == PAGE_BYTES ==> (written + n) % PAGE_BYTES == 0
  {
    var sectors, pages := origin / SECTOR_BYTES, written / PAGE_BYTES;
    assert origin == PAGE_BYTES * (SECTOR_BYTES / PAGE_BYTES * sectors);
    assert written == PAGE_BYTES * pages;
    WholePages(SECTOR_BYTES / PAGE_BYTES * sectors + pages);
    WholePages(pages + 1);
    WholePages(SECTOR_BYTES / PAGE_BYTES * sectors);
  }

  lemma WholePages(k: nat)
    ensures PAGE_BYTES * k % PAGE_BYTES == 0
  {}

  class Eeprom {
    const bus: NorDevice
    // The bytes and the trace when the driver took the bus over.
    ghost const factory: Image
    ghost const start: nat

    /** What is in progress, if anything, leaves the rest of the device alone too. */
    ghost predicate Confined()
      reads bus
    {
      bus.chip.busy.Some? ==> Guarded(factory, bus.chip.busy.value)
    }

    /** Nothing outside the claimable area has changed since the driver took over: not in
        the device now, not in what it is doing, and not in any image it has passed through. */
    ghost predicate Valid()
      reads bus
    {
      && bus.Valid()
      && start <= |bus.trace|
      && Confined()
      && Guarded(factory, bus.chip.mem)
      && forall k :: start <= k < |bus.trace| ==> Guarded(factory, bus.trace[k])
    }

    /** Takes over a device that is not writing to what the driver must leave alone. */
    constructor (bus: NorDevice)
      requires bus.Valid()
      requires bus.chip.busy.Some? ==> Guarded(bus.chip.mem, bus.chip.busy.value)
      ensures Valid() && this.bus == bus && factory == bus.chip.mem && start == |bus.trace|
    {
      this.bus := bus;
      factory := bus.chip.mem;
      start := |bus.trace|;
    }

    // -------------------------------------------------------------- Status

    /** The status byte, in a transfer that may let an operation in progress finish. */
    method Status() returns (r: Result<byte, EepromError>)
      requires bus.Valid()
      modifies bus
      ensures bus.Valid()
      ensures TransferEffect(old(bus.chip), [READ_STATUS], [], 1, bus.chip, r.Ok?,
                             [if r.Ok? then r.value else 0])
      ensures r.Err? ==> r.error == EepromError.Bus
      ensures bus.trace == old(bus.trace) + [bus.chip.mem]
      ensures bus.polls == PollsAfter([READ_STATUS], bus.chip, r.Ok?, old(bus.polls))
      ensures bus.faults == old(bus.faults) + Faults([READ_STATUS], bus.chip, r.Ok?, old(bus.polls))
    {
      var ok, response := bus.Transfer([READ_STATUS], [], 1);
      return if ok then Ok(response[0]) else Err(Bus);
    }

    /** Asks for the latch and believes only the status read back. */
    method SetWriteEnable() returns (r: Result<(), EepromError>)
      requires bus.Valid()
      modifies bus
      ensures bus.Valid()
      ensures r.Ok? ==> bus.chip.latch
      ensures r.Err? ==> r.error == EepromError.Bus || r.error == WriteProtected
      ensures Blames(old(bus.faults), bus.faults, Failure(r))
      ensures bus.chip.busy.None? && bus.chip.mem == old(bus.chip.mem)
      ensures Change(old(bus.chip.mem), old(bus.chip.mem), old(bus.trace), bus.chip.mem, bus.trace, r.Ok?)
    {
      var ok, _ := bus.Transfer([WRITE_ENABLE], [], 0);
      if !ok { return Err(EepromError.Bus); }
      var status :- Status();
      assert status == bus.chip.Status();
      if status & STATUS_WRITE_ENABLE_LATCH == 0 { return Err(WriteProtected); }
      return Ok(());
    }

    /** Waits for the operation in progress, for a bounded number of polls. */
    method AwaitReady() returns (r: Result<(), EepromError>)
      requires bus.Valid() && bus.chip.busy.Some? && bus.polls == 0
      modifies bus
      ensures bus.Valid()
      ensures Blames(old(bus.faults), bus.faults, Failure(r))
      ensures Change(old(bus.chip.mem), old(bus.chip.busy.value), old(bus.trace),
                     bus.chip.mem, bus.trace, r.Ok?)
      ensures bus.chip.busy.None? || (r.Err? && bus.chip.busy == old(bus.chip.busy))
      ensures r.Err? ==> r.error == EepromError.Bus || r.error == Busy
    {
      ghost var from, to := bus.chip.mem, bus.chip.busy.value;
      TornEnds(from, to);
      var attempt := 0;
      while attempt < BUSY_POLL_ATTEMPTS
        invariant bus.Valid()
        invariant bus.chip.busy == Some(to)
        invariant attempt == bus.polls <= BUSY_POLL_ATTEMPTS
        invariant bus.faults == old(bus.faults) + if attempt < BUSY_POLL_ATTEMPTS then [] else [LateFinish]
        invariant Torn(bus.chip.mem, from, to)
        invariant TracedWithin(old(bus.trace), bus.trace, from, to)
      {
        ghost var mid := bus.chip.mem;
        var status := Status();
        if Torn(bus.chip.mem, mid, to) {
          TornIsConvex(bus.chip.mem, mid, to, from, to);
        }
        if status.Err? { return Err(status.error); }
        if status.value & STATUS_WRITE_IN_PROGRESS == 0 {
          assert status.value == bus.chip.Status();
          return Ok(());
        }
        attempt := attempt + 1;
      }
      return Err(Busy);
    }

    // ------------------------------------------------- Single-command changes

    /** Starts erasing a sector. Once it is issued, the device is
        turning the old bytes into the erased ones. */
    method BeginEraseSector(address: u32) returns (r: Result<(), EepromError>)
      requires bus.Valid()
      modifies bus
      ensures bus.Valid()
      ensures r == Err(Unaligned) <==> address % SECTOR_BYTES != 0
      ensures r == Err(OutOfRange) <==>
                address % SECTOR_BYTES == 0 && !(VENDOR_RESERVED_BYTES <= address < CAPACITY_BYTES)
      ensures r == Err(Unaligned) || r == Err(OutOfRange) ==>
                bus.chip == old(bus.chip) && bus.trace == old(bus.trace)
      ensures r.Err? ==> r.error == Unaligned || r.error == OutOfRange || ByDevice(r.error)
      ensures Blames(old(bus.faults), bus.faults, Failure(r)) && (r.Ok? ==> bus.polls == 0)
      ensures address % SECTOR_BYTES == 0 && VENDOR_RESERVED_BYTES <= address < CAPACITY_BYTES ==>
                var to := Erased(old(bus.chip.mem), address, address + SECTOR_BYTES);
                && bus.chip.busy == (if r.Ok? then Some(to) else None)
                && Change(old(bus.chip.mem), to, old(bus.trace), bus.chip.mem, bus.trace, false)
    {
      if address % SECTOR_BYTES != 0 { return Err(Unaligned); }
      if !(VENDOR_RESERVED_BYTES <= address < CAPACITY_BYTES) { return Err(OutOfRange); }
      ghost var from := bus.chip.mem;
      ghost var to := Erased(from, address, address + SECTOR_BYTES);
      TornEnds(from, to);
      var enabled := SetWriteEnable();
      TracedWithinWidens(old(bus.trace), bus.trace, from, from, from, to);
      var _ :- enabled;
      HeaderRoundTrip(SECTOR_ERASE, address);
      ghost var issued := bus.trace;
      var ok, _ := bus.Transfer(Header(SECTOR_ERASE, address), [], 0);
      TracedWithinJoins(old(bus.trace), issued, bus.trace, from, to);
      return if ok then Ok(()) else Err(EepromError.Bus);
    }

    /** Starts an erase and waits for it. */
    method EraseSector(address: u32) returns (r: Result<(), EepromError>)
      requires bus.Valid()
      requires address % SECTOR_BYTES == 0 && VENDOR_RESERVED_BYTES <= address < CAPACITY_BYTES
      modifies bus
      ensures bus.Valid()
      ensures r.Err? ==> ByDevice(r.error)
      ensures Blames(old(bus.faults), bus.faults, Failure(r))
      ensures Change(old(bus.chip.mem), Erased(old(bus.chip.mem), address, address + SECTOR_BYTES),
                     old(bus.trace), bus.chip.mem, bus.trace, r.Ok?)
      ensures bus.chip.busy == None
              || bus.chip.busy == Some(Erased(old(bus.chip.mem), address, address + SECTOR_BYTES))
    {
      var _ :- BeginEraseSector(address);
      r := Finish(old(bus.chip.mem), old(bus.trace));
    }

    /** Waits for a command that was issued from `from` at trace `before`. */
    method Finish(ghost from: Image, ghost before: seq<Image>) returns (r: Result<(), EepromError>)
      requires bus.Valid() && bus.chip.busy.Some? && bus.polls == 0
      requires Change(from, bus.chip.busy.value, before, bus.chip.mem, bus.trace, false)
      modifies bus
      ensures bus.Valid()
      ensures Change(from, old(bus.chip.busy.value), before, bus.chip.mem, bus.trace, r.Ok?)
      ensures bus.chip.busy == None || bus.chip.busy == old(bus.chip.busy)
      ensures r.Err? ==> r.error == EepromError.Bus || r.error == Busy
      ensures Blames(old(bus.faults), bus.faults, Failure(r))
    {
      ghost var to, mid, issued := bus.chip.busy.value, bus.chip.mem, bus.trace;
      TornEnds(from, to);
      r := AwaitReady();
      TornIsConvex(bus.chip.mem, mid, to, from, to);
      TracedWithinWidens(issued, bus.trace, mid, to, from, to);
      TracedWithinJoins(before, issued, bus.trace, from, to);
    }

    /** Starts programming part of a page. Bytes that would leave the
        claimable area or wrap inside the page are refused before anything is sent. */
    method BeginProgramPage(address: u32, bytes: seq<byte>) returns (r: Result<(), EepromError>)
      requires bus.Valid() && |bytes| <= U32_MAX
      modifies bus
      ensures bus.Valid()
      ensures bytes == [] ==> r.Ok?
      ensures r == Err(OutOfRange) <==>
                bytes != [] && !(VENDOR_RESERVED_BYTES <= address && address + |bytes| <= CAPACITY_BYTES
                                 && address % PAGE_BYTES + |bytes| <= PAGE_BYTES)
      ensures r == Err(OutOfRange) || bytes == [] ==>
                bus.chip == old(bus.chip) && bus.trace == old(bus.trace)
      ensures r.Err? ==> r.error == OutOfRange || ByDevice(r.error)
      ensures Blames(old(bus.faults), bus.faults, Failure(r)) && (r.Ok? && bytes != [] ==> bus.polls == 0)
      ensures bytes != [] && r != Err(OutOfRange) ==>
                && address + |bytes| <= CAPACITY_BYTES
                && var to := AndAt(old(bus.chip.mem), address, bytes);
                && bus.chip.busy == (if r.Ok? then Some(to) else None)
                && Change(old(bus.chip.mem), to, old(bus.trace), bus.chip.mem, bus.trace, false)
    {
      if bytes == [] { return Ok(()); }
      var end: int := address + |bytes|;
      if end > U32_MAX { return Err(OutOfRange); }
      if end > CAPACITY_BYTES || address < VENDOR_RESERVED_BYTES { return Err(OutOfRange); }
      if address / PAGE_BYTES != (end - 1) / PAGE_BYTES { return Err(OutOfRange); }
      ghost var from := bus.chip.mem;
      ghost var to := AndAt(from, address, bytes);
      assert Torn(from, from, to) by { AndAtPrefixIsTorn(from, address, bytes, 0); TornEnds(from, to); }
      var enabled := SetWriteEnable();
      TracedWithinWidens(old(bus.trace), bus.trace, from, from, from, to);
      var _ :- enabled;
      HeaderRoundTrip(PAGE_PROGRAM, address);
      PageProgramIsAnd(from, address, bytes);
      ghost var issued := bus.trace;
      var ok, _ := bus.Transfer(Header(PAGE_PROGRAM, address), bytes, 0);
      TracedWithinJoins(old(bus.trace), issued, bus.trace, from, to);
      return if ok then Ok(()) else Err(EepromError.Bus);
    }

    /** Starts a program and waits for it. */
    method ProgramPage(address: u32, bytes: seq<byte>) returns (r: Result<(), EepromError>)
      requires bus.Valid()
      requires bytes != [] && VENDOR_RESERVED_BYTES <= address && address + |bytes| <= CAPACITY_BYTES
      requires address % PAGE_BYTES + |bytes| <= PAGE_BYTES
      modifies bus
      ensures bus.Valid()
      ensures r.Err? ==> ByDevice(r.error)
      ensures Blames(old(bus.faults), bus.faults, Failure(r))
      ensures Change(old(bus.chip.mem), AndAt(old(bus.chip.mem), address, bytes),
                     old(bus.trace), bus.chip.mem, bus.trace, r.Ok?)
      ensures bus.chip.busy == None || bus.chip.busy == Some(AndAt(old(bus.chip.mem), address, bytes))
    {
      var _ :- BeginProgramPage(address, bytes);
      r := Finish(old(bus.chip.mem), old(bus.trace));
    }

    // ------------------------------------------------------ Public operations

    /** The region's bytes at an offset; no byte of the device changes. */
    method Read(region: Region, offset: u32, want: u32) returns (r: Result<seq<byte>, EepromError>)
      requires Valid()
      modifies bus
      ensures Valid()
      ensures r == Err(OutOfRange) <==> offset + want > region.len
      ensures Change(old(bus.chip.mem), old(bus.chip.mem), old(bus.trace), bus.chip.mem, bus.trace, true)
      ensures r.Ok? ==> offset + want <= region.len
                        && r.value == old(bus.chip.mem)[region.origin + offset..region.origin + offset + want]
      ensures r.Err? ==> r.error == OutOfRange || ByDevice(r.error)
      ensures Blames(old(bus.faults), bus.faults, Failure(r))
    {
      TornEnds(bus.chip.mem, bus.chip.mem);
      var address := Resolve(region, offset, want);
      if address.None? { return Err(OutOfRange); }
      if want == 0 { return Ok([]); }
      HeaderRoundTrip(READ, address.value);
      var ok, response := bus.Transfer(Header(READ, address.value), [], want);
      ChangeIsGuarded(factory, old(bus.chip.mem), old(bus.chip.mem), old(bus.trace), bus.trace, bus.chip.mem);
      return if ok then Ok(response) else Err(EepromError.Bus);
    }

    /** Reads below every region that can be claimed. */
    method ReadVendor(address: u32, want: u32) returns (r: Result<seq<byte>, EepromError>)
      requires Valid()
      modifies bus
      ensures Valid()
      ensures r == Err(OutOfRange) <==> want > 0 && address + want > VENDOR_RESERVED_BYTES
      ensures bus.chip.mem == old(bus.chip.mem)
      ensures r.Ok? ==> |r.value| == want && (want > 0 ==> r.value == factory[address..address + want])
      ensures r.Err? ==> r.error == OutOfRange || ByDevice(r.error)
      ensures Blames(old(bus.faults), bus.faults, Failure(r))
    {
      TornEnds(bus.chip.mem, bus.chip.mem);
      if want == 0 { return Ok([]); }
      if address + want > U32_MAX || address + want > VENDOR_RESERVED_BYTES { return Err(OutOfRange); }
      HeaderRoundTrip(READ, address);
      var ok, response := bus.Transfer(Header(READ, address), [], want);
      ChangeIsGuarded(factory, old(bus.chip.mem), old(bus.chip.mem), old(bus.trace), bus.trace, bus.chip.mem);
      return if ok then Ok(response) else Err(EepromError.Bus);
    }

    /** Erases a region, one sector after another. */
    method Erase(region: Region) returns (r: Result<(), EepromError>)
      requires Valid()
      modifies bus
      ensures Valid()
      ensures r.Err? ==> ByDevice(r.error)
      ensures Blames(old(bus.faults), bus.faults, Failure(r))
      ensures Change(old(bus.chip.mem), Erased(old(bus.chip.mem), region.origin, region.origin + region.len),
                     old(bus.trace), bus.chip.mem, bus.trace, r.Ok?)
    {
      hide Erased, Torn;
      ghost var from, before := bus.chip.mem, bus.trace;
      ghost var to := Erased(from, region.origin, region.origin + region.len);
      TornEnds(from, to);
      EraseEnds(from, region);
      var sector := 0;
      while sector < Sectors(region)
        invariant 0 <= sector <= Sectors(region)
        invariant bus.Valid() && Confined() && Guarded(factory, bus.chip.mem)
        invariant bus.chip.mem == Erased(from, region.origin, region.origin + sector * SECTOR_BYTES)
        invariant TracedWithin(before, bus.trace, from, to)
        invariant bus.faults == old(bus.faults)
      {
        var address := region.origin + sector * SECTOR_BYTES;
        ghost var mid, traced := bus.chip.mem, bus.trace;
        ghost var next := Erased(mid, address, address + SECTOR_BYTES);
        EraseStep(from, region.origin, address, address + SECTOR_BYTES, region.origin + region.len);
        TargetsAreGuarded(factory, mid, address, address + SECTOR_BYTES, []);
        var erased := EraseSector(address);
        ChangeStep(from, to, before, mid, traced, next, bus.chip.mem, bus.trace, erased.Ok?);
        ChangeIsGuarded(factory, from, to, before, bus.trace, bus.chip.mem);
        var _ :- erased;
        sector := sector + 1;
      }
      ChangeIsGuarded(factory, from, to, before, bus.trace, bus.chip.mem);
      return Ok(());
    }

    /** Programs without erasing first: one AND of all the bytes, however the pages split
        them. */
    method Program(region: Region, offset: u32, bytes: seq<byte>) returns (r: Result<(), EepromError>)
      requires Valid() && |bytes| <= U32_MAX
      modifies bus
      ensures Valid()
      ensures r == Err(OutOfRange) <==> offset + |bytes| > region.len
      ensures r == Err(OutOfRange) ==> bus.chip == old(bus.chip) && bus.trace == old(bus.trace)
      ensures r.Err? ==> r.error == OutOfRange || ByDevice(r.error)
      ensures Blames(old(bus.faults), bus.faults, Failure(r))
      ensures offset + |bytes| <= region.len ==>
                Change(old(bus.chip.mem), AndAt(old(bus.chip.mem), region.origin + offset, bytes),
                       old(bus.trace), bus.chip.mem, bus.trace, r.Ok?)
    {
      var address := Resolve(region, offset, |bytes|);
      if address.None? { return Err(OutOfRange); }
      r := ProgramAt(address.value, bytes);
    }

    /** The page-splitting loop of `Program` and `Write`. */
    method ProgramAt(address: u32, bytes: seq<byte>) returns (r: Result<(), EepromError>)
      requires Valid() && |bytes| <= U32_MAX
      requires VENDOR_RESERVED_BYTES <= address && address + |bytes| <= CAPACITY_BYTES
      modifies bus
      ensures Valid()
      ensures r.Err? ==> ByDevice(r.error)
      ensures Blames(old(bus.faults), bus.faults, Failure(r))
      ensures Change(old(bus.chip.mem), AndAt(old(bus.chip.mem), address, bytes),
                     old(bus.trace), bus.chip.mem, bus.trace, r.Ok?)
    {
      hide AndAt, Torn;
      ghost var from, before := bus.chip.mem, bus.trace;
      ghost var done := 0;
      ProgramEnds(from, address, bytes);
      var at := address;
      var rest := bytes;
      while rest != []
        invariant bus.Valid() && Confined()
        invariant done <= |bytes| && at == address + done && rest == bytes[done..]
        invariant bus.chip.mem == AndAt(from, address, bytes[..done])
        invariant TracedWithin(before, bus.trace, from, AndAt(from, address, bytes))
        invariant bus.faults == old(bus.faults)
        decreases |rest|
      {
        var n := Min(|rest|, PageSplit(at));
        var chunk, tail := rest[..n], rest[n..];
        var _ :- ProgramChunk(address, bytes, done, at, chunk, from, before);
        at := at + n;
        rest := tail;
        done := done + n;
      }
      assert bytes[..done] == bytes;
      ConfinedProgramIsGuarded(factory, from, address, bytes, before, bus.trace, bus.chip.mem);
      return Ok(());
    }

    /** One turn of the loop above: programs the chunk after the first `done` bytes. */
    method ProgramChunk(ghost address: u32, ghost bytes: seq<byte>, ghost done: nat, at: u32, chunk: seq<byte>,
                        ghost from: Image, ghost before: seq<Image>)
      returns (r: Result<(), EepromError>)
      requires bus.Valid() && start <= |before| && before <= bus.trace
      requires Guarded(factory, from) && forall k :: start <= k < |before| ==> Guarded(factory, before[k])
      requires VENDOR_RESERVED_BYTES <= address && address + |bytes| <= CAPACITY_BYTES && |from| == ADDRESS_SPACE
      requires chunk != [] && at % PAGE_BYTES + |chunk| <= PAGE_BYTES
      requires at == address + done && done + |chunk| <= |bytes| && chunk == bytes[done..][..|chunk|]
      requires bus.chip.mem == AndAt(from, address, bytes[..done])
      requires TracedWithin(before, bus.trace, from, AndAt(from, address, bytes))
      modifies bus
      ensures bus.Valid() && Confined()
      ensures r.Ok? ==> bus.chip.mem == AndAt(from, address, bytes[..done + |chunk|])
      ensures r.Err? ==> Valid() && ByDevice(r.error)
      ensures Blames(old(bus.faults), bus.faults, Failure(r))
      ensures Torn(bus.chip.mem, from, AndAt(from, address, bytes))
      ensures TracedWithin(before, bus.trace, from, AndAt(from, address, bytes))
    {
      hide AndAt, Torn;
      ghost var mid, traced := bus.chip.mem, bus.trace;
      ProgramStep(from, address, bytes, done, |chunk|);
      ConfinedProgramIsGuarded(factory, from, address, bytes, before, traced, mid);
      TargetsAreGuarded(factory, mid, at, at + |chunk|, chunk);
      r := ProgramPage(at, chunk);
      ChangeStep(from, AndAt(from, address, bytes), before, mid, traced, AndAt(mid, at, chunk),
                 bus.chip.mem, bus.trace, r.Ok?);
      ConfinedProgramIsGuarded(factory, from, address, bytes, before, bus.trace, bus.chip.mem);
    }

    /** Replaces the contents of one claimed region: the bytes, and everything after them
        erased, so no stale tail survives. */
    method Write(region: Region, bytes: seq<byte>) returns (r: Result<(), EepromError>)
      requires Valid() && |bytes| <= U32_MAX
      modifies bus
      ensures Valid()
      ensures r == Err(OutOfRange) <==> |bytes| > region.len
      ensures r == Err(OutOfRange) ==> bus.chip == old(bus.chip) && bus.trace == old(bus.trace)
      ensures r.Err? ==> r.error == OutOfRange || ByDevice(r.error)
      ensures Blames(old(bus.faults), bus.faults, Failure(r))
      ensures SameOutside(bus.chip.mem, old(bus.chip.mem), region.origin, region.origin + region.len)
      ensures r.Ok? ==>
                && bus.chip.mem[region.origin..region.origin + |bytes|] == bytes
                && forall i :: region.origin + |bytes| <= i < region.origin + region.len ==>
                     bus.chip.mem[i] == ERASED_BYTE
    {
      if |bytes| > region.len { return Err(OutOfRange); }
      ghost var old_mem := bus.chip.mem;
      var erased := Erase(region);
      TornStaysInside(bus.chip.mem, old_mem, Erased(old_mem, region.origin, region.origin + region.len),
                      region.origin, region.origin + region.len);
      var _ :- erased;
      ghost var from := bus.chip.mem;
      var programmed := WriteErased(region, bytes);
      TornStaysInside(bus.chip.mem, from, AndAt(from, region.origin, bytes), region.origin, region.origin + region.len);
      var _ :- programmed;
      WrittenOverErased(from, region, bytes);
      return Ok(());
    }

    /** The programming half of `Write`: the region's origin starts a page, so every chunk
        is as long as the first. */
    method WriteErased(region: Region, bytes: seq<byte>) returns (r: Result<(), EepromError>)
      requires Valid() && |bytes| <= region.len
      modifies bus
      ensures Valid()
      ensures r.Err? ==> ByDevice(r.error)
      ensures Blames(old(bus.faults), bus.faults, Failure(r))
      ensures Torn(bus.chip.mem, old(bus.chip.mem), AndAt(old(bus.chip.mem), region.origin, bytes))
      ensures r.Ok? ==> bus.chip.mem == AndAt(old(bus.chip.mem), region.origin, bytes)
    {
      hide AndAt, Torn;
      ghost var from, before := bus.chip.mem, bus.trace;
      ProgramEnds(from, region.origin, bytes);
      var written: u32 := 0;
      while written < |bytes|
        invariant bus.Valid() && Confined()
        invariant written <= |bytes|
        invariant written % PAGE_BYTES == 0 || written == |bytes|
        invariant bus.chip.mem == AndAt(from, region.origin, bytes[..written])
        invariant TracedWithin(before, bus.trace, from, AndAt(from, region.origin, bytes))
        invariant bus.faults == old(bus.faults)
      {
        var n := Min(|bytes| - written, PageSplit(region.origin));
        var chunk := bytes[written..written + n];
        assert chunk == bytes[written..][..n];
        PagesAlign(region.origin, written, n);
        var _ :- ProgramChunk(region.origin, bytes, written, region.origin + written, chunk, from, before);
        written := written + n;
      }
      assert bytes[..written] == bytes;
      ConfinedProgramIsGuarded(factory, from, region.origin, bytes, before, bus.trace, bus.chip.mem);
      return Ok(());
    }

    /** Whether nothing is in progress any more. */
    method IsReady() returns (r: Result<bool, EepromError>)
      requires Valid()
      modifies bus
      ensures Valid()
      ensures r == Ok(true) && old(bus.chip.busy).Some? ==> bus.chip.mem == old(bus.chip.busy).value
      ensures r == Ok(true) ==> bus.chip.busy.None?
      ensures r == Ok(false) ==> bus.chip.busy.Some? && bus.chip.busy == old(bus.chip.busy)
      ensures r.Err? ==> r.error == EepromError.Bus && Blames(old(bus.faults), bus.faults, Failure(r))
      ensures r.Ok? ==> bus.faults == old(bus.faults)
                        || (bus.polls == PROMPT_POLLS && bus.faults == old(bus.faults) + [LateFinish])
    {
      var before := bus.chip;
      var status := Status();
      if before.busy.Some? && Torn(bus.chip.mem, before.mem, before.busy.value) {
        TornStaysInside(bus.chip.mem, before.mem, before.busy.value, VENDOR_RESERVED_BYTES, CAPACITY_BYTES);
      }
      var bits :- status;
      assert bits == bus.chip.Status();
      return Ok(bits & STATUS_WRITE_IN_PROGRESS == 0);
    }

    /** Starts erasing a sector and leaves it in progress. */
    method IssueErase(region: Region, sector: u32) returns (r: Result<(), EepromError>)
      requires Valid()
      modifies bus
      ensures Valid()
      ensures r == Err(OutOfRange) <==> sector >= Sectors(region)
      ensures r.Err? ==> r.error == OutOfRange || ByDevice(r.error)
      ensures Blames(old(bus.faults), bus.faults, Failure(r))
      ensures r.Ok? ==>
                && sector < Sectors(region)
                && var at := region.origin + sector * SECTOR_BYTES;
                && bus.chip.busy == Some(Erased(old(bus.chip.mem), at, at + SECTOR_BYTES))
    {
      if sector >= Sectors(region) { return Err(OutOfRange); }
      assert (sector + 1) * SECTOR_BYTES <= region.len;
      var address := region.origin + sector * SECTOR_BYTES;
      ghost var to := Erased(bus.chip.mem, address, address + SECTOR_BYTES);
      r := BeginEraseSector(address);
      ChangeIsGuarded(factory, old(bus.chip.mem), to, old(bus.trace), bus.trace, bus.chip.mem);
      TornStaysInside(bus.chip.mem, old(bus.chip.mem), to, VENDOR_RESERVED_BYTES, CAPACITY_BYTES);
    }

    /** Starts programming within a page and leaves it in progress. Bytes that
        cross a page are refused, since the device would wrap them. */
    method IssueProgram(region: Region, offset: u32, bytes: seq<byte>) returns (r: Result<(), EepromError>)
      requires Valid() && |bytes| <= U32_MAX
      modifies bus
      ensures Valid()
      ensures r == Err(OutOfRange) <==>
                offset + |bytes| > region.len
                || (bytes != [] && (region.origin + offset) % PAGE_BYTES + |bytes| > PAGE_BYTES)
      ensures r.Err? ==> r.error == OutOfRange || ByDevice(r.error)
      ensures Blames(old(bus.faults), bus.faults, Failure(r))
      ensures r.Ok? && bytes != [] ==>
                && offset + |bytes| <= region.len
                && bus.chip.busy == Some(AndAt(old(bus.chip.mem), region.origin + offset, bytes))
    {
      var address := Resolve(region, offset, |bytes|);
      if address.None? { return Err(OutOfRange); }
      r := BeginProgramPage(address.value, bytes);
      if bytes != [] && r != Err(OutOfRange) {
        ghost var to := AndAt(old(bus.chip.mem), address.value, bytes);
        ConfinedProgramIsGuarded(factory, old(bus.chip.mem), address.value, bytes, old(bus.trace), bus.trace,
                                 bus.chip.mem);
        TornStaysInside(bus.chip.mem, old(bus.chip.mem), to, VENDOR_RESERVED_BYTES, CAPACITY_BYTES);
      }
    }
  }
}
