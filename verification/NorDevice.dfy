/** The serial NOR flash device at the far end of the bus, and the bus itself.

    The device is the environment of the driver: it may fail any transfer, refuse the
    write-enable latch, stay busy, and leave an erase or program part-way through. What
    it may not do is change a bit no command asked it to change. */
module NorDevice {
  import opened Wrappers
  import opened NorImage

  const READ: u8 := 0x03
  const PAGE_PROGRAM: u8 := 0x02
  const SECTOR_ERASE: u8 := 0x20
  const WRITE_ENABLE: u8 := 0x06
  const READ_STATUS: u8 := 0x05
  const READ_IDENTIFICATION: u8 := 0x9F

  const STATUS_WRITE_IN_PROGRESS: byte := 1
  const STATUS_WRITE_ENABLE_LATCH: byte := 2

  /** Device state: its bytes, its write-enable latch, and the image the erase or program
      in progress is turning the bytes into. */
  datatype Chip = Chip(mem: Image, latch: bool, busy: Option<Image>) {
    predicate Valid() {
      && |mem| == ADDRESS_SPACE
      && (busy.Some? ==> |busy.value| == ADDRESS_SPACE)
    }

    function Status(): byte {
      (if latch then STATUS_WRITE_ENABLE_LATCH else 0)
      | (if busy.Some? then STATUS_WRITE_IN_PROGRESS else 0)
    }
  }

  /** The address a four-byte header carries, most significant byte first. */
  function HeaderAddress(header: seq<u8>): (address: nat)
    requires |header| == 4
    ensures address < ADDRESS_SPACE
  {
    var high: int, middle: int, low: int := header[1], header[2], header[3];
    high * 0x1_0000 + middle * 0x100 + low
  }

  /** The commands the device understands. An erase or a program needs the latch. */
  predicate Accepts(c: Chip, header: seq<u8>, payload: seq<byte>, want: nat) {
    || (header == [WRITE_ENABLE] && payload == [] && want == 0)
    || (header == [READ_STATUS] && payload == [] && want == 1)
    || (header == [READ_IDENTIFICATION] && payload == [] && want == 3)
    || (|header| == 4 && header[0] == READ && payload == []
        && HeaderAddress(header) + want <= ADDRESS_SPACE)
    || (|header| == 4 && header[0] == SECTOR_ERASE && payload == [] && want == 0 && c.latch)
    || (|header| == 4 && header[0] == PAGE_PROGRAM && want == 0 && c.latch)
  }

  /** The image a modifying command asks for. */
  function Target(c: Chip, header: seq<u8>, payload: seq<byte>): (r: Image)
    requires c.Valid() && |header| == 4
    ensures |r| == |c.mem|
  {
    var address := HeaderAddress(header);
    if header[0] == SECTOR_ERASE then
      var sector := address / SECTOR_BYTES * SECTOR_BYTES;
      Erased(c.mem, sector, sector + SECTOR_BYTES)
    else
      PageProgram(c.mem, address, payload)
  }

  /** What one transfer may do: `c` before, `d` after. */
  predicate TransferEffect(c: Chip, header: seq<u8>, payload: seq<byte>, want: nat,
                           d: Chip, ok: bool, response: seq<byte>)
    requires c.Valid() && Accepts(c, header, payload, want)
  {
    && d.Valid()
    && |response| == want
    && if header[0] == READ_STATUS then
         && (|| d == c
             || (c.busy.Some? && d == Chip(c.busy.value, false, None))
             || (c.busy.Some? && d.busy == c.busy && Torn(d.mem, c.mem, c.busy.value)))
         && (ok ==> response == [d.Status()])
       else if header[0] == SECTOR_ERASE || header[0] == PAGE_PROGRAM then
         var target := Target(c, header, payload);
         && Torn(d.mem, c.mem, target)
         && d.busy == (if ok then Some(target) else None)
       else
         && d.mem == c.mem
         && d.busy.None?
         && (header[0] == READ && ok ==>
               response == c.mem[HeaderAddress(header)..HeaderAddress(header) + want])
  }

  /** How a device or its bus can let the driver down. */
  datatype Fault = LostTransfer | RefusedLatch | LateFinish

  /** The status reads within which a healthy device finishes what it has in progress. */
  const PROMPT_POLLS: int := 100_000

  /** The status reads that found the operation in progress still going. */
  function PollsAfter(header: seq<u8>, d: Chip, ok: bool, polls: nat): nat
    requires header != []
  {
    if header[0] != READ_STATUS || d.busy.None? then 0 else if ok then polls + 1 else polls
  }

  /** What a transfer that left the chip as `d` adds to the faults. */
  function Faults(header: seq<u8>, d: Chip, ok: bool, polls: nat): seq<Fault>
    requires header != []
  {
    if !ok then [LostTransfer]
    else if header[0] == WRITE_ENABLE && !d.latch then [RefusedLatch]
    else if header[0] == READ_STATUS && d.busy.Some? && polls + 1 == PROMPT_POLLS then [LateFinish]
    else []
  }

  /** Every image in `after` past those of `before` is a mixture of `from` and `to`. */
  ghost predicate TracedWithin(before: seq<Image>, after: seq<Image>, from: Image, to: Image) {
    && |before| <= |after|
    && after[..|before|] == before
    && forall k :: |before| <= k < |after| ==> Torn(after[k], from, to)
  }

  lemma TracedWithinJoins(a: seq<Image>, b: seq<Image>, c: seq<Image>, from: Image, to: Image)
    requires TracedWithin(a, b, from, to) && TracedWithin(b, c, from, to)
    ensures TracedWithin(a, c, from, to)
  {}

  /** A step traced between two points of a longer change is traced within that change. */
  lemma TracedWithinWidens(s: seq<Image>, t: seq<Image>, a: Image, b: Image, from: Image, to: Image)
    requires TracedWithin(s, t, a, b) && Torn(a, from, to) && Torn(b, from, to)
    ensures TracedWithin(s, t, from, to)
  {}

  /** The device behind its bus. `trace` records the bytes after every transfer there has
      been, failed ones included: the images a power failure can leave. `faults` records
      every time it let the driver down: a healthy device is one where it does not grow. */
  class NorDevice {
    var chip: Chip
    ghost var trace: seq<Image>
    ghost var polls: nat
    ghost var faults: seq<Fault>

    ghost predicate Valid()
      reads this
    {
      chip.Valid()
    }

    /** One chip-selected transfer, resolved as the device and the bus please. */
    method Transfer(header: seq<u8>, payload: seq<byte>, want: nat)
      returns (ok: bool, response: seq<byte>)
      requires Valid() && Accepts(chip, header, payload, want)
      modifies this
      ensures Valid()
      ensures TransferEffect(old(chip), header, payload, want, chip, ok, response)
      ensures trace == old(trace) + [chip.mem]
      ensures polls == PollsAfter(header, chip, ok, old(polls))
      ensures faults == old(faults) + Faults(header, chip, ok, old(polls))
    {
      ok := *;
      response := seq(want, _ => 0);
      var latch: bool := *;
      var stopped: Image := *;
      if header[0] == READ_STATUS {
        var done: bool := *;
        if chip.busy.Some? && done {
          chip := Chip(chip.busy.value, false, None);
        } else if chip.busy.Some? && Torn(stopped, chip.mem, chip.busy.value) {
          chip := chip.(mem := stopped);
        }
        response := [chip.Status()];
      } else if header[0] == SECTOR_ERASE || header[0] == PAGE_PROGRAM {
        var target := Target(chip, header, payload);
        if !Torn(stopped, chip.mem, target) {
          stopped := chip.mem;
          TornEnds(chip.mem, target);
        }
        chip := Chip(stopped, latch, if ok then Some(target) else None);
      } else {
        if header[0] == READ {
          var address := HeaderAddress(header);
          response := chip.mem[address..address + want];
        } else {
          response := *;
          if |response| != want {
            response := seq(want, _ => 0);
          }
        }
        chip := Chip(chip.mem, latch, None);
      }
      trace := trace + [chip.mem];
      faults := faults + Faults(header, chip, ok, polls);
      polls := PollsAfter(header, chip, ok, polls);
    }
  }
}
