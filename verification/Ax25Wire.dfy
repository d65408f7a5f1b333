/** The frame as it lies on the wire, byte by byte, and the cause of every refusal. */
module Ax25Wire {
  import opened Wrappers
  import opened Fcs
  import opened Ax25

  // ---------------------------------------------------------------- The layout

  /** An address in seven bytes: six characters a bit up, padded with spaces, and a byte of the
      flag, two reserved bits, the station number and the mark of the last address. */
  predicate Spells(part: seq<byte>, a: Address, last: bool) {
    && |part| == 7 && |a.callsign.characters| == 6
    && (forall k :: 0 <= k < 6 ==>
          part[k] == if k < a.callsign.length then a.callsign.characters[k] + a.callsign.characters[k] else 0x40)
    && IsSsidByte(part[6], a.callsign.ssid, a.flag, last)
  }

  predicate LiesAt(e: seq<byte>, at: nat, a: Address, last: bool) {
    at + 7 <= |e| && Spells(e[at..at + 7], a, last)
  }

  predicate IsSsidByte(b: byte, ssid: byte, flag: bool, last: bool) {
    && b & 0x80 == (if flag then 0x80 else 0) && b & 0x60 == 0x60 && (b >> 1) & 0x0F == ssid
    && b & 0x01 == if last then 1 else 0
  }

  lemma BareTwice(c: byte)
    ensures c << 1 == c + c && (0x20 as byte) << 1 == 0x40
  {}

  lemma DoubledIsTwice(c: byte)
    ensures Doubled(c) == c + c && Doubled(SPACE) == 0x40
  {
    BareTwice(c);
  }

  lemma SsidByteLies(ssid: byte, flag: bool, last: bool)
    requires ssid < 0x10
    ensures IsSsidByte(SsidByte(ssid, flag, last), ssid, flag, last)
  {
    BareSsid(ssid, if flag then 0x80 else 0, if last then 1 else 0);
  }

  lemma AddressLies(a: Address, last: bool)
    requires ValidCallsign(a.callsign)
    ensures Spells(EncodeAddress(a, last), a, last)
  {
    SsidByteLies(a.callsign.ssid, a.flag, last);
    hide SsidByte, IsSsidByte, Doubled;
    var e, c := EncodeAddress(a, last), a.callsign;
    forall k | 0 <= k < 6 ensures e[k] == if k < c.length then c.characters[k] + c.characters[k] else 0x40 {
      assert e[k] == Place(c, k);
      DoubledIsTwice(c.characters[k]);
    }
  }

  lemma {:induction false} PathAt(path: seq<Address>, j: nat)
    requires ValidPath(path) && j < |path|
    ensures EncodePath(path)[7 * j..7 * j + 7] == EncodeAddress(path[j], j == |path| - 1)
    decreases |path|
  {
    hide EncodeAddress, ValidCallsign;
    var rest := path[1..];
    var head := EncodeAddress(path[0], |path| == 1);
    assert EncodePath(path) == head + EncodePath(rest);
    if j > 0 {
      PathAt(rest, j - 1);
      assert (head + EncodePath(rest))[7 * j..7 * j + 7] == EncodePath(rest)[7 * (j - 1)..7 * (j - 1) + 7];
    }
  }

  /** A part of a frame that lies in its body. */
  lemma PartLies(x: UiFrame, at: nat, a: Address, last: bool)
    requires ValidFrame(x) && ValidCallsign(a.callsign) && at + 7 <= |EncodeBody(x)|
    requires EncodeBody(x)[at..at + 7] == EncodeAddress(a, last)
    ensures LiesAt(EncodeUiFrame(x), at, a, last)
  {
    hide EncodeAddress, ValidCallsign, ValidFrame, EncodeBody, FcsOf, Trailer, Spells;
    AddressLies(a, last);
    assert EncodeUiFrame(x)[at..at + 7] == EncodeBody(x)[at..at + 7];
  }

  lemma SliceInSlice(b: seq<byte>, from: nat, to: nat, lo: nat, hi: nat)
    requires from <= to <= |b| && lo <= hi <= to - from
    ensures b[from..to][lo..hi] == b[from + lo..from + hi]
  {
    var a, c := b[from..to][lo..hi], b[from + lo..from + hi];
    assert |a| == |c| && forall k :: 0 <= k < |a| ==> a[k] == c[k];
  }

  lemma PathLies(x: UiFrame)
    requires ValidFrame(x)
    ensures |EncodeBody(x)| >= 14 + 7 * |x.digipeaters|
    ensures EncodeBody(x)[14..14 + 7 * |x.digipeaters|] == EncodePath(x.digipeaters)
  {
    hide EncodeBody, EncodePath, EncodeAddress, ValidCallsign;
    BodyParts(x);
  }

  lemma DigipeaterPart(b: seq<byte>, path: seq<Address>, j: nat)
    requires ValidPath(path) && j < |path| && |b| >= 14 + 7 * |path| && b[14..14 + 7 * |path|] == EncodePath(path)
    ensures b[14 + 7 * j..21 + 7 * j] == EncodeAddress(path[j], j == |path| - 1)
  {
    hide EncodePath, EncodeAddress, ValidCallsign;
    PathAt(path, j);
    SliceInSlice(b, 14, 14 + 7 * |path|, 7 * j, 7 * j + 7);
  }

  lemma DigipeaterLies(x: UiFrame, j: nat)
    requires ValidFrame(x) && j < |x.digipeaters|
    ensures LiesAt(EncodeUiFrame(x), 14 + 7 * j, x.digipeaters[j], j == |x.digipeaters| - 1)
  {
    hide EncodeAddress, EncodePath, ValidCallsign, EncodeBody, EncodeUiFrame, LiesAt;
    PathLies(x);
    DigipeaterPart(EncodeBody(x), x.digipeaters, j);
    PartLies(x, 14 + 7 * j, x.digipeaters[j], j == |x.digipeaters| - 1);
  }

  /** A printed frame is the destination, the source and the digipeaters in that order, the last
      of them marked, then the control and protocol bytes, the information, and the complement
      of the check sequence with its lower byte first. */
  lemma WireLayout(x: UiFrame)
    requires ValidFrame(x)
    ensures var e, n := EncodeUiFrame(x), |x.digipeaters|;
            && |e| == 18 + 7 * n + |x.information|
            && LiesAt(e, 0, x.destination, false)
            && LiesAt(e, 7, x.source, n == 0)
            && (forall j :: 0 <= j < n ==> LiesAt(e, 14 + 7 * j, x.digipeaters[j], j == n - 1))
            && e[14 + 7 * n] == 0x03 && e[15 + 7 * n] == 0xF0
            && e[16 + 7 * n..|e| - 2] == x.information
            && Word(e[|e| - 2], e[|e| - 1]) == !FcsOf(e[..|e| - 2])
  {
    BodyParts(x);
    forall j | 0 <= j < |x.digipeaters|
      ensures LiesAt(EncodeUiFrame(x), 14 + 7 * j, x.digipeaters[j], j == |x.digipeaters| - 1)
    {
      DigipeaterLies(x, j);
    }
    TrailerLies(FcsOf(EncodeBody(x)));
    hide EncodeAddress, EncodePath, ValidCallsign, EncodeBody, FcsOf, Trailer, LiesAt, Word;
    var b, e, n := EncodeBody(x), EncodeUiFrame(x), |x.digipeaters|;
    assert e[..|e| - 2] == b;
    PartLies(x, 0, x.destination, false);
    PartLies(x, 7, x.source, n == 0);
    assert e[16 + 7 * n..|e| - 2] == b[16 + 7 * n..];
  }

  lemma TrailerLies(x: bv16)
    ensures Word(Trailer(x)[0], Trailer(x)[1]) == !x
  {
    TrailerIsComplement(x, Trailer(x)[0], Trailer(x)[1]);
  }

  // ---------------------------------------------------------------- Refusals

  /** The size and the check bytes are those of a frame. */
  predicate Sound(f: seq<byte>) { 18 <= |f| <= 330 && FcsOf(f) == 0xF0B8 }

  /** The first `n` addresses of a frame are addresses, and none before the last of them ends the
      path. */
  predicate Leads(f: seq<byte>, n: nat) {
    && 7 * n + 4 <= |f|
    && (forall j :: 0 <= j < n ==> IsAddress(f[7 * j..7 * j + 7]))
    && (forall j :: 0 <= j < n - 1 ==> !LastOf(f[7 * j + 6]))
  }

  /** What comes of a frame is decided by the first thing wrong with it: its size, its check
      bytes, the destination, the source. */
  lemma RefusedAtTheStart(f: seq<byte>)
    ensures |f| < 18 ==> DecodeUiFrame(f) == Err(FrameTooShort)
    ensures |f| > 330 ==> DecodeUiFrame(f) == Err(FrameTooLong)
    ensures 18 <= |f| <= 330 && !Sound(f) ==> DecodeUiFrame(f) == Err(InvalidFcs)
    ensures Sound(f) ==>
              if !Leads(f, 1) then DecodeUiFrame(f) == Err(InvalidAddress)
              else if LastOf(f[6]) then DecodeUiFrame(f) == Err(MissingSource)
              else !Leads(f, 2) ==> DecodeUiFrame(f) == Err(InvalidAddress)
  {
    hide FcsOf, IsAddress, LastOf, AddressOf, DecodePath;
    if Sound(f) { assert f[7 * 0..7 * 0 + 7] == f[..7] && f[7 * 1..7 * 1 + 7] == f[7..14]; }
  }

  /** What is left to decide once the path has been read. */
  function Ended(f: seq<byte>, destination: Address, source: Address,
                 path: Result<(seq<Address>, nat), Ax25Error>): Result<UiFrame, Ax25Error>
    requires |f| >= 14 && (path.Ok? ==> path.value.1 + 4 <= |f|)
  {
    if path.Err? then Err(path.error)
    else
      var (digipeaters, at) := path.value;
      if f[at] != 0x03 then Err(UnsupportedControl)
      else if f[at + 1] != 0xF0 then Err(UnsupportedPid)
      else if !(1 <= |f| - at - 4 <= 256) then Err(InvalidInformationLength)
      else Ok(UiFrame(destination, source, digipeaters, f[at + 2..|f| - 2]))
  }

  lemma DecodesToTheEnd(f: seq<byte>)
    requires Sound(f) && Leads(f, 2)
    ensures IsAddress(f[..7]) && IsAddress(f[7..14])
    ensures var path := DecodePath(f, 14, 0, LastOf(f[13]));
            && (path.Ok? ==> path.value.1 + 4 <= |f|)
            && DecodeUiFrame(f) == Ended(f, AddressOf(f[..7]), AddressOf(f[7..14]), path)
  {
    hide FcsOf, IsAddress, LastOf, AddressOf, DecodePath;
    assert f[7 * 0..7 * 0 + 7] == f[..7] && f[7 * 1..7 * 1 + 7] == f[7..14];
    assert IsAddress(f[7 * 0..7 * 0 + 7]) && IsAddress(f[7 * 1..7 * 1 + 7]) && !LastOf(f[7 * 0 + 6]);
  }

  lemma LeadsFurther(f: seq<byte>, n: nat)
    requires Leads(f, n) && n >= 1
    ensures Leads(f, n + 1) <==>
              7 * n + 11 <= |f| && !LastOf(f[7 * n - 1]) && IsAddress(f[7 * n..7 * n + 7])
  {
    hide IsAddress, LastOf;
    assert 7 * (n - 1) + 6 == 7 * n - 1;
    if 7 * n + 11 <= |f| && !LastOf(f[7 * n - 1]) && IsAddress(f[7 * n..7 * n + 7]) {
      forall j | 0 <= j < n + 1 ensures IsAddress(f[7 * j..7 * j + 7]) {}
      forall j | 0 <= j < n ensures !LastOf(f[7 * j + 6]) {}
    }
  }

  lemma LeadsLess(f: seq<byte>, n: nat)
    requires Leads(f, n + 1)
    ensures Leads(f, n)
  {
    hide IsAddress, LastOf;
  }

  /** One more address of the path. */
  lemma PathGoesOn(f: seq<byte>, k: nat, parsed: seq<Address>)
    requires k < 8 && 14 + 7 * k + 11 <= |f| && IsAddress(f[14 + 7 * k..21 + 7 * k])
    ensures Prepended(parsed, DecodePath(f, 14 + 7 * k, k, false))
         == Prepended(parsed + [AddressOf(f[14 + 7 * k..21 + 7 * k])],
                      DecodePath(f, 21 + 7 * k, k + 1, LastOf(f[20 + 7 * k])))
  {
    PathStep(f, 14 + 7 * k, k, parsed);
    hide DecodePath, IsAddress, LastOf, AddressOf;
    var e := f[14 + 7 * k..21 + 7 * k];
    assert e[6] == f[20 + 7 * k];
    PrependedOne(parsed, AddressOf(e), DecodePath(f, 21 + 7 * k, k + 1, LastOf(e[6])));
  }

  lemma {:induction false} PathSoFar(f: seq<byte>, k: nat) returns (parsed: seq<Address>)
    requires Leads(f, k + 2) && k <= 8
    ensures |parsed| == k
    ensures DecodePath(f, 14, 0, LastOf(f[13]))
         == Prepended(parsed, DecodePath(f, 14 + 7 * k, k, LastOf(f[13 + 7 * k])))
  {
    hide IsAddress, AddressOf, LastOf, DecodePath, Leads;
    if k == 0 {
      parsed := [];
      LeadsReaches(f, 2);
      PrependedNone(DecodePath(f, 14, 0, LastOf(f[13])));
    } else {
      LeadsLess(f, k + 1);
      var before := PathSoFar(f, k - 1);
      LeadsFurther(f, k + 1);
      PathGoesOn(f, k - 1, before);
      parsed := before + [AddressOf(f[7 + 7 * k..14 + 7 * k])];
    }
  }

  lemma LeadsReaches(f: seq<byte>, n: nat)
    requires Leads(f, n)
    ensures 7 * n + 4 <= |f|
  {}

  lemma {:induction false} LeadsTwo(f: seq<byte>, k: nat)
    requires Leads(f, k + 2)
    ensures Leads(f, 2)
  {
    if k > 0 {
      LeadsLess(f, k + 1);
      LeadsTwo(f, k - 1);
    }
  }

  /** With the destination, the source and `k` digipeaters in order: if the path ends there, the
      control byte, the protocol byte and the amount of information decide in turn; if not, an
      eighth digipeater, the end of the frame, and the next address. */
  lemma RefusedAlongThePath(f: seq<byte>, k: nat)
    requires Sound(f) && Leads(f, k + 2) && k <= 8
    ensures var r, at := DecodeUiFrame(f), 14 + 7 * k;
            if LastOf(f[at - 1]) then
              if f[at] != 0x03 then r == Err(UnsupportedControl)
              else if f[at + 1] != 0xF0 then r == Err(UnsupportedPid)
              else if !(1 <= |f| - at - 4 <= 256) then r == Err(InvalidInformationLength)
              else r.Ok? && |r.value.digipeaters| == k && r.value.information == f[at + 2..|f| - 2]
            else if k == 8 then r == Err(TooManyDigipeaters)
            else if at + 11 > |f| then r == Err(FrameTooShort)
            else !Leads(f, k + 3) ==> r == Err(InvalidAddress)
  {
    hide FcsOf, IsAddress, LastOf, AddressOf, Leads, DecodePath, DecodeUiFrame, Sound;
    LeadsReaches(f, k + 2);
    LeadsTwo(f, k);
    DecodesToTheEnd(f);
    var parsed := PathSoFar(f, k);
    var at := 14 + 7 * k;
    if LastOf(f[at - 1]) {
      PathEnds(f, at, k, parsed);
    } else {
      LeadsFurther(f, k + 2);
      NoAddressNext(f, at, k, parsed);
    }
  }

  lemma NoAddressNext(f: seq<byte>, at: nat, k: nat, parsed: seq<Address>)
    requires k <= 8
    ensures var r := Prepended(parsed, DecodePath(f, at, k, false));
            && (k == 8 ==> r == Err(TooManyDigipeaters))
            && (k < 8 && at + 11 > |f| ==> r == Err(FrameTooShort))
            && (k < 8 && at + 11 <= |f| && !IsAddress(f[at..at + 7]) ==> r == Err(InvalidAddress))
  {
    PathStep(f, at, k, parsed);
    hide DecodePath, IsAddress, LastOf, AddressOf;
  }
}
