/** Strict parsing of AX.25 UI frames, and the printer it undoes. */
module Ax25 {
  import opened Wrappers
  import opened Fcs

  const MAX_DIGIPEATER_ADDRESSES: nat := 8
  const MAX_INFORMATION_LEN: nat := 256
  const ADDRESS_LEN: nat := 7
  const FCS_LEN: nat := 2
  const MIN_FRAME_LEN: nat := 2 * ADDRESS_LEN + 2 + FCS_LEN
  const MAX_FRAME_LEN: nat := (2 + MAX_DIGIPEATER_ADDRESSES) * ADDRESS_LEN + 2 + MAX_INFORMATION_LEN + FCS_LEN
  const UI_CONTROL: byte := 0x03
  const NO_LAYER_THREE_PID: byte := 0xF0
  const SPACE: byte := 0x20

  /** A callsign's six character places, how many are used, and its station identifier. */
  datatype Callsign = Callsign(characters: seq<byte>, length: nat, ssid: byte)

  datatype Address = Address(callsign: Callsign, flag: bool)

  datatype UiFrame = UiFrame(destination: Address, source: Address,
                             digipeaters: seq<Address>, information: seq<byte>)

  datatype Ax25Error =
    | FrameTooShort | FrameTooLong | InvalidFcs | InvalidAddress | MissingSource
    | TooManyDigipeaters | UnsupportedControl | UnsupportedPid | InvalidInformationLength

  predicate IsCallCharacter(c: byte) { 0x41 <= c <= 0x5A || 0x30 <= c <= 0x39 }

  predicate ValidCallsign(c: Callsign) {
    && |c.characters| == 6
    && 1 <= c.length <= 6
    && (forall i :: 0 <= i < c.length ==> IsCallCharacter(c.characters[i]))
    && (forall i :: c.length <= i < 6 ==> c.characters[i] == 0)
    && c.ssid < 0x10
  }

  predicate ValidFrame(x: UiFrame) {
    && ValidCallsign(x.destination.callsign)
    && ValidCallsign(x.source.callsign)
    && |x.digipeaters| <= MAX_DIGIPEATER_ADDRESSES
    && (forall i :: 0 <= i < |x.digipeaters| ==> ValidCallsign(x.digipeaters[i].callsign))
    && 1 <= |x.information| <= MAX_INFORMATION_LEN
  }

  // ---------------------------------------------------------------- Printing

  function Doubled(c: byte): byte { c << 1 }

  /** The last byte of an address: reserved bits set, identifier, flag and end mark. */
  function SsidByte(ssid: byte, flag: bool, last: bool): byte {
    0x60 | (ssid << 1) | (if flag then 0x80 else 0) | (if last then 1 else 0)
  }

  /** Place `i` of a printed callsign, padded with spaces. */
  function Place(c: Callsign, i: nat): byte
    requires |c.characters| == 6 && i < 6
  {
    Doubled(if i < c.length then c.characters[i] else SPACE)
  }

  function EncodeAddress(a: Address, last: bool): (r: seq<byte>)
    requires ValidCallsign(a.callsign)
    ensures |r| == ADDRESS_LEN
  {
    var c := a.callsign;
    [Place(c, 0), Place(c, 1), Place(c, 2), Place(c, 3), Place(c, 4), Place(c, 5),
     SsidByte(c.ssid, a.flag, last)]
  }

  /** The digipeaters in order, the last one marked as the end of the addresses. */
  function EncodePath(path: seq<Address>): (r: seq<byte>)
    requires forall i :: 0 <= i < |path| ==> ValidCallsign(path[i].callsign)
    ensures |r| == ADDRESS_LEN * |path|
  {
    if path == [] then [] else EncodeAddress(path[0], |path| == 1) + EncodePath(path[1..])
  }

  /** Everything but the frame check. */
  function EncodeBody(x: UiFrame): seq<byte>
    requires ValidFrame(x)
  {
    EncodeAddress(x.destination, false) + EncodeAddress(x.source, x.digipeaters == [])
    + EncodePath(x.digipeaters) + [UI_CONTROL, NO_LAYER_THREE_PID] + x.information
  }

  function EncodeUiFrame(x: UiFrame): seq<byte>
    requires ValidFrame(x)
  {
    EncodeBody(x) + Trailer(FcsOf(EncodeBody(x)))
  }

  // ---------------------------------------------------------------- Parsing, as a function

  /** How many places of `encoded` from `i` on are characters before the first that is not. */
  function CallLength(encoded: seq<byte>, i: nat): (n: nat)
    requires |encoded| == ADDRESS_LEN && i <= 6
    ensures i <= n <= 6
    decreases 6 - i
  {
    if i < 6 && Unshifted(encoded[i]) && IsCallCharacter(Halved(encoded[i])) then CallLength(encoded, i + 1)
    else i
  }

  predicate Unshifted(b: byte) { b & 1 == 0 }

  function Halved(b: byte): byte { b >> 1 }

  predicate ReservedSet(b: byte) { b & 0x60 == 0x60 }

  /** Characters, then spaces, then an identifier byte with its reserved bits set. */
  predicate IsAddress(encoded: seq<byte>) {
    && |encoded| == ADDRESS_LEN
    && var n := CallLength(encoded, 0);
    && 1 <= n
    && (forall i :: n <= i < 6 ==> encoded[i] == Doubled(SPACE))
    && ReservedSet(encoded[6])
  }

  function AddressOf(encoded: seq<byte>): Address
    requires IsAddress(encoded)
  {
    var n := CallLength(encoded, 0);
    Address(Callsign(seq(6, i requires 0 <= i < 6 => if i < n then Halved(encoded[i]) else 0), n,
                     SsidOf(encoded[6])), FlagOf(encoded[6]))
  }

  function SsidOf(b: byte): byte { (b >> 1) & 0x0F }

  predicate FlagOf(b: byte) { b & 0x80 != 0 }

  predicate LastOf(b: byte) { b & 1 != 0 }

  function DecodeAddress(encoded: seq<byte>): Result<(Address, bool), Ax25Error> {
    if IsAddress(encoded) then Ok((AddressOf(encoded), LastOf(encoded[6]))) else Err(InvalidAddress)
  }

  /** The addresses after the source, and where they end. */
  function DecodePath(frame: seq<byte>, index: nat, count: nat, last: bool)
    : (r: Result<(seq<Address>, nat), Ax25Error>)
    requires count <= MAX_DIGIPEATER_ADDRESSES
    ensures r.Ok? ==> r.value.1 >= index && (r.value.1 == index || r.value.1 + 2 + FCS_LEN <= |frame|)
    decreases MAX_DIGIPEATER_ADDRESSES - count
  {
    if last then Ok(([], index))
    else if count == MAX_DIGIPEATER_ADDRESSES then Err(TooManyDigipeaters)
    else if index + ADDRESS_LEN + 2 + FCS_LEN > |frame| then Err(FrameTooShort)
    else
      var (address, isLast) :- DecodeAddress(frame[index..index + ADDRESS_LEN]);
      var (path, end) :- DecodePath(frame, index + ADDRESS_LEN, count + 1, isLast);
      Ok(([address] + path, end))
  }

  function DecodeUiFrame(frame: seq<byte>): Result<UiFrame, Ax25Error> {
    if |frame| < MIN_FRAME_LEN then Err(FrameTooShort)
    else if |frame| > MAX_FRAME_LEN then Err(FrameTooLong)
    else if FcsOf(frame) != GOOD_FCS_RESIDUE then Err(InvalidFcs)
    else
      var (destination, ended) :- DecodeAddress(frame[..ADDRESS_LEN]);
      if ended then Err(MissingSource)
      else
        var (source, last) :- DecodeAddress(frame[ADDRESS_LEN..2 * ADDRESS_LEN]);
        var (path, at) :- DecodePath(frame, 2 * ADDRESS_LEN, 0, last);
        if frame[at] != UI_CONTROL then Err(UnsupportedControl)
        else if frame[at + 1] != NO_LAYER_THREE_PID then Err(UnsupportedPid)
        else if !(1 <= |frame| - FCS_LEN - (at + 2) <= MAX_INFORMATION_LEN) then Err(InvalidInformationLength)
        else Ok(UiFrame(destination, source, path, frame[at + 2..|frame| - FCS_LEN]))
  }

  // ---------------------------------------------------------------- One address

  lemma DoubledIsUndone(c: byte)
    requires c < 0x80
    ensures Unshifted(Doubled(c)) && Halved(Doubled(c)) == c
  {
    BareDoubled(c);
  }

  lemma BareDoubled(c: byte)
    requires c < 0x80
    ensures (c << 1) & 1 == 0 && (c << 1) >> 1 == c
  {}

  lemma HalvedIsUndone(b: byte)
    requires Unshifted(b)
    ensures Doubled(Halved(b)) == b && Halved(b) < 0x80
  {
    BareHalved(b);
  }

  lemma BareHalved(b: byte)
    requires b & 1 == 0
    ensures (b >> 1) << 1 == b && b >> 1 < 0x80
  {}

  lemma SsidByteIsUndone(ssid: byte, flag: bool, last: bool)
    requires ssid < 0x10
    ensures var b := SsidByte(ssid, flag, last);
            ReservedSet(b) && SsidOf(b) == ssid && FlagOf(b) == flag && LastOf(b) == last
  {
    BareSsid(ssid, if flag then 0x80 else 0, if last then 1 else 0);
  }

  lemma BareSsid(ssid: byte, f: byte, l: byte)
    requires ssid < 0x10 && (f == 0 || f == 0x80) && (l == 0 || l == 1)
    ensures var b := 0x60 | (ssid << 1) | f | l;
            b & 0x60 == 0x60 && (b >> 1) & 0x0F == ssid && b & 0x80 == f && b & 1 == l
  {}

  lemma SsidOfIsUndone(b: byte)
    requires ReservedSet(b)
    ensures SsidOf(b) < 0x10 && SsidByte(SsidOf(b), FlagOf(b), LastOf(b)) == b
  {
    BareSsidOf(b);
    BareBit(b);
  }

  lemma BareSsidOf(b: byte)
    requires b & 0x60 == 0x60
    ensures (b >> 1) & 0x0F < 0x10
    ensures 0x60 | (((b >> 1) & 0x0F) << 1) | (b & 0x80) | (b & 1) == b
  {}

  lemma BareBit(b: byte)
    ensures (b & 0x80 == 0 || b & 0x80 == 0x80) && (b & 1 == 0 || b & 1 == 1)
  {}

  lemma {:induction false} CallLengthMeans(encoded: seq<byte>, i: nat)
    requires |encoded| == ADDRESS_LEN && i <= 6
    ensures var n := CallLength(encoded, i);
            && (forall k :: i <= k < n ==> Unshifted(encoded[k]) && IsCallCharacter(Halved(encoded[k])))
            && (n < 6 ==> !(Unshifted(encoded[n]) && IsCallCharacter(Halved(encoded[n]))))
    decreases 6 - i
  {
    hide Unshifted, Halved, IsCallCharacter;
    if i < 6 && Unshifted(encoded[i]) && IsCallCharacter(Halved(encoded[i])) {
      CallLengthMeans(encoded, i + 1);
    }
  }

  lemma {:induction false} CallLengthIs(encoded: seq<byte>, i: nat, n: nat)
    requires |encoded| == ADDRESS_LEN && i <= n <= 6
    requires forall k :: i <= k < n ==> Unshifted(encoded[k]) && IsCallCharacter(Halved(encoded[k]))
    requires n < 6 ==> !(Unshifted(encoded[n]) && IsCallCharacter(Halved(encoded[n])))
    ensures CallLength(encoded, i) == n
    decreases n - i
  {
    hide Unshifted, Halved, IsCallCharacter;
    if i < n {
      CallLengthIs(encoded, i + 1, n);
    }
  }

  lemma CallCharacterIsSmall(c: byte)
    requires IsCallCharacter(c)
    ensures c < 0x80 && c != SPACE
  {}

  lemma SpaceIsNoCharacter()
    ensures Unshifted(Doubled(SPACE)) && Halved(Doubled(SPACE)) == SPACE && !IsCallCharacter(SPACE)
  {
    DoubledIsUndone(SPACE);
  }

  /** Printing an address and parsing it gives it back. */
  lemma AddressRoundTrip(a: Address, last: bool)
    requires ValidCallsign(a.callsign)
    ensures DecodeAddress(EncodeAddress(a, last)) == Ok((a, last))
  {
    hide Unshifted, Halved, IsCallCharacter, Doubled, SsidByte, SsidOf, FlagOf, LastOf, ReservedSet;
    var c, e := a.callsign, EncodeAddress(a, last);
    SpaceIsNoCharacter();
    forall k | 0 <= k < 6
      ensures e[k] == Place(c, k)
      ensures k < c.length ==> Unshifted(e[k]) && Halved(e[k]) == c.characters[k] && IsCallCharacter(c.characters[k])
      ensures k >= c.length ==> e[k] == Doubled(SPACE)
    {
      if k < c.length {
        CallCharacterIsSmall(c.characters[k]);
        DoubledIsUndone(c.characters[k]);
      }
    }
    CallLengthIs(e, 0, c.length);
    SsidByteIsUndone(c.ssid, a.flag, last);
    assert AddressOf(e).callsign.characters == c.characters;
  }

  /** An accepted address is the printed form of what it was parsed as. */
  lemma AddressIsCanonical(e: seq<byte>)
    requires IsAddress(e)
    ensures ValidCallsign(AddressOf(e).callsign)
    ensures e == EncodeAddress(AddressOf(e), LastOf(e[6]))
  {
    hide Unshifted, Halved, IsCallCharacter, Doubled, SsidByte, SsidOf, FlagOf, LastOf, ReservedSet;
    var n, c := CallLength(e, 0), AddressOf(e).callsign;
    CallLengthMeans(e, 0);
    SsidOfIsUndone(e[6]);
    forall k | 0 <= k < 6 ensures Place(c, k) == e[k] {
      if k < n { HalvedIsUndone(e[k]); }
    }
  }

  /** Parses one shifted address subfield. */
  method ParseAddress(encoded: seq<byte>) returns (r: Result<(Address, bool), Ax25Error>)
    ensures r == DecodeAddress(encoded)
    ensures r.Ok? ==>
              && ValidCallsign(r.value.0.callsign)
              && encoded == EncodeAddress(r.value.0, r.value.1)
  {
    hide Unshifted, Halved, IsCallCharacter, Doubled, SsidOf, FlagOf, LastOf, ReservedSet;
    if |encoded| != ADDRESS_LEN { return Err(InvalidAddress); }
    CallLengthMeans(encoded, 0);
    SpaceIsNoCharacter();
    var characters := new byte[6](_ => 0);
    var length := 0;
    var padding := false;
    ghost var n := CallLength(encoded, 0);
    var index := 0;
    while index < 6
      invariant 0 <= index <= 6
      invariant !padding ==> length == index <= n
      invariant padding ==> length == n < index && forall k :: n <= k < index ==> encoded[k] == Doubled(SPACE)
      invariant forall k :: 0 <= k < length ==> characters[k] == Halved(encoded[k])
      invariant forall k :: length <= k < 6 ==> characters[k] == 0
    {
      var byte := encoded[index];
      if !Unshifted(byte) { return Err(InvalidAddress); }
      HalvedIsUndone(byte);
      var character := Halved(byte);
      if character == SPACE {
        padding := true;
      } else if IsCallCharacter(character) && !padding {
        characters[index] := character;
        length := length + 1;
      } else {
        return Err(InvalidAddress);
      }
      index := index + 1;
    }
    if length == 0 { return Err(InvalidAddress); }
    if !ReservedSet(encoded[6]) { return Err(InvalidAddress); }
    assert length == n;
    var address := Address(Callsign(characters[..], length, SsidOf(encoded[6])), FlagOf(encoded[6]));
    assert address.callsign.characters == AddressOf(encoded).callsign.characters;
    AddressIsCanonical(encoded);
    return Ok((address, LastOf(encoded[6])));
  }

  // ---------------------------------------------------------------- The path

  predicate ValidPath(path: seq<Address>) {
    forall i :: 0 <= i < |path| ==> ValidCallsign(path[i].callsign)
  }

  /** A printed path, wherever it stands in a frame, parses back to itself. */
  lemma {:induction false} PathRoundTrip(frame: seq<byte>, index: nat, count: nat, path: seq<Address>)
    requires ValidPath(path) && count + |path| <= MAX_DIGIPEATER_ADDRESSES
    requires index + ADDRESS_LEN * |path| + 2 + FCS_LEN <= |frame|
    requires frame[index..index + ADDRESS_LEN * |path|] == EncodePath(path)
    ensures DecodePath(frame, index, count, path == []) == Ok((path, index + ADDRESS_LEN * |path|))
    decreases |path|
  {
    hide DecodeAddress, EncodeAddress, ValidCallsign;
    if path != [] {
      var rest, all := path[1..], frame[index..index + ADDRESS_LEN * |path|];
      assert EncodePath(path) == EncodeAddress(path[0], rest == []) + EncodePath(rest);
      assert frame[index..index + ADDRESS_LEN] == all[..ADDRESS_LEN] == EncodeAddress(path[0], rest == []);
      assert frame[index + ADDRESS_LEN..index + ADDRESS_LEN + ADDRESS_LEN * |rest|]
          == all[ADDRESS_LEN..] == EncodePath(rest);
      AddressRoundTrip(path[0], rest == []);
      PathRoundTrip(frame, index + ADDRESS_LEN, count + 1, rest);
      assert [path[0]] + rest == path;
    }
  }

  /** An accepted path is the printed form of the addresses it was parsed as. */
  lemma {:induction false} PathIsCanonical(frame: seq<byte>, index: nat, count: nat, last: bool)
    requires count <= MAX_DIGIPEATER_ADDRESSES && index <= |frame|
    requires DecodePath(frame, index, count, last).Ok?
    ensures var (path, end) := DecodePath(frame, index, count, last).value;
            && ValidPath(path) && count + |path| <= MAX_DIGIPEATER_ADDRESSES
            && (path == [] <==> last)
            && end == index + ADDRESS_LEN * |path| <= |frame|
            && frame[index..end] == EncodePath(path)
    decreases MAX_DIGIPEATER_ADDRESSES - count
  {
    hide IsAddress, AddressOf, EncodeAddress, ValidCallsign, LastOf;
    if !last {
      var e := frame[index..index + ADDRESS_LEN];
      var (address, isLast) := DecodeAddress(e).value;
      AddressIsCanonical(e);
      PathIsCanonical(frame, index + ADDRESS_LEN, count + 1, isLast);
      var (rest, end) := DecodePath(frame, index + ADDRESS_LEN, count + 1, isLast).value;
      var path := [address] + rest;
      assert path[1..] == rest && path[0] == address;
      assert EncodePath(path) == EncodeAddress(address, isLast) + EncodePath(rest);
      assert frame[index..end] == e + frame[index + ADDRESS_LEN..end];
    }
  }

  // ---------------------------------------------------------------- The frame

  /** Where the parts of a printed frame lie. */
  lemma BodyParts(x: UiFrame)
    requires ValidFrame(x)
    ensures var b, at := EncodeBody(x), 2 * ADDRESS_LEN + ADDRESS_LEN * |x.digipeaters|;
            && |b| == at + 2 + |x.information|
            && b[..ADDRESS_LEN] == EncodeAddress(x.destination, false)
            && b[ADDRESS_LEN..2 * ADDRESS_LEN] == EncodeAddress(x.source, x.digipeaters == [])
            && b[2 * ADDRESS_LEN..at] == EncodePath(x.digipeaters)
            && b[at] == UI_CONTROL && b[at + 1] == NO_LAYER_THREE_PID
            && b[at + 2..] == x.information
  {
    hide EncodeAddress, EncodePath, ValidCallsign;
  }

  /** Printing a frame and parsing it gives it back, whatever its addresses, path and
      information. */
  lemma FrameRoundTrip(x: UiFrame)
    requires ValidFrame(x)
    ensures DecodeUiFrame(EncodeUiFrame(x)) == Ok(x)
  {
    hide EncodeAddress, EncodePath, ValidCallsign, EncodeBody, FcsOf, Trailer, DecodePath, DecodeAddress;
    var b := EncodeBody(x);
    var t := Trailer(FcsOf(b));
    var f := EncodeUiFrame(x);
    var at := 2 * ADDRESS_LEN + ADDRESS_LEN * |x.digipeaters|;
    BodyParts(x);
    assert f == b + t && t == [t[0], t[1]];
    GoodExactlyWhenComplemented(b, t[0], t[1]);
    assert f[..ADDRESS_LEN] == b[..ADDRESS_LEN];
    assert f[ADDRESS_LEN..2 * ADDRESS_LEN] == b[ADDRESS_LEN..2 * ADDRESS_LEN];
    assert f[2 * ADDRESS_LEN..at] == b[2 * ADDRESS_LEN..at];
    AddressRoundTrip(x.destination, false);
    AddressRoundTrip(x.source, x.digipeaters == []);
    PathRoundTrip(f, 2 * ADDRESS_LEN, 0, x.digipeaters);
    assert f[at + 2..|f| - FCS_LEN] == b[at + 2..];
  }

  /** Whatever the parser accepts is the printed form of what it returns, check bytes
      included: nothing else in a frame could have been different. */
  lemma FrameIsCanonical(f: seq<byte>)
    requires DecodeUiFrame(f).Ok?
    ensures ValidFrame(DecodeUiFrame(f).value)
    ensures f == EncodeUiFrame(DecodeUiFrame(f).value)
  {
    hide EncodeAddress, EncodePath, ValidCallsign, FcsOf, Trailer, DecodePath, IsAddress, AddressOf, LastOf;
    var x := DecodeUiFrame(f).value;
    var source := f[ADDRESS_LEN..2 * ADDRESS_LEN];
    AddressIsCanonical(f[..ADDRESS_LEN]);
    AddressIsCanonical(source);
    PathIsCanonical(f, 2 * ADDRESS_LEN, 0, LastOf(source[6]));
    var at := 2 * ADDRESS_LEN + ADDRESS_LEN * |x.digipeaters|;
    var b := f[..|f| - FCS_LEN];
    assert f == b + [f[|f| - 2], f[|f| - 1]];
    GoodExactlyWhenComplemented(b, f[|f| - 2], f[|f| - 1]);
    assert b == f[..ADDRESS_LEN] + source + f[2 * ADDRESS_LEN..at] + [f[at], f[at + 1]] + f[at + 2..|f| - FCS_LEN];
    assert b == EncodeBody(x);
  }

  /** The parser accepts exactly the printed forms of frames. */
  lemma AcceptedExactlyWhenPrinted(f: seq<byte>)
    ensures DecodeUiFrame(f).Ok? <==> exists x :: ValidFrame(x) && EncodeUiFrame(x) == f
  {
    hide EncodeUiFrame, DecodeUiFrame, ValidFrame;
    if DecodeUiFrame(f).Ok? { FrameIsCanonical(f); }
    if x :| ValidFrame(x) && EncodeUiFrame(x) == f { FrameRoundTrip(x); }
  }

  /** Printed frames are distinct: the parser loses nothing. */
  lemma PrintingIsInjective(x: UiFrame, y: UiFrame)
    requires ValidFrame(x) && ValidFrame(y) && EncodeUiFrame(x) == EncodeUiFrame(y)
    ensures x == y
  {
    FrameRoundTrip(x);
    FrameRoundTrip(y);
  }

  /** A good frame hit by a burst of up to sixteen bits is refused for its check bytes. */
  lemma BurstIsRefused(x: UiFrame, g: seq<byte>, p: nat)
    requires ValidFrame(x) && IsBurst(EncodeUiFrame(x), g, p)
    ensures DecodeUiFrame(g) == Err(InvalidFcs)
  {
    hide EncodeUiFrame, FcsOf, IsAddress;
    FrameRoundTrip(x);
    BurstsAreDetected(EncodeUiFrame(x), g, p);
  }

  /** So is one in which an odd number of bits were flipped, wherever they are. */
  lemma OddErrorIsRefused(x: UiFrame, g: seq<byte>)
    requires ValidFrame(x) && |g| == |EncodeUiFrame(x)|
    requires Differences(Bits(EncodeUiFrame(x)), Bits(g)) % 2 == 1
    ensures DecodeUiFrame(g) == Err(InvalidFcs)
  {
    hide EncodeUiFrame, FcsOf, IsAddress, Bits, Differences;
    FrameRoundTrip(x);
    OddErrorsAreDetected(EncodeUiFrame(x), g);
  }

  /** The digipeater loop of `ParseUiFrame`. */
  method ParsePath(frame: seq<byte>, last: bool) returns (r: Result<(seq<Address>, nat), Ax25Error>)
    requires |frame| >= MIN_FRAME_LEN
    ensures r == DecodePath(frame, 2 * ADDRESS_LEN, 0, last)
  {
    hide DecodePath, Prepended, DecodeAddress, EncodeAddress, ValidCallsign;
    var finalAddress, index, count := last, 2 * ADDRESS_LEN, 0;
    var none := Address(Callsign([0, 0, 0, 0, 0, 0], 0, 0), false);
    var digipeaters := new Address[MAX_DIGIPEATER_ADDRESSES](_ => none);
    ghost var parsed := [];
    PrependedNone(DecodePath(frame, index, 0, last));
    while !finalAddress
      invariant 0 <= count <= MAX_DIGIPEATER_ADDRESSES
      invariant index == 2 * ADDRESS_LEN + ADDRESS_LEN * count
      invariant parsed == digipeaters[..count]
      invariant DecodePath(frame, 2 * ADDRESS_LEN, 0, last)
             == Prepended(parsed, DecodePath(frame, index, count, finalAddress))
      decreases MAX_DIGIPEATER_ADDRESSES - count, !finalAddress
    {
      PathStep(frame, index, count, parsed);
      if count == MAX_DIGIPEATER_ADDRESSES { return Err(TooManyDigipeaters); }
      var end := index + ADDRESS_LEN;
      if end + 2 + FCS_LEN > |frame| { return Err(FrameTooShort); }
      var next :- ParseAddress(frame[index..end]);
      var (address, isFinal) := next;
      PrependedOne(parsed, address, DecodePath(frame, end, count + 1, isFinal));
      digipeaters[count] := address;
      parsed := parsed + [address];
      count := count + 1;
      index := end;
      finalAddress := isFinal;
    }
    PathEnds(frame, index, count, parsed);
    return Ok((digipeaters[..count], index));
  }

  /** One turn of the loop, as the function takes it. */
  lemma PathStep(frame: seq<byte>, index: nat, count: nat, parsed: seq<Address>)
    requires count <= MAX_DIGIPEATER_ADDRESSES
    ensures var r, end := Prepended(parsed, DecodePath(frame, index, count, false)), index + ADDRESS_LEN;
            if count == MAX_DIGIPEATER_ADDRESSES then r == Err(TooManyDigipeaters)
            else if end + 2 + FCS_LEN > |frame| then r == Err(FrameTooShort)
            else match DecodeAddress(frame[index..end])
              case Err(e) => r == Err(e)
              case Ok((address, isFinal)) =>
                r == Prepended(parsed, Prepended([address], DecodePath(frame, end, count + 1, isFinal)))
  {
    hide DecodeAddress;
  }

  lemma PathEnds(frame: seq<byte>, index: nat, count: nat, parsed: seq<Address>)
    requires count <= MAX_DIGIPEATER_ADDRESSES
    ensures Prepended(parsed, DecodePath(frame, index, count, true)) == Ok((parsed, index))
  {
    assert parsed + [] == parsed;
  }

  lemma PrependedNone(r: Result<(seq<Address>, nat), Ax25Error>)
    ensures Prepended([], r) == r
  {
    if r.Ok? { assert [] + r.value.0 == r.value.0; }
  }

  /** The frame a run of received bytes spells, or why it spells none. */
  method ParseUiFrame(frame: seq<byte>) returns (r: Result<UiFrame, Ax25Error>)
    ensures r == DecodeUiFrame(frame)
    ensures r.Ok? ==> ValidFrame(r.value) && frame == EncodeUiFrame(r.value)
  {
    hide FcsOf, EncodeUiFrame, ValidFrame, IsAddress, AddressOf, LastOf, EncodeAddress;
    if |frame| < MIN_FRAME_LEN { return Err(FrameTooShort); }
    if |frame| > MAX_FRAME_LEN { return Err(FrameTooLong); }
    var fcs := FcsAccumulator(frame);
    if fcs != GOOD_FCS_RESIDUE { return Err(InvalidFcs); }
    var first :- ParseAddress(frame[..ADDRESS_LEN]);
    var (destination, destinationFinal) := first;
    if destinationFinal { return Err(MissingSource); }
    var second :- ParseAddress(frame[ADDRESS_LEN..2 * ADDRESS_LEN]);
    var (source, finalAddress) := second;
    var third :- ParsePath(frame, finalAddress);
    var (digipeaters, index) := third;
    if frame[index] != UI_CONTROL { return Err(UnsupportedControl); }
    if frame[index + 1] != NO_LAYER_THREE_PID { return Err(UnsupportedPid); }
    var informationStart := index + 2;
    var informationEnd := |frame| - FCS_LEN;
    var informationLen := if informationEnd < informationStart then 0 else informationEnd - informationStart;
    if !(1 <= informationLen <= MAX_INFORMATION_LEN) { return Err(InvalidInformationLength); }
    r := Ok(UiFrame(destination, source, digipeaters, frame[informationStart..informationEnd]));
    assert r == DecodeUiFrame(frame);
    FrameIsCanonical(frame);
  }

  /** A parse of the rest of a path, with the addresses before it put back. */
  function Prepended(path: seq<Address>, r: Result<(seq<Address>, nat), Ax25Error>)
    : Result<(seq<Address>, nat), Ax25Error>
  {
    match r
    case Err(e) => Err(e)
    case Ok((rest, end)) => Ok((path + rest, end))
  }

  lemma PrependedOne(path: seq<Address>, a: Address, r: Result<(seq<Address>, nat), Ax25Error>)
    ensures Prepended(path, Prepended([a], r)) == Prepended(path + [a], r)
  {
    if r.Ok? { assert path + ([a] + r.value.0) == path + [a] + r.value.0; }
  }
}
