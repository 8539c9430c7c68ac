/**
 `ExtensionCommandPcitree`: the `!pcitree` command. It scans every
 bus/device/function coordinate below the configured bounds, skips the ones
 whose first configuration dword reads as all ones, and stores one endpoint
 record per present function into the response array.

 The scan is modelled twice. `ScanAsWritten` and the method `Pcitree` follow
 the code as written: `UINT8` counters, the class code taken from a second
 read of offset 0, and a capacity `break` that only leaves the innermost
 (function) loop. `ScanIntended` stops the whole scan at capacity and reads
 the class code register at offset 0x08; `ScanIntendedStopsAtCapacity`
 proves that it stores exactly the first present coordinates that fit.
 */
module PciTree {
  import opened DebuggerTypes

  /** `PciReadCam(bus, device, function, offset, sizeof(DWORD))`, cast to a DWORD. */
  type ConfigRead = (u8, u8, u8, nat) -> bv32

  /** The dword read at a coordinate where no function is present. */
  const NoDevice: bv32 := 0xFFFF_FFFF

  /** Offset of the dword whose upper three bytes are class, subclass and programming interface. */
  const ClassCodeRegisterOffset: nat := 0x08

  /** BUS_MAX_NUM, DEVICE_MAX_NUM, FUNCTION_MAX_NUM and EP_MAX_NUM. */
  datatype Bounds = Bounds(busMax: nat, deviceMax: nat, functionMax: nat, endpointMax: nat)

  /** The loop counters are `UINT8`: a loop bound above 255 would make its
      loop run forever, because the counter wraps before reaching it. */
  predicate ValidBounds(bd: Bounds) {
    bd.busMax <= 255 && bd.deviceMax <= 255 && bd.functionMax <= 255
  }

  /** `EpNum` is `UINT8` too, so it can equal an `EP_MAX_NUM` of at most 255
      only. A larger capacity never stops the scan; the as-written code
      runs on, and only the corrected scan needs the bound. */
  predicate ValidCapacity(bd: Bounds) {
    bd.endpointMax <= 255
  }

  datatype Coord = Coord(bus: u8, device: u8, func: u8)

  /** One `Endpoints[]` record. `classCode` holds `ClassCode[0..2]`. */
  datatype Endpoint = Endpoint(bus: u8, device: u8, func: u8, vendorId: bv16, deviceId: bv16, classCode: seq<bv8>)
  {
    function Location(): Coord {
      Coord(bus, device, func)
    }
  }

  /** A store of `endpoint` into `Endpoints[index]`. Nothing stops `index`
      from reaching or passing the array's capacity; the write log is kept
      rather than an array so that such stores stay visible. */
  datatype Write = Write(index: u8, endpoint: Endpoint)

  /** The loop state: the stores made so far and `EpNum`. */
  datatype ScanState = ScanState(writes: seq<Write>, epNum: u8)

  /** What the handler writes back into the request packet. */
  datatype PcitreeResponse = PcitreeResponse(writes: seq<Write>, endpointsTotalNum: nat, kernelStatus: KernelStatus)

  // ----- Field extraction -----

  /** Low word of the vendor/device dword. */
  function VendorIdOf(x: bv32): bv16 {
    (x & 0xFFFF) as bv16
  }

  /** High word of the vendor/device dword. */
  function DeviceIdOf(x: bv32): bv16 {
    (x >> 16) as bv16
  }

  /** `ClassCode[0..2]`: bytes 3, 2 and 1 of a dword. */
  function ClassCodeOf(x: bv32): (cc: seq<bv8>)
    ensures |cc| == 3
  {
    [((x >> 24) & 0xFF) as bv8, ((x >> 16) & 0xFF) as bv8, ((x >> 8) & 0xFF) as bv8]
  }

  /** Vendor id and device id together are the whole dword they were cut from. */
  lemma IdSplitRoundTrip(x: bv32)
    ensures (DeviceIdOf(x) as bv32 << 16) | VendorIdOf(x) as bv32 == x
  {
  }

  /** The record for a present coordinate, its class code read at `classOffset`. */
  function DecodeEndpoint(cam: ConfigRead, c: Coord, classOffset: nat): Endpoint {
    var deviceIdVendorId := cam(c.bus, c.device, c.func, 0);
    var classCode := cam(c.bus, c.device, c.func, classOffset);
    Endpoint(c.bus, c.device, c.func, VendorIdOf(deviceIdVendorId), DeviceIdOf(deviceIdVendorId), ClassCodeOf(classCode))
  }

  /** The class-code bytes of the vendor/device dword are the device id's
      high and low byte and the vendor id's high byte. */
  lemma ClassBytesOfIdDword(x: bv32)
    ensures ClassCodeOf(x) == [(DeviceIdOf(x) >> 8) as bv8, (DeviceIdOf(x) & 0xFF) as bv8, (VendorIdOf(x) >> 8) as bv8]
  {
  }

  /** As written, the class-code dword is a second read of offset 0, so the
      stored "class code" repeats bytes of the device and vendor ids. */
  lemma ClassCodeAsWrittenRepeatsIds(cam: ConfigRead, c: Coord)
    ensures var e := DecodeEndpoint(cam, c, 0);
      e.classCode == [(e.deviceId >> 8) as bv8, (e.deviceId & 0xFF) as bv8, (e.vendorId >> 8) as bv8]
  {
    ClassBytesOfIdDword(cam(c.bus, c.device, c.func, 0));
  }

  // ----- Present coordinates, in scan order -----

  function PresentFunctions(cam: ConfigRead, bd: Bounds, b: u8, d: u8, f: u8): seq<Coord>
    requires ValidBounds(bd)
    decreases bd.functionMax - f as int
  {
    if f as int >= bd.functionMax then []
    else (if cam(b, d, f, 0) != NoDevice then [Coord(b, d, f)] else []) + PresentFunctions(cam, bd, b, d, f + 1)
  }

  function PresentDevices(cam: ConfigRead, bd: Bounds, b: u8, d: u8): seq<Coord>
    requires ValidBounds(bd)
    decreases bd.deviceMax - d as int
  {
    if d as int >= bd.deviceMax then []
    else PresentFunctions(cam, bd, b, d, 0) + PresentDevices(cam, bd, b, d + 1)
  }

  function PresentBuses(cam: ConfigRead, bd: Bounds, b: u8): seq<Coord>
    requires ValidBounds(bd)
    decreases bd.busMax - b as int
  {
    if b as int >= bd.busMax then []
    else PresentDevices(cam, bd, b, 0) + PresentBuses(cam, bd, b + 1)
  }

  /** Every coordinate below the bounds whose offset-0 dword is not all ones, in scan order. */
  function Present(cam: ConfigRead, bd: Bounds): seq<Coord>
    requires ValidBounds(bd)
  {
    PresentBuses(cam, bd, 0)
  }

  // ----- The scan as written -----

  /** `EpNum++` on a `UINT8`. */
  function Inc8(x: u8): u8 {
    ((x as int + 1) % 256) as u8
  }

  /** Stores the record for `c` at `Endpoints[EpNum]` and increments `EpNum`. */
  function Record(cam: ConfigRead, s: ScanState, c: Coord, classOffset: nat): ScanState {
    ScanState(s.writes + [Write(s.epNum, DecodeEndpoint(cam, c, classOffset))], Inc8(s.epNum))
  }

  /** The function loop, from function `f` on. Reaching the capacity breaks
      out of this loop only. */
  function FunctionLoop(cam: ConfigRead, bd: Bounds, b: u8, d: u8, f: u8, s: ScanState): ScanState
    requires ValidBounds(bd)
    decreases bd.functionMax - f as int
  {
    if f as int >= bd.functionMax then s
    else if cam(b, d, f, 0) == NoDevice then FunctionLoop(cam, bd, b, d, f + 1, s)
    else
      var s' := Record(cam, s, Coord(b, d, f), 0);
      if s'.epNum as int == bd.endpointMax then s' else FunctionLoop(cam, bd, b, d, f + 1, s')
  }

  /** The device loop, from device `d` on. */
  function DeviceLoop(cam: ConfigRead, bd: Bounds, b: u8, d: u8, s: ScanState): ScanState
    requires ValidBounds(bd)
    decreases bd.deviceMax - d as int
  {
    if d as int >= bd.deviceMax then s
    else DeviceLoop(cam, bd, b, d + 1, FunctionLoop(cam, bd, b, d, 0, s))
  }

  /** The bus loop, from bus `b` on. */
  function BusLoop(cam: ConfigRead, bd: Bounds, b: u8, s: ScanState): ScanState
    requires ValidBounds(bd)
    decreases bd.busMax - b as int
  {
    if b as int >= bd.busMax then s
    else BusLoop(cam, bd, b + 1, DeviceLoop(cam, bd, b, 0, s))
  }

  function ScanAsWritten(cam: ConfigRead, bd: Bounds): ScanState
    requires ValidBounds(bd)
  {
    BusLoop(cam, bd, 0, ScanState([], 0))
  }

  // ----- Properties of a write log -----

  function Loc(w: Write): Coord {
    w.endpoint.Location()
  }

  /** The coordinates of a write log, in store order. */
  function Locations(ws: seq<Write>): seq<Coord> {
    seq(|ws|, k requires 0 <= k < |ws| => Loc(ws[k]))
  }

  /** Position of a coordinate in scan order. */
  function RankOf(b: int, d: int, f: int): int {
    (b * 256 + d) * 256 + f
  }

  function Rank(c: Coord): int {
    RankOf(c.bus as int, c.device as int, c.func as int)
  }

  /** Store `k` went to index `k mod 256`, for a present coordinate, with the
      record decoded from that coordinate. */
  ghost predicate WriteAt(cam: ConfigRead, ws: seq<Write>, k: int, classOffset: nat)
    requires 0 <= k < |ws|
  {
    var c := Loc(ws[k]);
    && ws[k].index as int == k % 256
    && cam(c.bus, c.device, c.func, 0) != NoDevice
    && ws[k].endpoint == DecodeEndpoint(cam, c, classOffset)
  }

  ghost predicate Consistent(cam: ConfigRead, s: ScanState, classOffset: nat) {
    && s.epNum as int == |s.writes| % 256
    && forall k :: 0 <= k < |s.writes| ==> WriteAt(cam, s.writes, k, classOffset)
  }

  /** Records are stored in strictly increasing scan order. */
  ghost predicate Ordered(ws: seq<Write>) {
    forall j, k :: 0 <= j < k < |ws| ==> Rank(Loc(ws[j])) < Rank(Loc(ws[k]))
  }

  /** Every stored coordinate comes before scan position `r`. */
  ghost predicate AllBefore(ws: seq<Write>, r: int) {
    forall k :: 0 <= k < |ws| ==> Rank(Loc(ws[k])) < r
  }

  /** A store appends its coordinate to the log and, below 255, adds one to `EpNum`. */
  lemma RecordAppends(cam: ConfigRead, s: ScanState, c: Coord, classOffset: nat)
    ensures var s' := Record(cam, s, c, classOffset);
      && Locations(s'.writes) == Locations(s.writes) + [c]
      && (s.epNum < 255 ==> s'.epNum == s.epNum + 1)
  {
    var s' := Record(cam, s, c, classOffset);
    assert s'.writes[..|s'.writes| - 1] == s.writes;
  }

  /** Storing one more present coordinate, later in scan order than all
      stored ones, keeps the log consistent and ordered. */
  lemma RecordKeeps(cam: ConfigRead, s: ScanState, c: Coord, classOffset: nat)
    requires Consistent(cam, s, classOffset) && Ordered(s.writes) && AllBefore(s.writes, Rank(c))
    requires cam(c.bus, c.device, c.func, 0) != NoDevice
    ensures var s' := Record(cam, s, c, classOffset);
      Consistent(cam, s', classOffset) && Ordered(s'.writes) && AllBefore(s'.writes, Rank(c) + 1)
      && s.writes <= s'.writes && |s'.writes| == |s.writes| + 1
  {
    var s' := Record(cam, s, c, classOffset);
    forall k | 0 <= k < |s'.writes|
      ensures WriteAt(cam, s'.writes, k, classOffset)
    {
      if k < |s.writes| {
        assert s'.writes[k] == s.writes[k];
        assert WriteAt(cam, s.writes, k, classOffset);
      }
    }
  }

  // ----- Well-formedness of the as-written scan -----

  lemma {:induction false} FunctionLoopKeeps(cam: ConfigRead, bd: Bounds, b: u8, d: u8, f: u8, s: ScanState)
    requires ValidBounds(bd)
    requires Consistent(cam, s, 0) && Ordered(s.writes) && AllBefore(s.writes, RankOf(b as int, d as int, f as int))
    ensures var r := FunctionLoop(cam, bd, b, d, f, s);
      Consistent(cam, r, 0) && Ordered(r.writes) && AllBefore(r.writes, RankOf(b as int, d as int + 1, 0))
    decreases bd.functionMax - f as int
  {
    if f as int >= bd.functionMax {
    } else if cam(b, d, f, 0) == NoDevice {
      FunctionLoopKeeps(cam, bd, b, d, f + 1, s);
    } else {
      var s' := Record(cam, s, Coord(b, d, f), 0);
      RecordKeeps(cam, s, Coord(b, d, f), 0);
      if s'.epNum as int != bd.endpointMax {
        FunctionLoopKeeps(cam, bd, b, d, f + 1, s');
      }
    }
  }

  lemma {:induction false} DeviceLoopKeeps(cam: ConfigRead, bd: Bounds, b: u8, d: u8, s: ScanState)
    requires ValidBounds(bd)
    requires Consistent(cam, s, 0) && Ordered(s.writes) && AllBefore(s.writes, RankOf(b as int, d as int, 0))
    ensures var r := DeviceLoop(cam, bd, b, d, s);
      Consistent(cam, r, 0) && Ordered(r.writes) && AllBefore(r.writes, RankOf(b as int + 1, 0, 0))
    decreases bd.deviceMax - d as int
  {
    if d as int < bd.deviceMax {
      FunctionLoopKeeps(cam, bd, b, d, 0, s);
      DeviceLoopKeeps(cam, bd, b, d + 1, FunctionLoop(cam, bd, b, d, 0, s));
    }
  }

  lemma {:induction false} BusLoopKeeps(cam: ConfigRead, bd: Bounds, b: u8, s: ScanState)
    requires ValidBounds(bd)
    requires Consistent(cam, s, 0) && Ordered(s.writes) && AllBefore(s.writes, RankOf(b as int, 0, 0))
    ensures var r := BusLoop(cam, bd, b, s);
      Consistent(cam, r, 0) && Ordered(r.writes)
    decreases bd.busMax - b as int
  {
    if b as int < bd.busMax {
      DeviceLoopKeeps(cam, bd, b, 0, s);
      BusLoopKeeps(cam, bd, b + 1, DeviceLoop(cam, bd, b, 0, s));
    }
  }

  /** Every store of the as-written scan is a present coordinate, decoded
      from its own configuration dword, stored at index `k mod 256`; stores
      come in scan order; and `EpNum` ends as the number of stores mod 256. */
  lemma ScanAsWrittenWellFormed(cam: ConfigRead, bd: Bounds)
    requires ValidBounds(bd)
    ensures Consistent(cam, ScanAsWritten(cam, bd), 0)
    ensures Ordered(ScanAsWritten(cam, bd).writes)
  {
    BusLoopKeeps(cam, bd, 0, ScanState([], 0));
  }

  // ----- The as-written scan below capacity -----

  lemma {:induction false} FunctionLoopComplete(cam: ConfigRead, bd: Bounds, b: u8, d: u8, f: u8, s: ScanState)
    requires ValidBounds(bd)
    requires s.epNum as int + |PresentFunctions(cam, bd, b, d, f)| <= bd.endpointMax
    requires s.epNum as int + |PresentFunctions(cam, bd, b, d, f)| < 256
    ensures var r := FunctionLoop(cam, bd, b, d, f, s);
      && Locations(r.writes) == Locations(s.writes) + PresentFunctions(cam, bd, b, d, f)
      && r.epNum as int == s.epNum as int + |PresentFunctions(cam, bd, b, d, f)|
    decreases bd.functionMax - f as int
  {
    if f as int >= bd.functionMax {
      assert Locations(s.writes) + [] == Locations(s.writes);
    } else if cam(b, d, f, 0) == NoDevice {
      var rest := PresentFunctions(cam, bd, b, d, f + 1);
      assert PresentFunctions(cam, bd, b, d, f) == [] + rest == rest;
      assert FunctionLoop(cam, bd, b, d, f, s) == FunctionLoop(cam, bd, b, d, f + 1, s);
      FunctionLoopComplete(cam, bd, b, d, f + 1, s);
    } else {
      var c := Coord(b, d, f);
      var s' := Record(cam, s, c, 0);
      var rest := PresentFunctions(cam, bd, b, d, f + 1);
      assert PresentFunctions(cam, bd, b, d, f) == [c] + rest;
      RecordAppends(cam, s, c, 0);
      if s'.epNum as int != bd.endpointMax {
        var r := FunctionLoop(cam, bd, b, d, f + 1, s');
        assert FunctionLoop(cam, bd, b, d, f, s) == r;
        FunctionLoopComplete(cam, bd, b, d, f + 1, s');
        AppendAssoc(Locations(s.writes), [c], rest);
      } else {
        assert FunctionLoop(cam, bd, b, d, f, s) == s';
        assert rest == [];
        AppendAssoc(Locations(s.writes), [c], rest);
      }
    }
  }

  lemma {:induction false} DeviceLoopComplete(cam: ConfigRead, bd: Bounds, b: u8, d: u8, s: ScanState)
    requires ValidBounds(bd)
    requires s.epNum as int + |PresentDevices(cam, bd, b, d)| <= bd.endpointMax
    requires s.epNum as int + |PresentDevices(cam, bd, b, d)| < 256
    ensures var r := DeviceLoop(cam, bd, b, d, s);
      && Locations(r.writes) == Locations(s.writes) + PresentDevices(cam, bd, b, d)
      && r.epNum as int == s.epNum as int + |PresentDevices(cam, bd, b, d)|
    decreases bd.deviceMax - d as int
  {
    if d as int < bd.deviceMax {
      FunctionLoopComplete(cam, bd, b, d, 0, s);
      var s' := FunctionLoop(cam, bd, b, d, 0, s);
      DeviceLoopComplete(cam, bd, b, d + 1, s');
      assert Locations(s.writes) + PresentFunctions(cam, bd, b, d, 0) + PresentDevices(cam, bd, b, d + 1)
          == Locations(s.writes) + PresentDevices(cam, bd, b, d);
    }
  }

  lemma {:induction false} BusLoopComplete(cam: ConfigRead, bd: Bounds, b: u8, s: ScanState)
    requires ValidBounds(bd)
    requires s.epNum as int + |PresentBuses(cam, bd, b)| <= bd.endpointMax
    requires s.epNum as int + |PresentBuses(cam, bd, b)| < 256
    ensures var r := BusLoop(cam, bd, b, s);
      && Locations(r.writes) == Locations(s.writes) + PresentBuses(cam, bd, b)
      && r.epNum as int == s.epNum as int + |PresentBuses(cam, bd, b)|
    decreases bd.busMax - b as int
  {
    if b as int < bd.busMax {
      DeviceLoopComplete(cam, bd, b, 0, s);
      var s' := DeviceLoop(cam, bd, b, 0, s);
      BusLoopComplete(cam, bd, b + 1, s');
      assert Locations(s.writes) + PresentDevices(cam, bd, b, 0) + PresentBuses(cam, bd, b + 1)
          == Locations(s.writes) + PresentBuses(cam, bd, b);
    }
  }

  /** When no more functions are present than the array holds (and fewer
      than 256, so `EpNum` does not wrap), the as-written scan stores every
      present coordinate, in scan order, and never at an index at or past
      the capacity. */
  lemma ScanAsWrittenBelowCapacity(cam: ConfigRead, bd: Bounds)
    requires ValidBounds(bd)
    requires |Present(cam, bd)| <= bd.endpointMax && |Present(cam, bd)| < 256
    ensures Locations(ScanAsWritten(cam, bd).writes) == Present(cam, bd)
    ensures forall k :: 0 <= k < |ScanAsWritten(cam, bd).writes| ==>
      ScanAsWritten(cam, bd).writes[k].index as int < bd.endpointMax
  {
    BusLoopComplete(cam, bd, 0, ScanState([], 0));
    ScanAsWrittenWellFormed(cam, bd);
    var ws := ScanAsWritten(cam, bd).writes;
    forall k | 0 <= k < |ws|
      ensures ws[k].index as int < bd.endpointMax
    {
      assert WriteAt(cam, ws, k, 0);
    }
  }

  /** The capacity check does hold inside one device's function loop: a loop
      entered below capacity stores only at indices below it. */
  lemma {:induction false} FunctionLoopWithinCapacity(cam: ConfigRead, bd: Bounds, b: u8, d: u8, f: u8, s: ScanState)
    requires ValidBounds(bd)
    requires s.epNum as int < bd.endpointMax
    ensures var r := FunctionLoop(cam, bd, b, d, f, s);
      && s.writes <= r.writes
      && forall k :: |s.writes| <= k < |r.writes| ==> r.writes[k].index as int < bd.endpointMax
    decreases bd.functionMax - f as int
  {
    if f as int >= bd.functionMax {
    } else if cam(b, d, f, 0) == NoDevice {
      FunctionLoopWithinCapacity(cam, bd, b, d, f + 1, s);
    } else {
      var s' := Record(cam, s, Coord(b, d, f), 0);
      if s'.epNum as int != bd.endpointMax {
        FunctionLoopWithinCapacity(cam, bd, b, d, f + 1, s');
      }
    }
  }

  /** Configuration space with functions present at 0:0.0 and 0:1.0 only. */
  function TwoDevices(b: u8, d: u8, f: u8, offset: nat): bv32 {
    if b == 0 && d <= 1 && f == 0 then 0x1234_8086 else NoDevice
  }

  /** The capacity `break` leaves only the function loop, so the scan goes on
      with the next device: with room for one endpoint and two present
      devices, the second device is still stored, at index 1, past the end
      of the array. */
  lemma CapacityOverrun()
    ensures var bd := Bounds(1, 2, 1, 1);
      var r := ScanAsWritten(TwoDevices, bd);
      |r.writes| == 2 && r.writes[1].index as int == bd.endpointMax
  {
    var bd := Bounds(1, 2, 1, 1);
    var s0 := ScanState([], 0);
    var s1 := Record(TwoDevices, s0, Coord(0, 0, 0), 0);
    var s2 := Record(TwoDevices, s1, Coord(0, 1, 0), 0);
    assert FunctionLoop(TwoDevices, bd, 0, 0, 0, s0) == s1;
    assert FunctionLoop(TwoDevices, bd, 0, 1, 1, s2) == s2;
    assert FunctionLoop(TwoDevices, bd, 0, 1, 0, s1) == s2;
    assert DeviceLoop(TwoDevices, bd, 0, 2, s2) == s2;
    assert DeviceLoop(TwoDevices, bd, 0, 0, s0) == s2;
    assert BusLoop(TwoDevices, bd, 1, s2) == s2;
  }

  // ----- The handler as written -----

  method Pcitree(cam: ConfigRead, bd: Bounds) returns (r: PcitreeResponse)
    requires ValidBounds(bd)
    ensures r.writes == ScanAsWritten(cam, bd).writes
    // store k is a present coordinate, decoded from it, at index k mod 256, in scan order
    ensures forall k :: 0 <= k < |r.writes| ==> WriteAt(cam, r.writes, k, 0)
    ensures Ordered(r.writes)
    // the count is EpNum, i.e. the number of stores mod 256
    ensures r.endpointsTotalNum == |r.writes| % 256
    ensures r.kernelStatus == OperationWasSuccessful <==> r.endpointsTotalNum != 0
    ensures r.kernelStatus != OperationWasSuccessful ==> r.kernelStatus == ErrorInvalidAddress
    // below capacity (and below 256) every present coordinate is stored, within the array
    ensures |Present(cam, bd)| <= bd.endpointMax && |Present(cam, bd)| < 256 ==>
      && Locations(r.writes) == Present(cam, bd)
      && forall k :: 0 <= k < |r.writes| ==> r.writes[k].index as int < bd.endpointMax
  {
    var s := ScanState([], 0);
    var b: u8 := 0;
    while b as int < bd.busMax
      invariant b as int <= bd.busMax
      invariant BusLoop(cam, bd, b, s) == ScanAsWritten(cam, bd)
      decreases bd.busMax - b as int
    {
      var d: u8 := 0;
      while d as int < bd.deviceMax
        invariant d as int <= bd.deviceMax
        invariant BusLoop(cam, bd, b + 1, DeviceLoop(cam, bd, b, d, s)) == ScanAsWritten(cam, bd)
        decreases bd.deviceMax - d as int
      {
        var f: u8 := 0;
        while f as int < bd.functionMax
          invariant f as int <= bd.functionMax
          invariant BusLoop(cam, bd, b + 1, DeviceLoop(cam, bd, b, d + 1, FunctionLoop(cam, bd, b, d, f, s)))
                 == ScanAsWritten(cam, bd)
          decreases bd.functionMax - f as int
        {
          var deviceIdVendorId := cam(b, d, f, 0);
          if deviceIdVendorId != NoDevice {
            var classCode := cam(b, d, f, 0);
            var endpoint := Endpoint(b, d, f, VendorIdOf(deviceIdVendorId), DeviceIdOf(deviceIdVendorId), ClassCodeOf(classCode));
            s := ScanState(s.writes + [Write(s.epNum, endpoint)], Inc8(s.epNum));
            if s.epNum as int == bd.endpointMax {
              break;
            }
          }
          f := f + 1;
        }
        d := d + 1;
      }
      b := b + 1;
    }

    ScanAsWrittenWellFormed(cam, bd);
    if |Present(cam, bd)| <= bd.endpointMax && |Present(cam, bd)| < 256 {
      ScanAsWrittenBelowCapacity(cam, bd);
    }
    var status := if s.epNum != 0 then OperationWasSuccessful else ErrorInvalidAddress;
    r := PcitreeResponse(s.writes, s.epNum as nat, status);
  }

  // ----- The intended scan -----

  /** The prefix of `xs` of length at most `n`. */
  function Take<T>(xs: seq<T>, n: nat): (t: seq<T>)
    ensures |t| == if n < |xs| then n else |xs|
    ensures forall k :: 0 <= k < |t| ==> t[k] == xs[k]
  {
    if n < |xs| then xs[..n] else xs
  }

  lemma TakeAppend<T>(xs: seq<T>, ys: seq<T>, n: nat)
    ensures Take(xs + ys, n) == Take(xs, n) + Take(ys, n - |Take(xs, n)|)
  {
    if n < |xs| {
      assert (xs + ys)[..n] == xs[..n];
    } else if n < |xs| + |ys| {
      assert (xs + ys)[..n] == xs + ys[..n - |xs|];
    }
  }

  lemma AppendAssoc<T>(xs: seq<T>, ys: seq<T>, zs: seq<T>)
    ensures xs + ys + zs == xs + (ys + zs)
  {
  }

  /** Taking from `xs` and then from `ys` with what is left of `n` takes from `xs + ys`. */
  lemma TakeChain<T>(l0: seq<T>, l1: seq<T>, l2: seq<T>, xs: seq<T>, ys: seq<T>, n: nat)
    requires l1 == l0 + Take(xs, n)
    requires l2 == l1 + Take(ys, n - |Take(xs, n)|)
    ensures l2 == l0 + Take(xs + ys, n)
    ensures |Take(xs + ys, n)| == |Take(xs, n)| + |Take(ys, n - |Take(xs, n)|)|
  {
    TakeAppend(xs, ys, n);
    assert l0 + Take(xs, n) + Take(ys, n - |Take(xs, n)|) == l0 + (Take(xs, n) + Take(ys, n - |Take(xs, n)|));
  }

  /** Taking one element and then `n - 1` more from the rest takes `n` from the whole. */
  lemma TakeConsChain<T>(l0: seq<T>, l1: seq<T>, l2: seq<T>, x: T, xs: seq<T>, n: nat)
    requires n >= 1
    requires l1 == l0 + [x]
    requires l2 == l1 + Take(xs, n - 1)
    ensures l2 == l0 + Take([x] + xs, n)
    ensures |Take([x] + xs, n)| == 1 + |Take(xs, n - 1)|
  {
    if n - 1 < |xs| {
      assert ([x] + xs)[..n] == [x] + xs[..n - 1];
    }
    assert l0 + [x] + Take(xs, n - 1) == l0 + ([x] + Take(xs, n - 1));
  }

  /** The function loop, stopping once the array is full. */
  function FunctionLoopIntended(cam: ConfigRead, bd: Bounds, b: u8, d: u8, f: u8, s: ScanState): ScanState
    requires ValidBounds(bd)
    decreases bd.functionMax - f as int
  {
    if f as int >= bd.functionMax || s.epNum as int >= bd.endpointMax then s
    else if cam(b, d, f, 0) == NoDevice then FunctionLoopIntended(cam, bd, b, d, f + 1, s)
    else FunctionLoopIntended(cam, bd, b, d, f + 1, Record(cam, s, Coord(b, d, f), ClassCodeRegisterOffset))
  }

  function DeviceLoopIntended(cam: ConfigRead, bd: Bounds, b: u8, d: u8, s: ScanState): ScanState
    requires ValidBounds(bd)
    decreases bd.deviceMax - d as int
  {
    if d as int >= bd.deviceMax || s.epNum as int >= bd.endpointMax then s
    else DeviceLoopIntended(cam, bd, b, d + 1, FunctionLoopIntended(cam, bd, b, d, 0, s))
  }

  function BusLoopIntended(cam: ConfigRead, bd: Bounds, b: u8, s: ScanState): ScanState
    requires ValidBounds(bd)
    decreases bd.busMax - b as int
  {
    if b as int >= bd.busMax || s.epNum as int >= bd.endpointMax then s
    else BusLoopIntended(cam, bd, b + 1, DeviceLoopIntended(cam, bd, b, 0, s))
  }

  /** The scan with a capacity check that ends all three loops and the class
      code read from its register. */
  function ScanIntended(cam: ConfigRead, bd: Bounds): ScanState
    requires ValidBounds(bd)
  {
    BusLoopIntended(cam, bd, 0, ScanState([], 0))
  }

  /** The loop state of the intended scan: `EpNum` counts the stores, never
      passes the capacity, and every store is a decoded present coordinate. */
  ghost predicate IntendedState(cam: ConfigRead, bd: Bounds, s: ScanState) {
    && s.epNum as int == |s.writes| <= bd.endpointMax
    && forall k :: 0 <= k < |s.writes| ==> WriteAt(cam, s.writes, k, ClassCodeRegisterOffset)
  }

  lemma RecordIntended(cam: ConfigRead, bd: Bounds, s: ScanState, c: Coord)
    requires ValidBounds(bd) && ValidCapacity(bd) && IntendedState(cam, bd, s) && s.epNum as int < bd.endpointMax
    requires cam(c.bus, c.device, c.func, 0) != NoDevice
    ensures var s' := Record(cam, s, c, ClassCodeRegisterOffset);
      IntendedState(cam, bd, s')
  {
    var s' := Record(cam, s, c, ClassCodeRegisterOffset);
    forall k | 0 <= k < |s'.writes|
      ensures WriteAt(cam, s'.writes, k, ClassCodeRegisterOffset)
    {
      if k < |s.writes| {
        assert s'.writes[k] == s.writes[k];
        assert WriteAt(cam, s.writes, k, ClassCodeRegisterOffset);
      }
    }
  }

  lemma {:induction false} FunctionLoopIntendedKeeps(cam: ConfigRead, bd: Bounds, b: u8, d: u8, f: u8, s: ScanState)
    requires ValidBounds(bd) && ValidCapacity(bd) && IntendedState(cam, bd, s)
    ensures IntendedState(cam, bd, FunctionLoopIntended(cam, bd, b, d, f, s))
    decreases bd.functionMax - f as int
  {
    if f as int >= bd.functionMax || s.epNum as int >= bd.endpointMax {
    } else if cam(b, d, f, 0) == NoDevice {
      FunctionLoopIntendedKeeps(cam, bd, b, d, f + 1, s);
    } else {
      RecordIntended(cam, bd, s, Coord(b, d, f));
      FunctionLoopIntendedKeeps(cam, bd, b, d, f + 1, Record(cam, s, Coord(b, d, f), ClassCodeRegisterOffset));
    }
  }

  lemma {:induction false} DeviceLoopIntendedKeeps(cam: ConfigRead, bd: Bounds, b: u8, d: u8, s: ScanState)
    requires ValidBounds(bd) && ValidCapacity(bd) && IntendedState(cam, bd, s)
    ensures IntendedState(cam, bd, DeviceLoopIntended(cam, bd, b, d, s))
    decreases bd.deviceMax - d as int
  {
    if d as int < bd.deviceMax && s.epNum as int < bd.endpointMax {
      FunctionLoopIntendedKeeps(cam, bd, b, d, 0, s);
      DeviceLoopIntendedKeeps(cam, bd, b, d + 1, FunctionLoopIntended(cam, bd, b, d, 0, s));
    }
  }

  lemma {:induction false} BusLoopIntendedKeeps(cam: ConfigRead, bd: Bounds, b: u8, s: ScanState)
    requires ValidBounds(bd) && ValidCapacity(bd) && IntendedState(cam, bd, s)
    ensures IntendedState(cam, bd, BusLoopIntended(cam, bd, b, s))
    decreases bd.busMax - b as int
  {
    if b as int < bd.busMax && s.epNum as int < bd.endpointMax {
      DeviceLoopIntendedKeeps(cam, bd, b, 0, s);
      BusLoopIntendedKeeps(cam, bd, b + 1, DeviceLoopIntended(cam, bd, b, 0, s));
    }
  }

  lemma {:induction false} FunctionLoopIntendedTakes(cam: ConfigRead, bd: Bounds, b: u8, d: u8, f: u8, s: ScanState)
    requires ValidBounds(bd) && ValidCapacity(bd) && s.epNum as int <= bd.endpointMax
    ensures var r := FunctionLoopIntended(cam, bd, b, d, f, s);
      var t := Take(PresentFunctions(cam, bd, b, d, f), bd.endpointMax - s.epNum as int);
      Locations(r.writes) == Locations(s.writes) + t && r.epNum as int == s.epNum as int + |t|
    decreases bd.functionMax - f as int
  {
    var n := bd.endpointMax - s.epNum as int;
    if f as int >= bd.functionMax || s.epNum as int >= bd.endpointMax {
      assert Locations(s.writes) + [] == Locations(s.writes);
    } else if cam(b, d, f, 0) == NoDevice {
      var rest := PresentFunctions(cam, bd, b, d, f + 1);
      assert PresentFunctions(cam, bd, b, d, f) == [] + rest == rest;
      assert FunctionLoopIntended(cam, bd, b, d, f, s) == FunctionLoopIntended(cam, bd, b, d, f + 1, s);
      FunctionLoopIntendedTakes(cam, bd, b, d, f + 1, s);
    } else {
      var c := Coord(b, d, f);
      var s' := Record(cam, s, c, ClassCodeRegisterOffset);
      var r := FunctionLoopIntended(cam, bd, b, d, f + 1, s');
      var rest := PresentFunctions(cam, bd, b, d, f + 1);
      assert PresentFunctions(cam, bd, b, d, f) == [c] + rest;
      assert FunctionLoopIntended(cam, bd, b, d, f, s) == r;
      RecordAppends(cam, s, c, ClassCodeRegisterOffset);
      FunctionLoopIntendedTakes(cam, bd, b, d, f + 1, s');
      TakeConsChain(Locations(s.writes), Locations(s'.writes), Locations(r.writes), c, rest, n);
    }
  }

  lemma {:induction false} DeviceLoopIntendedTakes(cam: ConfigRead, bd: Bounds, b: u8, d: u8, s: ScanState)
    requires ValidBounds(bd) && ValidCapacity(bd) && s.epNum as int <= bd.endpointMax
    ensures var r := DeviceLoopIntended(cam, bd, b, d, s);
      var t := Take(PresentDevices(cam, bd, b, d), bd.endpointMax - s.epNum as int);
      Locations(r.writes) == Locations(s.writes) + t && r.epNum as int == s.epNum as int + |t|
    decreases bd.deviceMax - d as int
  {
    var n := bd.endpointMax - s.epNum as int;
    if d as int >= bd.deviceMax || s.epNum as int >= bd.endpointMax {
      assert Locations(s.writes) + [] == Locations(s.writes);
    } else {
      var pf := PresentFunctions(cam, bd, b, d, 0);
      var pd := PresentDevices(cam, bd, b, d + 1);
      FunctionLoopIntendedTakes(cam, bd, b, d, 0, s);
      var s' := FunctionLoopIntended(cam, bd, b, d, 0, s);
      DeviceLoopIntendedTakes(cam, bd, b, d + 1, s');
      TakeChain(Locations(s.writes), Locations(s'.writes), Locations(DeviceLoopIntended(cam, bd, b, d + 1, s').writes), pf, pd, n);
    }
  }

  lemma {:induction false} BusLoopIntendedTakes(cam: ConfigRead, bd: Bounds, b: u8, s: ScanState)
    requires ValidBounds(bd) && ValidCapacity(bd) && s.epNum as int <= bd.endpointMax
    ensures var r := BusLoopIntended(cam, bd, b, s);
      var t := Take(PresentBuses(cam, bd, b), bd.endpointMax - s.epNum as int);
      Locations(r.writes) == Locations(s.writes) + t && r.epNum as int == s.epNum as int + |t|
    decreases bd.busMax - b as int
  {
    var n := bd.endpointMax - s.epNum as int;
    if b as int >= bd.busMax || s.epNum as int >= bd.endpointMax {
      assert Locations(s.writes) + [] == Locations(s.writes);
    } else {
      var pd := PresentDevices(cam, bd, b, 0);
      var pb := PresentBuses(cam, bd, b + 1);
      DeviceLoopIntendedTakes(cam, bd, b, 0, s);
      var s' := DeviceLoopIntended(cam, bd, b, 0, s);
      BusLoopIntendedTakes(cam, bd, b + 1, s');
      TakeChain(Locations(s.writes), Locations(s'.writes), Locations(BusLoopIntended(cam, bd, b + 1, s').writes), pd, pb, n);
    }
  }

  /** The intended scan stores exactly the first `EP_MAX_NUM` present
      coordinates (all of them if fewer), in scan order, each at its own
      position, which is always inside the array; with more present
      functions than the capacity it reports exactly the capacity. */
  lemma ScanIntendedStopsAtCapacity(cam: ConfigRead, bd: Bounds)
    requires ValidBounds(bd) && ValidCapacity(bd)
    ensures var r := ScanIntended(cam, bd);
      && Locations(r.writes) == Take(Present(cam, bd), bd.endpointMax)
      && r.epNum as int == |r.writes| <= bd.endpointMax
      && (forall k :: 0 <= k < |r.writes| ==> r.writes[k].index as int == k < bd.endpointMax)
      && (forall k :: 0 <= k < |r.writes| ==>
            r.writes[k].endpoint == DecodeEndpoint(cam, Present(cam, bd)[k], ClassCodeRegisterOffset))
      && (|Present(cam, bd)| >= bd.endpointMax ==> |r.writes| == bd.endpointMax)
  {
    var s0 := ScanState([], 0);
    BusLoopIntendedKeeps(cam, bd, 0, s0);
    BusLoopIntendedTakes(cam, bd, 0, s0);
    var r := ScanIntended(cam, bd);
    forall k | 0 <= k < |r.writes|
      ensures r.writes[k].index as int == k < bd.endpointMax
      ensures r.writes[k].endpoint == DecodeEndpoint(cam, Present(cam, bd)[k], ClassCodeRegisterOffset)
    {
      assert WriteAt(cam, r.writes, k, ClassCodeRegisterOffset);
      assert Locations(r.writes)[k] == Present(cam, bd)[k];
    }
  }
}
