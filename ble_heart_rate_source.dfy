/**
 * The Bluetooth heart-rate sensor link: decoding of the Heart Rate Measurement
 * characteristic (UUID 0x2A37, section 3.1 of the Bluetooth SIG Heart Rate Service
 * specification) and the scan/connect flags driven by the radio's callbacks.
 */
module BleHeartRateSource {
  import opened Wrappers
  import opened Samples

  /** An unsigned payload byte (the source masks every byte with 0xFF). */
  type Byte = x: int | 0 <= x < 256

  /** Result of decoding one measurement: heart rate (if present) and RR intervals in ms. */
  datatype Measurement = Measurement(hr: Option<int>, rrMs: seq<int>)

  // Flag bits of the first payload byte.
  predicate HrIs16Bit(flags: Byte) { (flags as bv8) & 0x01 != 0 }
  predicate EnergyExpendedPresent(flags: Byte) { (flags as bv8) & 0x08 != 0 }
  predicate RrPresent(flags: Byte) { (flags as bv8) & 0x10 != 0 }

  /** A 16-bit little-endian field, `(hi shl 8) or lo`. */
  function LittleEndian16(lo: Byte, hi: Byte): (r: int)
    ensures 0 <= r < 65536
    ensures r % 256 == lo && r / 256 == hi
  {
    hi * 256 + lo
  }

  /** RR field in units of 1/1024 s to milliseconds, with the integer division truncating. */
  function RrToMs(rr1024: int): (ms: int)
    requires 0 <= rr1024 < 65536
    ensures ms * 1024 <= rr1024 * 1000 < (ms + 1) * 1024
    ensures 0 <= ms <= rr1024 && ms <= 63999
  {
    (rr1024 * 1000) / 1024
  }

  function HeartRateWidth(flags: Byte): (w: nat)
    ensures w == 1 || w == 2
  {
    if HrIs16Bit(flags) then 2 else 1
  }

  /** The heart-rate field, absent when the payload is shorter than its declared width. */
  function HeartRateField(value: seq<Byte>): Option<int>
    requires |value| > 0
  {
    if |value| < 1 + HeartRateWidth(value[0]) then None
    else if HrIs16Bit(value[0]) then Some(LittleEndian16(value[1], value[2]))
    else Some(value[1])
  }

  /** Where the RR fields start: after the flags, the heart rate (if read) and the energy field (if present and complete). */
  function RrStart(value: seq<Byte>): (k: nat)
    requires |value| > 0
    ensures 1 <= k <= |value|
  {
    var afterHr := if HeartRateField(value).Some? then 1 + HeartRateWidth(value[0]) else 1;
    if EnergyExpendedPresent(value[0]) && |value| >= afterHr + 2 then afterHr + 2 else afterHr
  }

  /** The j-th RR field starting at offset k, converted to ms. */
  function RrField(value: seq<Byte>, k: nat, j: nat): int
    requires k + 2 * j + 1 < |value|
  {
    RrToMs(LittleEndian16(value[k + 2 * j], value[k + 2 * j + 1]))
  }

  /** What a payload means, field by field. */
  function Decode(value: seq<Byte>): (m: Measurement)
    ensures |value| == 0 ==> m.hr.None? && m.rrMs == []
    ensures |value| > 0 ==> (m.hr.None? <==> |value| < 1 + HeartRateWidth(value[0]))
    ensures |value| > 0 && !HrIs16Bit(value[0]) && m.hr.Some? ==> m.hr.value == value[1] < 256
    ensures |value| > 0 && HrIs16Bit(value[0]) && m.hr.Some? ==>
              m.hr.value == (value[2] as int) * 256 + value[1] < 65536
    ensures |value| > 0 && !RrPresent(value[0]) ==> m.rrMs == []
    ensures |value| > 0 && RrPresent(value[0]) ==> |m.rrMs| == (|value| - RrStart(value)) / 2
    ensures forall j :: 0 <= j < |m.rrMs| ==> 0 <= m.rrMs[j] <= 63999
    ensures |value| > 0 ==>
              forall j :: 0 <= j < |m.rrMs| ==>
                RrStart(value) + 2 * j + 1 < |value| &&
                m.rrMs[j] == RrToMs(LittleEndian16(value[RrStart(value) + 2 * j], value[RrStart(value) + 2 * j + 1]))
  {
    if |value| == 0 then Measurement(None, [])
    else
      var k := RrStart(value);
      var n := if RrPresent(value[0]) then (|value| - k) / 2 else 0;
      Measurement(HeartRateField(value), seq(n, j requires 0 <= j < n => RrField(value, k, j)))
  }

  /** The source's parser: a cursor walks the payload and RR values are appended one by one. */
  method ParseHrAndRr(value: seq<Byte>) returns (hr: Option<int>, rrMs: seq<int>)
    ensures Measurement(hr, rrMs) == Decode(value)
  {
    if |value| == 0 {
      return None, [];
    }
    var flags := value[0];
    var hrIs16Bit := HrIs16Bit(flags);
    var rrPresent := RrPresent(flags);
    var eePresent := EnergyExpendedPresent(flags);

    var index := 1;
    if hrIs16Bit {
      if |value| >= index + 2 {
        var lo: int := value[index];
        var hi: int := value[index + 1];
        index := index + 2;
        hr := Some(hi * 256 + lo);
      } else {
        hr := None;
      }
    } else {
      if |value| >= index + 1 {
        var v: int := value[index];
        index := index + 1;
        hr := Some(v);
      } else {
        hr := None;
      }
    }

    if eePresent && |value| >= index + 2 {
      index := index + 2;
    }
    assert hr == HeartRateField(value);
    assert index == RrStart(value);
    if rrPresent {
      rrMs := ReadRrIntervals(value, index);
    } else {
      rrMs := [];
    }
  }

  /** The RR loop: two bytes at a time from `start` while a whole pair remains. */
  method ReadRrIntervals(value: seq<Byte>, start: nat) returns (rrMs: seq<int>)
    requires start <= |value|
    ensures |rrMs| == (|value| - start) / 2
    ensures forall j :: 0 <= j < |rrMs| ==> rrMs[j] == RrField(value, start, j)
  {
    var index := start;
    rrMs := [];
    while |value| >= index + 2
      invariant start <= index <= |value|
      invariant index == start + 2 * |rrMs|
      invariant forall j :: 0 <= j < |rrMs| ==> rrMs[j] == RrField(value, start, j)
      decreases |value| - index
    {
      var lo: int := value[index];
      var hi: int := value[index + 1];
      var rr1024 := hi * 256 + lo;
      var ms := (rr1024 * 1000) / 1024;
      rrMs := rrMs + [ms];
      index := index + 2;
    }
  }

  /** The example packet: flags 0x10 (8-bit heart rate, RR present), 75 bpm, one RR of 1000/1024 s. */
  lemma DecodeExample()
    ensures Decode([0x10, 0x4B, 0xE8, 0x03]) == Measurement(Some(75), [976])
  {
    var v: seq<Byte> := [0x10, 0x4B, 0xE8, 0x03];
    assert RrStart(v) == 2;
    assert RrField(v, 2, 0) == 976;
  }

  // ---------------------------------------------------------------------------
  // Connection flags

  /** A connection handle (`BluetoothGatt`), identified by number. */
  type GattHandle = nat

  /** A 128-bit characteristic UUID. */
  type Uuid = nat

  const HR_MEASUREMENT: Uuid := 0x00002A37_0000_1000_8000_00805F9B34FB

  // Android constants used by the connection callback.
  const GATT_SUCCESS: int := 0
  const STATE_DISCONNECTED: int := 0
  const STATE_CONNECTED: int := 2

  /**
   * The state of one subscription to the sensor stream: the `scanning`, `connected`
   * and `gatt` variables updated by the scan and connection callbacks, and whether
   * the output channel is still open. Each method is one callback or one step of the
   * retry loop; I/O results (a scan start that throws, the handle `connectGatt`
   * returns) are parameters.
   */
  class HeartRateStream {
    var scanning: bool
    var connected: bool
    var gatt: Option<GattHandle>
    var open: bool

    /** Opening the stream starts a scan at once. */
    constructor (startThrows: bool)
      ensures open && !connected && gatt == None
      ensures scanning == !startThrows
    {
      scanning, connected, gatt, open := false, false, None, true;
      new;
      StartScanSafe(startThrows);
    }

    /** `startScanSafe`: scan unless connected or already scanning; a throwing start leaves scanning off. */
    method StartScanSafe(startThrows: bool)
      modifies this
      ensures old(connected) || old(scanning) ==> unchanged(this)
      ensures !old(connected) && !old(scanning) ==> scanning == !startThrows
      ensures connected == old(connected) && gatt == old(gatt) && open == old(open)
    {
      if connected { return; }
      if scanning { return; }
      scanning := true;
      if startThrows {
        scanning := false;
      }
    }

    /** `stopScanSafe`: only acts while scanning, and then clears the flag. */
    method StopScanSafe()
      modifies this
      ensures !old(scanning) ==> unchanged(this)
      ensures !scanning
      ensures connected == old(connected) && gatt == old(gatt) && open == old(open)
    {
      if !scanning { return; }
      scanning := false;
    }

    /** `onScanFailed`: the flag is cleared, the stream stays open. */
    method OnScanFailed()
      modifies this
      ensures !scanning
      ensures connected == old(connected) && gatt == old(gatt) && open == old(open)
    {
      scanning := false;
    }

    /**
     * `onScanResult`: with a device, stop scanning, drop any old handle and keep the one
     * `connectGatt` returned (which may be null).
     */
    method OnScanResult(device: bool, connectResult: Option<GattHandle>)
      modifies this
      ensures !device ==> unchanged(this)
      ensures device ==> !scanning && gatt == connectResult
      ensures connected == old(connected) && open == old(open)
    {
      if !device { return; }
      StopScanSafe();
      gatt := None;
      gatt := connectResult;
    }

    /**
     * `onConnectionStateChange`: a failure status or a disconnect releases the handle
     * without closing the stream; a successful connect sets `connected`.
     */
    method OnConnectionStateChange(status: int, newState: int)
      modifies this
      ensures status != GATT_SUCCESS || newState == STATE_DISCONNECTED ==> !connected && gatt == None
      ensures status == GATT_SUCCESS && newState == STATE_CONNECTED ==> connected && gatt == old(gatt)
      ensures status == GATT_SUCCESS && newState != STATE_CONNECTED && newState != STATE_DISCONNECTED ==>
                unchanged(this)
      ensures scanning == old(scanning) && open == old(open)
    {
      if status != GATT_SUCCESS {
        connected := false;
        gatt := None;
        return;
      }
      if newState == STATE_CONNECTED {
        connected := true;
      } else if newState == STATE_DISCONNECTED {
        connected := false;
        gatt := None;
      }
    }

    /** Start of one retry-loop window: scan if not connected. */
    method RetryWindowStart(startThrows: bool)
      modifies this
      ensures old(connected) || old(scanning) ==> unchanged(this)
      ensures !old(connected) && !old(scanning) ==> scanning == !startThrows
      ensures connected == old(connected) && gatt == old(gatt) && open == old(open)
    {
      if !connected {
        StartScanSafe(startThrows);
      }
    }

    /** End of a 15 s window: if still not connected, stop scanning before the pause. */
    method RetryWindowEnd()
      modifies this
      ensures old(connected) ==> unchanged(this)
      ensures !old(connected) ==> !scanning
      ensures connected == old(connected) && gatt == old(gatt) && open == old(open)
    {
      if !connected {
        StopScanSafe();
      }
    }

    /**
     * `onCharacteristicChanged`: a notification on the measurement characteristic with a
     * value yields exactly one BLE sample while the stream is open, even when the payload
     * carries no heart rate and no RR interval.
     */
    method OnCharacteristicChanged(uuid: Uuid, raw: Option<seq<Byte>>, nowMs: int)
      returns (sample: Option<BiometricSample>)
      ensures sample.Some? <==> open && uuid == HR_MEASUREMENT && raw.Some?
      ensures sample.Some? ==>
                var m := Decode(raw.value);
                sample.value == BiometricSample(nowMs, m.hr, m.rrMs, Ble)
    {
      if uuid != HR_MEASUREMENT { return None; }
      if raw.None? { return None; }
      var hr, rr := ParseHrAndRr(raw.value);
      if !open { return None; }
      sample := Some(BiometricSample(nowMs, hr, rr, Ble));
    }

    /** Cancellation by the consumer: stop scanning, release the handle, close the channel. */
    method Close()
      modifies this
      ensures !scanning && gatt == None && !open
      ensures connected == old(connected)
    {
      StopScanSafe();
      gatt := None;
      open := false;
    }
  }

  /** No transient failure closes the stream: every callback keeps `open` as it was. */
  method TransientFailuresKeepStreamOpen(s: HeartRateStream, status: int, startThrows: bool)
    requires s.open
    modifies s
    ensures s.open && !s.scanning && !s.connected && s.gatt == None
  {
    s.OnScanFailed();
    s.OnConnectionStateChange(status, STATE_DISCONNECTED);
    s.RetryWindowStart(startThrows);
    s.RetryWindowEnd();
  }
}
