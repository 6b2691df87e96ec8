/** Length-prefixed payload fingerprints: equal fingerprints mean equal payloads. */
module Fingerprint {
  import opened Options
  import opened ControlLease
  import opened StringOrder

  /** A byte string that fits in memory. */
  type Text = s: string | |s| < TWO_64

  /** An IEEE-754 single by its bit pattern; only the two zeros share a meaning. */
  type Float32 = bits: int | 0 <= bits < 0x1_0000_0000
  const NEGATIVE_ZERO: Float32 := 0x8000_0000

  datatype VehicleGear = Neutral | Drive | Reverse
  datatype RuntimeVehicleClass = Unspecified | Sedan | Compact | Truck | Motorcycle

  datatype VehicleInput = VehicleInput(
    throttle: Float32, brake: Float32, steering: Float32, handbrake: bool, gear: VehicleGear)

  datatype ParsedControlCommand = ParsedControlCommand(
    input: VehicleInput, sequence: UInt64, clientTime: UInt64, sourceId: Text, sessionId: Text, mapChecksum: Text,
    estop: bool)

  datatype ParsedSimulationReset = ParsedSimulationReset(
    sequence: UInt64, clientTime: UInt64, sourceId: Text, sessionId: Text, mapChecksum: Text, playSessionId: Text,
    requestedClass: RuntimeVehicleClass, requestedLoadoutId: Text)

  datatype ParsedHello = ParsedHello(
    sequence: UInt64, sourceId: Text, sessionId: Text, mapChecksum: Text, build: Text, schema: Text,
    capabilities: seq<Text>)

  // ---- Encodings ----

  function Pow256(bytes: nat): int {
    if bytes == 0 then 1 else 256 * Pow256(bytes - 1)
  }

  /** The lowest `bytes` bytes of a value, least significant first. */
  function LittleEndian(value: nat, bytes: nat): (s: string)
    ensures |s| == bytes
  {
    if bytes == 0 then "" else [(value % 256) as char] + LittleEndian(value / 256, bytes - 1)
  }

  function EncodeU64(value: UInt64): string {
    LittleEndian(value, 8)
  }

  function EncodeString(value: Text): string {
    EncodeU64(|value|) + value
  }

  function PlusZero(value: Float32): Float32 {
    if value == NEGATIVE_ZERO then 0 else value
  }

  function EncodeFloat(value: Float32): string {
    LittleEndian(PlusZero(value), 4)
  }

  function EncodeFlag(flag: bool): string {
    [if flag then 1 as char else 0 as char]
  }

  function GearByte(gear: VehicleGear): char {
    match gear case Neutral => 0 as char case Drive => 1 as char case Reverse => 2 as char
  }

  function ClassByte(vehicleClass: RuntimeVehicleClass): char {
    match vehicleClass
    case Unspecified => 0 as char
    case Sedan => 1 as char
    case Compact => 2 as char
    case Truck => 3 as char
    case Motorcycle => 4 as char
  }

  function Concatenated(parts: seq<string>): string {
    if parts == [] then "" else parts[0] + Concatenated(parts[1..])
  }

  lemma {:induction false} ConcatenatedAppend(parts: seq<string>, part: string)
    ensures Concatenated(parts + [part]) == Concatenated(parts) + part
  {
    if parts == [] {
      assert [part][1..] == [];
    } else {
      ConcatenatedAppend(parts[1..], part);
      assert (parts + [part])[1..] == parts[1..] + [part];
      assert parts[0] + (Concatenated(parts[1..]) + part) == (parts[0] + Concatenated(parts[1..])) + part;
    }
  }

  // ---- The builders ----

  /** A right shift by whole bytes. */
  function ShiftRight(value: nat, bytes: nat): nat {
    if bytes == 0 then value else ShiftRight(value / 256, bytes - 1)
  }

  /** The loop's next byte is the next byte of the encoding. */
  lemma {:induction false} NextByte(value: nat, shift: nat)
    ensures LittleEndian(value, shift + 1) == LittleEndian(value, shift) + [(ShiftRight(value, shift) % 256) as char]
  {
    if shift > 0 {
      NextByte(value / 256, shift - 1);
      assert LittleEndian(value, shift + 1) == [(value % 256) as char] + LittleEndian(value / 256, shift);
      assert LittleEndian(value, shift) == [(value % 256) as char] + LittleEndian(value / 256, shift - 1);
    }
  }

  method AppendBytes(output: string, value: nat, bytes: nat) returns (next: string)
    ensures next == output + LittleEndian(value, bytes)
  {
    next := output;
    for shift := 0 to bytes
      invariant next == output + LittleEndian(value, shift)
    {
      NextByte(value, shift);
      next := next + [(ShiftRight(value, shift) % 256) as char];
    }
  }

  method AppendString(output: string, value: Text) returns (next: string)
    ensures next == output + EncodeString(value)
  {
    next := AppendBytes(output, |value|, 8);
    next := next + value;
  }

  method AppendFloat(output: string, value: Float32) returns (next: string)
    ensures next == output + EncodeFloat(value)
  {
    var bits := value;
    if bits == NEGATIVE_ZERO {
      bits := 0;
    }
    next := AppendBytes(output, bits, 4);
  }

  function ControlParts(command: ParsedControlCommand): seq<string> {
    [EncodeString(command.sourceId), EncodeString(command.sessionId), EncodeString(command.mapChecksum),
     EncodeU64(command.clientTime), EncodeFlag(command.estop), EncodeFloat(command.input.throttle),
     EncodeFloat(command.input.brake), EncodeFloat(command.input.steering), EncodeFlag(command.input.handbrake),
     [GearByte(command.input.gear)]]
  }

  function ControlFingerprint(command: ParsedControlCommand): string {
    Concatenated(ControlParts(command))
  }

  function ResetParts(reset: ParsedSimulationReset): seq<string> {
    [EncodeString(reset.sourceId), EncodeString(reset.sessionId), EncodeString(reset.mapChecksum),
     EncodeString(reset.playSessionId), EncodeU64(reset.clientTime), [ClassByte(reset.requestedClass)],
     EncodeString(reset.requestedLoadoutId)]
  }

  function ResetFingerprint(reset: ParsedSimulationReset): string {
    Concatenated(ResetParts(reset))
  }

  lemma {:induction false} AppendPart(output: string, parts: seq<string>, k: nat)
    requires k < |parts| && output == Concatenated(parts[..k])
    ensures output + parts[k] == Concatenated(parts[..k + 1])
    ensures k + 1 == |parts| ==> output + parts[k] == Concatenated(parts)
  {
    assert parts[..k + 1] == parts[..k] + [parts[k]];
    ConcatenatedAppend(parts[..k], parts[k]);
    assert k + 1 == |parts| ==> parts[..k + 1] == parts;
  }

  method MakeControlPayloadFingerprint(command: ParsedControlCommand) returns (fingerprint: string)
    ensures fingerprint == ControlFingerprint(command)
  {
    hide Concatenated, EncodeString, EncodeU64, EncodeFloat, EncodeFlag, LittleEndian;
    ghost var parts := ControlParts(command);
    assert parts[..0] == [];
    NoParts();
    AppendPart("", parts, 0);
    fingerprint := AppendString("", command.sourceId);
    AppendPart(fingerprint, parts, 1);
    fingerprint := AppendString(fingerprint, command.sessionId);
    AppendPart(fingerprint, parts, 2);
    fingerprint := AppendString(fingerprint, command.mapChecksum);
    AppendPart(fingerprint, parts, 3);
    fingerprint := AppendU64(fingerprint, command.clientTime);
    AppendPart(fingerprint, parts, 4);
    fingerprint := fingerprint + EncodeFlag(command.estop);
    AppendPart(fingerprint, parts, 5);
    fingerprint := AppendFloat(fingerprint, command.input.throttle);
    AppendPart(fingerprint, parts, 6);
    fingerprint := AppendFloat(fingerprint, command.input.brake);
    AppendPart(fingerprint, parts, 7);
    fingerprint := AppendFloat(fingerprint, command.input.steering);
    AppendPart(fingerprint, parts, 8);
    fingerprint := fingerprint + EncodeFlag(command.input.handbrake);
    AppendPart(fingerprint, parts, 9);
    fingerprint := fingerprint + [GearByte(command.input.gear)];
  }

  lemma NoParts()
    ensures Concatenated([]) == ""
  {
  }

  method AppendU64(output: string, value: UInt64) returns (next: string)
    ensures next == output + EncodeU64(value)
  {
    next := AppendBytes(output, value, 8);
  }

  method MakeResetPayloadFingerprint(reset: ParsedSimulationReset) returns (fingerprint: string)
    ensures fingerprint == ResetFingerprint(reset)
  {
    hide Concatenated, EncodeString, EncodeU64, LittleEndian;
    ghost var parts := ResetParts(reset);
    assert parts[..0] == [];
    NoParts();
    AppendPart("", parts, 0);
    fingerprint := AppendString("", reset.sourceId);
    AppendPart(fingerprint, parts, 1);
    fingerprint := AppendString(fingerprint, reset.sessionId);
    AppendPart(fingerprint, parts, 2);
    fingerprint := AppendString(fingerprint, reset.mapChecksum);
    AppendPart(fingerprint, parts, 3);
    fingerprint := AppendString(fingerprint, reset.playSessionId);
    AppendPart(fingerprint, parts, 4);
    fingerprint := AppendU64(fingerprint, reset.clientTime);
    AppendPart(fingerprint, parts, 5);
    fingerprint := fingerprint + [ClassByte(reset.requestedClass)];
    AppendPart(fingerprint, parts, 6);
    fingerprint := AppendString(fingerprint, reset.requestedLoadoutId);
  }

  // ---- Reading an encoding back ----

  datatype Read<T> = Read(value: T, rest: string)

  function ReadLittleEndian(s: string, bytes: nat): (r: Option<Read<nat>>)
    ensures r.Some? ==> r.value.value < Pow256(bytes)
  {
    if bytes == 0 then Some(Read(0, s))
    else if s == "" || s[0] as int >= 256 then None
    else
      var high := ReadLittleEndian(s[1..], bytes - 1);
      if high.None? then None else Some(Read(s[0] as int + 256 * high.value.value, high.value.rest))
  }

  lemma LowAndHigh(value: nat, bytes: nat)
    requires bytes > 0 && value < Pow256(bytes)
    ensures value / 256 < Pow256(bytes - 1) && 0 <= value % 256 < 256 && value % 256 + 256 * (value / 256) == value
  {
  }

  lemma {:induction false} LittleEndianRoundTrip(value: nat, bytes: nat, rest: string)
    requires value < Pow256(bytes)
    ensures ReadLittleEndian(LittleEndian(value, bytes) + rest, bytes) == Some(Read(value, rest))
  {
    if bytes == 0 {
      assert "" + rest == rest;
    } else {
      hide Pow256;
      LowAndHigh(value, bytes);
      LittleEndianRoundTrip(value / 256, bytes - 1, rest);
      ghost var low := (value % 256) as char;
      assert LittleEndian(value, bytes) + rest == [low] + (LittleEndian(value / 256, bytes - 1) + rest);
    }
  }

  lemma {:induction false} Pow256Values()
    ensures Pow256(8) == TWO_64 && Pow256(4) == 0x1_0000_0000
  {
    assert Pow256(4) == 0x1_0000_0000;
    assert Pow256(8) == 256 * (256 * (256 * (256 * Pow256(4))));
  }

  function ReadU64(s: string): Option<Read<UInt64>> {
    Pow256Values();
    var r := ReadLittleEndian(s, 8);
    if r.None? then None else Some(Read(r.value.value, r.value.rest))
  }

  lemma {:induction false} U64RoundTrip(value: UInt64, rest: string)
    ensures ReadU64(EncodeU64(value) + rest) == Some(Read(value, rest))
  {
    Pow256Values();
    LittleEndianRoundTrip(value, 8, rest);
  }

  function ReadString(s: string): Option<Read<Text>> {
    var length := ReadU64(s);
    if length.None? || length.value.value > |length.value.rest| then None
    else Some(Read(length.value.rest[..length.value.value], length.value.rest[length.value.value..]))
  }

  lemma {:induction false} StringRoundTrip(value: Text, rest: string)
    ensures ReadString(EncodeString(value) + rest) == Some(Read(value, rest))
  {
    hide EncodeU64, ReadU64;
    U64RoundTrip(|value|, value + rest);
    assert EncodeString(value) + rest == EncodeU64(|value|) + (value + rest);
  }

  function ReadFloat(s: string): Option<Read<Float32>> {
    Pow256Values();
    var r := ReadLittleEndian(s, 4);
    if r.None? then None else Some(Read(r.value.value, r.value.rest))
  }

  lemma {:induction false} FloatRoundTrip(value: Float32, rest: string)
    ensures ReadFloat(EncodeFloat(value) + rest) == Some(Read(PlusZero(value), rest))
  {
    Pow256Values();
    LittleEndianRoundTrip(PlusZero(value), 4, rest);
  }

  function ReadByte(s: string): Option<Read<char>> {
    if s == "" then None else Some(Read(s[0], s[1..]))
  }

  lemma {:induction false} ByteRoundTrip(byte: char, rest: string)
    ensures ReadByte([byte] + rest) == Some(Read(byte, rest))
  {
    assert ([byte] + rest)[1..] == rest;
  }

  function ReadGear(byte: char): Option<VehicleGear> {
    if byte as int == 0 then Some(Neutral) else if byte as int == 1 then Some(Drive)
    else if byte as int == 2 then Some(Reverse) else None
  }

  function ReadClass(byte: char): Option<RuntimeVehicleClass> {
    if byte as int == 0 then Some(Unspecified) else if byte as int == 1 then Some(Sedan)
    else if byte as int == 2 then Some(Compact) else if byte as int == 3 then Some(Truck)
    else if byte as int == 4 then Some(Motorcycle) else None
  }

  /** The command that a control fingerprint stands for; the sequence number is not part of it. */
  function ReadControl(s: string): Option<ParsedControlCommand> {
    var source := ReadString(s);
    if source.None? then None else
    var session := ReadString(source.value.rest);
    if session.None? then None else
    var checksum := ReadString(session.value.rest);
    if checksum.None? then None else
    var time := ReadU64(checksum.value.rest);
    if time.None? then None else
    var estop := ReadByte(time.value.rest);
    if estop.None? then None else
    var throttle := ReadFloat(estop.value.rest);
    if throttle.None? then None else
    var brake := ReadFloat(throttle.value.rest);
    if brake.None? then None else
    var steering := ReadFloat(brake.value.rest);
    if steering.None? then None else
    var handbrake := ReadByte(steering.value.rest);
    if handbrake.None? then None else
    var gear := ReadByte(handbrake.value.rest);
    if gear.None? || gear.value.rest != "" || ReadGear(gear.value.value).None? then None else
    Some(ParsedControlCommand(
      VehicleInput(throttle.value.value, brake.value.value, steering.value.value,
        handbrake.value.value as int == 1, ReadGear(gear.value.value).value),
      0, time.value.value, source.value.value, session.value.value, checksum.value.value,
      estop.value.value as int == 1))
  }

  /** What a control fingerprint preserves: everything but the sequence number and the sign of zero. */
  function CanonicalControl(command: ParsedControlCommand): ParsedControlCommand {
    command.(sequence := 0, input := command.input.(
      throttle := PlusZero(command.input.throttle), brake := PlusZero(command.input.brake),
      steering := PlusZero(command.input.steering)))
  }

  lemma {:induction false} Unfold(parts: seq<string>, k: nat)
    requires k < |parts|
    ensures Concatenated(parts[k..]) == parts[k] + Concatenated(parts[k + 1..])
  {
    assert parts[k..][0] == parts[k] && parts[k..][1..] == parts[k + 1..];
  }

  lemma NothingLeft(parts: seq<string>)
    ensures Concatenated(parts[|parts|..]) == "" && parts[0..] == parts
  {
  }

  lemma {:induction false} ControlRoundTrip(command: ParsedControlCommand)
    ensures ReadControl(ControlFingerprint(command)) == Some(CanonicalControl(command))
  {
    hide Concatenated, EncodeString, EncodeU64, EncodeFloat, LittleEndian, ReadString, ReadU64, ReadFloat, ReadByte,
      PlusZero;
    var parts := ControlParts(command);
    NothingLeft(parts);
    forall k: nat | k < |parts|
      ensures Concatenated(parts[k..]) == parts[k] + Concatenated(parts[k + 1..])
    {
      Unfold(parts, k);
    }
    StringRoundTrip(command.sourceId, Concatenated(parts[1..]));
    StringRoundTrip(command.sessionId, Concatenated(parts[2..]));
    StringRoundTrip(command.mapChecksum, Concatenated(parts[3..]));
    U64RoundTrip(command.clientTime, Concatenated(parts[4..]));
    ByteRoundTrip(EncodeFlag(command.estop)[0], Concatenated(parts[5..]));
    FloatRoundTrip(command.input.throttle, Concatenated(parts[6..]));
    FloatRoundTrip(command.input.brake, Concatenated(parts[7..]));
    FloatRoundTrip(command.input.steering, Concatenated(parts[8..]));
    ByteRoundTrip(EncodeFlag(command.input.handbrake)[0], Concatenated(parts[9..]));
    ByteRoundTrip(GearByte(command.input.gear), Concatenated(parts[10..]));
  }

  /** Two control commands share a fingerprint exactly when they differ at most in sequence number and sign of zero. */
  lemma {:induction false} ControlFingerprintIsInjective(first: ParsedControlCommand, second: ParsedControlCommand)
    ensures ControlFingerprint(first) == ControlFingerprint(second)
      <==> CanonicalControl(first) == CanonicalControl(second)
  {
    ControlRoundTrip(first);
    ControlRoundTrip(second);
    if CanonicalControl(first) == CanonicalControl(second) {
      assert EncodeFloat(first.input.throttle) == EncodeFloat(second.input.throttle);
      assert ControlParts(first) == ControlParts(second) by {
        hide LittleEndian;
      }
    }
    hide ReadControl, Concatenated, LittleEndian;
  }

  function ReadReset(s: string): Option<ParsedSimulationReset> {
    var source := ReadString(s);
    if source.None? then None else
    var session := ReadString(source.value.rest);
    if session.None? then None else
    var checksum := ReadString(session.value.rest);
    if checksum.None? then None else
    var play := ReadString(checksum.value.rest);
    if play.None? then None else
    var time := ReadU64(play.value.rest);
    if time.None? then None else
    var vehicleClass := ReadByte(time.value.rest);
    if vehicleClass.None? || ReadClass(vehicleClass.value.value).None? then None else
    var loadout := ReadString(vehicleClass.value.rest);
    if loadout.None? || loadout.value.rest != "" then None else
    Some(ParsedSimulationReset(0, time.value.value, source.value.value, session.value.value, checksum.value.value,
      play.value.value, ReadClass(vehicleClass.value.value).value, loadout.value.value))
  }

  lemma {:induction false} ResetRoundTrip(reset: ParsedSimulationReset)
    ensures ReadReset(ResetFingerprint(reset)) == Some(reset.(sequence := 0))
  {
    hide Concatenated, EncodeString, EncodeU64, LittleEndian, ReadString, ReadU64, ReadByte;
    var parts := ResetParts(reset);
    NothingLeft(parts);
    forall k: nat | k < |parts|
      ensures Concatenated(parts[k..]) == parts[k] + Concatenated(parts[k + 1..])
    {
      Unfold(parts, k);
    }
    StringRoundTrip(reset.sourceId, Concatenated(parts[1..]));
    StringRoundTrip(reset.sessionId, Concatenated(parts[2..]));
    StringRoundTrip(reset.mapChecksum, Concatenated(parts[3..]));
    StringRoundTrip(reset.playSessionId, Concatenated(parts[4..]));
    U64RoundTrip(reset.clientTime, Concatenated(parts[5..]));
    ByteRoundTrip(ClassByte(reset.requestedClass), Concatenated(parts[6..]));
    StringRoundTrip(reset.requestedLoadoutId, Concatenated(parts[7..]));
  }

  lemma {:induction false} ResetFingerprintIsInjective(first: ParsedSimulationReset, second: ParsedSimulationReset)
    ensures ResetFingerprint(first) == ResetFingerprint(second) <==> first.(sequence := 0) == second.(sequence := 0)
  {
    ResetRoundTrip(first);
    ResetRoundTrip(second);
    hide ReadReset, Concatenated, LittleEndian;
  }

  // ---- Hello: capabilities are a set, so their order does not matter ----

  ghost predicate SortedStrings(keys: seq<string>) {
    forall i, j :: 0 <= i < j < |keys| ==> !Before(keys[j], keys[i])
  }

  /** The sorted order of a list of strings. */
  function Sorted(keys: seq<Text>): (sorted: seq<Text>)
    ensures multiset(sorted) == multiset(keys) && |sorted| == |keys|
  {
    if keys == [] then []
    else
      assert keys == [keys[0]] + keys[1..];
      InsertSorted(keys[0], Sorted(keys[1..]))
  }

  function InsertSorted(key: Text, sorted: seq<Text>): (r: seq<Text>)
    ensures multiset(r) == multiset(sorted) + multiset{key} && |r| == |sorted| + 1
  {
    if sorted == [] || !Before(sorted[0], key) then [key] + sorted
    else
      assert sorted == [sorted[0]] + sorted[1..];
      [sorted[0]] + InsertSorted(key, sorted[1..])
  }

  lemma {:induction false} InsertSortedKeepsOrder(key: Text, sorted: seq<Text>)
    requires SortedStrings(sorted)
    ensures SortedStrings(InsertSorted(key, sorted))
  {
    var r := InsertSorted(key, sorted);
    if sorted == [] {
    } else if !Before(sorted[0], key) {
      forall j | 1 <= j < |r|
        ensures !Before(r[j], key)
      {
        var k := sorted[j - 1];
        assert j > 1 ==> !Before(k, sorted[0]);
        if Before(k, key) {
          NotAfter(key, sorted[0], k);
        }
      }
    } else {
      InsertSortedKeepsOrder(key, sorted[1..]);
      var tail := InsertSorted(key, sorted[1..]);
      forall j | 1 <= j < |r|
        ensures !Before(r[j], sorted[0])
      {
        assert r[j] in multiset(tail);
        if r[j] == key {
          BeforeIsTotal(sorted[0], key);
        } else {
          assert r[j] in multiset(sorted[1..]);
          assert r[j] in sorted[1..];
        }
      }
      assert r[1..] == tail;
    }
  }

  /** `a` not after `b` and `b` not after `c` give `a` not after `c`. */
  lemma {:induction false} NotAfter(a: string, b: string, c: string)
    requires !Before(b, a) && !Before(c, b)
    ensures !Before(c, a)
  {
    BeforeIsTotal(a, b);
    BeforeIsTotal(b, c);
    BeforeIsTotal(a, c);
    if a != b && b != c {
      BeforeIsTransitive(a, b, c);
    }
  }

  lemma {:induction false} SortedIsSorted(keys: seq<Text>)
    ensures SortedStrings(Sorted(keys))
  {
    if keys != [] {
      SortedIsSorted(keys[1..]);
      InsertSortedKeepsOrder(keys[0], Sorted(keys[1..]));
    }
  }

  lemma {:induction false} FirstIsLeast(keys: seq<string>, key: string)
    requires SortedStrings(keys) && key in keys
    ensures !Before(key, keys[0])
  {
    BeforeIsTotal(key, key);
  }

  lemma {:induction false} SameElements(first: seq<string>, second: seq<string>, key: string)
    requires multiset(first) == multiset(second) && key in first
    ensures key in second
  {
    assert key in multiset(first);
    assert key in multiset(second);
  }

  /** A sorted list is determined by its elements. */
  lemma {:induction false} SortedIsUnique(first: seq<string>, second: seq<string>)
    requires SortedStrings(first) && SortedStrings(second) && multiset(first) == multiset(second)
    ensures first == second
  {
    assert |first| == |multiset(first)| == |multiset(second)| == |second|;
    if first != [] {
      SameElements(first, second, first[0]);
      SameElements(second, first, second[0]);
      FirstIsLeast(first, second[0]);
      FirstIsLeast(second, first[0]);
      BeforeIsTotal(first[0], second[0]);
      assert first == [first[0]] + first[1..] && second == [second[0]] + second[1..];
      RestSorted(first);
      RestSorted(second);
      SortedIsUnique(first[1..], second[1..]);
    }
  }

  lemma {:induction false} RestSorted(keys: seq<string>)
    requires SortedStrings(keys) && keys != []
    ensures SortedStrings(keys[1..])
    ensures multiset(keys[1..]) == multiset(keys) - multiset{keys[0]}
  {
    assert keys == [keys[0]] + keys[1..];
  }

  function EncodedStrings(values: seq<Text>): (parts: seq<string>)
    ensures |parts| == |values| && forall k :: 0 <= k < |values| ==> parts[k] == EncodeString(values[k])
  {
    seq(|values|, k requires 0 <= k < |values| => EncodeString(values[k]))
  }

  function HelloParts(hello: ParsedHello): seq<string>
    requires |hello.capabilities| < TWO_64
  {
    [EncodeString(hello.build), EncodeString(hello.schema), EncodeString(hello.mapChecksum),
     EncodeU64(|hello.capabilities|), Concatenated(EncodedStrings(Sorted(hello.capabilities)))]
  }

  function NegotiationFingerprint(hello: ParsedHello): string
    requires |hello.capabilities| < TWO_64
  {
    Concatenated(HelloParts(hello))
  }

  method MakeHelloNegotiationFingerprint(hello: ParsedHello) returns (fingerprint: string)
    requires |hello.capabilities| < TWO_64
    ensures fingerprint == NegotiationFingerprint(hello)
  {
    hide Concatenated, EncodeString, EncodeU64, LittleEndian;
    var capabilities := Sorted(hello.capabilities);
    ghost var parts := HelloParts(hello);
    assert parts[..0] == [];
    NoParts();
    AppendPart("", parts, 0);
    fingerprint := AppendString("", hello.build);
    AppendPart(fingerprint, parts, 1);
    fingerprint := AppendString(fingerprint, hello.schema);
    AppendPart(fingerprint, parts, 2);
    fingerprint := AppendString(fingerprint, hello.mapChecksum);
    AppendPart(fingerprint, parts, 3);
    fingerprint := AppendU64(fingerprint, |capabilities|);
    AppendPart(fingerprint, parts, 4);
    ghost var prefix, encoded := fingerprint, EncodedStrings(capabilities);
    assert encoded[..0] == [];
    for k := 0 to |capabilities|
      invariant fingerprint == prefix + Concatenated(encoded[..k])
    {
      AppendPart(Concatenated(encoded[..k]), encoded, k);
      fingerprint := AppendString(fingerprint, capabilities[k]);
    }
    assert encoded[..|capabilities|] == encoded;
  }

  function ReadStrings(s: string, count: nat): Option<Read<seq<Text>>>
    decreases count
  {
    if count == 0 then Some(Read([], s))
    else
      var first := ReadString(s);
      if first.None? then None
      else
        var others := ReadStrings(first.value.rest, count - 1);
        if others.None? then None else Some(Read([first.value.value] + others.value.value, others.value.rest))
  }

  lemma {:induction false} StringsRoundTrip(values: seq<Text>, rest: string)
    ensures ReadStrings(Concatenated(EncodedStrings(values)) + rest, |values|) == Some(Read(values, rest))
  {
    hide EncodeString, ReadString;
    if values == [] {
      assert "" + rest == rest;
    } else {
      var tail := Concatenated(EncodedStrings(values[1..])) + rest;
      StringsRoundTrip(values[1..], rest);
      StringRoundTrip(values[0], tail);
      assert EncodedStrings(values)[1..] == EncodedStrings(values[1..]);
      assert Concatenated(EncodedStrings(values)) + rest == EncodeString(values[0]) + tail;
      assert [values[0]] + values[1..] == values;
    }
  }

  /** What a negotiation fingerprint stands for: build, schema, map and the sorted capabilities. */
  function ReadNegotiation(s: string): Option<(Text, Text, Text, seq<Text>)> {
    var build := ReadString(s);
    if build.None? then None else
    var schema := ReadString(build.value.rest);
    if schema.None? then None else
    var checksum := ReadString(schema.value.rest);
    if checksum.None? then None else
    var count := ReadU64(checksum.value.rest);
    if count.None? then None else
    var capabilities := ReadStrings(count.value.rest, count.value.value);
    if capabilities.None? || capabilities.value.rest != "" then None else
    Some((build.value.value, schema.value.value, checksum.value.value, capabilities.value.value))
  }

  lemma {:induction false} NegotiationRoundTrip(hello: ParsedHello)
    requires |hello.capabilities| < TWO_64
    ensures ReadNegotiation(NegotiationFingerprint(hello))
         == Some((hello.build, hello.schema, hello.mapChecksum, Sorted(hello.capabilities)))
  {
    hide Concatenated, EncodeString, EncodeU64, LittleEndian, ReadString, ReadU64, ReadStrings, Sorted;
    var parts := HelloParts(hello);
    NothingLeft(parts);
    forall k: nat | k < |parts|
      ensures Concatenated(parts[k..]) == parts[k] + Concatenated(parts[k + 1..])
    {
      Unfold(parts, k);
    }
    StringRoundTrip(hello.build, Concatenated(parts[1..]));
    StringRoundTrip(hello.schema, Concatenated(parts[2..]));
    StringRoundTrip(hello.mapChecksum, Concatenated(parts[3..]));
    U64RoundTrip(|hello.capabilities|, Concatenated(parts[4..]));
    StringsRoundTrip(Sorted(hello.capabilities), Concatenated(parts[5..]));
  }

  /** Two Hellos negotiate the same thing exactly when they differ at most in the order of their capabilities. */
  lemma {:induction false} NegotiationFingerprintIsInjective(first: ParsedHello, second: ParsedHello)
    requires |first.capabilities| < TWO_64 && |second.capabilities| < TWO_64
    ensures NegotiationFingerprint(first) == NegotiationFingerprint(second) <==>
      && first.build == second.build && first.schema == second.schema && first.mapChecksum == second.mapChecksum
      && multiset(first.capabilities) == multiset(second.capabilities)
  {
    hide ReadNegotiation, Concatenated, EncodeString, EncodeU64, Sorted;
    NegotiationRoundTrip(first);
    NegotiationRoundTrip(second);
    SortedIsSorted(first.capabilities);
    SortedIsSorted(second.capabilities);
    if multiset(first.capabilities) == multiset(second.capabilities) {
      SortedIsUnique(Sorted(first.capabilities), Sorted(second.capabilities));
      assert |first.capabilities| == |multiset(first.capabilities)| == |second.capabilities|;
    }
  }

  /** A Hello's payload: who it is from and what it negotiates. */
  function HelloFingerprint(hello: ParsedHello): string
    requires |hello.capabilities| < TWO_64
    requires |NegotiationFingerprint(hello)| < TWO_64
  {
    Concatenated([EncodeString(hello.sourceId), EncodeString(hello.sessionId),
      EncodeString(NegotiationFingerprint(hello))])
  }

  method MakeHelloPayloadFingerprint(hello: ParsedHello, negotiation: Text) returns (fingerprint: string)
    requires |hello.capabilities| < TWO_64 && negotiation == NegotiationFingerprint(hello)
    ensures fingerprint == HelloFingerprint(hello)
  {
    hide Concatenated, EncodeString, NegotiationFingerprint;
    ghost var parts := [EncodeString(hello.sourceId), EncodeString(hello.sessionId), EncodeString(negotiation)];
    assert parts[..0] == [];
    NoParts();
    AppendPart("", parts, 0);
    fingerprint := AppendString("", hello.sourceId);
    AppendPart(fingerprint, parts, 1);
    fingerprint := AppendString(fingerprint, hello.sessionId);
    AppendPart(fingerprint, parts, 2);
    fingerprint := AppendString(fingerprint, negotiation);
  }

  lemma {:induction false} HelloFingerprintIsInjective(first: ParsedHello, second: ParsedHello)
    requires |first.capabilities| < TWO_64 && |NegotiationFingerprint(first)| < TWO_64
    requires |second.capabilities| < TWO_64 && |NegotiationFingerprint(second)| < TWO_64
    ensures HelloFingerprint(first) == HelloFingerprint(second) <==>
      && first.sourceId == second.sourceId && first.sessionId == second.sessionId
      && NegotiationFingerprint(first) == NegotiationFingerprint(second)
  {
    HelloIdentity(first);
    HelloIdentity(second);
    hide EncodeString, ReadString, Concatenated, NegotiationFingerprint;
  }

  lemma {:induction false} HelloIdentity(hello: ParsedHello)
    requires |hello.capabilities| < TWO_64 && |NegotiationFingerprint(hello)| < TWO_64
    ensures var source := ReadString(HelloFingerprint(hello));
      && source.Some? && source.value.value == hello.sourceId
      && var session := ReadString(source.value.rest);
      && session.Some? && session.value.value == hello.sessionId
      && ReadString(session.value.rest) == Some(Read(NegotiationFingerprint(hello), ""))
  {
    hide EncodeString, ReadString, NegotiationFingerprint, Concatenated;
    var negotiation := NegotiationFingerprint(hello);
    var parts := [EncodeString(hello.sourceId), EncodeString(hello.sessionId), EncodeString(negotiation)];
    NothingLeft(parts);
    Unfold(parts, 0);
    Unfold(parts, 1);
    Unfold(parts, 2);
    StringRoundTrip(hello.sourceId, Concatenated(parts[1..]));
    StringRoundTrip(hello.sessionId, Concatenated(parts[2..]));
    StringRoundTrip(negotiation, Concatenated(parts[3..]));
  }
}
