/**
 * switch_decoder.py: the invocation-frame parser and the retransmit filter.
 *
 * The parser is proved against the printer `Serialize`: what it returns is the one way to
 * read the packet as complete frames followed by a tail that begins none. The filter is
 * proved against `Kept`, the filter with unbounded memory.
 */
module SwitchDecoder {
  import opened Basics
  import opened RecencyTable

  const HEADER_LENGTH := 9
  const BUTTON_EVENT_BASE := 29
  const BUTTON_EVENT_LAST := 36
  const INPUT_EVENT_BASE := 64
  const INPUT_EVENT_LAST := 71
  const TARGET_TYPE_BUTTON := 0x06
  const TARGET_TYPE_INPUT := 0x12
  const RETRANSMIT_WINDOW_SECONDS := 0.5

  // ---- Frames -------------------------------------------------------------

  /** Bit 0x0200 of the flags. */
  predicate HasOriginHandle(flags: nat) {
    flags / 512 % 2 == 1
  }

  /** The low six bits of the flags. */
  function PayloadLength(flags: nat): nat {
    flags % 64
  }

  datatype InvocationFrame = InvocationFrame(
    flags: nat, opcode: Byte, origin: nat, target: nat, age: nat,
    originHandle: Option<Byte>, payload: seq<Byte>)
  {
    /** The field widths of the wire format, and the two parts the flags announce. */
    predicate WellFormed() {
      && flags < 0x10000 && origin < 0x10000 && target < 0x10000 && age < 0x10000
      && (originHandle.Some? <==> HasOriginHandle(flags))
      && |payload| == PayloadLength(flags)
    }

    function UnitId(): nat { target / 256 }

    function TargetType(): nat { target % 256 }
  }

  function U16(value: nat): (bytes: seq<Byte>)
    requires value < 0x10000
  {
    [value / 256, value % 256]
  }

  /** Two bytes read big-endian. */
  function Word(high: Byte, low: Byte): (value: nat)
    ensures value < 0x10000 && U16(value) == [high, low]
  {
    var wide: int := high;
    wide * 256 + low
  }

  function Serialize(frame: InvocationFrame): (bytes: seq<Byte>)
    requires frame.WellFormed()
    ensures |bytes| == FrameLength(frame.flags)
  {
    U16(frame.flags) + [frame.opcode] + U16(frame.origin) + U16(frame.target) + U16(frame.age)
    + (if frame.originHandle.Some? then [frame.originHandle.value] else []) + frame.payload
  }

  function FrameLength(flags: nat): nat {
    HEADER_LENGTH + (if HasOriginHandle(flags) then 1 else 0) + PayloadLength(flags)
  }

  ghost predicate AllWellFormed(frames: seq<InvocationFrame>) {
    forall f :: f in frames ==> f.WellFormed()
  }

  function SerializeAll(frames: seq<InvocationFrame>): (bytes: seq<Byte>)
    requires AllWellFormed(frames)
  {
    if frames == [] then [] else Serialize(frames[0]) + SerializeAll(frames[1..])
  }

  /** Some complete frame is a prefix of `data`. */
  ghost predicate BeginsFrame(data: seq<Byte>) {
    exists f: InvocationFrame :: f.WellFormed() && Serialize(f) <= data
  }

  /** `frames` is what `data` spells out: those frames, then a tail that begins no frame. */
  ghost predicate Spells(data: seq<Byte>, frames: seq<InvocationFrame>) {
    && AllWellFormed(frames)
    && SerializeAll(frames) <= data
    && !BeginsFrame(data[|SerializeAll(frames)|..])
  }

  /** The field values at the front of `data`, read the way the header lays them out. */
  function HeadFlags(data: seq<Byte>): nat
    requires |data| >= 2
  {
    Word(data[0], data[1])
  }

  /** A complete frame is recognised by its length alone, and its bytes fix every field. */
  lemma FramePrefix(frame: InvocationFrame, data: seq<Byte>)
    requires frame.WellFormed() && Serialize(frame) <= data
    ensures |data| >= HEADER_LENGTH && HeadFlags(data) == frame.flags
    ensures |data| >= FrameLength(frame.flags)
    ensures frame.opcode == data[2]
    ensures frame.origin == Word(data[3], data[4])
    ensures frame.target == Word(data[5], data[6])
    ensures frame.age == Word(data[7], data[8])
    ensures frame.originHandle.Some? ==> frame.originHandle.value == data[9]
    ensures frame.payload == data[FrameLength(frame.flags) - PayloadLength(frame.flags)..FrameLength(frame.flags)]
  {
    var bytes := Serialize(frame);
    assert bytes == data[..|bytes|];
    assert forall i :: 0 <= i < HEADER_LENGTH ==> data[i] == bytes[i];
    var start := FrameLength(frame.flags) - PayloadLength(frame.flags);
    assert frame.payload == bytes[start..];
  }

  /** Serialisation is a prefix code: one packet cannot begin with two different frames. */
  lemma PrefixCode(f: InvocationFrame, g: InvocationFrame, data: seq<Byte>)
    requires f.WellFormed() && Serialize(f) <= data
    requires g.WellFormed() && Serialize(g) <= data
    ensures f == g
  {
    FramePrefix(f, data);
    FramePrefix(g, data);
  }

  /** A packet spells at most one list of frames. */
  lemma {:induction false} SpellsIsUnique(data: seq<Byte>, a: seq<InvocationFrame>, b: seq<InvocationFrame>)
    requires Spells(data, a) && Spells(data, b)
    ensures a == b
  {
    if a == [] || b == [] {
      SpellsEmpty(data, a);
      SpellsEmpty(data, b);
    } else {
      SpellsTail(data, a);
      SpellsTail(data, b);
      PrefixCode(a[0], b[0], data);
      SpellsIsUnique(data[|Serialize(a[0])|..], a[1..], b[1..]);
    }
  }

  lemma SpellsEmpty(data: seq<Byte>, frames: seq<InvocationFrame>)
    requires Spells(data, frames)
    ensures frames == [] <==> !BeginsFrame(data)
  {
    if frames == [] {
      assert data[0..] == data;
    } else {
      SpellsTail(data, frames);
    }
  }

  lemma SpellsTail(data: seq<Byte>, frames: seq<InvocationFrame>)
    requires frames != []
    requires Spells(data, frames)
    ensures frames[0].WellFormed() && Serialize(frames[0]) <= data
    ensures Spells(data[|Serialize(frames[0])|..], frames[1..])
  {
    var head, rest := Serialize(frames[0]), SerializeAll(frames[1..]);
    assert SerializeAll(frames) == head + rest;
    assert head <= data;
    assert data[|head|..][..|rest|] == rest;
    assert data[|head|..][|rest|..] == data[|head + rest|..];
  }

  lemma {:induction false} SerializeAllAppends(frames: seq<InvocationFrame>, last: InvocationFrame)
    requires AllWellFormed(frames) && last.WellFormed()
    ensures AllWellFormed(frames + [last])
    ensures SerializeAll(frames + [last]) == SerializeAll(frames) + Serialize(last)
  {
    if frames == [] {
      assert [last][1..] == [];
    } else {
      var head, all := frames[0], frames + [last];
      SerializeAllAppends(frames[1..], last);
      assert all[1..] == frames[1..] + [last] && all[0] == head;
      var first, rest, end := Serialize(head), SerializeAll(frames[1..]), Serialize(last);
      assert SerializeAll(all) == first + (rest + end);
      assert first + (rest + end) == (first + rest) + end;
    }
  }

  /** Parsing what was printed, followed by any incomplete tail, returns exactly what was printed. */
  lemma ParseInvertsPrint(frames: seq<InvocationFrame>, tail: seq<Byte>, parsed: seq<InvocationFrame>)
    requires AllWellFormed(frames) && !BeginsFrame(tail)
    requires Spells(SerializeAll(frames) + tail, parsed)
    ensures parsed == frames
  {
    var data := SerializeAll(frames) + tail;
    assert data[|SerializeAll(frames)|..] == tail;
    SpellsIsUnique(data, frames, parsed);
  }

  /** A tail shorter than a header, or than the length its own flags announce, begins no frame. */
  lemma IncompleteExactly(tail: seq<Byte>)
    ensures BeginsFrame(tail) <==> |tail| >= HEADER_LENGTH && |tail| >= FrameLength(HeadFlags(tail))
  {
    if BeginsFrame(tail) {
      var f: InvocationFrame :| f.WellFormed() && Serialize(f) <= tail;
      FramePrefix(f, tail);
    }
    if |tail| >= HEADER_LENGTH && |tail| >= FrameLength(HeadFlags(tail)) {
      var f := HeadFrame(tail);
      assert f.WellFormed() && Serialize(f) <= tail;
    }
  }

  /** The frame at the front of `data`, field by field. */
  function HeadFrame(data: seq<Byte>): (frame: InvocationFrame)
    requires |data| >= HEADER_LENGTH && |data| >= FrameLength(HeadFlags(data))
    ensures frame.WellFormed() && Serialize(frame) == data[..FrameLength(HeadFlags(data))]
  {
    var flags := HeadFlags(data);
    var start := FrameLength(flags) - PayloadLength(flags);
    var frame := InvocationFrame(
      flags, data[2], Word(data[3], data[4]), Word(data[5], data[6]), Word(data[7], data[8]),
      if HasOriginHandle(flags) then Some(data[9]) else None, data[start..start + PayloadLength(flags)]);
    assert Serialize(frame) == data[..FrameLength(flags)] by {
      var bytes := Serialize(frame);
      assert forall i :: 0 <= i < HEADER_LENGTH ==> bytes[i] == data[i];
      assert bytes[start..] == frame.payload;
      assert bytes[..start] == data[..start];
      assert bytes == bytes[..start] + bytes[start..];
    }
    frame
  }

  /** parse_invocation_stream. The loop runs on the bytes that remain. */
  method ParseInvocationStream(data: seq<Byte>) returns (frames: seq<InvocationFrame>)
    ensures Spells(data, frames)
  {
    frames := [];
    var pos := 0;
    while |data| - pos >= HEADER_LENGTH
      invariant 0 <= pos <= |data|
      invariant AllWellFormed(frames) && SerializeAll(frames) == data[..pos]
      decreases |data| - pos
    {
      ghost var start := pos;
      ghost var rest := data[start..];
      IncompleteExactly(rest);
      var flags := Word(data[pos], data[pos + 1]);
      var opcode := data[pos + 2];
      var origin := Word(data[pos + 3], data[pos + 4]);
      var target := Word(data[pos + 5], data[pos + 6]);
      var age := Word(data[pos + 7], data[pos + 8]);
      pos := pos + HEADER_LENGTH;

      var originHandle: Option<Byte> := None;
      if HasOriginHandle(flags) {
        if pos >= |data| {
          return;
        }
        originHandle := Some(data[pos]);
        pos := pos + 1;
      }

      var payloadLength := PayloadLength(flags);
      if pos + payloadLength > |data| {
        return;
      }
      var payload := data[pos..pos + payloadLength];
      pos := pos + payloadLength;

      var frame := InvocationFrame(flags, opcode, origin, target, age, originHandle, payload);
      assert frame == HeadFrame(rest);
      SerializeAllAppends(frames, frame);
      assert data[..pos] == data[..start] + rest[..FrameLength(flags)];
      frames := frames + [frame];
    }
    IncompleteExactly(data[pos..]);
  }

  // ---- Events -------------------------------------------------------------

  datatype SwitchEventPhase = PRESS | RELEASE | HOLD | RELEASE_AFTER_HOLD

  /** (unit, control, origin): shared by every copy of one physical action. */
  datatype SwitchKey = SwitchKey(unitId: nat, control: nat, origin: nat)

  datatype SwitchEvent = SwitchEvent(unitId: nat, button: nat, event: SwitchEventPhase, dedupIdentity: SwitchKey)

  function PhaseOfCode(code: Byte): Option<SwitchEventPhase> {
    if code == 0x01 then Some(PRESS)
    else if code == 0x02 then Some(RELEASE)
    else if code == 0x09 then Some(HOLD)
    else if code == 0x0C then Some(RELEASE_AFTER_HOLD)
    else None
  }

  /** What a frame means before retransmissions are considered. */
  function Recognise(frame: InvocationFrame): (event: Option<SwitchEvent>) {
    if frame.TargetType() == TARGET_TYPE_BUTTON && BUTTON_EVENT_BASE <= frame.opcode <= BUTTON_EVENT_LAST then
      var control := frame.opcode - BUTTON_EVENT_BASE;
      Some(MakeEvent(frame, control, if frame.origin / 2 % 2 == 1 then RELEASE else PRESS))
    else if frame.TargetType() == TARGET_TYPE_INPUT && INPUT_EVENT_BASE <= frame.opcode <= INPUT_EVENT_LAST then
      if frame.payload == [] then None
      else
        match PhaseOfCode(frame.payload[0])
        case None => None
        case Some(PRESS) => None
        case Some(RELEASE) => None
        case Some(phase) => Some(MakeEvent(frame, frame.opcode - INPUT_EVENT_BASE, phase))
    else None
  }

  function MakeEvent(frame: InvocationFrame, control: nat, phase: SwitchEventPhase): SwitchEvent {
    SwitchEvent(frame.UnitId(), control + 1, phase, SwitchKey(frame.UnitId(), control, frame.origin))
  }

  /**
   * What the fields of a frame say. Button stream: target type 0x06 with opcodes 29 to 36, and bit
   * 0x02 of the origin tells a release from a press. Input stream: target type 0x12 with opcodes 64
   * to 71, and the first payload byte 0x09 begins a hold, 0x0C ends one. Nothing else is an event.
   */
  ghost predicate Signals(frame: InvocationFrame, e: SwitchEvent) {
    && e.unitId == frame.target / 256
    && e.dedupIdentity == SwitchKey(frame.target / 256, if e.button > 0 then e.button - 1 else 0, frame.origin)
    && (if e.event.PRESS? || e.event.RELEASE? then
          && frame.target % 256 == 0x06
          && 29 <= frame.opcode <= 36 && e.button == frame.opcode - 28
          && (e.event.RELEASE? <==> frame.origin / 2 % 2 == 1)
        else
          && frame.target % 256 == 0x12
          && 64 <= frame.opcode <= 71 && e.button == frame.opcode - 63
          && frame.payload != [] && frame.payload[0] == if e.event.HOLD? then 0x09 else 0x0C)
  }

  lemma RecognisedExactly(frame: InvocationFrame, e: SwitchEvent)
    ensures Recognise(frame) == Some(e) <==> Signals(frame, e)
  {
    if Recognise(frame).Some? {
      assert Recognise(frame).value.button > 0;
    }
  }

  /**
   * The same on the wire, where a frame is flags (2), opcode, origin (2), unit, target type, age
   * (2), then an origin handle if bit 0x02 of the first byte is set, then the payload, whose length
   * is the low six bits of the second byte.
   */
  ghost predicate SpellsEvent(bytes: seq<Byte>, e: SwitchEvent)
    requires |bytes| >= 9
  {
    var payload, wide: int := 9 + bytes[0] / 2 % 2, bytes[3];
    && e.unitId == bytes[5]
    && e.dedupIdentity == SwitchKey(bytes[5], if e.button > 0 then e.button - 1 else 0, wide * 256 + bytes[4])
    && (if e.event.PRESS? || e.event.RELEASE? then
          && bytes[6] == 0x06
          && 29 <= bytes[2] <= 36 && e.button == bytes[2] - 28
          && (e.event.RELEASE? <==> bytes[4] / 2 % 2 == 1)
        else
          && bytes[6] == 0x12
          && 64 <= bytes[2] <= 71 && e.button == bytes[2] - 63
          && bytes[1] % 64 > 0 && payload < |bytes|
          && bytes[payload] == if e.event.HOLD? then 0x09 else 0x0C)
  }

  lemma MeaningOnTheWire(frame: InvocationFrame, e: SwitchEvent)
    requires frame.WellFormed()
    ensures Recognise(frame) == Some(e) <==> SpellsEvent(Serialize(frame), e)
  {
    RecognisedExactly(frame, e);
    OriginBitOnTheWire(frame.origin);
    HeaderOnTheWire(frame);
    PayloadOnTheWire(frame);
  }

  lemma HeaderOnTheWire(frame: InvocationFrame)
    requires frame.WellFormed()
    ensures var bytes := Serialize(frame);
            var wide: int := bytes[3];
            && bytes[2] == frame.opcode && bytes[5] == frame.target / 256 && bytes[6] == frame.target % 256
            && bytes[4] == frame.origin % 256 && wide * 256 + bytes[4] == frame.origin
  {
    var bytes := Serialize(frame);
    assert bytes[3..5] == U16(frame.origin) && bytes[5..7] == U16(frame.target);
  }

  lemma PayloadOnTheWire(frame: InvocationFrame)
    requires frame.WellFormed()
    ensures var bytes := Serialize(frame);
            var payload := 9 + bytes[0] / 2 % 2;
            && (bytes[1] % 64 > 0 && payload < |bytes| <==> frame.payload != [])
            && (frame.payload != [] ==> payload < |bytes| && bytes[payload] == frame.payload[0])
  {
    var bytes := Serialize(frame);
    var payload := 9 + bytes[0] / 2 % 2;
    HandleBitOnTheWire(frame.flags);
    assert bytes[0..2] == U16(frame.flags);
    assert bytes[payload..] == frame.payload;
  }

  lemma OriginBitOnTheWire(origin: nat)
    ensures origin % 256 / 2 % 2 == origin / 2 % 2
  {
    var high, low := origin / 256, origin % 256;
    assert origin == 2 * (high * 128) + low;
    assert origin / 2 == high * 128 + low / 2;
  }

  lemma HandleBitOnTheWire(flags: nat)
    ensures flags / 256 / 2 % 2 == flags / 512 % 2
  {
    var high, low := flags / 512, flags % 512;
    assert flags == 256 * (2 * high) + low;
    assert flags / 256 == 2 * high + low / 256;
  }

  /**
   * A press and a release carry different keys, so neither can suppress the other; and a
   * press or release never comes from the input stream.
   */
  lemma PressAndReleaseNeverCollide(f: InvocationFrame, g: InvocationFrame)
    requires Recognise(f).Some? && Recognise(f).value.event == PRESS
    requires Recognise(g).Some? && Recognise(g).value.event == RELEASE
    ensures Recognise(f).value.dedupIdentity != Recognise(g).value.dedupIdentity
    ensures f.TargetType() == g.TargetType() == TARGET_TYPE_BUTTON
  {
  }

  /** Every recognised frame fits the published value ranges. */
  lemma RecognisedIsPublishable(frame: InvocationFrame)
    requires frame.WellFormed() && Recognise(frame).Some?
    ensures Recognise(frame).value.unitId <= 255 && 1 <= Recognise(frame).value.button <= 8
  {
  }

  /** The keys of the recognised frames among `frames`, each at its own clock reading. */
  ghost function Arrivals(frames: seq<InvocationFrame>, readings: seq<real>): (entries: seq<Entry<SwitchKey>>)
    requires |readings| == |frames|
  {
    if frames == [] then []
    else
      var n := |frames| - 1;
      Arrivals(frames[..n], readings[..n]) +
      (match Recognise(frames[n]) case Some(e) => [Entry(e.dedupIdentity, readings[n])] case None => [])
  }

  /** The events an observer that remembers every earlier emission would return. */
  ghost function Events(past: seq<Entry<SwitchKey>>, frames: seq<InvocationFrame>,
      readings: seq<real>): (events: seq<SwitchEvent>)
    requires |readings| == |frames|
  {
    if frames == [] then []
    else
      var n := |frames| - 1;
      var before := Events(past, frames[..n], readings[..n]);
      match Recognise(frames[n])
      case None => before
      case Some(e) =>
        var emitted := Kept(past + Arrivals(frames[..n], readings[..n]), RETRANSMIT_WINDOW_SECONDS);
        if Fresh(emitted, e.dedupIdentity, readings[n], RETRANSMIT_WINDOW_SECONDS) then before + [e] else before
  }

  /** A packet of one frame: the event its bytes spell, unless its key was emitted within the window. */
  lemma PacketOfOneFrame(past: seq<Entry<SwitchKey>>, frame: InvocationFrame, now: real, e: SwitchEvent)
    requires frame.WellFormed()
    ensures Events(past, [frame], [now]) == [e] <==>
            SpellsEvent(Serialize(frame), e) && Fresh(Kept(past, 0.5), e.dedupIdentity, now, 0.5)
  {
    MeaningOnTheWire(frame, e);
    assert [frame][..0] == [] && [now][..0] == [];
    assert past + Arrivals([], []) == past;
    assert Events(past, [], []) == [];
    if Events(past, [frame], [now]) != [] {
      assert Events(past, [frame], [now])[0] == Recognise(frame).value;
    }
  }

  lemma ArrivalsOfOne(frame: InvocationFrame, now: real)
    ensures Arrivals([frame], [now]) ==
            match Recognise(frame) case Some(e) => [Entry(e.dedupIdentity, now)] case None => []
  {
    assert [frame][..0] == [] && [now][..0] == [];
    assert Arrivals([], []) == [];
  }

  class SwitchEventDecoder {
    var seen: map<SwitchKey, real>
    /** Every recognised frame since construction or the last reset. */
    ghost var arrivals: seq<Entry<SwitchKey>>
    ghost var asOf: real

    ghost function Emitted(): seq<Entry<SwitchKey>>
      reads this
    {
      Kept(arrivals, RETRANSMIT_WINDOW_SECONDS)
    }

    ghost predicate Valid()
      reads this
    {
      Agrees(seen, Emitted(), asOf, RETRANSMIT_WINDOW_SECONDS)
    }

    constructor (now: real)
      ensures Valid() && arrivals == [] && asOf == now
    {
      seen := map[];
      arrivals := [];
      asOf := now;
    }

    /** After this, every key is new again. */
    method Reset()
      requires Valid()
      modifies this
      ensures Valid() && arrivals == [] && asOf == old(asOf)
    {
      seen := map[];
      arrivals := [];
    }

    /** _expire: only entries still inside the window stay. */
    method Expire(now: real)
      modifies this`seen
      ensures seen == Unexpired(old(seen), now, RETRANSMIT_WINDOW_SECONDS)
    {
      var items := seen;
      var todo := items.Keys;
      while todo != {}
        invariant todo <= items.Keys
        invariant seen == map k | k in items && (k in todo || now - items[k] < RETRANSMIT_WINDOW_SECONDS) :: items[k]
        decreases |todo|
      {
        var key :| key in todo;
        todo := todo - {key};
        if now - items[key] >= RETRANSMIT_WINDOW_SECONDS {
          seen := seen - {key};
        }
      }
    }

    /** _is_retransmit: whether the same key was emitted less than the window ago. */
    method IsRetransmit(key: SwitchKey, now: real) returns (retransmit: bool)
      requires Valid() && asOf <= now
      modifies this
      ensures Valid() && asOf == now
      ensures arrivals == old(arrivals) + [Entry(key, now)]
      ensures retransmit <==> !Fresh(old(Emitted()), key, now, RETRANSMIT_WINDOW_SECONDS)
      ensures Emitted() == if retransmit then old(Emitted()) else old(Emitted()) + [Entry(key, now)]
    {
      LookupMatchesHistory(seen, Emitted(), asOf, RETRANSMIT_WINDOW_SECONDS, key, now);
      KeptExtends(arrivals, Entry(key, now), RETRANSMIT_WINDOW_SECONDS);
      ghost var history := Emitted();
      if key in seen && now - seen[key] < RETRANSMIT_WINDOW_SECONDS {
        arrivals := arrivals + [Entry(key, now)];
        asOf := now;
        return true;
      }
      RecordKeepsAgreement(seen, history, asOf, RETRANSMIT_WINDOW_SECONDS, key, now);
      seen := seen[key := now];
      PurgeKeepsAgreement(seen, history + [Entry(key, now)], now, RETRANSMIT_WINDOW_SECONDS, now);
      Expire(now);
      arrivals := arrivals + [Entry(key, now)];
      asOf := now;
      return false;
    }

    /** _decode_frame at one clock reading. */
    method DecodeFrame(frame: InvocationFrame, now: real) returns (event: Option<SwitchEvent>)
      requires Valid() && asOf <= now
      modifies this
      ensures Valid() && old(asOf) <= asOf <= now
      ensures arrivals == old(arrivals) + Arrivals([frame], [now])
      ensures event == match Recognise(frame)
                       case None => None
                       case Some(e) =>
                         if Fresh(old(Emitted()), e.dedupIdentity, now, RETRANSMIT_WINDOW_SECONDS)
                         then Some(e) else None
      ensures forall e :: event == Some(e) <==>
                          Signals(frame, e) && Fresh(old(Emitted()), e.dedupIdentity, now, 0.5)
    {
      forall e ensures Recognise(frame) == Some(e) <==> Signals(frame, e) {
        RecognisedExactly(frame, e);
      }
      var targetType, opcode := frame.TargetType(), frame.opcode;
      var phase, control;
      ArrivalsOfOne(frame, now);
      if targetType == TARGET_TYPE_BUTTON && BUTTON_EVENT_BASE <= opcode <= BUTTON_EVENT_LAST {
        control := opcode - BUTTON_EVENT_BASE;
        phase := if frame.origin / 2 % 2 == 1 then RELEASE else PRESS;
      } else if targetType == TARGET_TYPE_INPUT && INPUT_EVENT_BASE <= opcode <= INPUT_EVENT_LAST {
        if frame.payload == [] {
          return None;
        }
        var named := PhaseOfCode(frame.payload[0]);
        if named.None? || named.value == PRESS || named.value == RELEASE {
          return None;
        }
        phase := named.value;
        control := opcode - INPUT_EVENT_BASE;
      } else {
        return None;
      }
      assert Recognise(frame) == Some(MakeEvent(frame, control, phase));
      var key := SwitchKey(frame.UnitId(), control, frame.origin);
      var retransmit := IsRetransmit(key, now);
      if retransmit {
        return None;
      }
      return Some(SwitchEvent(frame.UnitId(), control + 1, phase, key));
    }

    /** decode: the events one packet represents, with one clock reading per frame. */
    method Decode(data: seq<Byte>, readings: seq<real>)
        returns (events: seq<SwitchEvent>, ghost frames: seq<InvocationFrame>)
      requires Valid()
      requires |readings| >= |data|
      requires ReadInOrder(asOf, readings)
      modifies this
      ensures Valid()
      ensures Spells(data, frames) && |frames| <= |readings|
      ensures arrivals == old(arrivals) + Arrivals(frames, readings[..|frames|])
      ensures events == Events(old(arrivals), frames, readings[..|frames|])
    {
      var parsed := ParseInvocationStream(data);
      frames := parsed;
      FewerFramesThanBytes(parsed);
      events := [];
      ghost var past := arrivals;
      assert past + [] == past;
      for i := 0 to |parsed|
        invariant Valid() && (i < |readings| ==> asOf <= readings[i])
        invariant arrivals == past + Arrivals(parsed[..i], readings[..i])
        invariant events == Events(past, parsed[..i], readings[..i])
      {
        OneMoreFrame(past, parsed, readings, i);
        var event := DecodeFrame(parsed[i], readings[i]);
        if event.Some? {
          events := events + [event.value];
        }
      }
      assert parsed[..|parsed|] == parsed;
    }
  }

  /** Clock readings from `since` on, none before the one before it. */
  predicate ReadInOrder(since: real, readings: seq<real>) {
    forall i, j :: 0 <= i <= j < |readings| ==> since <= readings[i] <= readings[j]
  }

  /** How the arrivals and the events of a packet grow by one frame. */
  lemma OneMoreFrame(past: seq<Entry<SwitchKey>>, frames: seq<InvocationFrame>, readings: seq<real>, i: nat)
    requires i < |frames| <= |readings|
    ensures past + Arrivals(frames[..i + 1], readings[..i + 1]) ==
            past + Arrivals(frames[..i], readings[..i]) + Arrivals([frames[i]], [readings[i]])
    ensures Events(past, frames[..i + 1], readings[..i + 1]) ==
            Events(past, frames[..i], readings[..i]) +
            match Recognise(frames[i])
            case None => []
            case Some(e) =>
              if Fresh(Kept(past + Arrivals(frames[..i], readings[..i]), RETRANSMIT_WINDOW_SECONDS),
                       e.dedupIdentity, readings[i], RETRANSMIT_WINDOW_SECONDS)
              then [e] else []
  {
    assert frames[..i + 1][..i] == frames[..i] && readings[..i + 1][..i] == readings[..i];
    ArrivalsOfOne(frames[i], readings[i]);
  }

  lemma {:induction false} FewerFramesThanBytes(frames: seq<InvocationFrame>)
    requires AllWellFormed(frames)
    ensures |frames| <= |SerializeAll(frames)|
  {
    if frames != [] {
      FewerFramesThanBytes(frames[1..]);
    }
  }
}
