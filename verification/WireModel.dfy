/** The wire format: integers, packets, message streams and PCBs (utils/src/utils/utils.c). */
module WireModel {
  import opened Common

  const TWO_31 := 0x8000_0000
  const TWO_32 := 0x1_0000_0000

  // ----- Integers -----

  predicate IsInt(n: int) {
    -TWO_31 <= n < TWO_31
  }

  /** An `int` that a 32-bit unsigned value converts to, and back. */
  function ToInt(u: int): int {
    if u >= TWO_31 then u - TWO_32 else u
  }

  function ToUint32(i: int): (u: nat) {
    i % TWO_32
  }

  function ToUint8(i: int): byte {
    i % 256
  }

  /** The four bytes of an `int`, low byte first. */
  function IntBytes(n: int): (s: seq<byte>)
    requires IsInt(n)
    ensures |s| == 4
  {
    var u := ToUint32(n);
    [u % 256, u / 256 % 256, u / 256 / 256 % 256, u / 256 / 256 / 256]
  }

  function IntAt(s: seq<byte>, at: nat): int
    requires at + 4 <= |s|
  {
    var a: int, b: int, c: int, d: int := s[at], s[at + 1], s[at + 2], s[at + 3];
    ToInt(a + b * 0x100 + c * 0x1_0000 + d * 0x100_0000)
  }

  lemma FourBytes(u: nat)
    requires u < TWO_32
    ensures u == u % 256 + u / 256 % 256 * 0x100 + u / 256 / 256 % 256 * 0x1_0000 + u / 256 / 256 / 256 * 0x100_0000
  {
    var v := u / 256;
    assert u == 256 * v + u % 256;
    var w := v / 256;
    assert v == 256 * w + v % 256;
    assert w == 256 * (w / 256) + w % 256;
  }

  lemma IntRoundTrip(before: seq<byte>, n: int, after: seq<byte>)
    requires IsInt(n)
    ensures IntAt(before + IntBytes(n) + after, |before|) == n
  {
    var s, bytes := before + IntBytes(n) + after, IntBytes(n);
    assert forall k :: 0 <= k < 4 ==> s[|before| + k] == bytes[k];
    FourBytes(ToUint32(n));
  }

  // ----- Packets -----

  /** `agregar_a_paquete` for each value in turn. */
  function Pack(values: seq<seq<byte>>): seq<byte>
    requires forall i :: 0 <= i < |values| ==> |values[i]| < TWO_31
  {
    if values == [] then []
    else Pack(values[..|values| - 1]) + IntBytes(|values[|values| - 1]|) + values[|values| - 1]
  }

  /** The loop of `recibir_paquete`; None when a length does not fit what is left. */
  function Unpack(buffer: seq<byte>, at: nat): Option<seq<seq<byte>>>
    decreases |buffer| - at
  {
    if at >= |buffer| then Some([])
    else if at + 4 > |buffer| then None
    else
      var n := IntAt(buffer, at);
      if n < 0 || at + 4 + n > |buffer| then None
      else
        match Unpack(buffer, at + 4 + n)
        case None => None
        case Some(rest) => Some([buffer[at + 4..at + 4 + n]] + rest)
  }

  predicate Packable(values: seq<seq<byte>>) {
    (forall i :: 0 <= i < |values| ==> |values[i]| < TWO_31) && |Pack(values)| < TWO_31
  }

  lemma {:induction false} PackCons(v: seq<byte>, values: seq<seq<byte>>)
    requires |v| < TWO_31 && forall i :: 0 <= i < |values| ==> |values[i]| < TWO_31
    ensures Pack([v] + values) == IntBytes(|v|) + v + Pack(values)
  {
    hide Pack, IntBytes;
    if values == [] {
      NoneBefore([v]);
      PackOne(v);
      NoneBefore(IntBytes(|v|) + v);
      PackNone();
    } else {
      var last := |values| - 1;
      var x := values[last];
      PackCons(v, values[..last]);
      assert ([v] + values)[..last + 1] == [v] + values[..last] && ([v] + values)[last + 1] == x;
      PackLast([v] + values);
      PackLast(values);
      Assoc(IntBytes(|v|) + v, Pack(values[..last]), IntBytes(|x|));
      Assoc(IntBytes(|v|) + v, Pack(values[..last]) + IntBytes(|x|), x);
    }
  }

  lemma PackOne(v: seq<byte>)
    requires |v| < TWO_31
    ensures Pack([v]) == IntBytes(|v|) + v
  {
    assert [v][..0] == [];
    NoneBefore(IntBytes(|v|));
  }

  lemma PackLast(values: seq<seq<byte>>)
    requires values != [] && forall i :: 0 <= i < |values| ==> |values[i]| < TWO_31
    ensures var last := |values| - 1;
            Pack(values) == Pack(values[..last]) + IntBytes(|values[last]|) + values[last]
  {
  }

  lemma PackNone()
    ensures Pack([]) == []
  {
  }

  /** What follows an unpacked part is unpacked the same whatever came before. */
  lemma {:induction false} UnpackAfter(before: seq<byte>, values: seq<seq<byte>>)
    requires forall i :: 0 <= i < |values| ==> |values[i]| < TWO_31
    ensures Unpack(before + Pack(values), |before|) == Some(values)
    decreases |values|
  {
    hide IntBytes, IntAt, Pack;
    if values == [] {
      assert Pack(values) == [] by {
        PackNone();
      }
    } else {
      var v, rest := values[0], values[1..];
      var buffer := before + Pack(values);
      assert [v] + rest == values;
      PackCons(v, rest);
      assert buffer == before + IntBytes(|v|) + (v + Pack(rest));
      IntRoundTrip(before, |v|, v + Pack(rest));
      var upTo := before + IntBytes(|v|) + v;
      assert buffer == upTo + Pack(rest);
      UnpackAfter(upTo, rest);
      assert buffer[|before| + 4..|before| + 4 + |v|] == v;
    }
  }

  lemma UnpackPack(values: seq<seq<byte>>)
    requires forall i :: 0 <= i < |values| ==> |values[i]| < TWO_31
    ensures Unpack(Pack(values), 0) == Some(values)
  {
    UnpackAfter([], values);
    assert [] + Pack(values) == Pack(values);
  }

  /** What one round of the loop of `recibir_paquete` adds to `values`. */
  lemma UnpackRound(buffer: seq<byte>, at: nat, values: seq<seq<byte>>)
    requires Unpack(buffer, at).Some?
    ensures at >= |buffer| ==> values + Unpack(buffer, at).value == values
    ensures at < |buffer| ==>
              && at + 4 <= |buffer|
              && var n := IntAt(buffer, at);
                 && n >= 0 && at + 4 + n <= |buffer| && Unpack(buffer, at + 4 + n).Some?
                 && values + Unpack(buffer, at).value ==
                    (values + [buffer[at + 4..at + 4 + n]]) + Unpack(buffer, at + 4 + n).value
  {
    hide IntAt;
  }

  // ----- Streams -----

  /** What goes through a socket: a C string with its final zero, or a packet of values. */
  datatype Message = Text(buffer: seq<byte>) | Packet(values: seq<seq<byte>>)

  predicate Sendable(m: Message) {
    match m
    case Text(buffer) => |buffer| < TWO_31
    case Packet(values) => Packable(values)
  }

  function Payload(m: Message): seq<byte>
    requires Sendable(m)
  {
    match m
    case Text(buffer) => buffer
    case Packet(values) => Pack(values)
  }

  function OpCode(m: Message): int {
    if m.Text? then 0 else 1
  }

  /** `serializar_paquete`. */
  function Serialize(m: Message): seq<byte>
    requires Sendable(m)
  {
    IntBytes(OpCode(m)) + IntBytes(|Payload(m)|) + Payload(m)
  }

  function SerializeAll(ms: seq<Message>): seq<byte>
    requires forall i :: 0 <= i < |ms| ==> Sendable(ms[i])
  {
    if ms == [] then [] else Serialize(ms[0]) + SerializeAll(ms[1..])
  }

  datatype Parsed = Parsed(message: Message, rest: seq<byte>)

  /** One message off the front of a stream. */
  function Parse(stream: seq<byte>): Option<Parsed> {
    if |stream| < 8 then None
    else
      var op, n := IntAt(stream, 0), IntAt(stream, 4);
      if n < 0 || 8 + n > |stream| then None
      else
        var buffer, rest := stream[8..8 + n], stream[8 + n..];
        if op == 0 then Some(Parsed(Text(buffer), rest))
        else if op == 1 && Unpack(buffer, 0).Some? then Some(Parsed(Packet(Unpack(buffer, 0).value), rest))
        else None
  }

  function ParseAll(stream: seq<byte>): Option<seq<Message>>
    decreases |stream|
  {
    if stream == [] then Some([])
    else
      match Parse(stream)
      case None => None
      case Some(p) =>
        match ParseAll(p.rest)
        case None => None
        case Some(ms) => Some([p.message] + ms)
  }

  /** On the wire: the operation code (0 for a text, 1 for a packet), the size, and then that many bytes. */
  lemma SerializedLayout(m: Message)
    requires Sendable(m)
    ensures var s := Serialize(m);
            && |s| == 8 + |Payload(m)| && s[8..] == Payload(m)
            && IntAt(s, 0) == (if m.Text? then 0 else 1) && IntAt(s, 4) == |Payload(m)|
    ensures m.Text? ==> Payload(m) == m.buffer
  {
    var code, size := IntBytes(OpCode(m)), IntBytes(|Payload(m)|);
    IntRoundTrip([], OpCode(m), size + Payload(m));
    IntRoundTrip(code, |Payload(m)|, Payload(m));
    assert Serialize(m) == [] + code + (size + Payload(m)) == code + size + Payload(m);
  }

  lemma ParseSerialized(m: Message, rest: seq<byte>)
    requires Sendable(m)
    ensures Parse(Serialize(m) + rest) == Some(Parsed(m, rest))
  {
    var p := Payload(m);
    var stream := Serialize(m) + rest;
    assert stream == [] + IntBytes(OpCode(m)) + (IntBytes(|p|) + p + rest);
    IntRoundTrip([], OpCode(m), IntBytes(|p|) + p + rest);
    assert stream == IntBytes(OpCode(m)) + IntBytes(|p|) + (p + rest);
    IntRoundTrip(IntBytes(OpCode(m)), |p|, p + rest);
    assert stream[8..8 + |p|] == p && stream[8 + |p|..] == rest;
    if m.Packet? {
      UnpackPack(m.values);
    }
  }

  /** Any sequence of messages and packets written to one stream decodes to the same sequence. */
  lemma {:induction false} StreamRoundTrip(ms: seq<Message>)
    requires forall i :: 0 <= i < |ms| ==> Sendable(ms[i])
    ensures ParseAll(SerializeAll(ms)) == Some(ms)
  {
    if ms != [] {
      StreamRoundTrip(ms[1..]);
      ParseSerialized(ms[0], SerializeAll(ms[1..]));
      assert [ms[0]] + ms[1..] == ms;
    }
  }

  // ----- Numbers as text -----

  /** `string_itoa`, without the final zero. */
  function Itoa(n: int): seq<byte> {
    if n < 0 then [45] + Digits(-n) else Digits(n)
  }

  function Digits(n: nat): (s: seq<byte>)
    ensures s != [] && forall i :: 0 <= i < |s| ==> IsDigit(s[i])
  {
    if n < 10 then [48 + n] else Digits(n / 10) + [48 + n % 10]
  }

  predicate IsDigit(c: byte) {
    48 <= c <= 57
  }

  predicate IsSpace(c: byte) {
    c == 32 || 9 <= c <= 13
  }

  /** `atoi`: leading spaces, an optional sign, then digits up to the first other character. */
  function Atoi(s: seq<byte>): int {
    if s == [] then 0
    else if IsSpace(s[0]) then Atoi(s[1..])
    else if s[0] == 45 then 0 - ReadDigits(s[1..], 0)
    else if s[0] == 43 then ReadDigits(s[1..], 0)
    else ReadDigits(s, 0)
  }

  function ReadDigits(s: seq<byte>, acc: nat): nat {
    if s == [] || !IsDigit(s[0]) then acc else ReadDigits(s[1..], acc * 10 + s[0] - 48)
  }

  lemma {:induction false} ReadDigitsBack(n: nat, rest: seq<byte>)
    ensures ReadDigits(Digits(n) + rest, 0) == ReadDigits(rest, n)
  {
    if n < 10 {
      assert (Digits(n) + rest)[1..] == rest;
    } else {
      var d := [48 + n % 10];
      assert Digits(n) + rest == Digits(n / 10) + (d + rest);
      ReadDigitsBack(n / 10, d + rest);
      assert (d + rest)[1..] == rest;
    }
  }

  lemma AtoiItoa(n: int)
    ensures Atoi(Itoa(n) + [0]) == n
  {
    var s := Itoa(n) + [0];
    if n < 0 {
      ReadDigitsBack(-n, [0]);
      assert s[1..] == Digits(-n) + [0];
    } else {
      ReadDigitsBack(n, [0]);
      assert IsDigit(s[0]);
    }
  }

  /** The digits of a number, the first the most significant. */
  lemma ItoaDigits(n: nat)
    ensures n < 10 ==> Itoa(n) == [48 + n]
    ensures n >= 10 ==> Itoa(n) == Itoa(n / 10) + Itoa(n % 10)
  {
  }

  lemma ItoaSign(n: int)
    requires n < 0
    ensures Itoa(n) == [45] + Itoa(0 - n)
  {
  }

  /** Spaces before a number are skipped, a plus sign too, and what follows the digits does not matter. */
  lemma AtoiSkips(n: nat, space: byte, rest: seq<byte>)
    requires IsSpace(space) && (rest == [] || !IsDigit(rest[0]))
    ensures Atoi(Itoa(n) + rest) == n
    ensures Atoi([43] + (Itoa(n) + rest)) == n
    ensures Atoi([space] + (Itoa(n) + rest)) == n
  {
    var s := Itoa(n) + rest;
    ReadDigitsBack(n, rest);
    assert s[0] == Digits(n)[0];
    assert ([43] + s)[1..] == s && ([space] + s)[1..] == s;
  }

  lemma {:induction false} DigitsShort(n: nat)
    ensures |Digits(n)| <= n / 10 + 2
  {
    if n >= 10 {
      DigitsShort(n / 10);
    }
  }

  // ----- PCBs -----

  /** `registros_cpu`: four 8-bit registers, the others of 32 bits. */
  datatype Registers = Registers(PC: nat, AX: byte, BX: byte, CX: byte, DX: byte,
                                 EAX: nat, EBX: nat, ECX: nat, EDX: nat, SI: nat, DI: nat)

  predicate Fit32(r: Registers) {
    r.PC < TWO_32 && r.EAX < TWO_32 && r.EBX < TWO_32 && r.ECX < TWO_32 && r.EDX < TWO_32 && r.SI < TWO_32 &&
      r.DI < TWO_32
  }

  /** `pcb`, without the field that does not travel. */
  datatype Pcb = Pcb(pid: seq<byte>, programCounter: int, quantum: real, registers: Registers)

  predicate IsPcb(p: Pcb) {
    0 !in p.pid && IsInt(p.programCounter) && IsInt(Truncated(p.quantum)) && Fit32(p.registers)
  }

  /** A `float` converted to `int`: toward zero. */
  function Truncated(q: real): int {
    if q >= 0.0 then q.Floor else -((-q).Floor)
  }

  /** A C string as it is sent, with its final zero. */
  function Sent(s: seq<byte>): seq<byte> {
    s + [0]
  }

  /** The C string at the beginning of a buffer. */
  function CString(s: seq<byte>): seq<byte> {
    if s == [] || s[0] == 0 then [] else [s[0]] + CString(s[1..])
  }

  lemma {:induction false} CStringSent(s: seq<byte>)
    requires 0 !in s
    ensures CString(Sent(s)) == s
  {
    if s != [] {
      CStringSent(s[1..]);
      assert Sent(s)[1..] == Sent(s[1..]);
    }
  }

  function Number(n: int): seq<byte> {
    Sent(Itoa(n))
  }

  lemma NumberShort(n: int)
    requires IsInt(n)
    ensures |Number(n)| < TWO_31
  {
    DigitsShort(if n < 0 then -n else n);
  }

  /** `agregar_registros_a_paquete`. */
  function RegisterValues(r: Registers): (values: seq<seq<byte>>)
    ensures |values| == 11
  {
    [Number(ToInt(r.PC)), Number(r.AX), Number(r.BX), Number(r.CX), Number(r.DX),
     Number(ToInt(r.EAX)), Number(ToInt(r.EBX)), Number(ToInt(r.ECX)), Number(ToInt(r.EDX)),
     Number(ToInt(r.SI)), Number(ToInt(r.DI))]
  }

  /** `agregar_pcb_a_paquete`. */
  function PcbValues(p: Pcb): (values: seq<seq<byte>>)
    ensures |values| == 14
  {
    [Sent(p.pid), Number(p.programCounter), Number(Truncated(p.quantum))] + RegisterValues(p.registers)
  }

  /** `cargar_registros`. */
  function LoadRegisters(values: seq<seq<byte>>): Registers
    requires |values| >= 11
  {
    Registers(ToUint32(Atoi(values[0])), ToUint8(Atoi(values[1])), ToUint8(Atoi(values[2])),
              ToUint8(Atoi(values[3])), ToUint8(Atoi(values[4])), ToUint32(Atoi(values[5])),
              ToUint32(Atoi(values[6])), ToUint32(Atoi(values[7])), ToUint32(Atoi(values[8])),
              ToUint32(Atoi(values[9])), ToUint32(Atoi(values[10])))
  }

  /** `cargar_pcb`, which takes its fourteen values off the front of the list. */
  function LoadPcb(values: seq<seq<byte>>): (Pcb, seq<seq<byte>>)
    requires |values| >= 14
  {
    (Pcb(CString(values[0]), Atoi(values[1]), Atoi(values[2]) as real, LoadRegisters(values[3..])), values[14..])
  }

  /** The order in which the registers and the PCB travel. */
  lemma PcbLayout(p: Pcb)
    ensures var v, r := PcbValues(p), p.registers;
            && v[0] == Sent(p.pid) && v[1] == Number(p.programCounter) && v[2] == Number(Truncated(p.quantum))
            && v[3] == Number(ToInt(r.PC)) && v[4] == Number(r.AX) && v[5] == Number(r.BX) && v[6] == Number(r.CX)
            && v[7] == Number(r.DX) && v[8] == Number(ToInt(r.EAX)) && v[9] == Number(ToInt(r.EBX))
            && v[10] == Number(ToInt(r.ECX)) && v[11] == Number(ToInt(r.EDX)) && v[12] == Number(ToInt(r.SI))
            && v[13] == Number(ToInt(r.DI))
  {
    hide Number, Sent;
  }

  /** Values from 2^31 up travel as negative decimals and wrap back. */
  lemma RegisterRoundTrip(u: nat)
    requires u < TWO_32
    ensures ToUint32(Atoi(Number(ToInt(u)))) == u
    ensures u < 256 ==> ToUint8(Atoi(Number(u))) == u
  {
    AtoiItoa(ToInt(u));
    AtoiItoa(u);
  }

  lemma RegistersRoundTrip(r: Registers, rest: seq<seq<byte>>)
    requires Fit32(r)
    ensures LoadRegisters(RegisterValues(r) + rest) == r
  {
    RegisterRoundTrip(r.PC);
    RegisterRoundTrip(r.AX);
    RegisterRoundTrip(r.BX);
    RegisterRoundTrip(r.CX);
    RegisterRoundTrip(r.DX);
    RegisterRoundTrip(r.EAX);
    RegisterRoundTrip(r.EBX);
    RegisterRoundTrip(r.ECX);
    RegisterRoundTrip(r.EDX);
    RegisterRoundTrip(r.SI);
    RegisterRoundTrip(r.DI);
  }

  /** Toward zero: the integer part, on the side of zero. */
  lemma TruncatedIs(q: real)
    ensures var n := Truncated(q);
            && (q >= 0.0 ==> n as real <= q < n as real + 1.0)
            && (q < 0.0 ==> n as real - 1.0 < q <= n as real)
  {
  }

  /** A PCB sent in a packet comes back with the same pid, program counter and registers, its quantum
      truncated to an integer, and leaves the values sent after it in the list. */
  lemma PcbRoundTrip(p: Pcb, extra: seq<seq<byte>>)
    requires IsPcb(p)
    ensures LoadPcb(PcbValues(p) + extra) == (p.(quantum := Truncated(p.quantum) as real), extra)
    ensures var q, back := p.quantum, LoadPcb(PcbValues(p) + extra).0.quantum;
            && back.Floor as real == back
            && (q >= 0.0 ==> back <= q < back + 1.0)
            && (q < 0.0 ==> back - 1.0 < q <= back)
  {
    hide RegisterValues, LoadRegisters, Atoi, Itoa, CString, Fit32, Truncated;
    var values := PcbValues(p) + extra;
    TruncatedIs(p.quantum);
    CStringSent(p.pid);
    AtoiItoa(p.programCounter);
    AtoiItoa(Truncated(p.quantum));
    RegistersRoundTrip(p.registers, extra);
    assert values[3..] == RegisterValues(p.registers) + extra;
    assert values[14..] == extra;
  }
}
