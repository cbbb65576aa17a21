/** Packets, sockets and PCBs changed in place (utils/src/utils/utils.c). */
module Wire {
  import opened Common
  import opened WireModel

  /** `t_paquete`: a buffer that grows by one length-prefixed value at a time. */
  class Package {
    var size: nat
    var stream: seq<byte>
    ghost var values: seq<seq<byte>>

    ghost predicate Valid()
      reads this
    {
      && (forall i :: 0 <= i < |values| ==> |values[i]| < TWO_31)
      && size == |stream| && stream == Pack(values)
    }

    /** `crear_paquete`. */
    constructor ()
      ensures Valid() && values == []
    {
      size := 0;
      stream := [];
      values := [];
    }

    /** `agregar_a_paquete`. */
    method Add(value: seq<byte>)
      requires Valid() && |value| < TWO_31
      modifies this
      ensures Valid() && values == old(values) + [value]
    {
      stream := stream + IntBytes(|value|);
      stream := stream + value;
      size := size + |value| + 4;
      values := values + [value];
      assert values[..|values| - 1] == old(values);
    }

    /** A number as `string_itoa` prints it. */
    method AddNumber(n: int)
      requires Valid() && IsInt(n)
      modifies this
      ensures Valid() && values == old(values) + [Number(n)]
    {
      NumberShort(n);
      Add(Number(n));
    }

    /** `agregar_registros_a_paquete`. */
    method AddRegisters(r: Registers)
      requires Valid() && Fit32(r)
      modifies this
      ensures Valid() && values == old(values) + RegisterValues(r)
    {
      hide Number, Valid, RegisterValues;
      AddFirst(r);
      AddRest(r);
      Assoc(old(values), RegisterValues(r)[..5], RegisterValues(r)[5..]);
      assert RegisterValues(r) == RegisterValues(r)[..5] + RegisterValues(r)[5..];
    }

    /** The program counter and the 8-bit registers. */
    method AddFirst(r: Registers)
      requires Valid() && Fit32(r)
      modifies this
      ensures Valid() && values == old(values) + RegisterValues(r)[..5]
    {
      hide Number, Valid;
      AddNumber(ToInt(r.PC));
      AddNumber(r.AX);
      AddNumber(r.BX);
      AddNumber(r.CX);
      AddNumber(r.DX);
    }

    /** The other 32-bit registers. */
    method AddRest(r: Registers)
      requires Valid() && Fit32(r)
      modifies this
      ensures Valid() && values == old(values) + RegisterValues(r)[5..]
    {
      hide Number, Valid;
      AddNumber(ToInt(r.EAX));
      AddNumber(ToInt(r.EBX));
      AddNumber(ToInt(r.ECX));
      AddNumber(ToInt(r.EDX));
      AddNumber(ToInt(r.SI));
      AddNumber(ToInt(r.DI));
    }
  }

  /** A socket: the bytes sent and not yet received, in order. */
  class Channel {
    var data: seq<byte>

    constructor ()
      ensures data == []
    {
      data := [];
    }

    method Send(bytes: seq<byte>)
      modifies this
      ensures data == old(data) + bytes
    {
      data := data + bytes;
    }

    /** `recv` with MSG_WAITALL. */
    method Receive(n: nat) returns (bytes: seq<byte>)
      requires n <= |data|
      modifies this
      ensures bytes == old(data)[..n] && data == old(data)[n..]
    {
      bytes := data[..n];
      data := data[n..];
    }

    /** `recibir_operacion`: -1 once the other side has closed. */
    method ReceiveOperation() returns (op: int)
      requires data == [] || |data| >= 4
      modifies this
      ensures old(data) == [] ==> op == -1 && data == []
      ensures old(data) != [] ==> op == IntAt(old(data), 0) && data == old(data)[4..]
    {
      if data == [] {
        op := -1;
      } else {
        var bytes := Receive(4);
        op := IntAt(bytes, 0);
      }
    }

    /** `recibir_buffer`. */
    method ReceiveBuffer() returns (buffer: seq<byte>)
      requires |data| >= 4 && IntAt(data, 0) >= 0 && 4 + IntAt(data, 0) <= |data|
      modifies this
      ensures var n := IntAt(old(data), 0);
              buffer == old(data)[4..4 + n] && data == old(data)[4 + n..]
    {
      var head := Receive(4);
      var n := IntAt(head, 0);
      buffer := Receive(n);
    }

    /** `recibir_paquete`, after the operation code. */
    method ReceivePacket() returns (values: seq<seq<byte>>)
      requires |data| >= 4 && IntAt(data, 0) >= 0 && 4 + IntAt(data, 0) <= |data|
      requires Unpack(data[4..4 + IntAt(data, 0)], 0).Some?
      modifies this
      ensures var n := IntAt(old(data), 0);
              && data == old(data)[4 + n..]
              && Unpack(old(data)[4..4 + n], 0) == Some(values)
    {
      hide IntAt, Unpack;
      var buffer := ReceiveBuffer();
      values := [];
      var at := 0;
      ghost var goal := Unpack(buffer, 0);
      assert [] + goal.value == goal.value;
      ghost var left := data;
      while at < |buffer|
        invariant data == left
        invariant Unpack(buffer, at).Some? && goal == Some(values + Unpack(buffer, at).value)
        decreases |buffer| - at
      {
        UnpackRound(buffer, at, values);
        var n := IntAt(buffer, at);
        at := at + 4;
        var value := buffer[at..at + n];
        at := at + n;
        values := values + [value];
      }
      UnpackRound(buffer, at, values);
    }

    /** One message off the socket, as the receiving loops do it. */
    method ReceiveMessage() returns (m: Message)
      requires Parse(data).Some?
      modifies this
      ensures Parse(old(data)) == Some(Parsed(m, data))
    {
      ghost var stream := data;
      var op := ReceiveOperation();
      assert IntAt(data, 0) == IntAt(stream, 4);
      ghost var n := IntAt(stream, 4);
      assert data[4..4 + n] == stream[8..8 + n] && data[4 + n..] == stream[8 + n..];
      if op == 0 {
        var buffer := ReceiveBuffer();
        m := Text(buffer);
      } else {
        var values := ReceivePacket();
        m := Packet(values);
      }
    }

    /** `enviar_paquete`. */
    method SendPackage(p: Package)
      requires p.Valid() && p.size < TWO_31
      modifies this
      ensures p.Valid() && p.values == old(p.values)
      ensures Packable(p.values) && data == old(data) + Serialize(Packet(p.values))
    {
      var bytes := IntBytes(1) + IntBytes(p.size) + p.stream;
      Send(bytes);
    }

    /** `enviar_mensaje`. */
    method SendText(text: seq<byte>)
      requires 0 !in text && |text| + 1 < TWO_31
      modifies this
      ensures data == old(data) + Serialize(Text(Sent(text)))
    {
      var buffer := text + [0];
      Send(IntBytes(0) + IntBytes(|buffer|) + buffer);
    }

    /** Whatever was sent is received in the same order and leaves the socket empty. */
    method Drain(ghost sent: seq<Message>) returns (received: seq<Message>)
      requires forall i :: 0 <= i < |sent| ==> Sendable(sent[i])
      requires data == SerializeAll(sent)
      modifies this
      ensures received == sent && data == []
    {
      hide Serialize, SerializeAll, Parse, Sendable;
      received := [];
      ghost var i := 0;
      assert sent[0..] == sent;
      while data != []
        invariant i <= |sent| && received == sent[..i] && data == SerializeAll(sent[i..])
        decreases |data|
      {
        AllWritten(sent, i);
        ParseSerialized(sent[i], SerializeAll(sent[i + 1..]));
        SerializedSize(sent[i]);
        var m := ReceiveMessage();
        received := received + [m];
        i := i + 1;
      }
      AllRead(sent, i);
    }
  }

  lemma SerializedSize(m: Message)
    requires Sendable(m)
    ensures |Serialize(m)| > 0
  {
  }

  lemma AllWritten(sent: seq<Message>, i: nat)
    requires i <= |sent| && forall j :: 0 <= j < |sent| ==> Sendable(sent[j])
    ensures SerializeAll(sent[i..]) != [] ==> i < |sent|
    ensures i < |sent| ==> SerializeAll(sent[i..]) == Serialize(sent[i]) + SerializeAll(sent[i + 1..])
  {
    hide Serialize, Sendable;
    if i < |sent| {
      assert sent[i..][1..] == sent[i + 1..];
    }
  }

  lemma AllRead(sent: seq<Message>, i: nat)
    requires i <= |sent| && forall j :: 0 <= j < |sent| ==> Sendable(sent[j])
    ensures SerializeAll(sent[i..]) == [] ==> i == |sent|
  {
    if i < |sent| {
      assert |Serialize(sent[i..][0])| >= 8;
    }
  }

  /** `pcb`: the fields that `cargar_pcb` fills. */
  class Process {
    var pid: seq<byte>
    var programCounter: int
    var quantum: real
    var registers: Registers

    constructor (p: Pcb)
      ensures View() == p
    {
      pid, programCounter, quantum, registers := p.pid, p.programCounter, p.quantum, p.registers;
    }

    function View(): Pcb
      reads this
    {
      Pcb(pid, programCounter, quantum, registers)
    }

    /** `agregar_pcb_a_paquete`. */
    method AddTo(p: Package)
      requires p.Valid() && IsPcb(View()) && |pid| + 1 < TWO_31
      modifies p
      ensures p.Valid() && p.values == old(p.values) + PcbValues(View())
    {
      hide Number, RegisterValues, Fit32, p.Valid;
      p.Add(Sent(pid));
      p.AddNumber(programCounter);
      p.AddNumber(Truncated(quantum));
      p.AddRegisters(registers);
    }

    /** `cargar_pcb`: the list is consumed from the front. */
    method Load(values: seq<seq<byte>>) returns (rest: seq<seq<byte>>)
      requires |values| >= 14
      modifies this
      ensures LoadPcb(values) == (View(), rest)
    {
      pid := CString(values[0]);
      programCounter := Atoi(values[1]);
      quantum := Atoi(values[2]) as real;
      rest := values[1..];
      rest := rest[1..];
      rest := rest[1..];
      assert rest == values[3..];
      registers := LoadRegisters(rest);
      rest := rest[11..];
      assert rest == values[14..];
    }
  }
}
