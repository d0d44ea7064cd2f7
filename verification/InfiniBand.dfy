// Opcodes of the reliable connection service and the widths of the fields that wrap.
module InfiniBand {
  const PSN_MOD: nat := 0x100_0000
  const ADDR_MOD: nat := 0x1_0000_0000_0000_0000
  const LEN_MOD: nat := 0x1_0000_0000
  const PMTU: nat := 4096

  datatype OpCode =
    | SendFirst | SendMiddle | SendLast | SendLastImm | SendOnly | SendOnlyImm
    | WriteFirst | WriteMiddle | WriteLast | WriteLastImm | WriteOnly | WriteOnlyImm
    | ReadRequest | ReadRespFirst | ReadRespMiddle | ReadRespLast | ReadRespOnly | Ack

  predicate IsResponse(op: OpCode) {
    op.ReadRespFirst? || op.ReadRespMiddle? || op.ReadRespLast? || op.ReadRespOnly? || op.Ack?
  }

  predicate IsWrite(op: OpCode) {
    op.WriteFirst? || op.WriteMiddle? || op.WriteLast? || op.WriteOnly?
  }

  predicate HasAeth(op: OpCode) {
    op.ReadRespOnly? || op.ReadRespFirst? || op.ReadRespLast? || op.Ack?
  }

  lemma AddMod(a: nat, b: nat)
    ensures (a % PSN_MOD + b) % PSN_MOD == (a + b) % PSN_MOD
  {
  }
}
