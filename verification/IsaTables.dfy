// CYCLES and LENGTHS against the opcode switch, eight opcodes at a time: what the switch does with them
// (Cost), how many bytes LENGTHS gives them (Bytes), and that both tables fit (Fit).
module IsaTables {
  import opened Bits
  import opened Isa

  lemma Split(op: byte, k: nat)
    requires 8 * k <= op < 8 * k + 8
    ensures op / 8 == k && op % 8 == op - 8 * k
    ensures op / 16 == k / 2 && op % 16 == op - 16 * (k / 2)
  {
  }

  lemma Cost00(op: byte)
    requires 0x00 <= op < 0x08
    ensures MachineCycles(Decode(op)) == [1, 3, 2, 1, 1, 1, 2, 1][op]
    ensures OperandBytes(Decode(op)) == [0, 2, 0, 0, 0, 0, 1, 0][op - 0x00]
    ensures Idle(Decode(op)) == [0, 0, 0, 1, 1, 1, 0, 0][op]
  {
    hide DecodeHigh;
    Split(op, 0x00);
  }

  lemma Bytes00(op: byte)
    requires 0x00 <= op < 0x08
    ensures Length(op) == [1, 3, 1, 1, 1, 1, 2, 1][op]
  {
    hide CYCLES;
    Split(op, 0x00);
  }

  lemma Fit00(op: byte)
    requires 0x00 <= op < 0x08
    ensures TablesFit(op)
  {
    hide Decode, MachineCycles, Idle, OperandBytes, LENGTHS, Length;
    Split(op, 0x00);
    Cost00(op);
    Bytes00(op);
  }

  lemma Cost08(op: byte)
    requires 0x08 <= op < 0x10
    ensures MachineCycles(Decode(op)) == [1, 1, 2, 1, 1, 1, 2, 1][op - 0x08]
    ensures OperandBytes(Decode(op)) == [0, 0, 0, 0, 0, 0, 1, 0][op - 0x08]
    ensures Idle(Decode(op)) == [0, 6, 0, 1, 1, 1, 0, 0][op - 0x08]
  {
    hide DecodeHigh;
    Split(op, 0x01);
  }

  lemma Bytes08(op: byte)
    requires 0x08 <= op < 0x10
    ensures Length(op) == [1, 1, 1, 1, 1, 1, 2, 1][op - 0x08]
  {
    hide CYCLES;
    Split(op, 0x01);
  }

  lemma Fit08(op: byte)
    requires 0x08 <= op < 0x10
    ensures TablesFit(op)
  {
    hide Decode, MachineCycles, Idle, OperandBytes, LENGTHS, Length;
    Split(op, 0x01);
    Cost08(op);
    Bytes08(op);
  }

  lemma Cost10(op: byte)
    requires 0x10 <= op < 0x18
    ensures MachineCycles(Decode(op)) == [1, 3, 2, 1, 1, 1, 2, 1][op - 0x10]
    ensures OperandBytes(Decode(op)) == [0, 2, 0, 0, 0, 0, 1, 0][op - 0x10]
    ensures Idle(Decode(op)) == [0, 0, 0, 1, 1, 1, 0, 0][op - 0x10]
  {
    hide DecodeHigh;
    Split(op, 0x02);
  }

  lemma Bytes10(op: byte)
    requires 0x10 <= op < 0x18
    ensures Length(op) == [1, 3, 1, 1, 1, 1, 2, 1][op - 0x10]
  {
    hide CYCLES;
    Split(op, 0x02);
  }

  lemma Fit10(op: byte)
    requires 0x10 <= op < 0x18
    ensures TablesFit(op)
  {
    hide Decode, MachineCycles, Idle, OperandBytes, LENGTHS, Length;
    Split(op, 0x02);
    Cost10(op);
    Bytes10(op);
  }

  lemma Cost18(op: byte)
    requires 0x18 <= op < 0x20
    ensures MachineCycles(Decode(op)) == [1, 1, 2, 1, 1, 1, 2, 1][op - 0x18]
    ensures OperandBytes(Decode(op)) == [0, 0, 0, 0, 0, 0, 1, 0][op - 0x18]
    ensures Idle(Decode(op)) == [0, 6, 0, 1, 1, 1, 0, 0][op - 0x18]
  {
    hide DecodeHigh;
    Split(op, 0x03);
  }

  lemma Bytes18(op: byte)
    requires 0x18 <= op < 0x20
    ensures Length(op) == [1, 1, 1, 1, 1, 1, 2, 1][op - 0x18]
  {
    hide CYCLES;
    Split(op, 0x03);
  }

  lemma Fit18(op: byte)
    requires 0x18 <= op < 0x20
    ensures TablesFit(op)
  {
    hide Decode, MachineCycles, Idle, OperandBytes, LENGTHS, Length;
    Split(op, 0x03);
    Cost18(op);
    Bytes18(op);
  }

  lemma Cost20(op: byte)
    requires 0x20 <= op < 0x28
    ensures MachineCycles(Decode(op)) == [1, 3, 5, 1, 1, 1, 2, 1][op - 0x20]
    ensures OperandBytes(Decode(op)) == [0, 2, 2, 0, 0, 0, 1, 0][op - 0x20]
    ensures Idle(Decode(op)) == [0, 0, 0, 1, 1, 1, 0, 0][op - 0x20]
  {
    hide DecodeHigh;
    Split(op, 0x04);
  }

  lemma Bytes20(op: byte)
    requires 0x20 <= op < 0x28
    ensures Length(op) == [1, 3, 3, 1, 1, 1, 2, 1][op - 0x20]
  {
    hide CYCLES;
    Split(op, 0x04);
  }

  lemma Fit20(op: byte)
    requires 0x20 <= op < 0x28
    ensures TablesFit(op)
  {
    hide Decode, MachineCycles, Idle, OperandBytes, LENGTHS, Length;
    Split(op, 0x04);
    Cost20(op);
    Bytes20(op);
  }

  lemma Cost28(op: byte)
    requires 0x28 <= op < 0x30
    ensures MachineCycles(Decode(op)) == [1, 1, 5, 1, 1, 1, 2, 1][op - 0x28]
    ensures OperandBytes(Decode(op)) == [0, 0, 2, 0, 0, 0, 1, 0][op - 0x28]
    ensures Idle(Decode(op)) == [0, 6, 0, 1, 1, 1, 0, 0][op - 0x28]
  {
    hide DecodeHigh;
    Split(op, 0x05);
  }

  lemma Bytes28(op: byte)
    requires 0x28 <= op < 0x30
    ensures Length(op) == [1, 1, 3, 1, 1, 1, 2, 1][op - 0x28]
  {
    hide CYCLES;
    Split(op, 0x05);
  }

  lemma Fit28(op: byte)
    requires 0x28 <= op < 0x30
    ensures TablesFit(op)
  {
    hide Decode, MachineCycles, Idle, OperandBytes, LENGTHS, Length;
    Split(op, 0x05);
    Cost28(op);
    Bytes28(op);
  }

  lemma Cost30(op: byte)
    requires 0x30 <= op < 0x38
    ensures MachineCycles(Decode(op)) == [1, 3, 4, 1, 3, 3, 3, 1][op - 0x30]
    ensures OperandBytes(Decode(op)) == [0, 2, 2, 0, 0, 0, 1, 0][op - 0x30]
    ensures Idle(Decode(op)) == [0, 0, 0, 1, 0, 0, 0, 0][op - 0x30]
  {
    hide DecodeHigh;
    Split(op, 0x06);
  }

  lemma Bytes30(op: byte)
    requires 0x30 <= op < 0x38
    ensures Length(op) == [1, 3, 3, 1, 1, 1, 2, 1][op - 0x30]
  {
    hide CYCLES;
    Split(op, 0x06);
  }

  lemma Fit30(op: byte)
    requires 0x30 <= op < 0x38
    ensures TablesFit(op)
  {
    hide Decode, MachineCycles, Idle, OperandBytes, LENGTHS, Length;
    Split(op, 0x06);
    Cost30(op);
    Bytes30(op);
  }

  lemma Cost38(op: byte)
    requires 0x38 <= op < 0x40
    ensures MachineCycles(Decode(op)) == [1, 1, 4, 1, 1, 1, 2, 1][op - 0x38]
    ensures OperandBytes(Decode(op)) == [0, 0, 2, 0, 0, 0, 1, 0][op - 0x38]
    ensures Idle(Decode(op)) == [0, 6, 0, 1, 1, 1, 0, 0][op - 0x38]
  {
    hide DecodeHigh;
    Split(op, 0x07);
  }

  lemma Bytes38(op: byte)
    requires 0x38 <= op < 0x40
    ensures Length(op) == [1, 1, 3, 1, 1, 1, 2, 1][op - 0x38]
  {
    hide CYCLES;
    Split(op, 0x07);
  }

  lemma Fit38(op: byte)
    requires 0x38 <= op < 0x40
    ensures TablesFit(op)
  {
    hide Decode, MachineCycles, Idle, OperandBytes, LENGTHS, Length;
    Split(op, 0x07);
    Cost38(op);
    Bytes38(op);
  }

  lemma Cost70(op: byte)
    requires 0x70 <= op < 0x78
    ensures MachineCycles(Decode(op)) == [2, 2, 2, 2, 2, 2, 1, 2][op - 0x70]
    ensures OperandBytes(Decode(op)) == [0, 0, 0, 0, 0, 0, 0, 0][op - 0x70]
    ensures Idle(Decode(op)) == [0, 0, 0, 0, 0, 0, 3, 0][op - 0x70]
  {
    hide DecodeLow, DecodeHigh;
    Split(op, 0x0E);
  }

  lemma Bytes70(op: byte)
    requires 0x70 <= op < 0x78
    ensures Length(op) == [1, 1, 1, 1, 1, 1, 1, 1][op - 0x70]
  {
    hide CYCLES;
    Split(op, 0x0E);
  }

  lemma Fit70(op: byte)
    requires 0x70 <= op < 0x78
    ensures TablesFit(op)
  {
    hide Decode, MachineCycles, Idle, OperandBytes, LENGTHS, Length;
    Split(op, 0x0E);
    Cost70(op);
    Bytes70(op);
  }

  lemma Cost78(op: byte)
    requires 0x78 <= op < 0x80
    ensures MachineCycles(Decode(op)) == [1, 1, 1, 1, 1, 1, 2, 1][op - 0x78]
    ensures OperandBytes(Decode(op)) == [0, 0, 0, 0, 0, 0, 0, 0][op - 0x78]
    ensures Idle(Decode(op)) == [1, 1, 1, 1, 1, 1, 0, 1][op - 0x78]
  {
    hide DecodeLow, DecodeHigh;
    Split(op, 0x0F);
  }

  lemma Bytes78(op: byte)
    requires 0x78 <= op < 0x80
    ensures Length(op) == [1, 1, 1, 1, 1, 1, 1, 1][op - 0x78]
  {
    hide CYCLES;
    Split(op, 0x0F);
  }

  lemma Fit78(op: byte)
    requires 0x78 <= op < 0x80
    ensures TablesFit(op)
  {
    hide Decode, MachineCycles, Idle, OperandBytes, LENGTHS, Length;
    Split(op, 0x0F);
    Cost78(op);
    Bytes78(op);
  }

  lemma CostC0(op: byte)
    requires 0xC0 <= op < 0xC8
    ensures MachineCycles(Decode(op)) == [1, 3, 3, 3, 3, 3, 2, 3][op - 0xC0]
    ensures OperandBytes(Decode(op)) == [0, 0, 2, 2, 2, 0, 1, 0][op - 0xC0]
    ensures Idle(Decode(op)) == [1, 0, 0, 0, 1, 1, 0, 1][op - 0xC0]
  {
    hide DecodeLow;
    Split(op, 0x18);
  }

  lemma BytesC0(op: byte)
    requires 0xC0 <= op < 0xC8
    ensures Length(op) == [1, 1, 3, 3, 3, 1, 2, 1][op - 0xC0]
  {
    hide CYCLES;
    Split(op, 0x18);
  }

  lemma FitC0(op: byte)
    requires 0xC0 <= op < 0xC8
    ensures TablesFit(op)
  {
    hide Decode, MachineCycles, Idle, OperandBytes, LENGTHS, Length;
    Split(op, 0x18);
    CostC0(op);
    BytesC0(op);
  }

  lemma CostC8(op: byte)
    requires 0xC8 <= op < 0xD0
    ensures MachineCycles(Decode(op)) == [1, 3, 3, 3, 3, 5, 2, 3][op - 0xC8]
    ensures OperandBytes(Decode(op)) == [0, 0, 2, 2, 2, 2, 1, 0][op - 0xC8]
    ensures Idle(Decode(op)) == [1, 0, 0, 0, 1, 1, 0, 1][op - 0xC8]
  {
    hide DecodeLow;
    Split(op, 0x19);
  }

  lemma BytesC8(op: byte)
    requires 0xC8 <= op < 0xD0
    ensures Length(op) == [1, 1, 3, 3, 3, 3, 2, 1][op - 0xC8]
  {
    hide CYCLES;
    Split(op, 0x19);
  }

  lemma FitC8(op: byte)
    requires 0xC8 <= op < 0xD0
    ensures TablesFit(op)
  {
    hide Decode, MachineCycles, Idle, OperandBytes, LENGTHS, Length;
    Split(op, 0x19);
    CostC8(op);
    BytesC8(op);
  }

  lemma CostD0(op: byte)
    requires 0xD0 <= op < 0xD8
    ensures MachineCycles(Decode(op)) == [1, 3, 3, 3, 3, 3, 2, 3][op - 0xD0]
    ensures OperandBytes(Decode(op)) == [0, 0, 2, 1, 2, 0, 1, 0][op - 0xD0]
    ensures Idle(Decode(op)) == [1, 0, 0, 0, 1, 1, 0, 1][op - 0xD0]
  {
    hide DecodeLow;
    Split(op, 0x1A);
  }

  lemma BytesD0(op: byte)
    requires 0xD0 <= op < 0xD8
    ensures Length(op) == [1, 1, 3, 2, 3, 1, 2, 1][op - 0xD0]
  {
    hide CYCLES;
    Split(op, 0x1A);
  }

  lemma FitD0(op: byte)
    requires 0xD0 <= op < 0xD8
    ensures TablesFit(op)
  {
    hide Decode, MachineCycles, Idle, OperandBytes, LENGTHS, Length;
    Split(op, 0x1A);
    CostD0(op);
    BytesD0(op);
  }

  lemma CostD8(op: byte)
    requires 0xD8 <= op < 0xE0
    ensures MachineCycles(Decode(op)) == [1, 3, 3, 3, 3, 5, 2, 3][op - 0xD8]
    ensures OperandBytes(Decode(op)) == [0, 0, 2, 1, 2, 2, 1, 0][op - 0xD8]
    ensures Idle(Decode(op)) == [1, 0, 0, 0, 1, 1, 0, 1][op - 0xD8]
  {
    hide DecodeLow;
    Split(op, 0x1B);
  }

  lemma BytesD8(op: byte)
    requires 0xD8 <= op < 0xE0
    ensures Length(op) == [1, 1, 3, 2, 3, 3, 2, 1][op - 0xD8]
  {
    hide CYCLES;
    Split(op, 0x1B);
  }

  lemma FitD8(op: byte)
    requires 0xD8 <= op < 0xE0
    ensures TablesFit(op)
  {
    hide Decode, MachineCycles, Idle, OperandBytes, LENGTHS, Length;
    Split(op, 0x1B);
    CostD8(op);
    BytesD8(op);
  }

  lemma CostE0(op: byte)
    requires 0xE0 <= op < 0xE8
    ensures MachineCycles(Decode(op)) == [1, 3, 3, 5, 3, 3, 2, 3][op - 0xE0]
    ensures OperandBytes(Decode(op)) == [0, 0, 2, 0, 2, 0, 1, 0][op - 0xE0]
    ensures Idle(Decode(op)) == [1, 0, 0, 2, 1, 1, 0, 1][op - 0xE0]
  {
    hide DecodeLow;
    Split(op, 0x1C);
  }

  lemma BytesE0(op: byte)
    requires 0xE0 <= op < 0xE8
    ensures Length(op) == [1, 1, 3, 1, 3, 1, 2, 1][op - 0xE0]
  {
    hide CYCLES;
    Split(op, 0x1C);
  }

  lemma FitE0(op: byte)
    requires 0xE0 <= op < 0xE8
    ensures TablesFit(op)
  {
    hide Decode, MachineCycles, Idle, OperandBytes, LENGTHS, Length;
    Split(op, 0x1C);
    CostE0(op);
    BytesE0(op);
  }

  lemma CostE8(op: byte)
    requires 0xE8 <= op < 0xF0
    ensures MachineCycles(Decode(op)) == [1, 1, 3, 1, 3, 5, 2, 3][op - 0xE8]
    ensures OperandBytes(Decode(op)) == [0, 0, 2, 0, 2, 2, 1, 0][op - 0xE8]
    ensures Idle(Decode(op)) == [1, 1, 0, 0, 1, 1, 0, 1][op - 0xE8]
  {
    hide DecodeLow;
    Split(op, 0x1D);
  }

  lemma BytesE8(op: byte)
    requires 0xE8 <= op < 0xF0
    ensures Length(op) == [1, 1, 3, 1, 3, 3, 2, 1][op - 0xE8]
  {
    hide CYCLES;
    Split(op, 0x1D);
  }

  lemma FitE8(op: byte)
    requires 0xE8 <= op < 0xF0
    ensures TablesFit(op)
  {
    hide Decode, MachineCycles, Idle, OperandBytes, LENGTHS, Length;
    Split(op, 0x1D);
    CostE8(op);
    BytesE8(op);
  }

  lemma CostF0(op: byte)
    requires 0xF0 <= op < 0xF8
    ensures MachineCycles(Decode(op)) == [1, 3, 3, 1, 3, 3, 2, 3][op - 0xF0]
    ensures OperandBytes(Decode(op)) == [0, 0, 2, 0, 2, 0, 1, 0][op - 0xF0]
    ensures Idle(Decode(op)) == [1, 0, 0, 0, 1, 1, 0, 1][op - 0xF0]
  {
    hide DecodeLow;
    Split(op, 0x1E);
  }

  lemma BytesF0(op: byte)
    requires 0xF0 <= op < 0xF8
    ensures Length(op) == [1, 1, 3, 1, 3, 1, 2, 1][op - 0xF0]
  {
    hide CYCLES;
    Split(op, 0x1E);
  }

  lemma FitF0(op: byte)
    requires 0xF0 <= op < 0xF8
    ensures TablesFit(op)
  {
    hide Decode, MachineCycles, Idle, OperandBytes, LENGTHS, Length;
    Split(op, 0x1E);
    CostF0(op);
    BytesF0(op);
  }

  lemma CostF8(op: byte)
    requires 0xF8 <= op < 0x100
    ensures MachineCycles(Decode(op)) == [1, 1, 3, 1, 3, 5, 2, 3][op - 0xF8]
    ensures OperandBytes(Decode(op)) == [0, 0, 2, 0, 2, 2, 1, 0][op - 0xF8]
    ensures Idle(Decode(op)) == [1, 1, 0, 0, 1, 1, 0, 1][op - 0xF8]
  {
    hide DecodeLow;
    Split(op, 0x1F);
  }

  lemma BytesF8(op: byte)
    requires 0xF8 <= op < 0x100
    ensures Length(op) == [1, 1, 3, 1, 3, 3, 2, 1][op - 0xF8]
  {
    hide CYCLES;
    Split(op, 0x1F);
  }

  lemma FitF8(op: byte)
    requires 0xF8 <= op < 0x100
    ensures TablesFit(op)
  {
    hide Decode, MachineCycles, Idle, OperandBytes, LENGTHS, Length;
    Split(op, 0x1F);
    CostF8(op);
    BytesF8(op);
  }

  lemma CostMoves(op: byte)
    requires 0x40 <= op < 0x70
    ensures MachineCycles(Decode(op)) == (if op % 8 == 6 || op / 8 == 14 then 2 else 1)
    ensures OperandBytes(Decode(op)) == 0
    ensures Idle(Decode(op)) == if op % 8 == 6 || op / 8 == 14 then 0 else 1
  {
    hide DecodeLow, DecodeHigh;
  }

  lemma FitMoves(op: byte)
    requires 0x40 <= op < 0x70
    ensures TablesFit(op)
  {
    hide Decode, MachineCycles, Idle, OperandBytes;
    CostMoves(op);
  }

  lemma CostAlu(op: byte)
    requires 0x80 <= op < 0xC0
    ensures MachineCycles(Decode(op)) == (if op % 8 == 6 then 2 else 1)
    ensures OperandBytes(Decode(op)) == 0 && Idle(Decode(op)) == 0
  {
    hide DecodeLow, DecodeHigh;
  }

  lemma FitAlu(op: byte)
    requires 0x80 <= op < 0xC0
    ensures TablesFit(op)
  {
    hide Decode, MachineCycles, Idle, OperandBytes;
    Split(op, op / 8);
    CostAlu(op);
  }

  lemma FitLow(op: byte)
    requires op < 0x40
    ensures TablesFit(op)
  {
    if op < 0x08 {
      Fit00(op);
    } else if op < 0x10 {
      Fit08(op);
    } else if op < 0x18 {
      Fit10(op);
    } else if op < 0x20 {
      Fit18(op);
    } else if op < 0x28 {
      Fit20(op);
    } else if op < 0x30 {
      Fit28(op);
    } else if op < 0x38 {
      Fit30(op);
    } else {
      Fit38(op);
    }
  }

  lemma FitHigh(op: byte)
    requires 0xC0 <= op
    ensures TablesFit(op)
  {
    if op < 0xC8 {
      FitC0(op);
    } else if op < 0xD0 {
      FitC8(op);
    } else if op < 0xD8 {
      FitD0(op);
    } else if op < 0xE0 {
      FitD8(op);
    } else if op < 0xE8 {
      FitE0(op);
    } else if op < 0xF0 {
      FitE8(op);
    } else if op < 0xF8 {
      FitF0(op);
    } else {
      FitF8(op);
    }
  }

  /** For all 256 opcodes both tables agree with what the switch makes of them. */
  lemma TablesAgree(op: byte)
    ensures TablesFit(op)
  {
    if op < 0x40 {
      FitLow(op);
    } else if op < 0x70 {
      FitMoves(op);
    } else if op < 0x78 {
      Fit70(op);
    } else if op < 0x80 {
      Fit78(op);
    } else if op < 0xC0 {
      FitAlu(op);
    } else {
      FitHigh(op);
    }
  }

  lemma NoMoveFromMemoryToMemory(op: byte)
    ensures Decode(op).Mov? ==> Decode(op).dst != 6 || Decode(op).src != 6
  {
  }

  lemma OutTakesTen(op: byte)
    ensures Decode(op).Out? ==> Cycles(op) == 10
  {
    assert Decode(op).Out? ==> op == 0xD3;
  }
}
