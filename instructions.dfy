/**
 * The opcode decoder and executor of chip-e (src/chip8/instructions.rs).
 *
 * `Execute` says what `decode_opcode` does to a machine for one 16-bit
 * opcode; `DecodeOpcode` is the in-place version over a `CPU`, proved to
 * agree with it. The lemmas state, per instruction family, what the
 * interpreter promises: skips, carries and borrows, shifts, BCD, the
 * register dump/load round trip, call/return, and the invariants every
 * instruction keeps.
 *
 * Where this interpreter departs from the usual CHIP-8 instruction set the
 * model keeps its behaviour: BNNN, CXNN, the whole EX?? family and
 * FX07/0A/15/18/1E/29 are recognised but do nothing, not even advance pc;
 * every 0NNN other than 00E0 and 00EE is ignored; 8XY? with an unlisted low
 * nibble does nothing; 5XY? and 9XY? ignore their low nibble; a call pushes
 * the address of the call itself and a return adds 2 to what it pops.
 */
module Instructions {
  import opened Chip8

  // ---------------------------------------------------------------------
  // Opcode fields

  /** The high nibble, which selects the instruction family. */
  function Family(op: word): (f: nat)
    ensures f < 0x10
  {
    op / 0x1000
  }

  /** X, the register index in bits 8..11. */
  function RegX(op: word): (x: nat)
    ensures x < REGISTERS
  {
    op / 0x100 % 0x10
  }

  /** Y, the register index in bits 4..7. */
  function RegY(op: word): (y: nat)
    ensures y < REGISTERS
  {
    op / 0x10 % 0x10
  }

  /** N, the low nibble. */
  function Nibble(op: word): byte
  {
    op % 0x10
  }

  /** NN, the low byte. */
  function Immediate(op: word): byte
  {
    op % 0x100
  }

  /** NNN, the low 12 bits. */
  function Address(op: word): word
  {
    op % 0x1000
  }

  /** The opcode with family f, X = x, Y = y and N = n. */
  function Opcode(f: nat, x: nat, y: nat, n: nat): word
    requires f < 0x10 && x < 0x10 && y < 0x10 && n < 0x10
  {
    f * 0x1000 + x * 0x100 + y * 0x10 + n
  }

  /** Decoding an assembled opcode gives back its fields. */
  lemma OpcodeFields(f: nat, x: nat, y: nat, n: nat)
    requires f < 0x10 && x < 0x10 && y < 0x10 && n < 0x10
    ensures var op := Opcode(f, x, y, n);
      Family(op) == f && RegX(op) == x && RegY(op) == y && Nibble(op) == n &&
      Immediate(op) == y * 0x10 + n && Address(op) == x * 0x100 + y * 0x10 + n
  {
    var op := Opcode(f, x, y, n);
    DivMod4096(f, x * 0x100 + y * 0x10 + n);
    DivMod256(f * 0x10 + x, y * 0x10 + n);
    DivMod16(f, x);
    DivMod16(f * 0x100 + x * 0x10 + y, n);
    DivMod16(f * 0x10 + x, y);
    assert op == (f * 0x10 + x) * 0x100 + (y * 0x10 + n);
    assert op == (f * 0x100 + x * 0x10 + y) * 0x10 + n;
  }

  lemma DivMod16(q: nat, r: nat)
    requires r < 0x10
    ensures (q * 0x10 + r) / 0x10 == q && (q * 0x10 + r) % 0x10 == r
  {
  }

  lemma DivMod256(q: nat, r: nat)
    requires r < 0x100
    ensures (q * 0x100 + r) / 0x100 == q && (q * 0x100 + r) % 0x100 == r
  {
  }

  lemma DivMod4096(q: nat, r: nat)
    requires r < 0x1000
    ensures (q * 0x1000 + r) / 0x1000 == q && (q * 0x1000 + r) % 0x1000 == r
  {
  }

  // ---------------------------------------------------------------------
  // u8 bitwise operations, bit by bit

  datatype BitOp = Or | And | Xor

  predicate ApplyBit(op: BitOp, p: bool, q: bool)
  {
    match op
    case Or => p || q
    case And => p && q
    case Xor => p != q
  }

  function Pow2(n: nat): (r: nat)
    ensures r >= 1
  {
    if n == 0 then 1 else 2 * Pow2(n - 1)
  }

  /** `op` applied to the low `width` bits of a and b. */
  function Bitwise(op: BitOp, a: nat, b: nat, width: nat): (r: nat)
    ensures r < Pow2(width)
    decreases width
  {
    if width == 0 then 0
    else (if ApplyBit(op, a % 2 == 1, b % 2 == 1) then 1 else 0) + 2 * Bitwise(op, a / 2, b / 2, width - 1)
  }

  /** The u8 operators `|`, `&` and `^`. */
  function Or8(a: byte, b: byte): byte { Bitwise(Or, a, b, 8) }
  function And8(a: byte, b: byte): byte { Bitwise(And, a, b, 8) }
  function Xor8(a: byte, b: byte): byte { Bitwise(Xor, a, b, 8) }

  /** XOR with b twice gives back a, for any a of at most `width` bits. */
  lemma {:induction false} XorTwice(a: nat, b: nat, width: nat)
    requires a < Pow2(width)
    ensures Bitwise(Xor, Bitwise(Xor, a, b, width), b, width) == a
    decreases width
  {
    if width > 0 {
      var c := Bitwise(Xor, a, b, width);
      var low := if ApplyBit(Xor, a % 2 == 1, b % 2 == 1) then 1 else 0;
      var high := Bitwise(Xor, a / 2, b / 2, width - 1);
      assert c == low + 2 * high;
      assert c % 2 == low && c / 2 == high;
      XorTwice(a / 2, b / 2, width - 1);
    }
  }

  /** Bit by bit, p OR q plus p AND q is p plus q, so the same holds for whole numbers. */
  lemma {:induction false} OrPlusAnd(a: nat, b: nat, width: nat)
    requires a < Pow2(width) && b < Pow2(width)
    ensures Bitwise(Or, a, b, width) + Bitwise(And, a, b, width) == a + b
    decreases width
  {
    if width > 0 {
      OrPlusAnd(a / 2, b / 2, width - 1);
    }
  }

  /** XOR is addition without carries: a XOR b plus twice the carries a AND b is a + b. */
  lemma {:induction false} XorPlusCarries(a: nat, b: nat, width: nat)
    requires a < Pow2(width) && b < Pow2(width)
    ensures Bitwise(Xor, a, b, width) + 2 * Bitwise(And, a, b, width) == a + b
    decreases width
  {
    if width > 0 {
      XorPlusCarries(a / 2, b / 2, width - 1);
    }
  }

  /** a AND b keeps only bits set in both, so it is at most either operand. */
  lemma {:induction false} AndBelowOperands(a: nat, b: nat, width: nat)
    requires a < Pow2(width) && b < Pow2(width)
    ensures Bitwise(And, a, b, width) <= a && Bitwise(And, a, b, width) <= b
    decreases width
  {
    if width > 0 {
      AndBelowOperands(a / 2, b / 2, width - 1);
    }
  }

  /** Every byte has at most eight bits. */
  lemma ByteWidth()
    ensures Pow2(8) == 0x100
  {
  }

  /**
   * Arithmetic facts relating the u8 operators of 8XY1, 8XY2 and 8XY3,
   * which follow from their bit-by-bit definition.
   */
  lemma ByteOperators(a: byte, b: byte)
    ensures Or8(a, b) + And8(a, b) == a as int + b
    ensures Xor8(a, b) + 2 * And8(a, b) as int == a as int + b
    ensures And8(a, b) <= a && And8(a, b) <= b
  {
    ByteWidth();
    OrPlusAnd(a, b, 8);
    XorPlusCarries(a, b, 8);
    AndBelowOperands(a, b, 8);
  }

  /** A byte combined with itself: XOR clears it, OR and AND give it back. */
  lemma ByteOperatorsSelf(a: byte)
    ensures Xor8(a, a) == 0 && Or8(a, a) == a && And8(a, a) == a
  {
    ByteOperators(a, a);
  }

  /** The u8 `^` applied twice with the same operand is the identity. */
  lemma Xor8Twice(a: byte, b: byte)
    ensures Xor8(Xor8(a, b), b) == a
  {
    XorTwice(a, b, 8);
  }

  // ---------------------------------------------------------------------
  // What each family does to a machine

  /** No instruction touches the fetched opcode, the timers, the key latches or the wait state. */
  predicate Untouched(m: Machine, r: Outcome)
  {
    r.Next? ==> WellFormed(r.m) && r.m.opcode == m.opcode && r.m.delayTimer == m.delayTimer &&
                r.m.soundTimer == m.soundTimer && r.m.key == m.key && r.m.state == m.state
  }

  /** 3XNN, 4XNN, 5XY0, 9XY0: skip the next instruction when the condition holds. */
  function Skip(m: Machine, condition: bool): (r: Outcome)
    requires WellFormed(m)
    ensures Untouched(m, r)
  {
    Advance(m, if condition then 4 else 2)
  }

  /** 2NNN: push the address of this call and jump. */
  function Call(m: Machine, target: word): (r: Outcome)
    requires WellFormed(m)
    ensures Untouched(m, r)
  {
    if m.sp >= STACK_DEPTH then Stop(StackOverflow)
    else Next(m.(stack := m.stack[m.sp := m.pc], sp := m.sp + 1, pc := target))
  }

  /** 00EE: pop the call's address and continue after it. */
  function Return(m: Machine): (r: Outcome)
    requires WellFormed(m)
    ensures Untouched(m, r)
  {
    if m.sp == 0 then Stop(StackUnderflow)
    else if m.sp - 1 >= STACK_DEPTH then Stop(StackOverflow)
    else Advance(m.(sp := m.sp - 1, pc := m.stack[m.sp - 1]), 2)
  }

  /** The 0NNN family: 00E0 clears the screen, 00EE returns, the rest is ignored. */
  function SystemOp(m: Machine, op: word): (r: Outcome)
    requires WellFormed(m)
    ensures Untouched(m, r)
  {
    if op == 0x00E0 then Advance(Cleared(m), 2)
    else if op == 0x00EE then Return(m)
    else Next(m)
  }

  /** The low nibbles of the 8XY? opcodes the decoder acts on. */
  predicate ArithListed(n: nat)
  {
    n <= 0x7 || n == 0xE
  }

  /** The registers after 8XY? with a listed low nibble n. */
  function ArithRegs(V: seq<byte>, x: nat, y: nat, n: nat): (regs: seq<byte>)
    requires |V| == REGISTERS && x < REGISTERS && y < REGISTERS && ArithListed(n)
    ensures |regs| == REGISTERS
  {
    var vx: int, vy: int := V[x], V[y];
    if n == 0x0 then V[x := vy]
    else if n == 0x1 then V[x := Or8(vx, vy)]
    else if n == 0x2 then V[x := And8(vx, vy)]
    else if n == 0x3 then V[x := Xor8(vx, vy)]
    else if n == 0x4 then V[x := (vx + vy) % 0x100][VF := if vx + vy > 0xFF then 1 else 0]
    else if n == 0x5 then V[x := (vx - vy) % 0x100][VF := if vx < vy then 0 else 1]
    else if n == 0x6 then V[VF := vx % 2][x := vx / 2]
    else if n == 0x7 then V[x := (vy - vx) % 0x100][VF := if vy < vx then 0 else 1]
    else V[VF := vx / 0x80][x := vx * 2 % 0x100]
  }

  /** The 8XY? family of register-to-register operations; unlisted low nibbles do nothing. */
  function ArithOp(m: Machine, x: nat, y: nat, n: nat): (r: Outcome)
    requires WellFormed(m) && x < REGISTERS && y < REGISTERS
    ensures Untouched(m, r)
  {
    if ArithListed(n) then Advance(m.(V := ArithRegs(m.V, x, y, n)), 2) else Next(m)
  }

  /** FX33: the decimal digits of VX at memory[I], memory[I + 1], memory[I + 2]. */
  function Bcd(m: Machine, x: nat): (r: Outcome)
    requires WellFormed(m) && x < REGISTERS
    ensures Untouched(m, r)
  {
    var vx := m.V[x];
    if m.I + 2 >= MEMORY_SIZE then Stop(MemoryOutOfBounds)
    else Advance(m.(memory := m.memory[m.I := vx / 100][m.I + 1 := vx / 10 % 10][m.I + 2 := vx % 100 % 10]), 2)
  }

  /** Memory after FX55: V0..VX at memory[I..I + X]. */
  function Dumped(m: Machine, x: nat): (mem: seq<byte>)
    requires WellFormed(m) && x < REGISTERS && m.I + x < MEMORY_SIZE
    ensures |mem| == MEMORY_SIZE
  {
    seq(MEMORY_SIZE, a requires 0 <= a < MEMORY_SIZE =>
      if m.I <= a <= m.I + x then m.V[a - m.I] else m.memory[a])
  }

  /** Registers after FX65: V0..VX from memory[I..I + X]. */
  function Reloaded(m: Machine, x: nat): (regs: seq<byte>)
    requires WellFormed(m) && x < REGISTERS && m.I + x < MEMORY_SIZE
    ensures |regs| == REGISTERS
  {
    seq(REGISTERS, r requires 0 <= r < REGISTERS => if r <= x then m.memory[m.I + r] else m.V[r])
  }

  /** FX55. */
  function RegDump(m: Machine, x: nat): (r: Outcome)
    requires WellFormed(m) && x < REGISTERS
    ensures Untouched(m, r)
  {
    if m.I + x >= MEMORY_SIZE then Stop(MemoryOutOfBounds)
    else Advance(m.(memory := Dumped(m, x)), 2)
  }

  /** FX65. */
  function RegLoad(m: Machine, x: nat): (r: Outcome)
    requires WellFormed(m) && x < REGISTERS
    ensures Untouched(m, r)
  {
    if m.I + x >= MEMORY_SIZE then Stop(MemoryOutOfBounds)
    else Advance(m.(V := Reloaded(m, x)), 2)
  }

  /** The FX?? family: only FX33, FX55 and FX65 act; other listed codes are ignored, the rest panic. */
  function MiscOp(m: Machine, op: word): (r: Outcome)
    requires WellFormed(m)
    ensures Untouched(m, r)
  {
    var code, x := Immediate(op), RegX(op);
    if code == 0x07 || code == 0x0A || code == 0x15 || code == 0x18 || code == 0x1E || code == 0x29 then Next(m)
    else if code == 0x33 then Bcd(m, x)
    else if code == 0x55 then RegDump(m, x)
    else if code == 0x65 then RegLoad(m, x)
    else Stop(UnknownOpcode(op))
  }

  /** `decode_opcode`: the effect of one opcode on the machine. */
  function Execute(m: Machine, op: word): (r: Outcome)
    requires WellFormed(m)
    ensures Untouched(m, r)
  {
    var x, y := RegX(op), RegY(op);
    if op == 0 then Next(m)
    else match Family(op)
      case 0x0 => SystemOp(m, op)
      case 0x1 => Next(m.(pc := Address(op)))
      case 0x2 => Call(m, Address(op))
      case 0x3 => Skip(m, m.V[x] == Immediate(op))
      case 0x4 => Skip(m, m.V[x] != Immediate(op))
      case 0x5 => Skip(m, m.V[x] == m.V[y])
      case 0x6 => Advance(m.(V := m.V[x := Immediate(op)]), 2)
      case 0x7 => Advance(m.(V := m.V[x := (m.V[x] + Immediate(op)) % 0x100]), 2)
      case 0x8 => ArithOp(m, x, y, Nibble(op))
      case 0x9 => Skip(m, m.V[x] != m.V[y])
      case 0xA => Advance(m.(I := Address(op)), 2)
      case 0xD =>
        (match Drawn(m, m.V[x], m.V[y], Nibble(op))
         case Next(drawn) => Advance(drawn, 2)
         case Stop(f) => Stop(f))
      case 0xF => MiscOp(m, op)
      case _ => Next(m) // 0xB, 0xC and 0xE are only printed
  }

  // ---------------------------------------------------------------------
  // The in-place executor

  /** `decode_opcode(cpu, opcode)`. */
  method DecodeOpcode(cpu: CPU, opcode: word) returns (fault: Option<Fault>)
    requires cpu.Valid()
    modifies cpu, cpu.memory, cpu.V, cpu.gfx, cpu.stack
    ensures cpu.Valid() && Agrees(Execute(old(cpu.View()), opcode), fault, cpu.View())
  {
    if opcode == 0 {
      return None;
    }
    var code := opcode / 0x1000;
    var x, y := opcode / 0x100 % 0x10, opcode / 0x10 % 0x10;
    var nn, nnn := opcode % 0x100, opcode % 0x1000;
    if code == 0x0 {
      if opcode == 0x00E0 {
        cpu.ClearDisplay();
        fault := cpu.AdvancePc(2);
      } else if opcode == 0x00EE {
        fault := ReturnFromSubroutine(cpu);
      } else {
        fault := None;
      }
    } else if code == 0x1 {
      cpu.pc := nnn;
      fault := None;
    } else if code == 0x2 {
      fault := CallSubroutine(cpu, nnn);
    } else if code == 0x3 {
      fault := cpu.AdvancePc(if cpu.V[x] == nn then 4 else 2);
    } else if code == 0x4 {
      fault := cpu.AdvancePc(if cpu.V[x] != nn then 4 else 2);
    } else if code == 0x5 {
      fault := cpu.AdvancePc(if cpu.V[x] == cpu.V[y] then 4 else 2);
    } else if code == 0x6 {
      cpu.V[x] := nn;
      fault := cpu.AdvancePc(2);
    } else if code == 0x7 {
      cpu.V[x] := (cpu.V[x] + nn) % 0x100;
      fault := cpu.AdvancePc(2);
    } else if code == 0x8 {
      fault := DecodeArith(cpu, x, y, opcode % 0x10);
    } else if code == 0x9 {
      fault := cpu.AdvancePc(if cpu.V[x] != cpu.V[y] then 4 else 2);
    } else if code == 0xA {
      cpu.I := nnn;
      fault := cpu.AdvancePc(2);
    } else if code == 0xB || code == 0xC || code == 0xE {
      fault := None;
    } else if code == 0xD {
      fault := cpu.Draw(cpu.V[x], cpu.V[y], opcode % 0x10);
      if fault == None {
        fault := cpu.AdvancePc(2);
      }
    } else {
      fault := DecodeMisc(cpu, opcode);
    }
  }

  /** 2NNN in place. */
  method CallSubroutine(cpu: CPU, target: word) returns (fault: Option<Fault>)
    requires cpu.Valid()
    modifies cpu, cpu.stack
    ensures cpu.Valid() && Agrees(Call(old(cpu.View()), target), fault, cpu.View())
  {
    if cpu.sp >= STACK_DEPTH {
      return Some(StackOverflow);
    }
    cpu.stack[cpu.sp] := cpu.pc;
    cpu.sp := cpu.sp + 1;
    cpu.pc := target;
    fault := None;
  }

  /** 00EE in place. */
  method ReturnFromSubroutine(cpu: CPU) returns (fault: Option<Fault>)
    requires cpu.Valid()
    modifies cpu
    ensures cpu.Valid() && Agrees(Return(old(cpu.View())), fault, cpu.View())
  {
    if cpu.sp == 0 {
      return Some(StackUnderflow);
    }
    cpu.sp := cpu.sp - 1;
    if cpu.sp >= STACK_DEPTH {
      return Some(StackOverflow);
    }
    cpu.pc := cpu.stack[cpu.sp];
    fault := cpu.AdvancePc(2);
  }

  /** 8XY? in place. */
  method DecodeArith(cpu: CPU, x: nat, y: nat, n: nat) returns (fault: Option<Fault>)
    requires cpu.Valid() && x < REGISTERS && y < REGISTERS
    modifies cpu, cpu.V
    ensures cpu.Valid() && Agrees(ArithOp(old(cpu.View()), x, y, n), fault, cpu.View())
  {
    ghost var m := cpu.View();
    var vx: int, vy: int := cpu.V[x], cpu.V[y];
    if n == 0x0 {
      cpu.V[x] := vy;
      assert cpu.V[..] == ArithRegs(m.V, x, y, n);
    } else if n == 0x1 {
      cpu.V[x] := Or8(vx, vy);
      assert cpu.V[..] == ArithRegs(m.V, x, y, n);
    } else if n == 0x2 {
      cpu.V[x] := And8(vx, vy);
      assert cpu.V[..] == ArithRegs(m.V, x, y, n);
    } else if n == 0x3 {
      cpu.V[x] := Xor8(vx, vy);
      assert cpu.V[..] == ArithRegs(m.V, x, y, n);
    } else if n == 0x4 {
      var wrapped := vx + vy > 0xFF;
      cpu.V[x] := (vx + vy) % 0x100;
      cpu.V[VF] := if wrapped then 1 else 0;
      assert cpu.V[..] == ArithRegs(m.V, x, y, n);
    } else if n == 0x5 {
      var wrapped := vx < vy;
      cpu.V[x] := (vx - vy) % 0x100;
      cpu.V[VF] := if wrapped then 0 else 1;
      assert cpu.V[..] == ArithRegs(m.V, x, y, n);
    } else if n == 0x6 {
      cpu.V[VF] := vx % 2;
      cpu.V[x] := vx / 2;
      assert cpu.V[..] == ArithRegs(m.V, x, y, n);
    } else if n == 0x7 {
      var wrapped := vy < vx;
      cpu.V[x] := (vy - vx) % 0x100;
      cpu.V[VF] := if wrapped then 0 else 1;
      assert cpu.V[..] == ArithRegs(m.V, x, y, n);
    } else if n == 0xE {
      cpu.V[VF] := vx / 0x80;
      cpu.V[x] := vx * 2 % 0x100;
      assert cpu.V[..] == ArithRegs(m.V, x, y, n);
    } else {
      return None;
    }
    fault := cpu.AdvancePc(2);
  }

  /** FX?? in place. */
  method DecodeMisc(cpu: CPU, opcode: word) returns (fault: Option<Fault>)
    requires cpu.Valid()
    modifies cpu, cpu.memory, cpu.V
    ensures cpu.Valid() && Agrees(MiscOp(old(cpu.View()), opcode), fault, cpu.View())
  {
    var code := opcode % 0x100;
    var x := opcode / 0x100 % 0x10;
    if code == 0x07 || code == 0x0A || code == 0x15 || code == 0x18 || code == 0x1E || code == 0x29 {
      fault := None;
    } else if code == 0x33 {
      fault := StoreBcd(cpu, x);
    } else if code == 0x55 {
      fault := DumpRegisters(cpu, x);
    } else if code == 0x65 {
      fault := LoadRegisters(cpu, x);
    } else {
      fault := Some(UnknownOpcode(opcode));
    }
  }

  /** FX33 in place; each write panics on its own when it falls outside memory. */
  method StoreBcd(cpu: CPU, x: nat) returns (fault: Option<Fault>)
    requires cpu.Valid() && x < REGISTERS
    modifies cpu, cpu.memory
    ensures cpu.Valid() && Agrees(Bcd(old(cpu.View()), x), fault, cpu.View())
  {
    var vx := cpu.V[x];
    var hundreds := vx / 100;
    var tens := vx / 10 % 10;
    var units := vx % 100 % 10;
    if cpu.I >= MEMORY_SIZE {
      return Some(MemoryOutOfBounds);
    }
    cpu.memory[cpu.I] := hundreds;
    if cpu.I + 1 >= MEMORY_SIZE {
      return Some(MemoryOutOfBounds);
    }
    cpu.memory[cpu.I + 1] := tens;
    if cpu.I + 2 >= MEMORY_SIZE {
      return Some(MemoryOutOfBounds);
    }
    cpu.memory[cpu.I + 2] := units;
    fault := cpu.AdvancePc(2);
  }

  /** FX55 in place: the `for i in 0..x + 1` copy loop. */
  method DumpRegisters(cpu: CPU, x: nat) returns (fault: Option<Fault>)
    requires cpu.Valid() && x < REGISTERS
    modifies cpu, cpu.memory
    ensures cpu.Valid() && Agrees(RegDump(old(cpu.View()), x), fault, cpu.View())
  {
    var i := 0;
    while i < x + 1
      modifies cpu.memory
      invariant 0 <= i <= x + 1 && (i > 0 ==> cpu.I + i <= MEMORY_SIZE)
      invariant forall a :: 0 <= a < MEMORY_SIZE ==>
        cpu.memory[a] == if cpu.I <= a < cpu.I + i then cpu.V[a - cpu.I] else old(cpu.memory[a])
    {
      if cpu.I + i >= MEMORY_SIZE {
        return Some(MemoryOutOfBounds);
      }
      cpu.memory[cpu.I + i] := cpu.V[i];
      i := i + 1;
    }
    assert cpu.memory[..] == Dumped(old(cpu.View()), x);
    fault := cpu.AdvancePc(2);
  }

  /** FX65 in place: the `for i in 0..x + 1` load loop. */
  method LoadRegisters(cpu: CPU, x: nat) returns (fault: Option<Fault>)
    requires cpu.Valid() && x < REGISTERS
    modifies cpu, cpu.V
    ensures cpu.Valid() && Agrees(RegLoad(old(cpu.View()), x), fault, cpu.View())
  {
    var i := 0;
    while i < x + 1
      modifies cpu.V
      invariant 0 <= i <= x + 1 && (i > 0 ==> cpu.I + i <= MEMORY_SIZE)
      invariant forall r :: 0 <= r < REGISTERS ==>
        cpu.V[r] == if r < i then cpu.memory[cpu.I + r] else old(cpu.V[r])
    {
      if cpu.I + i >= MEMORY_SIZE {
        return Some(MemoryOutOfBounds);
      }
      cpu.V[i] := cpu.memory[cpu.I + i];
      i := i + 1;
    }
    assert cpu.V[..] == Reloaded(old(cpu.View()), x);
    fault := cpu.AdvancePc(2);
  }

  // ---------------------------------------------------------------------
  // What the instructions promise

  /** 0x0000 and every 0NNN other than 00E0 and 00EE leave the whole machine unchanged, pc included. */
  lemma ZeroPageIgnored(m: Machine, op: word)
    requires WellFormed(m) && op < 0x1000 && op != 0x00E0 && op != 0x00EE
    ensures Execute(m, op) == Next(m)
  {
  }

  /** 00E0: every cell 0, the frame dirty, pc + 2, and nothing else changed. */
  lemma ClearScreen(m: Machine)
    requires WellFormed(m) && m.pc + 2 < 0x1_0000
    ensures var r := Execute(m, 0x00E0);
      r.Next? && (forall k :: 0 <= k < SCREEN_CELLS ==> r.m.gfx[k] == 0) && r.m.drawFlag &&
      r.m.pc == m.pc + 2 && r.m.(gfx := m.gfx, drawFlag := m.drawFlag, pc := m.pc) == m
  {
  }

  /** 2NNN pushes the call's own address and jumps; a following 00EE pops it and resumes after the call. */
  lemma CallThenReturn(m: Machine, call: word)
    requires WellFormed(m) && Family(call) == 0x2 && m.sp < STACK_DEPTH && m.pc + 2 < 0x1_0000
    ensures var c := Execute(m, call);
      c.Next? && c.m.pc == Address(call) && c.m.sp == m.sp + 1 && c.m.stack[m.sp] == m.pc &&
      (forall j :: 0 <= j < STACK_DEPTH && j != m.sp ==> c.m.stack[j] == m.stack[j]) &&
      c.m.(pc := m.pc, sp := m.sp, stack := m.stack) == m &&
      Execute(c.m, 0x00EE) == Next(m.(pc := m.pc + 2, stack := c.m.stack))
  {
    var c := Execute(m, call);
    assert c == Next(m.(stack := m.stack[m.sp := m.pc], sp := m.sp + 1, pc := Address(call)));
  }

  /** A call with all 16 entries in use, and a return with none, end the run. */
  lemma StackFaults(m: Machine, call: word)
    requires WellFormed(m) && Family(call) == 0x2
    ensures m.sp >= STACK_DEPTH ==> Execute(m, call) == Stop(StackOverflow)
    ensures m.sp == 0 ==> Execute(m, 0x00EE) == Stop(StackUnderflow)
  {
  }

  /** 3XNN, 4XNN, 5XY?, 9XY?: pc + 4 exactly when the condition holds, else pc + 2; nothing else changes. */
  lemma ConditionalSkips(m: Machine, op: word)
    requires WellFormed(m) && m.pc + 4 < 0x1_0000
    ensures var vx, vy, nn := m.V[RegX(op)], m.V[RegY(op)], Immediate(op);
      (Family(op) == 0x3 ==> Execute(m, op) == Next(m.(pc := m.pc + if vx == nn then 4 else 2))) &&
      (Family(op) == 0x4 ==> Execute(m, op) == Next(m.(pc := m.pc + if vx != nn then 4 else 2))) &&
      (Family(op) == 0x5 ==> Execute(m, op) == Next(m.(pc := m.pc + if vx == vy then 4 else 2))) &&
      (Family(op) == 0x9 ==> Execute(m, op) == Next(m.(pc := m.pc + if vx != vy then 4 else 2)))
  {
  }

  /** 1NNN jumps to NNN and changes nothing else. */
  lemma Jump(m: Machine, op: word)
    requires WellFormed(m) && Family(op) == 0x1
    ensures Execute(m, op) == Next(m.(pc := Address(op)))
  {
  }

  /** 6XNN sets VX = NN, advances pc by 2 and changes nothing else. */
  lemma LoadImmediate(m: Machine, op: word)
    requires WellFormed(m) && Family(op) == 0x6 && m.pc + 2 < 0x1_0000
    ensures var x, r := RegX(op), Execute(m, op);
      r.Next? && r.m.V[x] == Immediate(op) && r.m.pc == m.pc + 2 &&
      (forall j :: 0 <= j < REGISTERS && j != x ==> r.m.V[j] == m.V[j]) && r.m.(V := m.V, pc := m.pc) == m
  {
  }

  /** 7XNN adds NN to VX modulo 256 without touching VF, advances pc by 2 and changes nothing else. */
  lemma AddImmediate(m: Machine, op: word)
    requires WellFormed(m) && Family(op) == 0x7 && m.pc + 2 < 0x1_0000
    ensures var x, r := RegX(op), Execute(m, op);
      r.Next? && r.m.V[x] == (m.V[x] as int + Immediate(op)) % 0x100 && r.m.pc == m.pc + 2 &&
      (forall j :: 0 <= j < REGISTERS && j != x ==> r.m.V[j] == m.V[j]) && r.m.(V := m.V, pc := m.pc) == m
  {
  }

  /** ANNN sets I = NNN, advances pc by 2 and changes nothing else. */
  lemma SetIndex(m: Machine, op: word)
    requires WellFormed(m) && Family(op) == 0xA && m.pc + 2 < 0x1_0000
    ensures Execute(m, op) == Next(m.(I := Address(op), pc := m.pc + 2))
  {
  }

  /** 6XNN then 7XNN with the same X and NN leaves VX = 2 NN mod 256 and VF as it was (X other than F). */
  lemma SetThenAdd(m: Machine, setOp: word, addOp: word)
    requires WellFormed(m) && Family(setOp) == 0x6 && Family(addOp) == 0x7 && m.pc + 4 < 0x1_0000
    requires RegX(setOp) == RegX(addOp) < VF && Immediate(setOp) == Immediate(addOp)
    ensures var s := Execute(m, setOp);
      s.Next? && var a := Execute(s.m, addOp);
      a.Next? && a.m.V[RegX(setOp)] == (2 * Immediate(setOp) as int) % 0x100 && a.m.V[VF] == m.V[VF] &&
      a.m.pc == m.pc + 4
  {
    LoadImmediate(m, setOp);
    AddImmediate(Execute(m, setOp).m, addOp);
  }

  /** An 8XY? opcode is dispatched to the register-arithmetic table. */
  lemma ArithDispatch(m: Machine, op: word)
    requires WellFormed(m) && Family(op) == 0x8
    ensures Execute(m, op) == ArithOp(m, RegX(op), RegY(op), Nibble(op))
  {
  }

  /** An FX?? opcode is dispatched to the miscellaneous table. */
  lemma MiscDispatch(m: Machine, op: word)
    requires WellFormed(m) && Family(op) == 0xF
    ensures Execute(m, op) == MiscOp(m, op)
  {
  }

  /** 8XY0 copies VY into VX and changes no other register. */
  lemma RegisterCopy(m: Machine, x: nat, y: nat)
    requires WellFormed(m) && x < REGISTERS && y < REGISTERS && m.pc + 2 < 0x1_0000
    ensures var r := ArithOp(m, x, y, 0x0);
      r.Next? && r.m.pc == m.pc + 2 && r.m.V[x] == m.V[y] &&
      (forall j :: 0 <= j < REGISTERS && j != x ==> r.m.V[j] == m.V[j]) &&
      r.m.(V := m.V, pc := m.pc) == m
  {
  }

  /** 8XY1, 8XY2 and 8XY3 set VX to VX | VY, VX & VY and VX ^ VY, leaving VF and the other registers alone. */
  lemma RegisterLogic(m: Machine, x: nat, y: nat)
    requires WellFormed(m) && x < REGISTERS && y < REGISTERS && m.pc + 2 < 0x1_0000
    ensures forall n :: 0x1 <= n <= 0x3 ==>
      var r := ArithOp(m, x, y, n);
      r.Next? && r.m.pc == m.pc + 2 &&
      r.m.V[x] == (if n == 0x1 then Or8(m.V[x], m.V[y]) else if n == 0x2 then And8(m.V[x], m.V[y]) else Xor8(m.V[x], m.V[y])) &&
      (forall j :: 0 <= j < REGISTERS && j != x ==> r.m.V[j] == m.V[j]) &&
      r.m.(V := m.V, pc := m.pc) == m
  {
  }

  /** DXYN draws the N-row sprite at (VX, VY) and advances pc by 2, or stops with the draw's fault. */
  lemma DrawSprite(m: Machine, op: word)
    requires WellFormed(m) && Family(op) == 0xD && m.pc + 2 < 0x1_0000
    ensures var d := Drawn(m, m.V[RegX(op)], m.V[RegY(op)], Nibble(op));
      (d.Stop? ==> Execute(m, op) == Stop(d.fault)) &&
      (d.Next? ==> Execute(m, op) == Next(d.m.(pc := m.pc + 2)))
  {
  }

  /** 8XY4: VF is the carry out of VX + VY, written after VX so it wins for X = F; VX is the sum modulo 256. */
  lemma AddWithCarry(m: Machine, x: nat, y: nat)
    requires WellFormed(m) && x < REGISTERS && y < REGISTERS && m.pc + 2 < 0x1_0000
    ensures var r := ArithOp(m, x, y, 0x4);
      r.Next? && r.m.pc == m.pc + 2 &&
      r.m.V[VF] == (if m.V[x] as int + m.V[y] > 0xFF then 1 else 0) &&
      (x != VF ==> r.m.V[x] as int + 0x100 * (r.m.V[VF] as int) == m.V[x] as int + m.V[y]) &&
      (forall j :: 0 <= j < REGISTERS && j != x && j != VF ==> r.m.V[j] == m.V[j]) &&
      r.m.(V := m.V, pc := m.pc) == m
  {
  }

  /** 8XY5 and 8XY7: VF = 1 exactly when there is no borrow, written after VX; VX is the difference modulo 256. */
  lemma SubtractWithBorrow(m: Machine, x: nat, y: nat)
    requires WellFormed(m) && x < REGISTERS && y < REGISTERS && m.pc + 2 < 0x1_0000
    ensures var r := ArithOp(m, x, y, 0x5);
      r.Next? && r.m.pc == m.pc + 2 &&
      r.m.V[VF] == (if m.V[x] >= m.V[y] then 1 else 0) &&
      (x != VF ==> r.m.V[x] == m.V[x] as int - m.V[y] + 0x100 * (1 - r.m.V[VF] as int)) &&
      (forall j :: 0 <= j < REGISTERS && j != x && j != VF ==> r.m.V[j] == m.V[j]) &&
      r.m.(V := m.V, pc := m.pc) == m
    ensures var r := ArithOp(m, x, y, 0x7);
      r.Next? && r.m.pc == m.pc + 2 &&
      r.m.V[VF] == (if m.V[y] >= m.V[x] then 1 else 0) &&
      (x != VF ==> r.m.V[x] == m.V[y] as int - m.V[x] + 0x100 * (1 - r.m.V[VF] as int)) &&
      (forall j :: 0 <= j < REGISTERS && j != x && j != VF ==> r.m.V[j] == m.V[j]) &&
      r.m.(V := m.V, pc := m.pc) == m
  {
  }

  /** 8XY6: VF gets the bit shifted out, written before VX so the shifted value wins for X = F. */
  lemma ShiftRight(m: Machine, x: nat, y: nat)
    requires WellFormed(m) && x < REGISTERS && y < REGISTERS && m.pc + 2 < 0x1_0000
    ensures var r := ArithOp(m, x, y, 0x6);
      r.Next? && r.m.pc == m.pc + 2 &&
      (x != VF ==> r.m.V[VF] <= 1 && 2 * r.m.V[x] as int + r.m.V[VF] == m.V[x]) &&
      (x == VF ==> r.m.V[VF] == m.V[VF] / 2) &&
      (forall j :: 0 <= j < REGISTERS && j != x && j != VF ==> r.m.V[j] == m.V[j]) &&
      r.m.(V := m.V, pc := m.pc) == m
  {
  }

  /** 8XYE: VF gets the bit shifted out, written before VX so the shifted value wins for X = F. */
  lemma ShiftLeft(m: Machine, x: nat, y: nat)
    requires WellFormed(m) && x < REGISTERS && y < REGISTERS && m.pc + 2 < 0x1_0000
    ensures var r := ArithOp(m, x, y, 0xE);
      r.Next? && r.m.pc == m.pc + 2 &&
      (x != VF ==> r.m.V[VF] <= 1 && r.m.V[x] as int + 0x100 * (r.m.V[VF] as int) == 2 * m.V[x] as int) &&
      (x == VF ==> r.m.V[VF] == 2 * m.V[VF] as int % 0x100) &&
      (forall j :: 0 <= j < REGISTERS && j != x && j != VF ==> r.m.V[j] == m.V[j]) &&
      r.m.(V := m.V, pc := m.pc) == m
  {
  }

  /** 8XY3 twice with X other than Y restores VX. */
  lemma XorInstructionTwice(m: Machine, op: word)
    requires WellFormed(m) && Family(op) == 0x8 && Nibble(op) == 0x3 && RegX(op) != RegY(op) && m.pc + 4 < 0x1_0000
    ensures var r1 := Execute(m, op);
      r1.Next? && var r2 := Execute(r1.m, op);
      r2.Next? && r2.m == m.(pc := m.pc + 4)
  {
    var x, y := RegX(op), RegY(op);
    Xor8Twice(m.V[x], m.V[y]);
    ArithDispatch(m, op);
    var r1 := Execute(m, op);
    assert r1 == Advance(m.(V := m.V[x := Xor8(m.V[x], m.V[y])]), 2);
    ArithDispatch(r1.m, op);
    var r2 := Execute(r1.m, op);
    assert r2 == Advance(r1.m.(V := r1.m.V[x := Xor8(r1.m.V[x], r1.m.V[y])]), 2);
    assert r2.m.V == m.V;
  }

  /** 8XY? with a low nibble outside 0..7 and E does nothing, not even advance pc. */
  lemma UnlistedArithIgnored(m: Machine, op: word)
    requires WellFormed(m) && Family(op) == 0x8 && !(Nibble(op) <= 0x7 || Nibble(op) == 0xE)
    ensures Execute(m, op) == Next(m)
  {
    ArithDispatch(m, op);
  }

  /** FX33: three decimal digits of VX at I, I + 1, I + 2; the rest of memory unchanged. */
  lemma BcdDigits(m: Machine, x: nat)
    requires WellFormed(m) && x < REGISTERS && m.I + 2 < MEMORY_SIZE && m.pc + 2 < 0x1_0000
    ensures var r := Bcd(m, x);
      r.Next? && r.m.pc == m.pc + 2 &&
      var h, t, u := r.m.memory[m.I], r.m.memory[m.I + 1], r.m.memory[m.I + 2];
      h <= 9 && t <= 9 && u <= 9 && 100 * h as int + 10 * t as int + u == m.V[x] &&
      (forall a :: 0 <= a < MEMORY_SIZE && !(m.I <= a <= m.I + 2) ==> r.m.memory[a] == m.memory[a]) &&
      r.m.(memory := m.memory, pc := m.pc) == m
  {
  }

  /** FX55: memory[I + i] = V[i] for i up to X, the rest of memory unchanged. */
  lemma DumpRegistersEffect(m: Machine, x: nat)
    requires WellFormed(m) && x < REGISTERS && m.I + x < MEMORY_SIZE && m.pc + 2 < 0x1_0000
    ensures var r := RegDump(m, x);
      r.Next? && r.m.pc == m.pc + 2 &&
      (forall i :: 0 <= i <= x ==> r.m.memory[m.I + i] == m.V[i]) &&
      (forall a :: 0 <= a < MEMORY_SIZE && !(m.I <= a <= m.I + x) ==> r.m.memory[a] == m.memory[a]) &&
      r.m.(memory := m.memory, pc := m.pc) == m
  {
  }

  /** FX65: V[i] = memory[I + i] for i up to X, the other registers unchanged. */
  lemma LoadRegistersEffect(m: Machine, x: nat)
    requires WellFormed(m) && x < REGISTERS && m.I + x < MEMORY_SIZE && m.pc + 2 < 0x1_0000
    ensures var r := RegLoad(m, x);
      r.Next? && r.m.pc == m.pc + 2 &&
      (forall i :: 0 <= i <= x ==> r.m.V[i] == m.memory[m.I + i]) &&
      (forall j :: x < j < REGISTERS ==> r.m.V[j] == m.V[j]) &&
      r.m.(V := m.V, pc := m.pc) == m
  {
  }

  /** FX55 then FX65 with the same I and X gives back the registers. */
  lemma DumpThenLoad(m: Machine, dump: word, load: word)
    requires WellFormed(m) && Family(dump) == 0xF && Immediate(dump) == 0x55
    requires Family(load) == 0xF && Immediate(load) == 0x65 && RegX(dump) == RegX(load)
    requires m.I + RegX(dump) < MEMORY_SIZE && m.pc + 4 < 0x1_0000
    ensures var d := Execute(m, dump);
      d.Next? && var l := Execute(d.m, load);
      l.Next? && l.m.V == m.V && l.m.memory == d.m.memory && l.m.pc == m.pc + 4
  {
    var x := RegX(dump);
    MiscDispatch(m, dump);
    assert Execute(m, dump) == RegDump(m, x);
    DumpRegistersEffect(m, x);
    var d := RegDump(m, x);
    MiscDispatch(d.m, load);
    assert Execute(d.m, load) == RegLoad(d.m, x);
    LoadRegistersEffect(d.m, x);
    var l := RegLoad(d.m, x);
    assert forall j :: 0 <= j < REGISTERS ==> l.m.V[j] == m.V[j];
  }

  /** FX33, FX55 and FX65 end the run when they would reach past memory. */
  lemma MemoryFaults(m: Machine, x: nat)
    requires WellFormed(m) && x < REGISTERS
    ensures m.I + 2 >= MEMORY_SIZE ==> Bcd(m, x) == Stop(MemoryOutOfBounds)
    ensures m.I + x >= MEMORY_SIZE ==> RegDump(m, x) == Stop(MemoryOutOfBounds)
    ensures m.I + x >= MEMORY_SIZE ==> RegLoad(m, x) == Stop(MemoryOutOfBounds)
  {
  }

  /** BNNN, CXNN, EX?? and FX07/0A/15/18/1E/29 are only printed: nothing changes, not even pc. */
  lemma PrintOnlyIgnored(m: Machine, op: word)
    requires WellFormed(m)
    requires Family(op) in {0xB, 0xC, 0xE} ||
             (Family(op) == 0xF && Immediate(op) in {0x07, 0x0A, 0x15, 0x18, 0x1E, 0x29})
    ensures Execute(m, op) == Next(m)
  {
  }

  /** Any other FX?? opcode is a fatal unknown opcode. */
  lemma UnknownOpcodePanics(m: Machine, op: word)
    requires WellFormed(m) && Family(op) == 0xF
    requires Immediate(op) !in {0x07, 0x0A, 0x15, 0x18, 0x1E, 0x29, 0x33, 0x55, 0x65}
    ensures Execute(m, op) == Stop(UnknownOpcode(op))
  {
  }

  /** No instruction takes the stack pointer past 16. */
  lemma ExecuteKeepsStackBound(m: Machine, op: word)
    requires WellFormed(m) && m.sp <= STACK_DEPTH
    ensures Execute(m, op).Next? ==> Execute(m, op).m.sp <= STACK_DEPTH
  {
  }

  /** No instruction puts a value other than 0 or 1 into the framebuffer. */
  lemma ExecuteKeepsPixelsBinary(m: Machine, op: word)
    requires WellFormed(m) && BinaryPixels(m.gfx)
    ensures Execute(m, op).Next? ==> BinaryPixels(Execute(m, op).m.gfx)
  {
    if Family(op) == 0xD {
      DrawKeepsPixelsBinary(m, m.V[RegX(op)], m.V[RegY(op)], Nibble(op));
    }
  }
}
