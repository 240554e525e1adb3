/**
 * The fetch/decode/execute cycle (`CPU::emulate_cycle`), which sits above
 * both the machine state and the instruction decoder.
 */
module Emulation {
  import opened Chip8
  import opened Instructions

  /** `emulate_cycle` on values: a waiting machine is suspended; otherwise fetch the big-endian word at pc and execute it. */
  function Step(m: Machine): (r: Outcome)
    requires WellFormed(m)
    ensures r.Next? ==> WellFormed(r.m)
    ensures m.state.WaitingForKey? ==> r == Next(m)
    ensures m.state == Executing && m.pc + 1 >= MEMORY_SIZE ==> r == Stop(AddressPastMemory)
    ensures m.state == Executing && m.pc + 1 < MEMORY_SIZE ==>
      var w: int := m.memory[m.pc] as int * 0x100 + m.memory[m.pc + 1];
      r == Execute(m.(opcode := w), w) && (r.Next? ==> r.m.opcode == w)
  {
    match m.state
    case WaitingForKey(_) => Next(m)
    case Executing =>
      match ReadMemWord(m.memory, m.pc)
      case None => Stop(AddressPastMemory)
      case Some(w) => Execute(m.(opcode := w), w)
  }

  /** `n` cycles in a row, ending at the first fault. */
  function Run(m: Machine, n: nat): (r: Outcome)
    requires WellFormed(m)
    ensures r.Next? ==> WellFormed(r.m)
    decreases n
  {
    if n == 0 then Next(m)
    else match Step(m)
      case Stop(f) => Stop(f)
      case Next(m') => Run(m', n - 1)
  }

  /** While the machine waits for a key, no number of cycles changes anything. */
  lemma {:induction false} WaitingIsSuspended(m: Machine, n: nat)
    requires WellFormed(m) && m.state.WaitingForKey?
    ensures Run(m, n) == Next(m)
    decreases n
  {
    if n > 0 {
      WaitingIsSuspended(m, n - 1);
    }
  }

  /** One cycle never takes the stack pointer past 16 and never leaves a pixel other than 0 or 1. */
  lemma StepKeepsInvariants(m: Machine)
    requires WellFormed(m) && m.sp <= STACK_DEPTH && BinaryPixels(m.gfx)
    ensures Step(m).Next? ==> Step(m).m.sp <= STACK_DEPTH && BinaryPixels(Step(m).m.gfx)
  {
    if m.state == Executing && m.pc + 1 < MEMORY_SIZE {
      var w: int := m.memory[m.pc] as int * 0x100 + m.memory[m.pc + 1];
      ExecuteKeepsStackBound(m.(opcode := w), w);
      ExecuteKeepsPixelsBinary(m.(opcode := w), w);
    }
  }

  /** Any number of cycles keeps the stack pointer at most 16 and every pixel 0 or 1. */
  lemma {:induction false} RunKeepsInvariants(m: Machine, n: nat)
    requires WellFormed(m) && m.sp <= STACK_DEPTH && BinaryPixels(m.gfx)
    ensures Run(m, n).Next? ==> Run(m, n).m.sp <= STACK_DEPTH && BinaryPixels(Run(m, n).m.gfx)
    decreases n
  {
    if n > 0 {
      StepKeepsInvariants(m);
      if Step(m).Next? {
        RunKeepsInvariants(Step(m).m, n - 1);
      }
    }
  }

  /**
   * FX0A never enters the waiting state in this interpreter, so waiting
   * comes only from `wait_for_key`. However many cycles pass while waiting,
   * nothing changes; once a key event arrives, the key lands in the awaited
   * register and the machine executes again from the same pc.
   */
  lemma WaitThenResume(m: Machine, x: word, k: ChipKey, pressed: bool, n: nat)
    requires WellFormed(m) && m.state == Executing && x < REGISTERS
    ensures Run(WaitingOn(m, x), n) == Next(WaitingOn(m, x))
    ensures var h := KeyHandled(WaitingOn(m, x), k, pressed);
      h.Next? && h.m.V[x] == k.Index() && h.m.state == Executing &&
      h.m.(V := m.V, key := m.key) == m
  {
    WaitingIsSuspended(WaitingOn(m, x), n);
  }

  /** `emulate_cycle`. */
  method EmulateCycle(cpu: CPU) returns (fault: Option<Fault>)
    requires cpu.Valid()
    modifies cpu, cpu.memory, cpu.V, cpu.gfx, cpu.stack
    ensures cpu.Valid() && Agrees(Step(old(cpu.View())), fault, cpu.View())
  {
    match cpu.state {
      case WaitingForKey(_) =>
        return None;
      case Executing =>
        var word := ReadMemWord(cpu.memory[..], cpu.pc);
        match word {
          case None =>
            return Some(AddressPastMemory);
          case Some(w) =>
            cpu.opcode := w;
            fault := DecodeOpcode(cpu, w);
        }
    }
  }
}
