/** The register names and stack operations that all the FRISC machines share. */
module Registers {
  import opened Word32

  type Near = k: int | 0 <= k < 4

  datatype Reg = S(k: Near) | R(k: Near) | U(k: Near) | IAR | PSW | ZERO | Y

  datatype StackOp = Keep | Pop | Push

  /** The offset field of an instruction, which is not extended by sign. */
  type Offset = k: int | 0 <= k < 0x1_0000

  /** The interrupt enable bit of the processor status word. */
  predicate Ie(psw: Word) {
    (psw / 0x10) % 2 == 1
  }

  /** The latch that holds the top of the return stack of a pipelined machine. */
  datatype TorSource = FromHold | FromAluout | FromBarrel | FromDhold
}
