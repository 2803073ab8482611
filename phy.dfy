/** The PHY as the driver sees it over the management bus: a register file
    whose reads return values chosen by the environment (the link partner,
    the cable, the PHY's own state machine) and whose accesses are recorded,
    in order, in a trace. The environment is a script: the value a read of a
    register returns may depend on the register and on the time of the read,
    counted in management accesses. A scripted value may be any 32-bit
    word: phy_rd only ever returns 16-bit register contents zero-extended,
    so every property proved here for all scripts covers those reads too.
    Writes are recorded with the value the driver passes. The PHY is not assumed to read back what was
    written: what a read returns is entirely the script's choice. */
module PhyBus {

  datatype PhyAccess = PhyRead(reg: nat) | PhyWrite(reg: nat, value: bv32)

  /** `n` reads of `reg` in a row. */
  function Reads(reg: nat, n: nat): (t: seq<PhyAccess>)
    ensures |t| == n
  {
    if n == 0 then [] else Reads(reg, n - 1) + [PhyRead(reg)]
  }

  /** One more read of `reg` after a run of them extends the run. */
  lemma AppendRead(prefix: seq<PhyAccess>, reg: nat, n: nat)
    ensures prefix + Reads(reg, n) + [PhyRead(reg)] == prefix + Reads(reg, n + 1)
  {
  }

  class Phy {
    /** `script(reg, t)` is what a read of `reg` returns when it is access
        number `t` (counting from 0). */
    const script: (nat, nat) -> bv32
    /** Every management access, in order. */
    var trace: seq<PhyAccess>

    constructor(script: (nat, nat) -> bv32)
      ensures this.script == script && trace == []
    {
      this.script := script;
      trace := [];
    }

    /** A management read: returns the scripted value of `reg` for now. */
    method Read(reg: nat) returns (v: bv32)
      modifies this
      ensures v == script(reg, |old(trace)|)
      ensures trace == old(trace) + [PhyRead(reg)]
    {
      v := script(reg, |trace|);
      trace := trace + [PhyRead(reg)];
    }

    /** A management write of `v` as the driver passes it; the bus carries
        its low 16 bits. */
    method Write(reg: nat, v: bv32)
      modifies this
      ensures trace == old(trace) + [PhyWrite(reg, v)]
    {
      trace := trace + [PhyWrite(reg, v)];
    }
  }
}
