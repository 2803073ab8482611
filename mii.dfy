/** PHY management registers and bits of IEEE 802.3: the basic registers of
    clause 22 (section 22.2.4) and the 1000BASE-T control and status
    registers 9 and 10 (section 40.5.1.1). */
module Mii {

  // Register numbers (5-bit register addresses on the management bus)
  const MII_BMCR: nat := 0
  const MII_BMSR: nat := 1
  const MII_PHYSID1: nat := 2
  const MII_PHYSID2: nat := 3
  const MII_ADVERTISE: nat := 4
  const MII_LPA: nat := 5
  const MII_CTRL1000: nat := 9
  const MII_STAT1000: nat := 10

  // Basic mode control register
  const BMCR_FULLDPLX: bv32 := 0x0100
  const BMCR_ANENABLE: bv32 := 0x1000
  const BMCR_RESET: bv32 := 0x8000

  // Basic mode status register
  const BMSR_LSTATUS: bv32 := 0x0004
  const BMSR_ANEGCOMPLETE: bv32 := 0x0020

  // Auto-negotiation advertisement (register 4)
  const ADVERTISE_10HALF: bv32 := 0x0020
  const ADVERTISE_10FULL: bv32 := 0x0040
  const ADVERTISE_100HALF: bv32 := 0x0080
  const ADVERTISE_100FULL: bv32 := 0x0100
  const ADVERTISE_PAUSE_CAP: bv32 := 0x0400
  const ADVERTISE_PAUSE_ASYM: bv32 := 0x0800

  // Link partner ability (register 5)
  const LPA_100HALF: bv32 := 0x0080
  const LPA_100FULL: bv32 := 0x0100

  // 1000BASE-T control (register 9)
  const ADVERTISE_1000HALF: bv32 := 0x0100
  const ADVERTISE_1000FULL: bv32 := 0x0200

  // 1000BASE-T status (register 10)
  const LPA_1000HALF: bv32 := 0x0400
  const LPA_1000FULL: bv32 := 0x0800
}
