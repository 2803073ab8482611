/** The pure bit arithmetic of Xgmac_init and Xgmac_set_eth_advertise: how
    the link speed is chosen from the PHY registers, how the MAC's network
    configuration register is set for it, which transmit clock word is
    written, and what the EP107 board advertises. A register value may be
    any 32-bit word; the PHY's 16-bit contents are the case phy_rd gives. */
module LinkSpec {
  import opened Mii

  /** Network configuration register bits: 100 Mbit/s and gigabit mode. */
  const NWCFG_100_MASK: bv32 := 0x0000_0001
  const NWCFG_1000_MASK: bv32 := 0x0000_0400

  /** Link speeds, in Mbit/s. */
  predicate IsSpeed(s: int)
  {
    s == 10 || s == 100 || s == 1000
  }

  /** Both ends can do 1000BASE-T in a common duplex mode. */
  predicate Common1000(stat1000: bv32, ctrl1000: bv32)
  {
    || (stat1000 & LPA_1000FULL != 0 && ctrl1000 & ADVERTISE_1000FULL != 0)
    || (stat1000 & LPA_1000HALF != 0 && ctrl1000 & ADVERTISE_1000HALF != 0)
  }

  /** Both ends can do 100 Mbit/s in a common duplex mode. */
  predicate Common100(lpa: bv32, adv: bv32)
  {
    || (lpa & LPA_100FULL != 0 && adv & ADVERTISE_100FULL != 0)
    || (lpa & LPA_100HALF != 0 && adv & ADVERTISE_100HALF != 0)
  }

  /** Xgmac_init's gigabit test: the 1000BASE-T control bits sit two places
      below the matching status bits, so shifting control left by two lines
      them up for the mask. */
  predicate GigabitMatch(stat1000: bv32, ctrl1000: bv32)
  {
    (LPA_1000FULL | LPA_1000HALF) & (stat1000 & (ctrl1000 << 2)) != 0
  }

  /** Xgmac_init's 100 Mbit/s test: partner abilities masked with ours. */
  predicate FastMatch(lpa: bv32, adv: bv32)
  {
    (LPA_100FULL | LPA_100HALF) & (lpa & adv) != 0
  }

  /** Xgmac_init's speed choice: mask the partner's abilities with ours and
      take the highest speed left, 10 Mbit/s when nothing else is common. */
  function LinkSpeed(stat1000: bv32, ctrl1000: bv32, lpa: bv32, adv: bv32): (speed: int)
    ensures IsSpeed(speed)
    ensures speed == 1000 <==> Common1000(stat1000, ctrl1000)
    ensures speed == 100 <==> !Common1000(stat1000, ctrl1000) && Common100(lpa, adv)
    ensures speed == 10 <==> !Common1000(stat1000, ctrl1000) && !Common100(lpa, adv)
  {
    GigabitMask(stat1000, ctrl1000);
    FastMask(lpa, adv);
    if GigabitMatch(stat1000, ctrl1000) then 1000
    else if FastMatch(lpa, adv) then 100
    else 10
  }

  lemma GigabitMask(stat1000: bv32, ctrl1000: bv32)
    ensures GigabitMatch(stat1000, ctrl1000) == Common1000(stat1000, ctrl1000)
  {
  }

  lemma FastMask(lpa: bv32, adv: bv32)
    ensures FastMatch(lpa, adv) == Common100(lpa, adv)
  {
  }

  /** `a` and `b` agree on every bit outside `bits`. */
  predicate SameOutside(a: bv32, b: bv32, bits: bv32)
  {
    a & !bits == b & !bits
  }

  /** Both speed bits of the network configuration register. */
  const NWCFG_SPEED_MASKS: bv32 := 0x0000_0401

  /** The NWCFG update of Xgmac_init for the chosen speed: first 10 Mbit/s or
      not decides the 100 Mbit/s bit, then 1000 or not decides the gigabit
      bit. The three possible outcomes of the two tests are written out.
      The 100 Mbit/s bit ends up clear exactly at 10 Mbit/s, the gigabit bit
      set exactly at 1000 Mbit/s, and every other bit is kept. */
  function NwcfgForSpeed(nwcfg: bv32, speed: int): (r: bv32)
    ensures r & NWCFG_100_MASK == 0 <==> speed == 10
    ensures r & NWCFG_1000_MASK != 0 <==> speed == 1000
    ensures SameOutside(r, nwcfg, NWCFG_SPEED_MASKS)
  {
    var r := if speed == 10 then (nwcfg & !NWCFG_100_MASK) & !NWCFG_1000_MASK
             else if speed == 1000 then (nwcfg | NWCFG_100_MASK) | NWCFG_1000_MASK
             else (nwcfg | NWCFG_100_MASK) & !NWCFG_1000_MASK;
    NwcfgFacts(nwcfg, r, speed);
    r
  }

  // The three outcomes of the NWCFG update, one case at a time.
  lemma NwcfgFacts(w: bv32, r: bv32, speed: int)
    requires r == if speed == 10 then (w & !NWCFG_100_MASK) & !NWCFG_1000_MASK
                  else if speed == 1000 then (w | NWCFG_100_MASK) | NWCFG_1000_MASK
                  else (w | NWCFG_100_MASK) & !NWCFG_1000_MASK
    ensures r & NWCFG_100_MASK == 0 <==> speed == 10
    ensures r & NWCFG_1000_MASK != 0 <==> speed == 1000
    ensures SameOutside(r, w, NWCFG_SPEED_MASKS)
  {
    if speed == 10 {
      NwcfgCase10(w, r, speed);
    } else if speed == 1000 {
      NwcfgCase1000(w, r, speed);
    } else {
      NwcfgCaseOther(w, r, speed);
    }
  }

  lemma NwcfgCase10(w: bv32, r: bv32, speed: int)
    requires speed == 10 && r == (w & !NWCFG_100_MASK) & !NWCFG_1000_MASK
    ensures r & NWCFG_100_MASK == 0 && r & NWCFG_1000_MASK == 0
    ensures SameOutside(r, w, NWCFG_SPEED_MASKS)
  {
  }

  lemma NwcfgCase1000(w: bv32, r: bv32, speed: int)
    requires speed == 1000 && r == (w | NWCFG_100_MASK) | NWCFG_1000_MASK
    ensures r & NWCFG_100_MASK != 0 && r & NWCFG_1000_MASK != 0
    ensures SameOutside(r, w, NWCFG_SPEED_MASKS)
  {
  }

  lemma NwcfgCaseOther(w: bv32, r: bv32, speed: int)
    requires speed != 10 && speed != 1000 && r == (w | NWCFG_100_MASK) & !NWCFG_1000_MASK
    ensures r & NWCFG_100_MASK != 0 && r & NWCFG_1000_MASK == 0
    ensures SameOutside(r, w, NWCFG_SPEED_MASKS)
  {
  }

  /** The transmit clock control word Xgmac_init writes for a speed: on the
      EP107 board a fixed divisor with a speed-dependent clock source, on
      other boards divisors of the 1000 MHz IO PLL. Any speed other than
      1000 and 100 gets the 10 Mbit/s word. */
  function TxClockWord(speed: int, ep107: bool): (w: bv32)
    ensures w & 1 == 1
  {
    if ep107 then
      if speed == 1000 then (1 << 20) | (48 << 8) | (1 << 4) | (1 << 0)
      else if speed == 100 then (1 << 20) | (48 << 8) | (0 << 4) | (1 << 0)
      else (1 << 20) | (48 << 8) | (3 << 4) | (1 << 0)
    else
      if speed == 1000 then (1 << 20) | (8 << 8) | (0 << 4) | (1 << 0)
      else if speed == 100 then (1 << 20) | (40 << 8) | (0 << 4) | (1 << 0)
      else (10 << 20) | (40 << 8) | (0 << 4) | (1 << 0)
  }

  /** Fields of a clock control word: the two 6-bit divisors (bits 13:8
      and 25:20) and the 3-bit source select (bits 6:4). */
  function Divisor0(w: bv32): nat { ((w >> 8) & 0x3F) as nat }
  function Divisor1(w: bv32): nat { ((w >> 20) & 0x3F) as nat }
  function ClockSource(w: bv32): bv32 { (w >> 4) & 0x7 }

  /** Transmit clock each speed needs, in kHz: 125 MHz for gigabit, 25 MHz
      for 100 Mbit/s, 2.5 MHz for 10 Mbit/s. */
  function RequiredTxClockKHz(speed: int): nat
  {
    if speed == 1000 then 125_000 else if speed == 100 then 25_000 else 2_500
  }

  const IO_PLL_KHZ: nat := 1_000_000

  /** Off the EP107 board, each word selects the IO PLL and divides it
      exactly down to the clock its speed needs. */
  lemma TxClockDividesPll(speed: int)
    requires IsSpeed(speed)
    ensures var w := TxClockWord(speed, false);
      && ClockSource(w) == 0 && Divisor0(w) * Divisor1(w) > 0
      && IO_PLL_KHZ == RequiredTxClockKHz(speed) * (Divisor0(w) * Divisor1(w))
  {
    var w := TxClockWord(speed, false);
    if speed == 1000 {
      assert w == 0x0010_0801;
      assert Divisor0(w) == 8 && Divisor1(w) == 1;
    } else if speed == 100 {
      assert w == 0x0010_2801;
      assert Divisor0(w) == 40 && Divisor1(w) == 1;
    } else {
      assert w == 0x00A0_2801;
      assert Divisor0(w) == 40 && Divisor1(w) == 10;
    }
  }

  /** On the EP107 board the divisors are fixed at 48 and 1 and the three
      speeds pick three different clock sources. */
  lemma Ep107ClockSources(speed: int)
    requires IsSpeed(speed)
    ensures var w := TxClockWord(speed, true);
      && Divisor0(w) == 48 && Divisor1(w) == 1
      && ClockSource(w) == (if speed == 1000 then 1 else if speed == 100 then 0 else 3)
  {
    var w := TxClockWord(speed, true);
    if speed == 1000 {
      assert w == 0x0010_3011;
    } else if speed == 100 {
      assert w == 0x0010_3001;
    } else {
      assert w == 0x0010_3031;
    }
  }

  /** Different speeds never share a clock word, on either board. */
  lemma TxClockWordsDistinct(s: int, t: int, ep107: bool)
    requires IsSpeed(s) && IsSpeed(t) && s != t
    ensures TxClockWord(s, ep107) != TxClockWord(t, ep107)
  {
  }

  /** Xgmac_set_eth_advertise's NWCFG update: 10 clears the 100 Mbit/s bit,
      100 sets it, and any other speed, gigabit among them, writes the
      register back unchanged. No other bit ever changes. */
  function AdvertiseNwcfg(nwcfg: bv32, speed: int): (r: bv32)
    ensures speed == 10 ==> r & NWCFG_100_MASK == 0
    ensures speed == 100 ==> r & NWCFG_100_MASK != 0
    ensures speed != 10 && speed != 100 ==> r == nwcfg
    ensures SameOutside(r, nwcfg, NWCFG_100_MASK)
  {
    var r := if speed == 10 then nwcfg & !NWCFG_100_MASK
             else if speed == 100 then nwcfg | NWCFG_100_MASK
             else nwcfg;
    AdvertiseNwcfgFacts(nwcfg, r, speed);
    r
  }

  lemma AdvertiseNwcfgFacts(w: bv32, r: bv32, speed: int)
    requires r == if speed == 10 then w & !NWCFG_100_MASK else if speed == 100 then w | NWCFG_100_MASK else w
    ensures speed == 10 ==> r & NWCFG_100_MASK == 0
    ensures speed == 100 ==> r & NWCFG_100_MASK != 0
    ensures speed != 10 && speed != 100 ==> r == w
    ensures SameOutside(r, w, NWCFG_100_MASK)
  {
    if speed == 10 {
      FastBitCleared(w, r);
    } else if speed == 100 {
      FastBitSet(w, r);
    }
  }

  lemma FastBitCleared(w: bv32, r: bv32)
    requires r == w & !NWCFG_100_MASK
    ensures r & NWCFG_100_MASK == 0 && SameOutside(r, w, NWCFG_100_MASK)
  {
  }

  lemma FastBitSet(w: bv32, r: bv32)
    requires r == w | NWCFG_100_MASK
    ensures r & NWCFG_100_MASK != 0 && SameOutside(r, w, NWCFG_100_MASK)
  {
  }

  /** The four 10/100 Mbit/s abilities of register 4. */
  const ADVERTISE_10_100: bv32 := 0x01E0

  /** The register 4 update: advertise both 100 Mbit/s modes from 100 up and
      both 10 Mbit/s modes from 10 up, withdraw them below; every other bit
      of the register is kept. The source's two tests in a row have three
      possible outcomes, written out here. */
  function AdvertiseAbilities(adv: bv32, speed: int): (r: bv32)
    ensures r & ADVERTISE_100FULL != 0 <==> speed >= 100
    ensures r & ADVERTISE_100HALF != 0 <==> speed >= 100
    ensures r & ADVERTISE_10FULL != 0 <==> speed >= 10
    ensures r & ADVERTISE_10HALF != 0 <==> speed >= 10
    ensures SameOutside(r, adv, ADVERTISE_10_100)
  {
    if speed >= 100 then (((adv | ADVERTISE_100FULL) | ADVERTISE_100HALF) | ADVERTISE_10FULL) | ADVERTISE_10HALF
    else if speed >= 10 then (((adv & !ADVERTISE_100FULL) & !ADVERTISE_100HALF) | ADVERTISE_10FULL) | ADVERTISE_10HALF
    else (((adv & !ADVERTISE_100FULL) & !ADVERTISE_100HALF) & !ADVERTISE_10FULL) & !ADVERTISE_10HALF
  }

  /** The two gigabit abilities of register 9. */
  const ADVERTISE_1000: bv32 := 0x0300

  /** The register 9 update: advertise both gigabit modes exactly at 1000;
      every other bit of the register is kept. */
  function AdvertiseGigabit(ctrl1000: bv32, speed: int): (r: bv32)
    ensures r & ADVERTISE_1000FULL != 0 <==> speed == 1000
    ensures r & ADVERTISE_1000HALF != 0 <==> speed == 1000
    ensures SameOutside(r, ctrl1000, ADVERTISE_1000)
  {
    if speed == 1000 then (ctrl1000 | ADVERTISE_1000FULL) | ADVERTISE_1000HALF
    else (ctrl1000 & !ADVERTISE_1000FULL) & !ADVERTISE_1000HALF
  }

  /** What advertising a speed buys: against a partner that offers every
      mode, arbitration over the registers Xgmac_set_eth_advertise wrote
      settles on exactly that speed. */
  lemma AdvertisedSpeedWins(speed: int, adv: bv32, ctrl1000: bv32, stat1000: bv32, lpa: bv32)
    requires IsSpeed(speed)
    requires stat1000 & (LPA_1000FULL | LPA_1000HALF) == LPA_1000FULL | LPA_1000HALF
    requires lpa & (LPA_100FULL | LPA_100HALF) == LPA_100FULL | LPA_100HALF
    ensures LinkSpeed(stat1000, AdvertiseGigabit(ctrl1000, speed), lpa, AdvertiseAbilities(adv, speed)) == speed
  {
    PartnerBits(stat1000, lpa);
  }

  lemma PartnerBits(stat1000: bv32, lpa: bv32)
    requires stat1000 & (LPA_1000FULL | LPA_1000HALF) == LPA_1000FULL | LPA_1000HALF
    requires lpa & (LPA_100FULL | LPA_100HALF) == LPA_100FULL | LPA_100HALF
    ensures stat1000 & LPA_1000FULL != 0 && stat1000 & LPA_1000HALF != 0
    ensures lpa & LPA_100FULL != 0 && lpa & LPA_100HALF != 0
  {
  }
}
