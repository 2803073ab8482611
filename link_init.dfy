/** Link bring-up of one GEM instance (Xgmac_init with phy_rst and
    Xgmac_set_eth_advertise): program the MAC, reset and configure the PHY,
    wait for auto-negotiation, check the link, pick the speed, and program
    the MAC speed bits and the SLCR transmit clock. */
module LinkInit {
  import opened Mii
  import opened LinkSpec
  import opened PhyBus

  // MAC register values (Zynq-7000 GEM)
  const GEM0_BASEADDR: bv32 := 0xE000_B000
  const NWCTRL_RXEN_MASK: bv32 := 0x0000_0004
  const NWCTRL_TXEN_MASK: bv32 := 0x0000_0008
  const DMACR_INIT: bv32 := 0x0018_0704
  const IDR_ALL: bv32 := 0xFFFF_FFFF

  // System level control registers (SLCR)
  const SYS_CTRL_BASEADDR: bv32 := 0xF800_0000
  const SLCR_LOCK: bv32 := 0x004
  const SLCR_UNLOCK: bv32 := 0x008
  const SLCR_GEM0_RCLK_CTRL: bv32 := 0x138
  const SLCR_GEM1_RCLK_CTRL: bv32 := 0x13C
  const SLCR_GEM0_CLK_CTRL: bv32 := 0x140
  const SLCR_GEM1_CLK_CTRL: bv32 := 0x144
  const SLCR_LOCK_KEY: bv32 := 0x767B
  const SLCR_UNLOCK_KEY: bv32 := 0xDF0D
  const SLCR_GEMN_RCLK_CTRL_MIO: bv32 := 0x1

  // PHY registers outside clause 22 that the EP107 set-up touches
  const PHY_PAGE_SELECT: nat := 22
  const PHY_EXT_CONTROL: nat := 20
  /** Downshift after 7 gigabit attempts, RGMII receive and transmit delays. */
  const EXT_CONTROL_BITS: bv32 := 0x0F82

  /** Both iteration caps of the bring-up polls. */
  const POLL_LIMIT: int := 1000

  /** One volatile 32-bit store to a physical address. */
  datatype MmioWrite = MmioWrite(addr: bv32, value: bv32)

  const UnlockWrite: MmioWrite := MmioWrite(SYS_CTRL_BASEADDR | SLCR_UNLOCK, SLCR_UNLOCK_KEY)
  const LockWrite: MmioWrite := MmioWrite(SYS_CTRL_BASEADDR | SLCR_LOCK, SLCR_LOCK_KEY)

  /** The receive and transmit clock control registers of a GEM instance. */
  function RxClockRegister(base: bv32): bv32
  {
    SYS_CTRL_BASEADDR + (if base == GEM0_BASEADDR then SLCR_GEM0_RCLK_CTRL else SLCR_GEM1_RCLK_CTRL)
  }

  function TxClockRegister(base: bv32): bv32
  {
    SYS_CTRL_BASEADDR + (if base == GEM0_BASEADDR then SLCR_GEM0_CLK_CTRL else SLCR_GEM1_CLK_CTRL)
  }

  /** The stores Xgmac_init makes to the SLCR for a speed (MIO routing):
      unlock, then stores to this instance's two clock registers only, then
      lock. */
  function ClockWrites(base: bv32, ep107: bool, speed: int): (w: seq<MmioWrite>)
    ensures |w| == 4 && w[0] == UnlockWrite && w[|w| - 1] == LockWrite
    ensures forall i :: 0 < i < |w| - 1 ==>
              w[i].addr == RxClockRegister(base) || w[i].addr == TxClockRegister(base)
  {
    [UnlockWrite,
     MmioWrite(RxClockRegister(base), SLCR_GEMN_RCLK_CTRL_MIO),
     MmioWrite(TxClockRegister(base), TxClockWord(speed, ep107)),
     LockWrite]
  }

  /** The clock stores open with the unlock and close with the lock; the
      transmit clock word for the speed goes to this instance's clock
      register strictly in between, and nothing in between touches the
      lock registers or the clock registers of the other instance. */
  lemma ClockWritesBracketed(base: bv32, ep107: bool, speed: int)
    ensures var w := ClockWrites(base, ep107, speed);
      && w[0] == UnlockWrite && w[|w| - 1] == LockWrite
      && MmioWrite(TxClockRegister(base), TxClockWord(speed, ep107)) in w[1..|w| - 1]
      && forall i :: 0 < i < |w| - 1 ==>
           w[i].addr != UnlockWrite.addr && w[i].addr != LockWrite.addr &&
           (base == GEM0_BASEADDR ==>
              w[i].addr != SYS_CTRL_BASEADDR + SLCR_GEM1_CLK_CTRL && w[i].addr != SYS_CTRL_BASEADDR + SLCR_GEM1_RCLK_CTRL) &&
           (base != GEM0_BASEADDR ==>
              w[i].addr != SYS_CTRL_BASEADDR + SLCR_GEM0_CLK_CTRL && w[i].addr != SYS_CTRL_BASEADDR + SLCR_GEM0_RCLK_CTRL)
  {
    var w := ClockWrites(base, ep107, speed);
    assert w[1..|w| - 1] == [w[1], w[2]];
  }

  /** The pause abilities the EP107 set-up adds to the advertisement; every
      other bit is kept. */
  function WithPause(adv: bv32): (r: bv32)
    ensures r & ADVERTISE_PAUSE_ASYM != 0 && r & ADVERTISE_PAUSE_CAP != 0
    ensures SameOutside(r, adv, ADVERTISE_PAUSE_ASYM | ADVERTISE_PAUSE_CAP)
  {
    (adv | ADVERTISE_PAUSE_ASYM) | ADVERTISE_PAUSE_CAP
  }

  /** The EP107 extended control bits; every other bit is kept. */
  function WithExtControl(ext: bv32): (r: bv32)
    ensures r & EXT_CONTROL_BITS == EXT_CONTROL_BITS
    ensures SameOutside(r, ext, EXT_CONTROL_BITS)
  {
    ext | EXT_CONTROL_BITS
  }

  /** The control register with auto-negotiation enabled and, on EP107,
      full duplex; the duplex bit is otherwise left alone, and so is every
      other bit. */
  function WithAutoneg(bmcr: bv32, ep107: bool): (r: bv32)
    ensures r & BMCR_ANENABLE != 0
    ensures ep107 ==> r & BMCR_FULLDPLX != 0
    ensures !ep107 ==> r & BMCR_FULLDPLX == bmcr & BMCR_FULLDPLX
    ensures SameOutside(r, bmcr, BMCR_ANENABLE | BMCR_FULLDPLX)
  {
    if ep107 then (bmcr | BMCR_ANENABLE) | BMCR_FULLDPLX else bmcr | BMCR_ANENABLE
  }

  /** The control register with the reset bit set and every other bit
      kept. As a number it is then at least 0x8000, far above the cap of
      the poll that phy_rst counts with it. */
  function WithReset(bmcr: bv32): (r: bv32)
    ensures r & BMCR_RESET != 0
    ensures SameOutside(r, bmcr, BMCR_RESET)
    ensures r as int >= 0x8000 > POLL_LIMIT
  {
    ResetBitValue(bmcr | BMCR_RESET);
    bmcr | BMCR_RESET
  }

  /** Status register reads the auto-negotiation poll makes from access `t`
      on, when access `last` is the last read it allows: it stops at the
      first read reporting completion, or after the read at `last`. */
  function AnegPollsFrom(script: (nat, nat) -> bv32, t: nat, last: nat): (n: nat)
    ensures 1 <= n
    ensures t <= last ==> n <= last - t + 1
    decreases last - t
  {
    if AnegComplete(script(MII_BMSR, t)) || t >= last then 1
    else 1 + AnegPollsFrom(script, t + 1, last)
  }

  /** Status register reads of the whole poll starting at access `start`:
      the counter runs from 0 to 1000, so at most 1001 reads. */
  function AnegPolls(script: (nat, nat) -> bv32, start: nat): (n: nat)
    ensures 1 <= n <= POLL_LIMIT + 1
  {
    AnegPollsFrom(script, start, start + POLL_LIMIT)
  }

  /** The poll succeeds when its last read reports completion. */
  predicate AnegSucceeds(script: (nat, nat) -> bv32, start: nat)
  {
    AnegComplete(script(MII_BMSR, start + AnegPolls(script, start) - 1))
  }

  /** The poll stops at the first read that reports completion: every
      earlier read reports it incomplete, and it gives up only after reads
      `t` to `last` all did. */
  lemma {:induction false} AnegPollsFromFirst(script: (nat, nat) -> bv32, t: nat, last: nat)
    requires t <= last
    ensures var n := AnegPollsFrom(script, t, last);
      && (forall i: nat :: t <= i < t + n - 1 ==> !AnegComplete(script(MII_BMSR, i)))
      && (!AnegComplete(script(MII_BMSR, t + n - 1)) ==> n == last - t + 1)
    decreases last - t
  {
    if !AnegComplete(script(MII_BMSR, t)) && t < last {
      AnegPollsFromFirst(script, t + 1, last);
    }
  }

  /** Auto-negotiation succeeds exactly when one of the 1001 reads the
      poll may make reports completion, and the poll reads up to the first
      such read. */
  lemma AnegSucceedsIff(script: (nat, nat) -> bv32, start: nat)
    ensures AnegSucceeds(script, start) <==>
      exists i: nat :: start <= i <= start + POLL_LIMIT && AnegComplete(script(MII_BMSR, i))
    ensures forall i: nat :: start <= i < start + AnegPolls(script, start) - 1 ==> !AnegComplete(script(MII_BMSR, i))
    ensures !AnegSucceeds(script, start) ==> AnegPolls(script, start) == POLL_LIMIT + 1
  {
    AnegPollsFromFirst(script, start, start + POLL_LIMIT);
  }

  /** When none of the 1001 status reads the poll may make reports
      completion, the poll makes all of them and bring-up fails. */
  lemma StalledAutonegFails(script: (nat, nat) -> bv32, start: nat)
    requires forall i: nat :: start <= i <= start + POLL_LIMIT ==> !AnegComplete(script(MII_BMSR, i))
    ensures AnegPolls(script, start) == POLL_LIMIT + 1
    ensures !LinkComesUp(script, start)
  {
    AnegSucceedsIff(script, start);
  }

  predicate AnegComplete(bmsr: bv32) { bmsr & BMSR_ANEGCOMPLETE != 0 }
  predicate LinkUp(bmsr: bv32) { bmsr & BMSR_LSTATUS != 0 }
  predicate ResetPending(bmcr: bv32) { bmcr & BMCR_RESET != 0 }

  /** Reads of the control register phy_rst's poll makes, starting with
      counter value `tmp` at access `start`: it stops on the first read with
      the reset bit clear, or once the counter passes 1000. */
  function ResetPolls(script: (nat, nat) -> bv32, start: nat, tmp: int): (n: nat)
    ensures 1 <= n
    ensures tmp >= POLL_LIMIT ==> n == 1
    decreases POLL_LIMIT + 1 - tmp
  {
    if !ResetPending(script(MII_BMCR, start)) || tmp + 1 > POLL_LIMIT then 1
    else 1 + ResetPolls(script, start + 1, tmp + 1)
  }

  lemma ResetBitValue(w: bv32)
    requires w & BMCR_RESET != 0
    ensures w as int >= 0x8000
  {
  }

  /** Management accesses of the PHY set-up before phy_rst: identification
      and control register (4); on EP107 also page select and the pause and
      extended control updates (5) and Xgmac_set_eth_advertise (5). */
  function SetupAccesses(ep107: bool): nat
  {
    if ep107 then 4 + 5 + 5 else 4
  }

  /** Access number of the first auto-negotiation poll read: the PHY
      set-up, then the three accesses of phy_rst. */
  function PollStart(t0: nat, ep107: bool): nat
  {
    t0 + SetupAccesses(ep107) + 3
  }

  /** The accesses of Xgmac_set_eth_advertise from access `t` on: page 0,
      then the advertisement register and the 1000BASE-T control register,
      each read and written back with the abilities for `speed`. */
  function AdvertiseTrace(script: (nat, nat) -> bv32, t: nat, speed: int): seq<PhyAccess>
  {
    [PhyWrite(PHY_PAGE_SELECT, 0)]
      + [PhyRead(MII_ADVERTISE)]
      + [PhyWrite(MII_ADVERTISE, AdvertiseAbilities(script(MII_ADVERTISE, t + 1), speed))]
      + [PhyRead(MII_CTRL1000)]
      + [PhyWrite(MII_CTRL1000, AdvertiseGigabit(script(MII_CTRL1000, t + 3), speed))]
  }

  /** The accesses of the EP107 register updates from access `t` on: the
      advertisement register with the pause abilities, then the extended
      control register, each read and written back. */
  function Ep107Trace(script: (nat, nat) -> bv32, t: nat): seq<PhyAccess>
  {
    [PhyRead(MII_ADVERTISE)]
      + [PhyWrite(MII_ADVERTISE, WithPause(script(MII_ADVERTISE, t)))]
      + [PhyRead(PHY_EXT_CONTROL)]
      + [PhyWrite(PHY_EXT_CONTROL, WithExtControl(script(PHY_EXT_CONTROL, t + 2)))]
  }

  /** The accesses of the board-specific PHY configuration from access `t`
      on. EP107: page 0, identification, pause abilities, extended control,
      then auto-negotiation and full duplex in the control register. Any
      other board: identification, then auto-negotiation in the control
      register. */
  function ConfigureTrace(script: (nat, nat) -> bv32, t: nat, ep107: bool): seq<PhyAccess>
  {
    if ep107 then
      [PhyWrite(PHY_PAGE_SELECT, 0)]
        + [PhyRead(MII_PHYSID1)] + [PhyRead(MII_PHYSID2)]
        + Ep107Trace(script, t + 3)
        + [PhyRead(MII_BMCR)]
        + [PhyWrite(MII_BMCR, WithAutoneg(script(MII_BMCR, t + 7), true))]
    else
      [PhyRead(MII_PHYSID1)] + [PhyRead(MII_PHYSID2)]
        + [PhyRead(MII_BMCR)] + [PhyWrite(MII_BMCR, WithAutoneg(script(MII_BMCR, t + 2), false))]
  }

  /** Every management access of the PHY set-up before phy_rst, from
      access `t` on: the configuration, then on EP107 the gigabit
      advertisement. Its length is the access count bring-up relies on. */
  function SetupTrace(script: (nat, nat) -> bv32, t: nat, ep107: bool): (a: seq<PhyAccess>)
    ensures |a| == SetupAccesses(ep107)
  {
    ConfigureTrace(script, t, ep107) + if ep107 then AdvertiseTrace(script, t + 9, 1000) else []
  }

  /** Whether bring-up from access `start` on gets past both PHY checks:
      auto-negotiation completes within the poll, and the second of the two
      status reads after it reports the link up. */
  predicate LinkComesUp(script: (nat, nat) -> bv32, start: nat)
  {
    AnegSucceeds(script, start) && LinkUp(script(MII_BMSR, start + AnegPolls(script, start) + 1))
  }

  /** The speed arbitration reads 1000BASE-T status and control, then link
      partner ability and advertisement, from access `t` on. */
  function ArbitratedSpeed(script: (nat, nat) -> bv32, t: nat): (speed: int)
    ensures IsSpeed(speed)
  {
    LinkSpeed(script(MII_STAT1000, t), script(MII_CTRL1000, t + 1),
              script(MII_LPA, t + 2), script(MII_ADVERTISE, t + 3))
  }

  /** The speed Xgmac_init settles on when the link comes up. */
  function NegotiatedSpeed(script: (nat, nat) -> bv32, start: nat): (speed: int)
    ensures IsSpeed(speed)
  {
    ArbitratedSpeed(script, start + AnegPolls(script, start) + 2)
  }

  /** phy_rst: set the reset bit of the control register, then poll it
      with a counter that starts at the value written. The counter is
      already past the cap, so the poll reads the register exactly once
      and gives up if reset is still pending. */
  method PhyRst(phy: Phy)
    modifies phy
    ensures |phy.trace| == |old(phy.trace)| + 3
    ensures var t := |old(phy.trace)|;
      phy.trace == old(phy.trace) + [PhyRead(MII_BMCR)]
        + [PhyWrite(MII_BMCR, WithReset(phy.script(MII_BMCR, t)))] + [PhyRead(MII_BMCR)]
  {
    var tmp := phy.Read(MII_BMCR);
    var written := WithReset(tmp);
    phy.Write(MII_BMCR, written);
    WaitResetClear(phy, written as int);
  }

  /** The poll loop of phy_rst for an arbitrary starting counter. */
  method WaitResetClear(phy: Phy, tmp0: int)
    modifies phy
    ensures phy.trace == old(phy.trace) + Reads(MII_BMCR, ResetPolls(phy.script, |old(phy.trace)|, tmp0))
  {
    ghost var t0 := |phy.trace|;
    var tmp := tmp0;
    var v := phy.Read(MII_BMCR);
    ghost var n := 1;
    while ResetPending(v)
      invariant n >= 1 && |phy.trace| == t0 + n
      invariant v == phy.script(MII_BMCR, t0 + n - 1)
      invariant ResetPolls(phy.script, t0, tmp0) == n - 1 + ResetPolls(phy.script, t0 + n - 1, tmp)
      invariant phy.trace == old(phy.trace) + Reads(MII_BMCR, n)
      decreases POLL_LIMIT + 1 - tmp
    {
      tmp := tmp + 1;
      if tmp > POLL_LIMIT {
        return;
      }
      v := phy.Read(MII_BMCR);
      AppendRead(old(phy.trace), MII_BMCR, n);
      n := n + 1;
    }
  }

  /** The PHY half of Xgmac_set_eth_advertise. */
  method AdvertiseOnPhy(phy: Phy, speed: int)
    modifies phy
    ensures phy.trace == old(phy.trace) + AdvertiseTrace(phy.script, |old(phy.trace)|, speed)
  {
    phy.Write(PHY_PAGE_SELECT, 0);
    var tmp := phy.Read(MII_ADVERTISE);
    phy.Write(MII_ADVERTISE, AdvertiseAbilities(tmp, speed));
    tmp := phy.Read(MII_CTRL1000);
    phy.Write(MII_CTRL1000, AdvertiseGigabit(tmp, speed));
  }

  /** The EP107 part of the PHY set-up: pause abilities in the
      advertisement register, downshift and RGMII delays in the extended
      control register. */
  method ConfigureEp107(phy: Phy)
    modifies phy
    ensures phy.trace == old(phy.trace) + Ep107Trace(phy.script, |old(phy.trace)|)
  {
    var tmp := phy.Read(MII_ADVERTISE);
    phy.Write(MII_ADVERTISE, WithPause(tmp));
    tmp := phy.Read(PHY_EXT_CONTROL);
    phy.Write(PHY_EXT_CONTROL, WithExtControl(tmp));
  }

  /** The PHY set-up of the generic build: identification, then
      auto-negotiation enabled in the control register. */
  method ConfigurePhy(phy: Phy)
    modifies phy
    ensures phy.trace == old(phy.trace) + ConfigureTrace(phy.script, |old(phy.trace)|, false)
  {
    var tmp := phy.Read(MII_PHYSID1);
    tmp := phy.Read(MII_PHYSID2);
    tmp := phy.Read(MII_BMCR);
    phy.Write(MII_BMCR, WithAutoneg(tmp, false));
  }

  /** The PHY set-up of the EP107 build: page 0, identification, the EP107
      register updates, then auto-negotiation and full duplex enabled in
      the control register. */
  method ConfigurePhyEp107(phy: Phy)
    modifies phy
    ensures phy.trace == old(phy.trace) + ConfigureTrace(phy.script, |old(phy.trace)|, true)
  {
    phy.Write(PHY_PAGE_SELECT, 0);
    var tmp := phy.Read(MII_PHYSID1);
    tmp := phy.Read(MII_PHYSID2);
    ConfigureEp107(phy);
    tmp := phy.Read(MII_BMCR);
    phy.Write(MII_BMCR, WithAutoneg(tmp, true));
  }

  /** The auto-negotiation wait: poll the status register until it
      reports completion, giving up after 1001 reads without it. */
  method WaitAutoneg(phy: Phy) returns (done: bool)
    modifies phy
    ensures |phy.trace| == |old(phy.trace)| + AnegPolls(phy.script, |old(phy.trace)|)
    ensures var t := |old(phy.trace)|;
      && done == AnegSucceeds(phy.script, t)
      && phy.trace == old(phy.trace) + Reads(MII_BMSR, AnegPolls(phy.script, t))
  {
    ghost var t0 := |phy.trace|;
    ghost var n := AnegPolls(phy.script, t0);
    var tmp := 0;
    var v := phy.Read(MII_BMSR);
    while !AnegComplete(v)
      invariant 0 <= tmp <= POLL_LIMIT
      invariant v == phy.script(MII_BMSR, t0 + tmp)
      invariant n == tmp + AnegPollsFrom(phy.script, t0 + tmp, t0 + POLL_LIMIT)
      invariant phy.trace == old(phy.trace) + Reads(MII_BMSR, tmp + 1)
      invariant |phy.trace| == t0 + tmp + 1
      decreases POLL_LIMIT - tmp
    {
      tmp := tmp + 1;
      if tmp > POLL_LIMIT {
        assert n == tmp;
        return false;
      }
      v := phy.Read(MII_BMSR);
      AppendRead(old(phy.trace), MII_BMSR, tmp);
    }
    assert n == tmp + 1;
    return true;
  }

  /** Speed arbitration: 1000BASE-T status against control, then, if no
      gigabit mode is common, link partner ability against advertisement. */
  method ResolveSpeed(phy: Phy) returns (speed: int)
    modifies phy
    ensures speed == ArbitratedSpeed(phy.script, |old(phy.trace)|)
    ensures speed == 1000 ==> phy.trace == old(phy.trace) + [PhyRead(MII_STAT1000)] + [PhyRead(MII_CTRL1000)]
    ensures speed != 1000 ==> phy.trace == old(phy.trace) + [PhyRead(MII_STAT1000)] + [PhyRead(MII_CTRL1000)]
                               + [PhyRead(MII_LPA)] + [PhyRead(MII_ADVERTISE)]
  {
    var stat := phy.Read(MII_STAT1000);
    var ctrl := phy.Read(MII_CTRL1000);
    if GigabitMatch(stat, ctrl) {
      speed := 1000;
    } else {
      var lpa := phy.Read(MII_LPA);
      var adv := phy.Read(MII_ADVERTISE);
      if FastMatch(lpa, adv) {
        speed := 100;
      } else {
        speed := 10;
      }
    }
  }

  /** The link check: read the status register twice and look at the
      second value. */
  method CheckLink(phy: Phy) returns (up: bool)
    modifies phy
    ensures up == LinkUp(phy.script(MII_BMSR, |old(phy.trace)| + 1))
    ensures |phy.trace| == |old(phy.trace)| + 2
    ensures phy.trace == old(phy.trace) + [PhyRead(MII_BMSR)] + [PhyRead(MII_BMSR)]
  {
    var tmp := phy.Read(MII_BMSR);
    tmp := phy.Read(MII_BMSR);
    up := LinkUp(tmp);
  }

  /** The PHY part of Xgmac_init from phy_rst on: reset, wait for
      auto-negotiation, check the link and arbitrate the speed. */
  method BringUpLink(phy: Phy) returns (ok: bool, speed: int)
    modifies phy
    ensures var start := |old(phy.trace)| + 3;
      && ok == LinkComesUp(phy.script, start)
      && (ok ==> speed == NegotiatedSpeed(phy.script, start))
    ensures old(phy.trace) <= phy.trace
  {
    PhyRst(phy);
    ok, speed := Negotiate(phy);
  }

  /** Everything after phy_rst: the auto-negotiation wait, then, when it
      completes, the link check and the speed arbitration. */
  method Negotiate(phy: Phy) returns (ok: bool, speed: int)
    modifies phy
    ensures ok == LinkComesUp(phy.script, |old(phy.trace)|)
    ensures ok ==> speed == NegotiatedSpeed(phy.script, |old(phy.trace)|)
    ensures old(phy.trace) <= phy.trace
  {
    var done := WaitAutoneg(phy);
    if !done {
      return false, 0;
    }
    ok, speed := ConfirmLink(phy);
  }

  /** The link check, then, with the link up, the speed arbitration. */
  method ConfirmLink(phy: Phy) returns (up: bool, speed: int)
    modifies phy
    ensures up == LinkUp(phy.script(MII_BMSR, |old(phy.trace)| + 1))
    ensures up ==> speed == ArbitratedSpeed(phy.script, |old(phy.trace)| + 2)
    ensures old(phy.trace) <= phy.trace
  {
    up := CheckLink(phy);
    if !up {
      return false, 0;
    }
    speed := ResolveSpeed(phy);
  }

  /** The driver state of one GEM instance that link bring-up touches. */
  class Gem {
    const baseAddress: bv32
    const ep107: bool
    /** The PHY, reached through the management port of the GEM instance
        the configuration names. */
    const phy: Phy
    var initialized: bool
    // MAC registers
    var nwctrl: bv32
    var nwcfg: bv32
    var dmacr: bv32
    var idr: bv32
    /** Every Out32 store, in order. */
    var outLog: seq<MmioWrite>

    constructor(baseAddress: bv32, ep107: bool, phy: Phy)
      ensures this.baseAddress == baseAddress && this.ep107 == ep107 && this.phy == phy
      ensures !initialized && outLog == [] && nwctrl == 0 && nwcfg == 0 && dmacr == 0 && idr == 0
    {
      this.baseAddress := baseAddress;
      this.ep107 := ep107;
      this.phy := phy;
      initialized := false;
      nwctrl, nwcfg, dmacr, idr := 0, 0, 0, 0;
      outLog := [];
    }

    /** A volatile store followed by a memory barrier. */
    method Out32(addr: bv32, value: bv32)
      modifies this
      ensures outLog == old(outLog) + [MmioWrite(addr, value)]
      ensures initialized == old(initialized) && nwctrl == old(nwctrl) && nwcfg == old(nwcfg)
      ensures dmacr == old(dmacr) && idr == old(idr)
    {
      outLog := outLog + [MmioWrite(addr, value)];
    }

    /** Xgmac_set_eth_advertise (EP107 board): the NWCFG speed bit, then the
        abilities in PHY registers 4 and 9, on PHY page 0. */
    method SetEthAdvertise(speed: int)
      modifies this, phy
      ensures nwcfg == AdvertiseNwcfg(old(nwcfg), speed)
      ensures nwctrl == old(nwctrl) && dmacr == old(dmacr) && idr == old(idr)
      ensures initialized == old(initialized) && outLog == old(outLog)
      ensures phy.trace == old(phy.trace) + AdvertiseTrace(phy.script, |old(phy.trace)|, speed)
    {
      nwcfg := AdvertiseNwcfg(nwcfg, speed);
      AdvertiseOnPhy(phy, speed);
    }

    /** Select the clock registers of this instance and store, between SLCR
        unlock and lock, the MIO receive clock and the transmit clock word. */
    method ProgramClocks(speed: int)
      modifies this
      ensures outLog == old(outLog) + ClockWrites(baseAddress, ep107, speed)
      ensures initialized == old(initialized) && nwctrl == old(nwctrl) && nwcfg == old(nwcfg)
      ensures dmacr == old(dmacr) && idr == old(idr)
    {
      var rxClk, txClk;
      if baseAddress == GEM0_BASEADDR {
        rxClk := SYS_CTRL_BASEADDR + SLCR_GEM0_RCLK_CTRL;
        txClk := SYS_CTRL_BASEADDR + SLCR_GEM0_CLK_CTRL;
      } else {
        rxClk := SYS_CTRL_BASEADDR + SLCR_GEM1_RCLK_CTRL;
        txClk := SYS_CTRL_BASEADDR + SLCR_GEM1_CLK_CTRL;
      }
      Out32(SYS_CTRL_BASEADDR | SLCR_UNLOCK, SLCR_UNLOCK_KEY);
      Out32(rxClk, SLCR_GEMN_RCLK_CTRL_MIO);
      Out32(txClk, TxClockWord(speed, ep107));
      Out32(SYS_CTRL_BASEADDR | SLCR_LOCK, SLCR_LOCK_KEY);
    }

    /** The PHY set-up of Xgmac_init before phy_rst; on EP107 it ends with
        advertising every speed up to gigabit. */
    method SetUpPhy()
      modifies this, phy
      ensures phy.trace == old(phy.trace) + SetupTrace(phy.script, |old(phy.trace)|, ep107)
      ensures nwcfg == old(nwcfg)
      ensures nwctrl == old(nwctrl) && dmacr == old(dmacr) && idr == old(idr)
      ensures initialized == old(initialized) && outLog == old(outLog)
    {
      if ep107 {
        ConfigurePhyEp107(phy);
        SetEthAdvertise(1000);
      } else {
        ConfigurePhy(phy);
      }
    }

    /** The end of a successful Xgmac_init: the MAC speed bits, the clocks
        for the negotiated speed, and the instance marked initialized. */
    method ApplySpeed(speed: int)
      modifies this
      ensures nwcfg == NwcfgForSpeed(old(nwcfg), speed)
      ensures outLog == old(outLog) + ClockWrites(baseAddress, ep107, speed)
      ensures initialized
      ensures nwctrl == old(nwctrl) && dmacr == old(dmacr) && idr == old(idr)
    {
      nwcfg := NwcfgForSpeed(nwcfg, speed);
      ProgramClocks(speed);
      initialized := true;
    }

    /** The MAC part of Xgmac_init: DMA configuration, every interrupt
        masked, receive and transmit enabled. */
    method ConfigureMac()
      modifies this
      ensures dmacr == DMACR_INIT && idr == IDR_ALL
      ensures nwctrl == old(nwctrl) | (NWCTRL_RXEN_MASK | NWCTRL_TXEN_MASK)
      ensures nwcfg == old(nwcfg) && initialized == old(initialized) && outLog == old(outLog)
    {
      dmacr := DMACR_INIT;
      idr := IDR_ALL;
      nwctrl := nwctrl | (NWCTRL_RXEN_MASK | NWCTRL_TXEN_MASK);
    }

    /** The rest of Xgmac_init: set up the PHY, reset it and bring the link
        up; on success apply the negotiated speed and answer 0, otherwise
        answer -1 with the MAC speed bits and the clocks untouched. */
    method Connect() returns (status: int)
      modifies this, phy
      ensures var start := PollStart(|old(phy.trace)|, ep107);
        && (status == 0 || status == -1)
        && (status == 0 <==> LinkComesUp(phy.script, start))
        && (status == 0 ==> initialized)
        && (status == -1 ==> initialized == old(initialized))
        && (status == 0 ==> nwcfg == NwcfgForSpeed(old(nwcfg), NegotiatedSpeed(phy.script, start)))
        && (status == 0 ==> outLog == old(outLog) + ClockWrites(baseAddress, ep107, NegotiatedSpeed(phy.script, start)))
        && (status == -1 ==> nwcfg == old(nwcfg) && outLog == old(outLog))
      ensures old(phy.trace) + SetupTrace(phy.script, |old(phy.trace)|, ep107) <= phy.trace
      ensures nwctrl == old(nwctrl) && dmacr == old(dmacr) && idr == old(idr)
    {
      SetUpPhy();
      var ok, speed := BringUpLink(phy);
      if !ok {
        return -1;
      }
      ApplySpeed(speed);
      status := 0;
    }

    /** Xgmac_init. An instance already initialized answers 1 and touches
        nothing. Otherwise: configure the DMA, mask every interrupt, enable
        receive and transmit, set up the PHY (on EP107 also advertising
        every speed up to gigabit), reset it, and bring the link up; -1 when
        auto-negotiation stalls or the link is down, leaving the instance
        uninitialized. On success the MAC speed bits and the transmit clock
        follow the negotiated speed and the answer is 0. Whatever the
        outcome, the PHY accesses begin with those of the set-up. */
    method Init() returns (status: int)
      modifies this, phy
      ensures old(initialized) ==> status == 1 && unchanged(this) && unchanged(phy)
      ensures !old(initialized) ==>
        && dmacr == DMACR_INIT && idr == IDR_ALL
        && nwctrl == old(nwctrl) | (NWCTRL_RXEN_MASK | NWCTRL_TXEN_MASK)
      ensures !old(initialized) ==>
        var start := PollStart(|old(phy.trace)|, ep107);
        && (status == 0 || status == -1)
        && (status == 0 <==> LinkComesUp(phy.script, start))
        && initialized == (status == 0)
        && (status == 0 ==> nwcfg == NwcfgForSpeed(old(nwcfg), NegotiatedSpeed(phy.script, start)))
        && (status == 0 ==> outLog == old(outLog) + ClockWrites(baseAddress, ep107, NegotiatedSpeed(phy.script, start)))
        && (status == -1 ==> nwcfg == old(nwcfg) && outLog == old(outLog))
      ensures !old(initialized) ==>
        old(phy.trace) + SetupTrace(phy.script, |old(phy.trace)|, ep107) <= phy.trace
    {
      if initialized {
        return 1;
      }
      ConfigureMac();
      status := Connect();
    }
  }
}
