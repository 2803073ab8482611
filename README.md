# Zynq GEM polling Ethernet driver: model

This project models the core of the u-boot wrapper around the Xilinx Zynq
Gigabit Ethernet MAC (GEM), `drivers/net/zynq_gem_wrap.c`. The driver works
by polling; it uses no interrupts. The model covers two parts.

- **The receive descriptor ring.** Hardware writes received frames into
  buffers that a circular array of two-word descriptors points at.
  - `Xgmac_init_rxq` clears the ring.
  - `Xgmac_make_rxbuff_mem` cuts a buffer pool into slots.
  - `Xgmac_process_rx` checks one descriptor, copies its frame into the
    staging buffer and passes it to the network stack.
  - `Xgmac_next_rx_buf` hands the descriptors back to hardware and moves
    the cursor.
  - `Xgmac_rx` drains the ring.
- **Link bring-up (`Xgmac_init`).** This covers:
  - the already-initialized guard;
  - the MAC set-up and the PHY set-up (with the EP107 variant and
    `Xgmac_set_eth_advertise`);
  - the PHY reset (`phy_rst`);
  - the bounded auto-negotiation poll and the double-read link check;
  - the speed arbitration over the IEEE 802.3 clause 22 registers and the
    1000BASE-T registers 9 and 10 (section 40.5.1.1 of IEEE 802.3);
  - the MAC speed bits;
  - the SLCR transmit clock word, written between the SLCR unlock and lock.

Modules:

- `Descriptor` (descriptor.dfy): the descriptor words, their bit fields and
  the acceptance test of `Xgmac_process_rx`.
- `RxSpec` (rx_spec.dfy): the ring as a value. It holds `Advance` (one call
  of `Xgmac_next_rx_buf`) and `Drain` (the do-while of `Xgmac_rx`), with
  their lemmas.
- `RxRing` (rx_ring.dfy): class `RxBdRing`. It holds the descriptor array,
  the cursors, bus memory, the staging buffer and the log of delivered
  frames. Each routine is proved against `RxSpec`.
- `Mii` (mii.dfy): PHY register numbers and bits, as defined in IEEE 802.3
  clause 22 and clause 40.
- `LinkSpec` (link_spec.dfy): the speed choice, the NWCFG updates, the
  clock words and the advertisement bits, as functions with lemmas.
- `PhyBus` (phy.dfy): the PHY as a scripted register file that records
  every management access.
- `LinkInit` (link_init.dfy): the PHY routines as methods over `Phy`, and
  class `Gem` for the MAC state and `Xgmac_init`.

Where the code and the intended design differ, the model follows the code.

- **A refused descriptor is not recycled.** `Xgmac_process_rx` returns
  before it calls `Xgmac_next_rx_buf`. So a descriptor it refuses for a
  missing SOF or EOF bit, a zero length or a NULL buffer stays owned by
  software, with its NEW bit set. The cursor does not move, and every later
  poll stops at the same slot (`RxSpec.DrainStalls`). A slot refused because
  its NEW bit is clear is still hardware's, waiting for a frame.
- **`phy_rst` waits for at most one read.** It reuses the control register
  value it wrote as its poll counter. That value has bit 15 set, so the
  counter is already past 1000 (`LinkInit.WithReset`). The
  routine gives up after one read, and `Xgmac_init` carries on either way.
- **The EOF test sees the released status word.** In `Xgmac_next_rx_buf`,
  a slot without SOF has its status word overwritten before the EOF test.
  So the last descriptor of a multi-descriptor frame never releases the
  frame's first slot (`RxSpec.AdvanceCases`).
- **An initialized instance answers 1.** `Xgmac_init` on an instance that
  is already initialized returns 1, not 0, and touches nothing.

A PHY read may return any 32-bit word in the model. `phy_rd` only ever
returns 16-bit register contents zero-extended, so every proof covers
those reads too. Time on the PHY side is counted in management accesses.
What a read returns is `script(register, access number)`, so a proof holds
for every behaviour of the PHY and the link partner.

## Model

| member | source | states |
|---|---|---|
| Descriptor.FrameLength | drivers/net/zynq_gem_wrap.c:656-660 | the frame length is the 13-bit length field, and it is zero exactly when that field is zero |
| Descriptor.Released | drivers/net/zynq_gem_wrap.c:764-765 | a released descriptor has NEW clear, no SOF, no EOF and length 0, and keeps its buffer address and wrap bit |
| Descriptor.SetAddressRx | drivers/net/zynq_gem_wrap.c:729-731 | storing an aligned buffer address sets the address field to it, keeps the NEW and wrap bits and leaves the status word alone |
| Descriptor.SetRxWrap | drivers/net/zynq_gem_wrap.c:739-740 | setting the wrap bit keeps the NEW bit, the address and the status word |
| Descriptor.Inspect | drivers/net/zynq_gem_wrap.c:640-666 | a descriptor is accepted exactly when NEW, SOF and EOF are set, the length is nonzero and the buffer address is nonzero; it is refused as not new exactly when NEW is clear |
| Descriptor.ReleasedNotDeliverable | drivers/net/zynq_gem_wrap.c:641-643 | a released descriptor is refused as not new, so it is never delivered again until hardware refills it |
| RxSpec.NextIndex | drivers/net/zynq_gem_wrap.c:774-776 | the cursor step is `(current + 1) mod Length` |
| RxSpec.Advance | drivers/net/zynq_gem_wrap.c:759-776 | one recycle step keeps the ring well formed and moves the cursor to `(current + 1) mod Length` |
| RxSpec.AdvanceWrites | drivers/net/zynq_gem_wrap.c:759-772 | at most two slots change, the current one and the frame's first one, and each slot that changes is released |
| RxSpec.AdvanceCases | drivers/net/zynq_gem_wrap.c:760-772 | a non-SOF slot is released and the first-buffer cursor stays; it never releases a different first slot. An SOF slot becomes the first buffer and is released only when it is also EOF |
| RxSpec.AdvanceKeepsLayout | drivers/net/zynq_gem_wrap.c:764-771 | recycling keeps every slot's buffer address and wrap bit |
| RxSpec.AdvanceKeepsOneWrap | drivers/net/zynq_gem_wrap.c:759-772 | when only the last slot has the wrap bit, that stays true after a step |
| RxSpec.AdvanceN | drivers/net/zynq_gem_wrap.c:745-779 | repeated steps keep the ring well formed and its length |
| RxSpec.AdvanceNCursor | drivers/net/zynq_gem_wrap.c:774-776 | `k <= Length` steps move the cursor `k` slots forward, wrapping at most once |
| RxSpec.CursorReturns | drivers/net/zynq_gem_wrap.c:774-776 | `Length` consecutive steps bring the cursor back to its starting slot |
| RxSpec.CountNewRelease | drivers/net/zynq_gem_wrap.c:764-765 | releasing a software-owned slot lowers the number of software-owned slots by one |
| RxSpec.AdvanceDeliverable | drivers/net/zynq_gem_wrap.c:760-772 | a step past an SOF and EOF slot releases exactly that slot, makes it the first buffer, and lowers the number of software-owned slots by one |
| RxSpec.FrameOf | drivers/net/zynq_gem_wrap.c:662-667 | the copied frame is exactly the frame's length, nonzero and at most one receive buffer |
| RxSpec.Drain | drivers/net/zynq_gem_wrap.c:555-557 | the do-while stops on a slot it refuses; frames delivered plus software-owned slots left equal the software-owned slots at the start; every frame is 1 to 1536 bytes |
| RxSpec.DrainUnfold | drivers/net/zynq_gem_wrap.c:555-557 | one turn of the do-while: a refused slot ends it with nothing delivered, and an accepted one delivers its frame ahead of the rest |
| RxSpec.DrainStalls | drivers/net/zynq_gem_wrap.c:641-643 | after a drain, a further drain over the same descriptors delivers nothing and changes nothing |
| RxSpec.DrainKeepsLayout | drivers/net/zynq_gem_wrap.c:555-557 | a whole drain keeps every slot's wrap bit and buffer address (the recycling at :759-772 only rewrites NEW and the status word) |
| RxSpec.DrainKeepsOneWrap | drivers/net/zynq_gem_wrap.c:555-557 | a ring whose only wrap bit is on its last slot still has exactly that one after a drain |
| RxSpec.FrameSlotFacts | drivers/net/zynq_gem_wrap.c:640-666 | a single-buffer frame descriptor with an aligned, nonzero address is accepted exactly when its length is nonzero |
| RxSpec.ThreeSlotExample | drivers/net/zynq_gem_wrap.c:555-557 | frames of 64, 1500 and 0 bytes: the first two are delivered with their bytes, and the drain stops on the zero-length slot, still software-owned |
| RxRing.ChunkAligned | drivers/net/zynq_gem_wrap.c:729-731 | `ChunkAddress(start, k)`, the address of the k-th buffer of a pool at `start`, is 4-byte aligned when the pool is, so word 0's address mask keeps it intact |
| RxRing.ChunkCountBounds | drivers/net/zynq_gem_wrap.c:719 | `ChunkCount(size)` is the number of whole 1536-byte buffers in the pool: that many fit in `size` bytes and one more would not |
| RxRing.Armed | drivers/net/zynq_gem_wrap.c:729-740 | an armed slot carries its chunk's address, keeps its NEW bit and status word, and has the wrap bit when asked |
| RxRing.RxBdRing.InitRxq | drivers/net/zynq_gem_wrap.c:674-700 | returns -1 and changes nothing when the element count is not in 1..8; otherwise clears the first `num_elem` slots to (0, 0xF0000000), leaves the others alone, resets the three cursors, sets the length, points RXQBASE at the ring and returns 0 |
| RxRing.RxBdRing.ZeroBytes | drivers/net/zynq_gem_wrap.c:724-725 | zeroes exactly the given byte range of bus memory |
| RxRing.RxBdRing.AssignChunk | drivers/net/zynq_gem_wrap.c:723-734 | zeroes the i-th chunk, stores its address into the slot at `RxBD_end` and advances `RxBD_end` |
| RxRing.RxBdRing.MakeRxbuffMem | drivers/net/zynq_gem_wrap.c:702-743 | returns -1 for a NULL pool; otherwise fills `min(chunks, Length - RxBD_end)` slots with consecutive chunk addresses and zeroes those chunks; sets the wrap bit on the last filled slot only when every chunk found a slot |
| RxRing.RxBdRing.FillSlots | drivers/net/zynq_gem_wrap.c:722-738 | the slot loop assigns chunks until they run out or the ring is full, and reports how many it assigned |
| RxRing.RxBdRing.ReleaseSlot | drivers/net/zynq_gem_wrap.c:764-765 | the slot becomes its released form and nothing else changes |
| RxRing.RxBdRing.NextRxBuf | drivers/net/zynq_gem_wrap.c:745-779 | the ring after the call is `Advance` of the ring before it, and the call returns 0 |
| RxRing.RxBdRing.CopyFrame | drivers/net/zynq_gem_wrap.c:667 | the first `n` bytes of the staging buffer are the `n` bus bytes from the source address; the rest is unchanged |
| RxRing.RxBdRing.Deliver | drivers/net/zynq_gem_wrap.c:667-669 | copies the frame, advances the ring once and appends the frame to the delivered log |
| RxRing.RxBdRing.ProcessRx | drivers/net/zynq_gem_wrap.c:630-672 | returns 0 exactly when the current descriptor is acceptable. On -1 the ring, the log and the staging buffer are unchanged. On 0 the frame is copied, the ring is advanced once and the frame is delivered |
| RxRing.RxBdRing.Rx | drivers/net/zynq_gem_wrap.c:543-566 | without the frame-received bit nothing changes; with it, the ring and the delivered frames are exactly those of `Drain`; a ring with one wrap bit, on its last slot, keeps it; the status is written back and the answer is 1 |
| RxRing.RxBdRing.DrainRing | drivers/net/zynq_gem_wrap.c:555-557 | running `Xgmac_process_rx` until it refuses a slot leaves the ring and the delivered frames of `Drain` |
| RxRing.RxBdRing.DrainStep | drivers/net/zynq_gem_wrap.c:555-557 | one turn: a refusal ends the drain where it stands with nothing delivered; a delivery is the drain's first frame, the drain of the advanced ring gives the rest, and one fewer slot is software-owned |
| RxRing.RxBdRing.SetupRx | drivers/net/zynq_gem_wrap.c:180-194 | with a non-NULL pool of RXBD_CNT buffers, the ring is initialised with RXBD_CNT slots, all of them filled; for a 4-byte-aligned pool every slot is hardware-owned, the slots hold consecutive chunk addresses, and only the last has the wrap bit |
| RxRing.ReleasedSlots | drivers/net/zynq_gem_wrap.c:683-687 | slots with NEW clear leave no slot software-owned |
| LinkSpec.GigabitMask | drivers/net/zynq_gem_wrap.c:355-358 | the shifted-mask test is exactly "a gigabit duplex mode both ends support" |
| LinkSpec.FastMask | drivers/net/zynq_gem_wrap.c:362-366 | the masked test is exactly "a 100 Mbit/s duplex mode both ends support" |
| LinkSpec.LinkSpeed | drivers/net/zynq_gem_wrap.c:353-370 | the speed is 10, 100 or 1000. It is 1000 iff a gigabit mode is common; otherwise 100 iff a 100 Mbit/s mode is common; otherwise 10 |
| LinkSpec.TxClockWord | drivers/net/zynq_gem_wrap.c:424-445 | every transmit clock word has the clock-active bit 0 set; its divisors and source are stated by the three lemmas below |
| LinkSpec.NwcfgForSpeed | drivers/net/zynq_gem_wrap.c:372-384 | for the chosen speed, bit 0 (100 Mbit/s) ends up clear iff the speed is 10, bit 0x400 (gigabit) set iff it is 1000, and every other NWCFG bit is kept |
| LinkSpec.TxClockDividesPll | drivers/net/zynq_gem_wrap.c:435-444 | off EP107, each speed's word selects the IO PLL, and its two divisors take 1000 MHz exactly to 125, 25 or 2.5 MHz |
| LinkSpec.Ep107ClockSources | drivers/net/zynq_gem_wrap.c:424-433 | on EP107 the divisors are 48 and 1, and the source select is 1, 0 or 3 for 1000, 100 or 10 |
| LinkSpec.TxClockWordsDistinct | drivers/net/zynq_gem_wrap.c:424-445 | different speeds never get the same clock word |
| LinkSpec.AdvertiseNwcfg | drivers/net/zynq_gem_wrap.c:787-794 | advertising 10 clears NWCFG bit 0, advertising 100 sets it, any other speed (gigabit among them) writes NWCFG back unchanged; no other bit ever changes |
| LinkSpec.AdvertiseAbilities | drivers/net/zynq_gem_wrap.c:799-814 | the 100 Mbit/s modes of register 4 are advertised iff the speed is at least 100, the 10 Mbit/s modes iff it is at least 10; the other bits are kept |
| LinkSpec.AdvertiseGigabit | drivers/net/zynq_gem_wrap.c:817-825 | both gigabit modes of register 9 are advertised iff the speed is 1000; the other bits are kept |
| LinkSpec.AdvertisedSpeedWins | drivers/net/zynq_gem_wrap.c:799-825 | against a partner that offers every mode, arbitration over the advertised registers picks exactly the advertised speed |
| LinkInit.ClockWrites | drivers/net/zynq_gem_wrap.c:412-448 | four stores, the unlock first and the lock last, and the two in between go to this instance's receive and transmit clock registers |
| LinkInit.ClockWritesBracketed | drivers/net/zynq_gem_wrap.c:412-448 | the clock stores start with the unlock and end with the lock; the speed's transmit clock word goes to this instance's register strictly in between; nothing in between touches the lock registers or the other instance's clock registers |
| LinkInit.WithPause | drivers/net/zynq_gem_wrap.c:294-297 | both pause bits get set and every other bit of register 4 is kept |
| LinkInit.WithExtControl | drivers/net/zynq_gem_wrap.c:302-307 | the downshift and RGMII delay bits get set and every other bit of register 20 is kept |
| LinkInit.WithAutoneg | drivers/net/zynq_gem_wrap.c:311-316 | auto-negotiation gets enabled; on EP107 full duplex too, elsewhere the duplex bit is left as it was; every other bit is kept |
| LinkInit.AnegPollsFrom | drivers/net/zynq_gem_wrap.c:328-335 | the poll makes at least one read and never goes past its last allowed read |
| LinkInit.AnegPolls | drivers/net/zynq_gem_wrap.c:327-335 | the auto-negotiation poll makes between 1 and 1001 status reads |
| LinkInit.AnegPollsFromFirst | drivers/net/zynq_gem_wrap.c:328-335 | the poll stops at the first read reporting completion, and gives up only after every allowed read reported it incomplete |
| LinkInit.AnegSucceedsIff | drivers/net/zynq_gem_wrap.c:327-335 | the poll succeeds iff one of its 1001 possible reads reports completion; a failed poll makes all 1001 reads |
| LinkInit.StalledAutonegFails | drivers/net/zynq_gem_wrap.c:331-334 | when no read within the cap reports completion, the poll makes 1001 reads and bring-up fails |
| LinkInit.ResetPolls | drivers/net/zynq_gem_wrap.c:136-143 | the reset poll makes at least one read, and exactly one once the counter has reached the cap |
| LinkInit.WithReset | drivers/net/zynq_gem_wrap.c:132-134 | the reset bit gets set and every other bit is kept; as a counter the value is at least 0x8000, far above the cap of 1000 |
| LinkInit.ArbitratedSpeed | drivers/net/zynq_gem_wrap.c:353-370 | the speed read off the PHY is 10, 100 or 1000 |
| LinkInit.NegotiatedSpeed | drivers/net/zynq_gem_wrap.c:353-370 | the speed Xgmac_init settles on is 10, 100 or 1000 |
| LinkInit.SetupTrace | drivers/net/zynq_gem_wrap.c:283-322 | the PHY set-up makes 4 management accesses, 14 on EP107 (the count the poll's first read is placed by) |
| LinkInit.PhyRst | drivers/net/zynq_gem_wrap.c:127-145 | reads the control register, writes it back with the reset bit set, and reads it exactly once more |
| LinkInit.WaitResetClear | drivers/net/zynq_gem_wrap.c:136-143 | the poll reads the control register exactly as many times as `ResetPolls` counts |
| LinkInit.AdvertiseOnPhy | drivers/net/zynq_gem_wrap.c:796-825 | selects page 0, then rewrites register 4 and register 9 with the advertised abilities for the speed |
| LinkInit.ConfigureEp107 | drivers/net/zynq_gem_wrap.c:292-308 | adds the pause abilities to register 4 and the downshift and delay bits to register 20 |
| LinkInit.ConfigurePhy | drivers/net/zynq_gem_wrap.c:287-316 | reads both identification registers, then enables auto-negotiation in the control register |
| LinkInit.ConfigurePhyEp107 | drivers/net/zynq_gem_wrap.c:283-316 | page 0, identification, the EP107 updates, then auto-negotiation and full duplex enabled: nine accesses in this order, each write carrying the value read back with its bits updated |
| LinkInit.WaitAutoneg | drivers/net/zynq_gem_wrap.c:327-335 | reads the status register exactly `AnegPolls` times and reports success exactly when the poll succeeds |
| LinkInit.ResolveSpeed | drivers/net/zynq_gem_wrap.c:353-370 | returns the arbitrated speed; it reads registers 10 and 9, and registers 5 and 4 only when no gigabit mode is common |
| LinkInit.CheckLink | drivers/net/zynq_gem_wrap.c:337-346 | reads the status register twice; the link is up exactly when the second read shows link status |
| LinkInit.BringUpLink | drivers/net/zynq_gem_wrap.c:323-370 | after the reset, succeeds exactly when auto-negotiation completes within the cap and the link is up, and then returns the negotiated speed |
| LinkInit.Negotiate | drivers/net/zynq_gem_wrap.c:327-370 | succeeds exactly when the link comes up, and then returns the negotiated speed |
| LinkInit.ConfirmLink | drivers/net/zynq_gem_wrap.c:337-370 | the link is up exactly when the second status read says so, and the speed is then the arbitrated one |
| LinkInit.Gem.Out32 | drivers/net/zynq_gem_wrap.c:147-151 | appends exactly one store to the log and changes no register field |
| LinkInit.Gem.SetEthAdvertise | drivers/net/zynq_gem_wrap.c:782-827 | updates the NWCFG speed bit for the speed, then selects PHY page 0 and rewrites registers 4 and 9 with the abilities for the speed |
| LinkInit.Gem.ProgramClocks | drivers/net/zynq_gem_wrap.c:386-448 | stores unlock, receive clock, transmit clock word and lock to this instance's registers, and nothing else |
| LinkInit.Gem.SetUpPhy | drivers/net/zynq_gem_wrap.c:283-322 | the PHY accesses are exactly `SetupTrace`: which registers are read and written, in order, and each value written (BMCR with auto-negotiation, on EP107 also full duplex, the pause and extended-control bits and the gigabit advertisement); NWCFG is left as it was, since on EP107 `Xgmac_set_eth_advertise(1000)` reads it and writes it back unchanged |
| LinkInit.Gem.ApplySpeed | drivers/net/zynq_gem_wrap.c:372-453 | sets the NWCFG speed bits and the clocks for the speed, then marks the instance initialized |
| LinkInit.Gem.ConfigureMac | drivers/net/zynq_gem_wrap.c:265-279 | sets the DMA configuration, masks every interrupt and enables receive and transmit, leaving the other fields alone |
| LinkInit.Gem.Connect | drivers/net/zynq_gem_wrap.c:283-453 | set-up, reset and bring-up: 0 exactly when the link comes up, with the speed bits and clocks of the negotiated speed and the instance initialized; -1 otherwise with NWCFG unchanged and no SLCR store; the PHY accesses begin with `SetupTrace` |
| LinkInit.Gem.Init | drivers/net/zynq_gem_wrap.c:248-454 | an initialized instance gets 1 and nothing changes. Otherwise the DMA, interrupt and enable registers are set. The result is 0 exactly when the link comes up, and -1 otherwise. `initialized` is set only on 0. On 0 the NWCFG bits and the SLCR stores follow the negotiated speed; on -1 NWCFG is unchanged and no SLCR store is made. The PHY accesses begin with exactly those of the set-up (`SetupTrace`) |
| PhyBus.Phy.Read | drivers/net/zynq_gem_wrap.c:108-117 | a management read returns the scripted value for this register at this access, and is recorded |
| PhyBus.Phy.Write | drivers/net/zynq_gem_wrap.c:119-125 | a management write is recorded with its value |

## Left out

- `Xgmac_send` (transmit) is not modelled. The transmit ring lives in the
  XEmacPss library, which is not part of this model.
- `Xgmac_one_time_init` is modelled only for its receive part
  (`RxRing.RxBdRing.SetupRx`). The library configuration, the transmit ring
  and the MAC set-up there are library calls or plain stores.
- EMIO clock routing (`CONFIG_ZYNQ_GEMn_EMIO`) is not modelled: its
  register offsets are board configuration that is not part of this model.
  `ProgramClocks` models the MIO branch.
- The NULL instance checks of `Xgmac_make_rxbuff_mem` and
  `Xgmac_next_rx_buf` are not modelled. A Dafny receiver is never null; the
  NULL pool check is modelled (address 0).
- `udelay`, the `dmb` barrier and the `puts`/`printf` messages are left
  out. Time is counted in PHY accesses instead.
- The MDIO busy wait (`phy_spinwait`, `Xgmac_phy_mgmt_idle`) is left out.
  A PHY read or write is one atomic access.
- DMA concurrency is left out. Descriptors and bus memory are a frozen
  snapshot while a routine runs.
- Device registration, the mii read and write glue, `zynq_gem_get_phyaddr`,
  `Xgmac_halt` and `Xgmac_write_hwaddr` are not modelled. They are glue to
  the u-boot device and PHY registries.
- The PHY does not read back what the driver wrote. Every read returns the
  script's value, so the proofs hold for any PHY behaviour.
- RxRing.RxBdRing.ProcessRx requires the frame to fit bus memory and the
  1536-byte staging buffer. The driver does not check this, and a larger
  length would overrun `data_buffer`.
- RxRing.RxBdRing.Rx requires every deliverable slot to fit (`AllFit`),
  for the same reason.
- LinkInit.Gem.Init states the set-up's PHY accesses in full
  (`SetupTrace`) and places the poll by their count (`PollStart`). The
  accesses after the set-up are stated step by step in the contracts of
  `PhyRst`, `WaitAutoneg`, `CheckLink` and `ResolveSpeed`, not as one trace
  in the contract of `Init`.
- LinkInit.Gem.Init models the MAC registers as fields that read back what
  was written. Its contract holds for any register values before the call;
  the constructor happens to start them at 0.
- RxRing.ChunkAddress: its value as an integer, `start + k * 1536` modulo
  2^32, is given by its definition only. The contract proved about it is
  the alignment (`ChunkAligned`), because relating 32-bit and integer
  arithmetic is beyond what the solver proves in reasonable time.
- The register constants (descriptor masks, GEM and SLCR offsets, clause 22
  bits) come from the Xilinx headers and `linux/mii.h`. Those files are not
  part of this model; the values used are those of the Zynq-7000 GEM and
  IEEE 802.3.
