# CIU secure element devices

A Dafny model of three register-driven devices of the CIU secure-element
system-on-chip as QEMU emulates it:

- **The two-region NVM controller** (`ciu_nvm.c`). Three key registers must
  each hold their sentinel before the flash unlocks. Word writes to the user
  code or user param window are staged, big-endian, into a 512-byte page
  buffer, and the controller remembers the region and address of the last
  staged word. A write to the opcode register whose upper 28 bits are the
  magic value then runs one operation on the staged page:
  - opcode 2 erases the page buffer;
  - opcode 10 erases the page;
  - opcodes 4, 5, 12 and 14 program the page from the buffer.

  Each operation that runs raises the interrupt flag eint. A write to
  register 0x00 clears it, but only when bit 1 of the written data is clear.
- **The older NVM controller built into the system-on-chip** (`ciu_se.c`).
  It has the same logic at offsets 0x80–0xA8 over a single flash region,
  and no region check. Beside it sits a sysclk register at 0x208, which
  packs a divider field and a source-select bit and sets the clock rate.
- **The UART** (`ciu_uart.c`; `ciu_se.c` carries an identical copy, modelled
  once). It has a one-byte receive register and a status register with the
  RXINT (byte waiting) and TXINT (transmit done) flags. Bytes go out to a
  character backend, and the backend may only deliver a byte while RXINT is
  clear.

Each device comes in two files:

- A **value model** (`CiuNvmSpec`, `CiuSeSpec`, `CiuUartSpec`). Every handler
  is a function from the state before a guest access to the state after it.
  The lemmas prove the guest-visible rules against these functions.
- A **device class** (`CiuNvm.NvmController`, `CiuSe.SeController`,
  `CiuUart.Uart`). Its fields, arrays and handler methods update the state
  in place, as the C code does. Each method's postcondition ties the new
  state to the value model.

The UART class also keeps a ghost trace `output` of every byte handed to the
backend.

Shared pieces:

- `NvmRules` holds what both NVM controllers share: key bits, the magic
  trigger, the page guard, big-endian words and the opcode switch.
- `Memory` holds the model's `memset` and `memcpy`: the loops `Fill` and
  `Copy` over arrays, and the functions `Filled` and `Overwritten` that
  specify them.

Representation:

- Register data is `bv32`. Bytes, the key state and eint are `bv8`.
- Addresses and sizes are unbounded naturals. The uint32 limits of the
  source appear as preconditions and invariants.

## Model

| member | source | states |
|---|---|---|
| Memory.Filled | hw/arm/ciu_nvm.c:55 | every byte inside the filled range holds the fill value and every byte outside it is unchanged |
| Memory.Overwritten | hw/arm/ciu_nvm.c:68 | bytes inside the copied range come from the source at the matching offset; the rest are unchanged |
| Memory.OverwrittenTwice | hw/arm/ciu_nvm.c:144-148 | copying `a` and then `b` right after it equals copying `a + b` (the basis for staging word after word) |
| Memory.Fill | hw/arm/ciu_nvm.c:60 | the array afterwards equals `Filled` of its old contents |
| Memory.Copy | hw/arm/ciu_nvm.c:68 | copying the first n bytes of the source leaves the destination equal to `Overwritten` of its old contents by those n bytes |
| NvmRules.SetKeyBit | hw/arm/ciu_nvm.c:104-115 | the chosen key bit becomes the match result; every other bit is kept; a state within 0..7 stays within 0..7 |
| NvmRules.OtherKeyBitUnchanged | hw/arm/ciu_nvm.c:104-115 | a change confined to key k's mask leaves the bit of every other key as it was |
| NvmRules.UnlockedIffAllKeys | hw/arm/ciu_nvm.c:28 | within 0..7 the key state is 7 exactly when all three key bits are set |
| NvmRules.DecodeTrigger | hw/arm/ciu_nvm.c:99-103 | an opcode is decoded exactly when the upper 28 bits equal 0x57AF6C00; the opcode is below 16 and the data is the magic value or'ed with it |
| NvmRules.PageBase | hw/arm/ciu_nvm.c:45 | `addr & ~511` is a multiple of 512, at most addr, and within 512 below it |
| NvmRules.GuardsAgree | hw/arm/ciu_nvm.c:45-50 | for a size that is a multiple of 512, the guard "page base below size" passes exactly when the whole page lies inside, so no erase or program is cut short |
| NvmRules.AsWrittenGuardOverruns | hw/arm/ciu_nvm.c:45-46 | with size 1000 and address 996 the guard passes while the page reaches byte 1024; the part of it inside the region is 488 bytes |
| NvmRules.PageSpan | hw/arm/ciu_nvm.c:45-68 | for a page base below the size, the bytes of the page inside the region number between 1 and 512, all 512 exactly when the page fits, and otherwise run up to the end of the region |
| NvmRules.WordOfBigEndian | hw/arm/ciu_nvm.c:145-148 | the four stored bytes read back, most significant first, as the word |
| NvmRules.BigEndianOfWord | hw/arm/ciu_nvm.c:145-148 | four bytes read as a word and split again are the same bytes |
| NvmRules.AlignedSlot | hw/arm/ciu_nvm.c:144 | a 4-aligned address taken modulo 512 is a 4-aligned slot that fits in the page buffer |
| NvmRules.KindOf | hw/arm/ciu_nvm.c:53-74 | opcode 2 is the buffer erase, 10 the page erase, and 4, 5, 12 and 14 the page program, each exactly those opcodes; all others are unimplemented |
| NvmRules.StoreWord | hw/arm/ciu_nvm.c:144-148 | a staging store keeps the buffer at 512 bytes |
| NvmRules.StoreWordReadsBack | hw/arm/ciu_nvm.c:144-148 | after a store the slot at `addr mod 512` holds the big-endian bytes and reads back as the word; the other 508 bytes are unchanged |
| NvmRules.WordsBytesAt | hw/arm/ciu_nvm.c:144-148 | word i of a staged sequence occupies bytes 4i..4i+4 |
| NvmRules.Execute | hw/arm/ciu_nvm.c:53-74 | opcode 2 gives an all-0xFF buffer; 10 sets to 0xFF every byte of the storage from the page base to base + 512; 4/5/12/14 copy the matching buffer bytes there; each sets eint; every other byte is kept, and any other opcode changes nothing |
| NvmRules.ProgramOpcodesAlias | hw/arm/ciu_nvm.c:64-70 | the four program opcodes give the same result |
| CiuNvmSpec.Realize | hw/arm/ciu_nvm.c:165-194 | both regions have their configured sizes and are all 0xFF; the key state is 0, so the controller is locked, eint is 0 and the invariant holds |
| CiuNvmSpec.Reset | hw/arm/ciu_nvm.c:158-163 | reset zeroes the key state, which locks the controller, clears eint, and keeps every other field |
| CiuNvmSpec.Operate | hw/arm/ciu_nvm.c:22-75 | a rejected operation changes nothing; no operation changes the keys, the staging target or the size of either region |
| CiuNvmSpec.RegsRead | hw/arm/ciu_nvm.c:77-89 | only 0x00 reads nonzero; it reads 0 while eint is 0 and 2 while eint is 1 |
| CiuNvmSpec.RegsWrite | hw/arm/ciu_nvm.c:91-122 | no register write moves the staging target; only 0x04 reaches the regions or the page buffer, only 0x04 and 0x00 reach eint, and only 0x20/0x24/0x28 reach the key state |
| CiuNvmSpec.FlashWrite | hw/arm/ciu_nvm.c:130-149 | a staging write never changes either region |
| CiuNvmSpec.OperateKeepsInv | hw/arm/ciu_nvm.c:22-75 | an operation keeps key state within 0..7, eint within 0..1 and the sizes |
| CiuNvmSpec.InvPreserved | hw/arm/ciu_nvm.c:91-163 | reset, every register write and every staging write keep the invariant |
| CiuNvmSpec.RegsWriteKeepsInv | hw/arm/ciu_nvm.c:91-122 | every register write keeps the invariant |
| CiuNvmSpec.KeyRegisterWrite | hw/arm/ciu_nvm.c:104-115 | a write to 0x20/0x24/0x28 sets key bit 0/1/2 to whether the data is its sentinel, keeps the other bits, keeps the state within 0..7 and changes nothing else |
| CiuNvmSpec.KeyRegisterDecodes | hw/arm/ciu_nvm.c:104-115 | the three key registers are decoded through the same bit update |
| CiuNvmSpec.KeyBitAfterWrites | hw/arm/ciu_nvm.c:91-122 | after any sequence of register writes, a key bit is set exactly when the last write to its register carried its sentinel (or it was set before, with no such write) |
| CiuNvmSpec.KeyBitStep | hw/arm/ciu_nvm.c:91-122 | one register write changes a key bit only if it goes to that key's register |
| CiuNvmSpec.OtherKeyWrite | hw/arm/ciu_nvm.c:104-115 | a write to one key register keeps the other two key bits |
| CiuNvmSpec.NonKeyWriteKeepsKeys | hw/arm/ciu_nvm.c:94-121 | every register write other than to 0x20, 0x24 and 0x28 keeps the key state |
| CiuNvmSpec.UnlockedAfterWrites | hw/arm/ciu_nvm.c:104-115 | after any sequence of writes from a reachable state, the controller is unlocked exactly when each key's last write matched |
| CiuNvmSpec.ApplyWritesKeepsInv | hw/arm/ciu_nvm.c:91-122 | any sequence of register writes keeps the invariant |
| CiuNvmSpec.UnlockSequence | hw/arm/ciu_nvm.c:104-115 | writing the three sentinels to the three key registers unlocks the controller from any reachable state |
| CiuNvmSpec.WrongKeyLocks | hw/arm/ciu_nvm.c:104-115 | a wrong value in any key register leaves the controller locked |
| CiuNvmSpec.TriggerGate | hw/arm/ciu_nvm.c:99-103 | a write to 0x04 runs opcode `data & 0xF` when the upper 28 bits are the magic value and changes nothing otherwise |
| CiuNvmSpec.OperateRejects | hw/arm/ciu_nvm.c:28-50 | an operation changes nothing while locked, for a region other than 1 and 2, or when the page base is not below the region size |
| CiuNvmSpec.BufferEraseEffect | hw/arm/ciu_nvm.c:54-57 | opcode 2 makes the page buffer all 0xFF, sets eint and changes nothing else |
| CiuNvmSpec.PageEraseEffect | hw/arm/ciu_nvm.c:59-62 | opcode 10 sets to 0xFF exactly the bytes of the staged region that lie in the staged page and sets eint; every other byte of both regions and every other field is unchanged |
| CiuNvmSpec.PageProgramEffect | hw/arm/ciu_nvm.c:64-70 | opcodes 4/5/12/14 copy the page buffer verbatim over exactly the bytes of the staged region in the staged page and set eint; nothing else changes |
| CiuNvmSpec.ProgramOpcodesIdentical | hw/arm/ciu_nvm.c:64-67 | the four program opcodes have the same effect on every state |
| CiuNvmSpec.OtherOpcodesIgnored | hw/arm/ciu_nvm.c:72-73 | every other opcode changes nothing, eint included |
| CiuNvmSpec.OperateInBounds | hw/arm/ciu_nvm.c:45-50 | for an unlocked region whose size is a multiple of 512, an accepted operation finds the whole page inside the region, so erase and program cover all 512 bytes |
| CiuNvmSpec.DefaultSizesArePages | hw/arm/ciu_nvm.c:213-214 | both default sizes, 0x49000 and 512, are multiples of 512 |
| CiuNvmSpec.FlashWriteLocked | hw/arm/ciu_nvm.c:134-137 | a staging write while locked changes nothing |
| CiuNvmSpec.FlashWriteEffect | hw/arm/ciu_nvm.c:139-148 | while unlocked a staging write records the window's region and the address, stores the big-endian word at `addr mod 512`, and keeps the other 508 bytes, the keys, eint and storage |
| CiuNvmSpec.StageKeeps | hw/arm/ciu_nvm.c:130-149 | staging any words keeps the keys, eint and both regions |
| CiuNvmSpec.StageTarget | hw/arm/ciu_nvm.c:139-140 | while unlocked, after staging, the staging target names the region and the address of the last word |
| CiuNvmSpec.StagePlacesWords | hw/arm/ciu_nvm.c:144-148 | words staged within one page leave their big-endian bytes in the buffer from `addr mod 512` on, the rest unchanged |
| CiuNvmSpec.LastWordInPage | hw/arm/ciu_nvm.c:45 | the last word of a page has that page as its page base |
| CiuNvmSpec.StagedPageIsProgrammed | hw/arm/ciu_nvm.c:64-70 | staging 128 words from a page start and then programming stores exactly those bytes in the page; word i reads back from bytes base+4i..base+4i+4 |
| CiuNvmSpec.StagedPageTarget | hw/arm/ciu_nvm.c:139-140 | after a whole page is staged, the staging target is in that page of that region |
| CiuNvmSpec.StagedPageBuffer | hw/arm/ciu_nvm.c:144-148 | after a whole page is staged, the buffer holds exactly the staged bytes and the keys and region are unchanged |
| CiuNvmSpec.ProgramStagedPage | hw/arm/ciu_nvm.c:64-70 | programming copies the buffer into the staged page of the region and sets eint |
| CiuNvmSpec.EintRead | hw/arm/ciu_nvm.c:77-82 | on reachable states, reading 0x00 gives 2 exactly when eint is set and 0 exactly when it is clear |
| CiuNvmSpec.EintWrite | hw/arm/ciu_nvm.c:95-98 | writing 0x00 clears eint when bit 1 is clear, never sets it and changes nothing else |
| CiuNvmSpec.EintTransitions | hw/arm/ciu_nvm.c:53-163 | among register and staging writes, eint rises only through an accepted, implemented operation and falls only through a write to 0x00 with bit 1 clear; staging never touches it; reset clears it |
| CiuNvmSpec.ResetEffect | hw/arm/ciu_nvm.c:158-163 | after reset the key state is 0, the controller is locked and 0x00 reads 0; the page buffer, staging target and both regions are kept |
| CiuNvm.NvmController.constructor | hw/arm/ciu_nvm.c:165-194 | a fresh controller with separate arrays whose state is `Realize` of the two sizes |
| CiuNvm.NvmController.Reset | hw/arm/ciu_nvm.c:158-163 | the new state is the value model's reset of the old one |
| CiuNvm.NvmController.RegsRead | hw/arm/ciu_nvm.c:77-89 | the value returned is the value model's register read |
| CiuNvm.NvmController.Operate | hw/arm/ciu_nvm.c:22-75 | running `memset`/`memcpy` on the arrays takes the state to the value model's operation result |
| CiuNvm.NvmController.WriteKey | hw/arm/ciu_nvm.c:104-115 | clearing and or'ing one key bit sets it to the match result and changes no other field |
| CiuNvm.NvmController.RegsWrite | hw/arm/ciu_nvm.c:91-122 | the new state is the value model's register write of the old one |
| CiuNvm.NvmController.FlashWrite | hw/arm/ciu_nvm.c:130-149 | the four byte stores take the state to the value model's staging write |
| CiuSeSpec.ShiftAmount | hw/arm/ciu_se.c:276 | `x > 5 ? 5 : x`: below 5 the shift is x itself, from 5 up it is 5 |
| CiuSeSpec.SysclkHzAsWritten | hw/arm/ciu_se.c:275-276 | the rate the source computes: 40 MHz for select 0 and 24 MHz for select 1, whatever the divider |
| CiuSeSpec.SysclkHz | hw/arm/ciu_se.c:273-276 | the intended rate, shifting by the divider: between the source clock divided by 32 and the source clock |
| CiuSeSpec.Realize | hw/arm/ciu_se.c:364-378 | the flash has its size and is all 0xFF; the key state is 0, so the flash is locked, eint is 0 and the sysclk runs at HCLK |
| CiuSeSpec.Reset | hw/arm/ciu_se.c:501-510 | reset zeroes the key state, which locks the flash, clears eint, sets the select field to 0 and the divider to 3, and keeps every other field, the clock rate included |
| CiuSeSpec.Operate | hw/arm/ciu_se.c:205-243 | a rejected operation changes nothing; no operation changes the keys, the staging address, the sysclk fields and rate, or the flash size |
| CiuSeSpec.ClockRead | hw/arm/ciu_se.c:187-203 | 0x208 always reads with the ready bit 2 set; offsets other than 0x80 and 0x208 read 0 |
| CiuSeSpec.ClockWrite | hw/arm/ciu_se.c:245-287 | no write moves the staging address; only 0x84 reaches the flash or the page buffer, only 0x84 and 0x80 reach eint, only 0x208 the sysclk fields and rate, and only 0xA0/0xA4/0xA8 the key state |
| CiuSeSpec.FlashWrite | hw/arm/ciu_se.c:315-334 | a staging write never changes the flash |
| CiuSeSpec.OperateKeepsInv | hw/arm/ciu_se.c:205-243 | an operation keeps the invariant |
| CiuSeSpec.InvPreserved | hw/arm/ciu_se.c:245-334 | reset, every register write and every staging write keep the invariant |
| CiuSeSpec.ClockWriteKeepsInv | hw/arm/ciu_se.c:245-287 | every register write keeps the invariant |
| CiuSeSpec.KeyRegisterWrite | hw/arm/ciu_se.c:260-271 | a write to 0xA0/0xA4/0xA8 sets key bit 0/1/2 to whether the data is its sentinel, keeps the other bits and changes nothing else |
| CiuSeSpec.KeyRegisterDecodes | hw/arm/ciu_se.c:260-271 | the three key registers are decoded through the same bit update |
| CiuSeSpec.UnlockSequence | hw/arm/ciu_se.c:260-271 | writing the three sentinels unlocks the flash from any reachable state |
| CiuSeSpec.WrongKeyLocks | hw/arm/ciu_se.c:260-271 | a wrong value in any key register leaves the flash locked |
| CiuSeSpec.TriggerGate | hw/arm/ciu_se.c:255-259 | a write to 0x84 runs opcode `data & 0xF` exactly when the upper 28 bits are the magic value |
| CiuSeSpec.OperateRejects | hw/arm/ciu_se.c:207-216 | an operation changes nothing while locked or when the page base is not below the flash size |
| CiuSeSpec.OperateEffect | hw/arm/ciu_se.c:219-241 | once accepted: 2 erases the buffer, 10 erases exactly the bytes of the flash in the staged page, 4/5/12/14 copy the buffer over them, each setting eint; anything else changes nothing; keys, staging address and sysclk are kept |
| CiuSeSpec.OperateInBounds | hw/arm/ciu_se.c:211-216 | for an unlocked flash whose size is a multiple of 512, an accepted operation finds the whole page inside the flash, so erase and program cover all 512 bytes |
| CiuSeSpec.DefaultFlashSizeIsPages | hw/arm/ciu_se.c:497 | the default flash size 0x49000 is a multiple of 512 |
| CiuSeSpec.FlashWriteLocked | hw/arm/ciu_se.c:322-325 | a staging write while locked changes nothing |
| CiuSeSpec.FlashWriteEffect | hw/arm/ciu_se.c:327-333 | while unlocked a staging write records the address, stores the big-endian word at `addr mod 512` (it reads back as the word), keeps the other 508 bytes, and changes no other field |
| CiuSeSpec.SysclkRoundTrip | hw/arm/ciu_se.c:187-274 | writing d to 0x208 and reading 0x208 gives `(d & 0xF8)` or'ed with 4 |
| CiuSeSpec.SysclkWriteFrame | hw/arm/ciu_se.c:272-280 | a write to 0x208 changes only the two fields and the rate; the fields are bits 4-7 and bit 3 of the data, and the rate becomes 40 MHz for select 0 and 24 MHz for select 1 |
| CiuSeSpec.AsWrittenRates | hw/arm/ciu_se.c:275-276 | as written, the rate is 40 MHz when the select bit is clear and 24 MHz when it is set, whatever the divider |
| CiuSeSpec.ResetConfigurationRate | hw/arm/ciu_se.c:275-276 | writing back the reset configuration (div 3, sel 0) gives 40 MHz as written, not the HCLK the device starts with; the intended rate is HCLK |
| CiuSeSpec.SysclkRates | hw/arm/ciu_se.c:275-276 | the intended rate is the source clock divided by 2^div for a divider up to 5, by 32 from 5 up, and never above the source clock |
| CiuSeSpec.EintRead | hw/arm/ciu_se.c:191-192 | reading 0x80 gives 2 when eint is set and 0 when it is clear |
| CiuSeSpec.EintWrite | hw/arm/ciu_se.c:251-254 | writing 0x80 clears eint when bit 1 is clear, never sets it and changes nothing else |
| CiuSeSpec.ResetEffect | hw/arm/ciu_se.c:501-510 | after reset the key state is 0, the flash is locked, eint reads 0 and 0x208 reads 0x34; the page buffer, staging target, flash and clock rate are kept |
| CiuSe.SeController.constructor | hw/arm/ciu_se.c:364-378 | a fresh controller with separate arrays whose state is `Realize` of the flash size |
| CiuSe.SeController.Reset | hw/arm/ciu_se.c:501-510 | the new state is the value model's reset of the old one |
| CiuSe.SeController.ClockRead | hw/arm/ciu_se.c:187-203 | the value returned is the value model's register read |
| CiuSe.SeController.Operate | hw/arm/ciu_se.c:205-243 | running `memset`/`memcpy` on the arrays takes the state to the value model's operation result |
| CiuSe.SeController.WriteKey | hw/arm/ciu_se.c:260-271 | clearing and or'ing one key bit sets it to the match result and changes no other field |
| CiuSe.SeController.WriteSysclk | hw/arm/ciu_se.c:272-280 | the two fields take bits 4-7 and bit 3 of the data, and the rate becomes the source clock shifted by the select field, as the source computes it; nothing else changes |
| CiuSe.SeController.ClockWrite | hw/arm/ciu_se.c:245-287 | the new state is the value model's register write of the old one |
| CiuSe.SeController.FlashWrite | hw/arm/ciu_se.c:315-334 | the four byte stores take the state to the value model's staging write |
| CiuUartSpec.InvFlagBitsOnly | hw/arm/ciu_uart.c:25-28 | on reachable states no status bit other than RXINT and TXINT is set |
| CiuUartSpec.FlagsDetermineStatus | hw/arm/ciu_uart.c:25-28 | on reachable states the status register is the two flags and nothing else, so flag-level contracts fix it |
| CiuUartSpec.Reset | hw/arm/ciu_uart.c:113-119 | reset clears both flags and the receive register |
| CiuUartSpec.Read | hw/arm/ciu_uart.c:30-53 | reading 0x14 returns the receive register and clears RXINT alone, keeping every other status bit and the byte; reading 0x00 returns the status register; other offsets read 0; only 0x14 changes the state |
| CiuUartSpec.Write | hw/arm/ciu_uart.c:55-80 | a write never changes the receive register or RXINT and sends at most one byte; 0x18 sets TXINT, 0x00 clears TXINT when bit 2 of the low byte is clear, and every other status bit and every other offset is left as it was |
| CiuUartSpec.WriteEffect | hw/arm/ciu_uart.c:59-73 | writing 0x18 sends exactly the low byte and leaves TXINT set; writing 0x00 sends nothing and leaves TXINT set exactly when it was set and bit 2 of the low byte is set; other offsets change nothing |
| CiuUartSpec.CanRx | hw/arm/ciu_uart.c:92-97 | the UART takes one byte exactly when RXINT is clear, and never more |
| CiuUartSpec.Rx | hw/arm/ciu_uart.c:99-107 | given room, a delivered byte sets RXINT and becomes the receive register; every other status bit, TXINT included, is kept |
| CiuUartSpec.Step | hw/arm/ciu_uart.c:30-119 | one event sends at most one byte, only for a write to 0x18 and then its low byte; no register read or write changes the receive register |
| CiuUartSpec.StepPreservesInv | hw/arm/ciu_uart.c:30-119 | every read, write, delivery and reset keeps the invariant |
| CiuUartSpec.RunPreservesInv | hw/arm/ciu_uart.c:30-119 | every run of events keeps the invariant |
| CiuUartSpec.ReachableFromReset | hw/arm/ciu_uart.c:99-119 | from reset the status register only ever has bits 1 and 2 set and the receive register holds a byte |
| CiuUartSpec.RunSends | hw/arm/ciu_uart.c:62-68 | the backend receives exactly the low bytes of the writes to 0x18, in order, whatever else happens |
| CiuUartSpec.RxThenRead | hw/arm/ciu_uart.c:37-107 | a delivered byte is returned by the next read of 0x14, after which the UART takes a byte again |
| CiuUartSpec.PendingByteKept | hw/arm/ciu_uart.c:37-107 | while a byte waits, only a read of 0x14 or a reset removes it |
| CiuUart.Uart.constructor | hw/arm/ciu_uart.c:113-119 | a new UART is in the reset state with an empty output trace |
| CiuUart.Uart.Reset | hw/arm/ciu_uart.c:113-119 | the registers become the reset state |
| CiuUart.Uart.Read | hw/arm/ciu_uart.c:30-53 | the value and the new registers are those of the value model's read of the old registers |
| CiuUart.Uart.Write | hw/arm/ciu_uart.c:55-80 | the new registers are those of the value model's write, and the output trace grows by exactly the bytes it sends |
| CiuUart.Uart.CanRx | hw/arm/ciu_uart.c:92-97 | returns 1 exactly when RXINT is clear, and 0 otherwise |
| CiuUart.Uart.Rx | hw/arm/ciu_uart.c:99-107 | given room, the new registers are the value model's delivery of the byte |

## Left out

- Device wiring is not modelled: QOM type registration, property tables, vmstate descriptions and memory-region setup. They are host-framework plumbing. The property defaults appear as constants, and the window sizes as preconditions on the handlers.
- `hw/arm/canokey.c` (machine construction and kernel loading) is not part of this model. It is foreign calls only.
- The GPIO stub, the unimplemented-device stubs, the CPU and clock setup, the SRAM and the memory container of `ciu_realize` are left out. They hold no device logic.
- `qemu_log_mask` and the `puts` in `ciu_reset` are treated as no-ops.
- `clock_update_hz` and `clock_set_hz` are modelled only as the integer rate they store (`sysclkHz`). A write to 0x208 stores the rate the source computes (`CiuSeSpec.SysclkHzAsWritten`).
- On the UART, `qemu_chr_fe_write_all` is an append to the ghost trace `output`. Its blocking, the thread it stalls and any backend error are I/O and concurrency, so a transmit is one atomic step, and the TXINT drop during the transmit is not observable.
- CiuUartSpec.Rx: models only the first byte of the buffer, because `uart_rx` reads `*buf` alone. The rest of a multi-byte delivery is dropped, in the model as in the source.
- CiuUartSpec.Step: a byte offered while RXINT is set leaves the UART unchanged. This models the backend asking `uart_can_rx` before it delivers. The backend's own queue is not modelled.
- CiuNvmSpec.FlashWrite: requires an aligned word inside the region, because QEMU only dispatches aligned 4-byte accesses inside the window. Under that requirement the `(uint32_t)` cast on the address is the identity, so it is not written out.
- CiuSeSpec.FlashWrite: requires `addr + 4 <= flash_size`, in place of the source's assert. The abort it raises otherwise is not modelled.
- The page buffer starts zeroed: QEMU zero-fills the device object, and neither realize touches it.
- Migration of the key state and eint (vmstate) is left out.
- NvmRules.StoreWord: its own contract states only the size of the buffer. The contents are stated by `NvmRules.StoreWordReadsBack`, for every input. A contents clause on the function itself makes every staging proof that unfolds it too costly.
- NvmRules.Execute: when the guard passes but the page runs past the end of a region whose size is not a multiple of 512, the model erases or programs only the bytes of the page inside the region (`NvmRules.PageSpan`). The source's `memset`/`memcpy` write on past the region's end, into memory the model does not hold. For sizes that are multiples of 512, both defaults among them, nothing is cut off (`OperateInBounds`).
- CiuNvmSpec.Operate: keeps an overrunning erase or program inside the region, as `NvmRules.Execute` does.
- CiuSeSpec.Operate: keeps an overrunning erase or program inside the flash, as `NvmRules.Execute` does.
- CiuNvm.NvmController.RegsWrite: a trigger on 0x04 runs `Operate`, so it keeps an overrunning erase or program inside the region, as `NvmRules.Execute` does.
- CiuSe.SeController.ClockWrite: a trigger on 0x84 runs `Operate`, so it keeps an overrunning erase or program inside the flash, as `NvmRules.Execute` does.
- CiuNvm.NvmController.Operate: passes only the in-region part of the page to `memset`/`memcpy`, as `NvmRules.Execute` does.
- CiuSe.SeController.Operate: passes only the in-flash part of the page to `memset`/`memcpy`, as `NvmRules.Execute` does.

## Findings

| source | as written | input that shows it | evidently intended | confidence | as-written member | corrected member |
|---|---|---|---|---|---|---|
| hw/arm/ciu_nvm.c:45-46 | the guard rejects only when the page base is at or past the region size | region size 1000, staged address 996: the base 512 is below 1000, yet the 512-byte erase or program writes up to byte 1024 | an erase or program stays inside the region; for sizes that are multiples of 512, which both defaults are, the guard already ensures this | not executed | NvmRules.AsWrittenGuardOverruns | NvmRules.PageSpan |
| hw/arm/ciu_se.c:275-276 | the source clock is shifted right by the select bit (capped at 5), so the divider field is ignored | the reset configuration div 3, sel 0 gives 40 MHz, not the 5 MHz HCLK the device starts with; sel 1 always gives 24 MHz | shift by the divider field, capped at 5: div 3 with the 40 MHz source gives exactly HCLK | not executed | CiuSeSpec.AsWrittenRates | CiuSeSpec.SysclkRates |

The device model follows the source in both places.

- **The page guard.** `CiuNvmSpec.Accepts` and `CiuSeSpec.Accepts` use the
  guard as written (`NvmRules.AsWrittenGuard`), so opcode 2 runs for every
  page base below the size, as in the source.
  - Because the model holds only the region's own bytes, an erase or program
    that the guard lets overrun is kept to the part of the page inside the
    region (`NvmRules.PageSpan`, used by `NvmRules.Execute` and by both
    classes' `Operate`).
  - `NvmRules.PageFits` states the intended guard. `NvmRules.GuardsAgree`
    shows that for sizes that are multiples of 512 the two guards agree and
    nothing is cut off.
- **The sysclk rate.** `CiuSeSpec.ClockWrite` and
  `CiuSe.SeController.WriteSysclk` store the rate as written
  (`CiuSeSpec.SysclkHzAsWritten`). `CiuSeSpec.SysclkHz`, `SysclkRates` and
  `ResetConfigurationRate` state the intended rate as a reference beside it.
