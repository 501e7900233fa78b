/** The NVM controller and sysclk register of the CIU system-on-chip as a
    device object whose fields the handlers of the system register window
    and of the flash window update in place. Every method is proved to move
    the object from State() to the value the matching function of
    CiuSeSpec gives. */
module CiuSe {
  import opened Memory
  import opened NvmRules
  import opened CiuSeSpec

  class SeController {
    var sysclkSel: bv8
    var sysclkDiv: bv8
    /** The rate of the sysclk clock object, as last set. */
    var sysclkHz: nat
    var keyState: bv8
    var eint: bv8
    const pagebuf: array<bv8>
    var opAddr: nat
    /** The RAM behind the flash window. */
    const storage: array<bv8>

    ghost predicate Valid()
      reads this, pagebuf, storage
    {
      pagebuf != storage && Inv(State())
    }

    /** The device as a value. */
    ghost function State(): SeState
      reads this, pagebuf, storage
    {
      SeState(sysclkSel, sysclkDiv, sysclkHz, keyState, eint, pagebuf[..], opAddr, storage[..])
    }

    /** ciu_realize: set the sysclk to HCLK, allocate the flash and erase it
        to 0xFF. */
    constructor (flashSize: nat)
      requires flashSize < U32_LIMIT
      ensures Valid()
      ensures fresh(pagebuf) && fresh(storage)
      ensures State() == Realize(flashSize)
    {
      sysclkSel, sysclkDiv := 0, 0;
      sysclkHz := HCLK_FRQ;
      keyState, eint := 0, 0;
      opAddr := 0;
      pagebuf := new bv8[PAGE_SIZE](_ => 0);
      storage := new bv8[flashSize];
      new;
      Fill(storage, 0, flashSize, ERASED);
      assert pagebuf[..] == seq(PAGE_SIZE, _ => 0);
    }

    /** ciu_reset */
    method Reset()
      requires Valid()
      modifies this`sysclkSel, this`sysclkDiv, this`keyState, this`eint
      ensures Valid()
      ensures State() == CiuSeSpec.Reset(old(State()))
    {
      sysclkSel := 0;
      sysclkDiv := 3;
      keyState := 0;
      eint := 0;
    }

    /** clock_read */
    method ClockRead(addr: nat) returns (v: bv32)
      requires Valid()
      ensures v == CiuSeSpec.ClockRead(State(), addr)
    {
      if addr == REG_EINT {
        v := (eint as bv32) << 1;
      } else if addr == REG_SYSCLK {
        v := ((sysclkDiv as bv32) << 4) | ((sysclkSel as bv32) << 3) | CLKF48RDY;
      } else {
        v := 0;
      }
    }

    /** nvm_operate. An erase or program keeps to the bytes of the page
        that lie in the flash (PageSpan). */
    method Operate(opcode: bv8)
      requires Valid()
      modifies this`eint, pagebuf, storage
      ensures Valid()
      ensures State() == CiuSeSpec.Operate(old(State()), opcode)
    {
      if keyState != ALL_KEYS {
        return;
      }
      var addrHigh := PageBase(opAddr);
      if addrHigh >= storage.Length {
        return;
      }
      var kind := KindOf(opcode);
      var n := PageSpan(addrHigh, storage.Length);
      if kind == BufferErase {
        Fill(pagebuf, 0, PAGE_SIZE, ERASED);
        eint := 1;
      } else if kind == PageErase {
        Fill(storage, addrHigh, n, ERASED);
        eint := 1;
      } else if kind == PageProgram {
        Copy(storage, addrHigh, pagebuf, n);
        eint := 1;
      }
    }

    /** One of the three key registers: bit `i` of the key state records
        whether the value written is key `i`'s sentinel. */
    method WriteKey(i: nat, data: bv32)
      requires Valid() && i < 3
      modifies this`keyState
      ensures Valid()
      ensures State() == old(State()).(keyState := SetKeyBit(old(keyState), i, data == KeySentinel(i)))
    {
      keyState := keyState & !KeyMask(i);
      keyState := keyState | (if data == KeySentinel(i) then KeyMask(i) else 0);
    }

    /** The sysclk register: take the divider and source fields, then set
        the clock rate, shifted by the source field as the source does. */
    method WriteSysclk(data: bv32)
      requires Valid()
      modifies this`sysclkSel, this`sysclkDiv, this`sysclkHz
      ensures Valid()
      ensures State() == old(State()).(sysclkDiv := ((data >> 4) & 0xF) as bv8,
        sysclkSel := ((data >> 3) & 1) as bv8,
        sysclkHz := SysclkHzAsWritten(((data >> 3) & 1) as bv8, ((data >> 4) & 0xF) as bv8))
    {
      sysclkDiv := ((data >> 4) & 0xF) as bv8;
      sysclkSel := ((data >> 3) & 1) as bv8;
      var clkFreq := if sysclkSel != 0 then CLK_48M else CLK_40M;
      clkFreq := clkFreq / Pow2(ShiftAmount(sysclkSel));
      sysclkHz := clkFreq;
    }

    /** clock_write */
    method ClockWrite(addr: nat, data: bv32)
      requires Valid()
      modifies this`sysclkSel, this`sysclkDiv, this`sysclkHz, this`eint, this`keyState, pagebuf, storage
      ensures Valid()
      ensures State() == CiuSeSpec.ClockWrite(old(State()), addr, data)
    {
      if addr == REG_EINT {
        if data & 2 == 0 {
          eint := 0;
        }
      } else if addr == REG_OP {
        if data & OP_MAGIC_MASK == OP_MAGIC {
          Operate((data & 0xF) as bv8);
        }
      } else if addr == REG_REGION_KEY {
        WriteKey(0, data);
      } else if addr == REG_PARAM_KEY {
        WriteKey(1, data);
      } else if addr == REG_GLOBAL_KEY {
        WriteKey(2, data);
      } else if addr == REG_SYSCLK {
        WriteSysclk(data);
      }
    }

    /** flash_write: the four bytes of the word, most significant at the
        lowest address, stored low byte first. */
    method FlashWrite(addr: nat, data: bv32)
      requires Valid()
      requires addr % 4 == 0 && addr + 4 <= storage.Length
      modifies this`opAddr, pagebuf
      ensures Valid()
      ensures State() == CiuSeSpec.FlashWrite(old(State()), addr, data)
    {
      if keyState != ALL_KEYS {
        return;
      }
      opAddr := addr;
      AlignedSlot(addr);
      var off := addr % PAGE_SIZE;
      var bytes := BigEndian(data);
      pagebuf[off + 3] := bytes[3];
      pagebuf[off + 2] := bytes[2];
      pagebuf[off + 1] := bytes[1];
      pagebuf[off + 0] := bytes[0];
      assert pagebuf[..] == Overwritten(old(pagebuf[..]), off, bytes);
    }
  }
}
