/** The two-region NVM controller as a device object: the key state, the
    interrupt flag, the 512-byte page buffer, the staging target and the
    two storage regions are fields the register handlers update in place.
    Every method is proved to move the object from State() to the value
    the matching function of CiuNvmSpec gives. */
module CiuNvm {
  import opened Memory
  import opened NvmRules
  import opened CiuNvmSpec

  class NvmController {
    var keyState: bv8
    var eint: bv8
    const pagebuf: array<bv8>
    var opAddr: nat
    var opRegion: nat
    /** The RAM behind the user code and user param windows. */
    const userCode: array<bv8>
    const userParam: array<bv8>

    ghost predicate Valid()
      reads this, pagebuf, userCode, userParam
    {
      pagebuf != userCode && pagebuf != userParam && userCode != userParam &&
      Inv(State())
    }

    /** The controller as a value. */
    ghost function State(): NvmState
      reads this, pagebuf, userCode, userParam
    {
      NvmState(keyState, eint, pagebuf[..], opAddr, opRegion, userCode[..], userParam[..])
    }

    /** ciu_nvm_realize: allocate both regions and erase them to 0xFF. */
    constructor (codeSize: nat, paramSize: nat)
      requires codeSize < U32_LIMIT && paramSize < U32_LIMIT
      ensures Valid()
      ensures fresh(pagebuf) && fresh(userCode) && fresh(userParam)
      ensures State() == Realize(codeSize, paramSize)
    {
      keyState, eint := 0, 0;
      opAddr, opRegion := 0, 0;
      pagebuf := new bv8[PAGE_SIZE](_ => 0);
      userCode := new bv8[codeSize];
      userParam := new bv8[paramSize];
      new;
      Fill(userCode, 0, codeSize, ERASED);
      Fill(userParam, 0, paramSize, ERASED);
      assert pagebuf[..] == seq(PAGE_SIZE, _ => 0);
    }

    /** ciu_nvm_reset */
    method Reset()
      requires Valid()
      modifies this`keyState, this`eint
      ensures Valid()
      ensures State() == CiuNvmSpec.Reset(old(State()))
    {
      keyState := 0;
      eint := 0;
    }

    /** flash_regs_read */
    method RegsRead(addr: nat) returns (v: bv32)
      requires Valid()
      ensures v == CiuNvmSpec.RegsRead(State(), addr)
    {
      if addr == REG_EINT {
        v := (eint as bv32) << 1;
      } else {
        v := 0;
      }
    }

    /** nvm_operate. An erase or program keeps to the bytes of the page
        that lie in the region (PageSpan). */
    method Operate(opcode: bv8)
      requires Valid()
      modifies this`eint, pagebuf, userCode, userParam
      ensures Valid()
      ensures State() == CiuNvmSpec.Operate(old(State()), opcode)
    {
      if keyState != ALL_KEYS {
        return;
      }
      var storage: array<bv8>;
      if opRegion == USER_CODE {
        storage := userCode;
      } else if opRegion == USER_PARAM {
        storage := userParam;
      } else {
        return;
      }
      var addrHigh := PageBase(opAddr);
      if addrHigh >= storage.Length {
        return;
      }
      var kind := KindOf(opcode);
      var n := PageSpan(addrHigh, storage.Length);
      if kind == BufferErase {
        Fill(pagebuf, 0, PAGE_SIZE, ERASED);
        eint := 1;
      } else if kind == PageErase {
        Fill(storage, addrHigh, n, ERASED);
        eint := 1;
      } else if kind == PageProgram {
        Copy(storage, addrHigh, pagebuf, n);
        eint := 1;
      }
    }

    /** One of the three key registers: bit `i` of the key state records
        whether the value written is key `i`'s sentinel. */
    method WriteKey(i: nat, data: bv32)
      requires Valid() && i < 3
      modifies this`keyState
      ensures Valid()
      ensures State() == old(State()).(keyState := SetKeyBit(old(keyState), i, data == KeySentinel(i)))
    {
      keyState := keyState & !KeyMask(i);
      keyState := keyState | (if data == KeySentinel(i) then KeyMask(i) else 0);
    }

    /** flash_regs_write */
    method RegsWrite(addr: nat, data: bv32)
      requires Valid()
      modifies this`eint, this`keyState, pagebuf, userCode, userParam
      ensures Valid()
      ensures State() == CiuNvmSpec.RegsWrite(old(State()), addr, data)
    {
      if addr == REG_EINT {
        if data & 2 == 0 {
          eint := 0;
        }
      } else if addr == REG_OP {
        if data & OP_MAGIC_MASK == OP_MAGIC {
          Operate((data & 0xF) as bv8);
        }
      } else if addr == REG_REGION_KEY {
        WriteKey(0, data);
      } else if addr == REG_PARAM_KEY {
        WriteKey(1, data);
      } else if addr == REG_GLOBAL_KEY {
        WriteKey(2, data);
      }
    }

    /** flash_write on the window of `region`: the four bytes of the word,
        most significant at the lowest address, stored low byte first. */
    method FlashWrite(region: nat, addr: nat, data: bv32)
      requires Valid() && IsRegion(region)
      requires addr % 4 == 0 && addr + 4 <= |Storage(State(), region)|
      modifies this`opRegion, this`opAddr, pagebuf
      ensures Valid()
      ensures State() == CiuNvmSpec.FlashWrite(old(State()), region, addr, data)
    {
      if keyState != ALL_KEYS {
        return;
      }
      opRegion := region;
      opAddr := addr;
      AlignedSlot(addr);
      var off := addr % PAGE_SIZE;
      var bytes := BigEndian(data);
      pagebuf[off + 3] := bytes[3];
      pagebuf[off + 2] := bytes[2];
      pagebuf[off + 1] := bytes[1];
      pagebuf[off + 0] := bytes[0];
      assert pagebuf[..] == Overwritten(old(pagebuf[..]), off, bytes);
    }
  }
}
