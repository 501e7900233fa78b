/** The rules the two NVM controllers of the CIU secure element share: the
    unlock keys, the magic-gated opcode register, the page guard, the
    big-endian staging of words and the effect of each opcode on the page
    buffer and the storage of one region. */
module NvmRules {
  import opened Memory

  const PAGE_SIZE: nat := 512
  const ERASED: bv8 := 0xFF
  /** Region and flash sizes are uint32 properties in both controllers. */
  const U32_LIMIT: nat := 0x1_0000_0000

  /** Sentinels of the three unlock keys (bit 0, bit 1, bit 2 of the key state). */
  const REGION_KEY: bv32 := 0xAA55AA55
  const PARAM_KEY: bv32 := 0x55AA55AA
  const GLOBAL_KEY: bv32 := 0xA5A55A5A
  /** The sentinel of key `i`. */
  function KeySentinel(i: nat): bv32
    requires i < 3
  {
    if i == 0 then REGION_KEY else if i == 1 then PARAM_KEY else GLOBAL_KEY
  }

  /** Key state with all three bits set. */
  const ALL_KEYS: bv8 := 7

  /** The opcode register accepts a write whose upper 28 bits are OP_MAGIC. */
  const OP_MAGIC_MASK: bv32 := 0xFFFFFFF0
  const OP_MAGIC: bv32 := 0x57AF6C00

  datatype Option<T> = None | Some(value: T)

  /** `1 << bit` */
  function KeyMask(bit: nat): bv8
    requires bit < 3
  {
    if bit == 0 then 1 else if bit == 1 then 2 else 4
  }

  /** Whether bit `bit` of a key state is set. */
  predicate KeyBit(keyState: bv8, bit: nat)
    requires bit < 3
  {
    keyState & KeyMask(bit) != 0
  }

  /** The NVM is unlocked when the key state is exactly 7. */
  predicate Unlocked(keyState: bv8) {
    keyState == ALL_KEYS
  }

  /** `key_state &= ~(1 << bit); key_state |= matched << bit`: bit `bit`
      becomes `matched`, every other bit keeps its value. */
  function SetKeyBit(keyState: bv8, bit: nat, matched: bool): (r: bv8)
    requires bit < 3
    ensures KeyBit(r, bit) == matched
    ensures r & !KeyMask(bit) == keyState & !KeyMask(bit)
    ensures keyState <= ALL_KEYS ==> r <= ALL_KEYS
  {
    (keyState & !KeyMask(bit)) | (if matched then KeyMask(bit) else 0)
  }

  /** Bits outside the mask of key `k` say nothing different about key `i`. */
  lemma OtherKeyBitUnchanged(before: bv8, after: bv8, k: nat, i: nat)
    requires k < 3 && i < 3 && k != i
    requires after & !KeyMask(k) == before & !KeyMask(k)
    ensures KeyBit(after, i) == KeyBit(before, i)
  {
  }

  /** Within 0..7, the key state is 7 exactly when each of the three bits is set. */
  lemma UnlockedIffAllKeys(keyState: bv8)
    requires keyState <= ALL_KEYS
    ensures Unlocked(keyState) <==> KeyBit(keyState, 0) && KeyBit(keyState, 1) && KeyBit(keyState, 2)
  {
  }

  /** The opcode carried by a write to the opcode register, if its upper 28
      bits match the magic value. */
  function DecodeTrigger(data: bv32): (r: Option<bv8>)
    ensures r.Some? <==> data & OP_MAGIC_MASK == OP_MAGIC
    ensures r.Some? ==> r.value < 16 && data == OP_MAGIC | r.value as bv32
  {
    if data & OP_MAGIC_MASK != OP_MAGIC then None else Some((data & 0xF) as bv8)
  }

  /** `addr & ~511u`: the start of the page holding `addr`. */
  function PageBase(addr: nat): (r: nat)
    ensures r % PAGE_SIZE == 0
    ensures r <= addr < r + PAGE_SIZE
  {
    addr - addr % PAGE_SIZE
  }

  /** The guard of nvm_operate: the page base lies inside the region. */
  predicate AsWrittenGuard(addr: nat, size: nat) {
    PageBase(addr) < size
  }

  /** Whether the whole 512-byte page lies inside the region. */
  predicate PageFits(addr: nat, size: nat) {
    PageBase(addr) + PAGE_SIZE <= size
  }

  /** How many of the 512 bytes from `base` on lie inside a region of
      `size` bytes: the part of a page erase or program the model keeps. It
      is the whole page exactly when the page fits, and otherwise runs to
      the end of the region. */
  function PageSpan(base: nat, size: nat): (n: nat)
    requires base < size
    ensures 0 < n <= PAGE_SIZE && base + n <= size
    ensures n == PAGE_SIZE <==> base + PAGE_SIZE <= size
    ensures n < PAGE_SIZE ==> base + n == size
  {
    if base + PAGE_SIZE <= size then PAGE_SIZE else size - base
  }

  /** For a region whose size is a multiple of 512 (both default sizes are)
      the guard passes exactly when the whole page fits, so no erase or
      program is cut short. */
  lemma GuardsAgree(addr: nat, size: nat)
    requires size % PAGE_SIZE == 0
    ensures AsWrittenGuard(addr, size) <==> PageFits(addr, size)
  {
    var b := PageBase(addr);
    if b < size {
      var q, k := b / PAGE_SIZE, size / PAGE_SIZE;
      assert b == q * PAGE_SIZE && size == k * PAGE_SIZE;
      assert q < k;
      assert (q + 1) * PAGE_SIZE <= k * PAGE_SIZE;
    }
  }

  /** A region of 1000 bytes staged at offset 996 passes the guard, yet the
      page it opens ends at byte 1024; the model keeps its first 488 bytes. */
  lemma AsWrittenGuardOverruns()
    ensures AsWrittenGuard(996, 1000)
    ensures PageBase(996) + PAGE_SIZE > 1000
    ensures !PageFits(996, 1000)
    ensures PageSpan(PageBase(996), 1000) == 488
  {
  }

  /** The four bytes of a word, most significant first. */
  function BigEndian(w: bv32): (r: seq<bv8>)
    ensures |r| == 4
  {
    [((w >> 24) & 0xFF) as bv8, ((w >> 16) & 0xFF) as bv8, ((w >> 8) & 0xFF) as bv8, (w & 0xFF) as bv8]
  }

  /** The word four big-endian bytes stand for. */
  function Word(b: seq<bv8>): bv32
    requires |b| == 4
  {
    ((b[0] as bv32) << 24) | ((b[1] as bv32) << 16) | ((b[2] as bv32) << 8) | (b[3] as bv32)
  }

  lemma WordOfBigEndian(w: bv32)
    ensures Word(BigEndian(w)) == w
  {
  }

  lemma BigEndianOfWord(b: seq<bv8>)
    requires |b| == 4
    ensures BigEndian(Word(b)) == b
  {
  }

  /** A 4-aligned address lands on a 4-aligned slot of the page buffer. */
  lemma AlignedSlot(addr: nat)
    requires addr % 4 == 0
    ensures (addr % PAGE_SIZE) % 4 == 0
    ensures addr % PAGE_SIZE + 4 <= PAGE_SIZE
  {
    var q := addr / PAGE_SIZE;
    assert addr == q * PAGE_SIZE + addr % PAGE_SIZE;
    assert q * PAGE_SIZE == (q * 128) * 4;
  }

  /** The page buffer after a 4-byte big-endian store at address `addr` of
      a staging window: the address is taken modulo 512. */
  function StoreWord(buf: seq<bv8>, addr: nat, w: bv32): (r: seq<bv8>)
    requires |buf| == PAGE_SIZE
    requires addr % 4 == 0
    ensures |r| == PAGE_SIZE
  {
    AlignedSlot(addr);
    Overwritten(buf, addr % PAGE_SIZE, BigEndian(w))
  }

  /** The stored word reads back from its slot, and the other 508 bytes of
      the buffer keep their values. */
  lemma StoreWordReadsBack(buf: seq<bv8>, addr: nat, w: bv32)
    requires |buf| == PAGE_SIZE
    requires addr % 4 == 0
    ensures var r := StoreWord(buf, addr, w); var off := addr % PAGE_SIZE;
      off + 4 <= PAGE_SIZE &&
      r[off..off + 4] == BigEndian(w) && Word(r[off..off + 4]) == w &&
      forall j :: 0 <= j < PAGE_SIZE && !(off <= j < off + 4) ==> r[j] == buf[j]
  {
    AlignedSlot(addr);
    var off := addr % PAGE_SIZE;
    assert StoreWord(buf, addr, w)[off..off + 4] == BigEndian(w);
    WordOfBigEndian(w);
  }

  /** The big-endian bytes of a sequence of words, one after the other. */
  function WordsBytes(ws: seq<bv32>): (r: seq<bv8>)
    ensures |r| == 4 * |ws|
  {
    if ws == [] then [] else BigEndian(ws[0]) + WordsBytes(ws[1..])
  }

  /** Word i occupies bytes 4i..4i+4 of the sequence. */
  lemma {:induction false} WordsBytesAt(ws: seq<bv32>, i: nat)
    requires i < |ws|
    ensures WordsBytes(ws)[4 * i..4 * i + 4] == BigEndian(ws[i])
  {
    if i > 0 {
      WordsBytesAt(ws[1..], i - 1);
      assert WordsBytes(ws)[4 * i..4 * i + 4] == WordsBytes(ws[1..])[4 * (i - 1)..4 * (i - 1) + 4];
    }
  }

  /** What an opcode does once the guards have passed. */
  datatype OpKind = BufferErase | PageErase | PageProgram | Unimplemented

  /** Opcode 2 erases the page buffer, 10 erases a page, and 4, 5, 12 and
      14 all program a page; every other opcode does nothing. */
  function KindOf(opcode: bv8): (k: OpKind)
    ensures k == BufferErase <==> opcode == 2
    ensures k == PageErase <==> opcode == 10
    ensures k == PageProgram <==> opcode == 4 || opcode == 5 || opcode == 12 || opcode == 14
  {
    if opcode == 2 then BufferErase
    else if opcode == 10 then PageErase
    else if opcode == 4 || opcode == 5 || opcode == 12 || opcode == 14 then PageProgram
    else Unimplemented
  }

  /** The part of the controller one operation touches: the page buffer,
      the storage of the selected region and the interrupt flag. */
  datatype Page = Page(buf: seq<bv8>, storage: seq<bv8>, eint: bv8)

  /** The switch of nvm_operate, for the page starting at `base`, which the
      guard has put inside the storage. Erase and program touch the bytes of
      the page that lie in the storage, every byte of it when it fits. */
  function Execute(opcode: bv8, base: nat, p: Page): (r: Page)
    requires |p.buf| == PAGE_SIZE
    requires base < |p.storage|
    ensures |r.buf| == PAGE_SIZE && |r.storage| == |p.storage|
    ensures KindOf(opcode) == BufferErase ==>
      r == Page(seq(PAGE_SIZE, _ => ERASED), p.storage, 1)
    ensures KindOf(opcode) == PageErase ==>
      r.buf == p.buf && r.eint == 1 &&
      forall j :: 0 <= j < |p.storage| ==>
        r.storage[j] == if base <= j < base + PAGE_SIZE then ERASED else p.storage[j]
    ensures KindOf(opcode) == PageProgram ==>
      r.buf == p.buf && r.eint == 1 &&
      forall j :: 0 <= j < |p.storage| ==>
        r.storage[j] == if base <= j < base + PAGE_SIZE then p.buf[j - base] else p.storage[j]
    ensures KindOf(opcode) == Unimplemented ==> r == p
  {
    var n := PageSpan(base, |p.storage|);
    match KindOf(opcode)
    case BufferErase => Page(Filled(p.buf, 0, PAGE_SIZE, ERASED), p.storage, 1)
    case PageErase => Page(p.buf, Filled(p.storage, base, n, ERASED), 1)
    case PageProgram => Page(p.buf, Overwritten(p.storage, base, p.buf[..n]), 1)
    case Unimplemented => p
  }

  /** The four program opcodes are synonyms. */
  lemma ProgramOpcodesAlias(base: nat, p: Page)
    requires |p.buf| == PAGE_SIZE
    requires base < |p.storage|
    ensures Execute(4, base, p) == Execute(5, base, p) == Execute(12, base, p) == Execute(14, base, p)
  {
  }
}
