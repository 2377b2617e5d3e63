/**
 * The configuration store: 16-bit slots kept little-endian in the 256-byte
 * data EEPROM (src/page0.c, eeprom_read_config and eeprom_write_config).
 * The register protocol that moves one byte is not modelled; one byte access
 * is one array access.
 */
module Eeprom {
  import opened Word

  /** Size of the data EEPROM in bytes. */
  const EepromSize := 256

  /** Byte address of the low byte of slot k: the address is doubled in an unsigned char. */
  function LowAddr(k: u8): (a: nat)
    ensures a < EepromSize - 1 && a % 2 == 0
    ensures k < 128 ==> a == 2 * k
  {
    (2 * k) % 0x100
  }

  /** The 16-bit value of slot k: low byte at 2k, high byte at 2k+1. */
  function SlotValue(mem: seq<u8>, k: u8): u16
    requires |mem| == EepromSize
  {
    mem[LowAddr(k)] as int + 0x100 * mem[LowAddr(k) + 1] as int
  }

  /** The memory after writing `data` to slot k, skipping the write when the slot already holds it. */
  function WriteSlot(mem: seq<u8>, k: u8, data: u16): (r: seq<u8>)
    requires |mem| == EepromSize
    ensures |r| == EepromSize
  {
    if data == SlotValue(mem, k) then mem
    else mem[LowAddr(k) := data % 0x100][LowAddr(k) + 1 := data / 0x100]
  }

  /** Reading slot k after writing v to it gives v back. */
  lemma ReadAfterWrite(mem: seq<u8>, k: u8, v: u16)
    requires |mem| == EepromSize
    ensures SlotValue(WriteSlot(mem, k, v), k) == v
  {
  }

  /** Writing the value a slot already holds leaves the memory unchanged. */
  lemma WriteOfSameValueIsSkipped(mem: seq<u8>, k: u8)
    requires |mem| == EepromSize
    ensures WriteSlot(mem, k, SlotValue(mem, k)) == mem
  {
  }

  /** A write changes only the two bytes of its slot. */
  lemma WriteTouchesOnlyItsBytes(mem: seq<u8>, k: u8, v: u16, a: nat)
    requires |mem| == EepromSize && a < EepromSize
    requires a != LowAddr(k) && a != LowAddr(k) + 1
    ensures WriteSlot(mem, k, v)[a] == mem[a]
  {
  }

  /** Slots whose numbers are below 128 and differ do not share bytes. */
  lemma WriteKeepsOtherSlots(mem: seq<u8>, k: u8, j: u8, v: u16)
    requires |mem| == EepromSize && k < 128 && j < 128 && j != k
    ensures SlotValue(WriteSlot(mem, k, v), j) == SlotValue(mem, j)
  {
  }

  /** Slot k and slot k + 128 share their bytes, since the doubled address is an unsigned char. */
  lemma SlotsAlias(mem: seq<u8>, k: u8)
    requires |mem| == EepromSize && k < 128
    ensures SlotValue(mem, k + 128) == SlotValue(mem, k)
  {
  }

  /** The data EEPROM. */
  class ConfigStore {
    const mem: array<u8>

    ghost predicate Valid()
    {
      mem.Length == EepromSize
    }

    constructor (contents: seq<u8>)
      requires |contents| == EepromSize
      ensures Valid() && fresh(mem) && mem[..] == contents
    {
      mem := new u8[EepromSize](i requires 0 <= i < EepromSize => contents[i]);
    }

    /**
     * eeprom_read_config: two passes over the byte addresses 2k and 2k+1,
     * each shifting the byte read into the top of `data`.
     */
    method Read(k: u8) returns (data: u16)
      requires Valid()
      ensures data == SlotValue(mem[..], k)
    {
      var start := LowAddr(k);
      var addr := start;
      data := 0;
      var more := true;
      while more
        invariant start <= addr <= start + 2
        invariant more <==> addr < start + 2
        invariant addr == start ==> data == 0
        invariant addr == start + 1 ==> data == 0x100 * mem[start] as int
        invariant addr == start + 2 ==> data == mem[start] as int + 0x100 * mem[start + 1] as int
        decreases start + 2 - addr
      {
        // the byte read becomes the high byte and the previous one moves down to the low byte
        data := 0x100 * mem[addr] as int + data / 0x100;
        more := addr % 2 == 0;
        addr := addr + 1;
      }
    }

    /**
     * eeprom_write_config: returns at once when the slot already holds
     * `data`; otherwise two passes write the low byte to 2k and the high
     * byte to 2k+1.
     */
    method Write(k: u8, data: u16)
      requires Valid()
      modifies mem
      ensures mem[..] == WriteSlot(old(mem[..]), k, data)
    {
      var current := Read(k);
      if data == current {
        return;
      }
      var start := LowAddr(k);
      var addr := start;
      var d := data;
      var more := true;
      while more
        invariant start <= addr <= start + 2
        invariant more <==> addr < start + 2
        invariant addr == start ==> d == data && mem[..] == old(mem[..])
        invariant addr == start + 1 ==> d == data / 0x100 && mem[..] == old(mem[..])[start := data % 0x100]
        invariant addr == start + 2 ==> mem[..] == old(mem[..])[start := data % 0x100][start + 1 := data / 0x100]
        decreases start + 2 - addr
      {
        mem[addr] := d % 0x100;  // the low byte of what is left
        d := d / 0x100;          // the high byte moves down for the second pass
        more := addr % 2 == 0;
        addr := addr + 1;
      }
    }
  }
}
