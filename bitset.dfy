/**
 * `BitSet8` of src/types/bitset.rs: up to eight named boolean values packed
 * into one byte. Slots are handed out in allocation order from `nextBit`;
 * the name-to-slot map stands for the Rust `HashMap`.
 */
module BitSets {
  import opened Wrappers

  /** Number of slots in one byte. */
  const Capacity: nat := 8

  /** The byte with only bit `k` set, written out slot by slot. */
  function Mask(k: nat): bv8
    requires k < 8
  {
    match k
    case 0 => 0x01
    case 1 => 0x02
    case 2 => 0x04
    case 3 => 0x08
    case 4 => 0x10
    case 5 => 0x20
    case 6 => 0x40
    case _ => 0x80
  }

  /** `Mask(k)` is the source's `1 << k`. */
  lemma MaskIsShift(k: nat)
    requires k < 8
    ensures Mask(k) == (1 as bv8) << k
  {
  }

  /** Whether bit `k` of `b` is set. */
  predicate BitAt(b: bv8, k: nat)
    requires k < 8
    ensures BitAt(b, k) <==> b | Mask(k) == b
  {
    b & Mask(k) != 0
  }

  /** `b` with bit `k` set (`b | 1 << k`) or cleared (`b & !(1 << k)`). */
  function WithBit(b: bv8, k: nat, v: bool): (r: bv8)
    requires k < 8
    ensures BitAt(r, k) == v
    ensures r & !Mask(k) == b & !Mask(k)
  {
    if v then b | Mask(k) else b & !Mask(k)
  }

  /** Distinct slots have disjoint masks. */
  lemma MasksDisjoint(k: nat, j: nat)
    requires k < 8 && j < 8 && k != j
    ensures Mask(k) & Mask(j) == 0
  {
    match k
    case 0 => {}
    case 1 => {}
    case 2 => {}
    case 3 => {}
    case 4 => {}
    case 5 => {}
    case 6 => {}
    case _ => {}
  }

  /** Writing bit `k` changes bit `k` to `v` and leaves the other seven bits alone. */
  lemma WithBitAt(b: bv8, k: nat, v: bool, j: nat)
    requires k < 8 && j < 8
    ensures BitAt(WithBit(b, k, v), j) == if j == k then v else BitAt(b, j)
  {
    var mk, mj := Mask(k), Mask(j);
    if j != k {
      MasksDisjoint(k, j);
      assert (b | mk) & mj == b & mj;
      assert (b & !mk) & mj == b & mj;
    }
  }

  /**
   * Names mapped injectively to slots below `next` are at most `next` many:
   * a packer never holds more names than slots it has handed out.
   */
  lemma {:induction false} SlotsFit(m: map<string, nat>, next: nat)
    ensures ((forall n :: n in m ==> m[n] < next) &&
             (forall a, b :: a in m && b in m && a != b ==> m[a] != m[b])) ==> |m| <= next
    decreases next
  {
    if (forall n :: n in m ==> m[n] < next) &&
       (forall a, b :: a in m && b in m && a != b ==> m[a] != m[b]) {
      if next == 0 {
        assert m.Keys == {};
      } else if x :| x in m && m[x] == next - 1 {
        var rest := m - {x};
        assert forall n :: n in rest ==> rest[n] < next - 1;
        SlotsFit(rest, next - 1);
        assert rest.Keys == m.Keys - {x};
      } else {
        SlotsFit(m, next - 1);
      }
    }
  }

  class BitSet8 {
    var bits: bv8
    var bitMap: map<string, nat>
    var nextBit: nat

    /**
     * The packer's invariant: at most eight slots are used, every mapped slot
     * has been handed out, no two names share a slot, and bits that were
     * never handed out are clear.
     */
    ghost predicate Valid()
      reads this
      ensures Valid() ==> |bitMap| <= nextBit
    {
      SlotsFit(bitMap, nextBit);
      nextBit <= Capacity &&
      (forall n :: n in bitMap ==> bitMap[n] < nextBit) &&
      (forall m, n :: m in bitMap && n in bitMap && m != n ==> bitMap[m] != bitMap[n]) &&
      (forall k :: nextBit <= k < 8 ==> !BitAt(bits, k))
    }

    /** `new`: an empty packer. */
    constructor ()
      ensures Valid()
      ensures bits == 0 && bitMap == map[] && nextBit == 0
    {
      bits := 0;
      bitMap := map[];
      nextBit := 0;
    }

    /** `get`: the value stored for `name`, if it has a slot. */
    function Get(name: string): (r: Option<bool>)
      reads this
      requires Valid()
      ensures r.Some? <==> name in bitMap
      ensures r.Some? ==> r.value == BitAt(bits, bitMap[name])
    {
      if name in bitMap then Some(BitAt(bits, bitMap[name])) else None
    }

    /** `used_bits`. */
    function UsedBits(): (r: nat)
      reads this
      requires Valid()
      ensures r <= Capacity
    {
      nextBit
    }

    /** `available_bits`: the slots still free. */
    function AvailableBits(): (r: nat)
      reads this
      requires Valid()
      ensures UsedBits() + r == Capacity
    {
      Capacity - nextBit
    }

    /**
     * `allocate_bit`: give `name` the next free slot, or fail when all eight
     * are taken. A name that already had a slot is moved to the new one.
     */
    method AllocateBit(name: string) returns (r: Option<nat>)
      requires Valid()
      modifies this
      ensures Valid()
      ensures old(nextBit) >= Capacity ==>
        r == None && bits == old(bits) && bitMap == old(bitMap) && nextBit == old(nextBit)
      ensures old(nextBit) < Capacity ==>
        r == Some(old(nextBit)) && nextBit == old(nextBit) + 1 &&
        bitMap == old(bitMap)[name := old(nextBit)] && bits == old(bits)
      ensures r.Some? ==> Get(name) == Some(false)
      ensures r.Some? && name in old(bitMap) ==> old(bitMap)[name] !in bitMap.Values
    {
      if nextBit >= Capacity {
        return None;
      }
      var bitPos := nextBit;
      bitMap := bitMap[name := bitPos];
      nextBit := nextBit + 1;
      r := Some(bitPos);
    }

    /**
     * `set`: write `value` into the slot of `name`; report whether the name
     * has a slot. Only that one bit changes.
     */
    method Set(name: string, value: bool) returns (ok: bool)
      requires Valid()
      modifies this`bits
      ensures Valid()
      ensures ok <==> name in bitMap
      ensures ok ==> bits == WithBit(old(bits), bitMap[name], value)
      ensures !ok ==> bits == old(bits)
      ensures ok ==> Get(name) == Some(value)
      ensures forall n :: n != name ==> Get(n) == old(Get(n))
    {
      if name in bitMap {
        var bitPos := bitMap[name];
        forall j | 0 <= j < 8 {
          WithBitAt(bits, bitPos, value, j);
        }
        bits := WithBit(bits, bitPos, value);
        ok := true;
      } else {
        ok := false;
      }
    }
  }

  /**
   * Nine allocations in a fresh packer: the eighth gets the last slot, the
   * ninth fails, and afterwards all eight bits are used.
   */
  method CapacityScenario() returns (first: Option<nat>, last: Option<nat>, overflow: Option<nat>, used: nat, available: nat)
    ensures first == Some(0) && last == Some(7) && overflow == None
    ensures used == 8 && available == 0
  {
    var packer := new BitSet8();
    first := packer.AllocateBit("f0");
    assert packer.nextBit == 1;
    var _ := packer.AllocateBit("f1");
    assert packer.nextBit == 2;
    var _ := packer.AllocateBit("f2");
    assert packer.nextBit == 3;
    var _ := packer.AllocateBit("f3");
    assert packer.nextBit == 4;
    var _ := packer.AllocateBit("f4");
    assert packer.nextBit == 5;
    var _ := packer.AllocateBit("f5");
    assert packer.nextBit == 6;
    var _ := packer.AllocateBit("f6");
    assert packer.nextBit == 7;
    last := packer.AllocateBit("f7");
    overflow := packer.AllocateBit("f8");
    used := packer.UsedBits();
    available := packer.AvailableBits();
  }

  /** The scenario of the module's unit test: two flags set and read back. */
  method FlagsScenario() returns (slot1: Option<nat>, slot2: Option<nat>, ok1: bool, ok2: bool,
                                  flag1: Option<bool>, flag2: Option<bool>, missing: Option<bool>)
    ensures slot1.Some? && slot2.Some? && ok1 && ok2
    ensures flag1 == Some(true) && flag2 == Some(false) && missing == None
  {
    var packer := new BitSet8();
    slot1 := packer.AllocateBit("flag1");
    slot2 := packer.AllocateBit("flag2");
    ok1 := packer.Set("flag1", true);
    ok2 := packer.Set("flag2", false);
    flag1 := packer.Get("flag1");
    flag2 := packer.Get("flag2");
    missing := packer.Get("nonexistent");
  }
}
