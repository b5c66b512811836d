/** Base and full fid keys (hax/hax/types.py, hax/hax/util.py): the low 32 bits of a key identify the
    configured object, the bits above count its dynamic incarnations. */
module FidKeys {
  import opened Fids
  import opened Arithmetic

  const DW_F: nat := 0xffff_ffff
  const TWO_32: nat := 0x1_0000_0000
  const TWO_64: nat := 0x1_0000_0000_0000_0000

  const PROCESS: int := 0x7200000000000001
  const SERVICE: int := 0x7300000000000001

  /** Bitwise and of an integer in two's complement with a mask. */
  function And(a: int, mask: nat): nat
    decreases mask, a
  {
    if mask == 0 then 0 else (a % 2) * (mask % 2) + 2 * And(a / 2, mask / 2)
  }

  function Pow2(k: nat): (p: nat)
    ensures p >= 1
  {
    if k == 0 then 1 else 2 * Pow2(k - 1)
  }

  lemma HalveRemainder(a: int, h: int)
    requires h > 0
    ensures a % (2 * h) == a % 2 + 2 * ((a / 2) % h)
  {
    var q, r := (a / 2) / h, (a / 2) % h;
    assert a / 2 == h * q + r;
    assert 2 * (h * q) == (2 * h) * q;
    ModUnique(a, 2 * h, q, 2 * r + a % 2);
  }

  lemma {:induction false} MaskIsMod(a: int, k: nat)
    ensures And(a, Pow2(k) - 1) == a % Pow2(k)
    decreases k
  {
    if k > 0 {
      var h := Pow2(k - 1);
      MaskIsMod(a / 2, k - 1);
      var mask := Pow2(k) - 1;
      assert mask == 2 * (h - 1) + 1;
      assert mask % 2 == 1 && mask / 2 == h - 1;
      assert And(a, mask) == (a % 2) * 1 + 2 * And(a / 2, h - 1);
      HalveRemainder(a, h);
    }
  }

  lemma Pow2Of32()
    ensures Pow2(32) == TWO_32
  {
    assert Pow2(8) == 256;
    assert Pow2(16) == 65536;
    assert Pow2(24) == 16777216;
  }

  /** The `&` of the source: masking with 0xffffffff is taking the remainder modulo 2 to the 32. */
  lemma LowHalf(a: int)
    ensures And(a, DW_F) == a % TWO_32
  {
    Pow2Of32();
    MaskIsMod(a, 32);
  }

  /** `get_base_fid`, for the classes of objects that have a mask; None stands for KeyError.  The
      masked key is written as the remainder it equals. */
  function BaseFid(f: Fid): Option<Fid> {
    if f.container == PROCESS || f.container == SERVICE then Some(Fid(f.container, f.key % TWO_32)) else None
  }

  /** Only processes and services have a base fid, and it is of their class with the masked key. */
  lemma BaseFidIff(f: Fid)
    ensures BaseFid(f).Some? <==> f.container == PROCESS || f.container == SERVICE
    ensures BaseFid(f).Some? ==> BaseFid(f).value == Fid(f.container, And(f.key, DW_F))
  {
    LowHalf(f.key);
  }

  /** The key `alloc_next_obj_fid` builds from a key and a counter. */
  function FullKey(key: int, counter: int): int {
    key + ((DW_F * counter) + counter)
  }

  /** The counter sits exactly above the low half. */
  lemma FullKeyIsShift(key: int, counter: int)
    ensures FullKey(key, counter) == key + TWO_32 * counter
  {
  }

  lemma ShiftKeepsLowHalf(key: int, counter: int)
    ensures FullKey(key, counter) % TWO_32 == key % TWO_32
  {
    FullKeyIsShift(key, counter);
    ModUnique(FullKey(key, counter), TWO_32, key / TWO_32 + counter, key % TWO_32);
  }

  /** A full fid has the base it was made from. */
  lemma BaseRecovered(f: Fid, counter: int)
    requires f.container == PROCESS || f.container == SERVICE
    ensures BaseFid(Fid(f.container, FullKey(f.key, counter))) == BaseFid(f)
    ensures 0 <= f.key < TWO_32 ==> BaseFid(Fid(f.container, FullKey(f.key, counter))) == Some(f)
  {
    ShiftKeepsLowHalf(f.key, counter);
  }

  /** Base keys below 2 to the 32 and counters determine, and are determined by, the full key. */
  lemma FullKeyInjective(k1: nat, n1: int, k2: nat, n2: int)
    requires k1 < TWO_32 && k2 < TWO_32
    ensures FullKey(k1, n1) == FullKey(k2, n2) <==> k1 == k2 && n1 == n2
  {
    FullKeyIsShift(k1, n1);
    FullKeyIsShift(k2, n2);
    ModUnique(FullKey(k1, n1), TWO_32, n1, k1);
    ModUnique(FullKey(k2, n2), TWO_32, n2, k2);
  }

  /** A full key fits the 64 bits of a fid exactly while the counter stays below 2 to the 32. */
  lemma FitsIff(key: nat, counter: nat)
    requires key < TWO_32
    ensures FullKey(key, counter) < TWO_64 <==> counter < TWO_32
  {
    FullKeyIsShift(key, counter);
  }
}
