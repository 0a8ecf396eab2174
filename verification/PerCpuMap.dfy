/**
 Per-CPU BPF maps: every CPU's value sits in its own 8-byte aligned slot of one buffer.
 The kernel is a contract: it reads and writes the slots, and the padding is arbitrary.
 */
module PerCpuMaps {
  import opened Common

  /** A non-negative 32-bit signed count. */
  type Count = x: int | 0 <= x < 0x8000_0000

  const TWO_TO_64 := 0x1_0000_0000_0000_0000

  datatype MapType = PerCpu | Unknown | Ordinary

  datatype Error =
    | WrongMapType
    | WrongCpuCount
    | WrongValueSize(cpu: nat)
    | WrongKeySize
    | System(errno: int)
    | Panicked

  /** The next multiple of `r`. */
  function RoundUp(num: nat, r: nat): nat
    requires r > 0
  {
    ((num + (r - 1)) / r) * r
  }

  lemma DivisionBounds(x: nat, r: nat)
    requires r > 0
    ensures (x / r) * r <= x < (x / r) * r + r
  {
    assert x == r * (x / r) + x % r;
  }

  lemma ProductOrder(a: nat, b: nat, r: nat)
    requires a < b
    ensures a * r + r <= b * r
  {
    assert b * r == (b - a) * r + a * r;
    assert (b - a) * r == (b - a - 1) * r + r;
  }

  lemma MultipleDivides(q: nat, r: nat)
    requires r > 0
    ensures (q * r) % r == 0
  {
    var d := (q * r) / r;
    assert q * r == d * r + (q * r) % r;
    if d < q {
      ProductOrder(d, q, r);
    }
  }

  /** The result is the least multiple of `r` that is not below `num`. */
  lemma RoundUpLeast(num: nat, r: nat, m: nat)
    requires r > 0
    ensures RoundUp(num, r) % r == 0
    ensures num <= RoundUp(num, r) < num + r
    ensures num <= m * r ==> RoundUp(num, r) <= m * r
  {
    var q := (num + (r - 1)) / r;
    DivisionBounds(num + (r - 1), r);
    MultipleDivides(q, r);
    if m < q {
      ProductOrder(m, q, r);
    } else if q < m {
      ProductOrder(q, m, r);
    }
  }

  function Aligned(size: nat): (a: nat)
    ensures size <= a < size + 8 && a % 8 == 0
  {
    RoundUp(size, 8)
  }

  /** Nothing the size computations do leaves 64 bits. */
  lemma SizesFit(size: U32, cpus: Count, i: nat)
    ensures size + 7 < TWO_TO_64
    ensures cpus * Aligned(size) < TWO_TO_64
    ensures i < cpus ==> i * Aligned(size) + size <= cpus * Aligned(size)
  {
    var a := Aligned(size);
    assert a < 0x1_0000_0008;
    assert cpus * a <= 0x8000_0000 * 0x1_0000_0008 by {
      ProductBound(cpus, a, 0x8000_0000, 0x1_0000_0008);
    }
    if i < cpus {
      ProductOrder(i, cpus, a);
    }
  }

  lemma ProductBound(x: nat, y: nat, a: nat, b: nat)
    requires x <= a && y <= b
    ensures x * y <= a * b
  {
    assert x * y <= a * y;
    assert a * y <= a * b;
  }

  /** The values in the slots of a buffer, as the kernel lays them out: a slot takes `a` bytes, its value the first `size`. */
  function Slots(buffer: Bytes, cpus: nat, a: nat, size: nat): seq<Bytes>
    requires |buffer| == cpus * a && size <= a
  {
    seq(cpus, i requires 0 <= i < cpus =>
      ProductOrder(i, cpus, a);
      buffer[i * a..i * a + size])
  }

  class PerCpuMap {
    const kind: MapType
    const keySize: U32
    const valueSize: U32
    const cpus: Result<Count, int>
    /** The kernel's side: one value per CPU under each key. */
    var stored: map<Bytes, seq<Bytes>>

    ghost predicate Valid()
      reads this
    {
      forall k | k in stored :: cpus.Ok? && |stored[k]| == cpus.value && forall v <- stored[k] :: |v| == valueSize
    }

    constructor (kind: MapType, keySize: U32, valueSize: U32, cpus: Result<Count, int>)
      ensures this.kind == kind && this.keySize == keySize && this.valueSize == valueSize && this.cpus == cpus
      ensures stored == map[] && Valid()
    {
      this.kind := kind;
      this.keySize := keySize;
      this.valueSize := valueSize;
      this.cpus := cpus;
      stored := map[];
    }

    /** Store one value per CPU; `errno` is the system call's answer, 0 for success. */
    method UpdatePerCpu(key: Bytes, values: seq<Bytes>, errno: nat) returns (r: Result<(), Error>)
      requires Valid()
      modifies this
      ensures Valid()
      ensures r.Ok? <==>
        && !kind.Ordinary? && cpus.Ok? && |values| == cpus.value
        && (forall v <- values :: |v| == valueSize) && |key| == keySize && errno == 0
      ensures r == Err(WrongMapType) <==> kind.Ordinary?
      ensures r == Err(WrongCpuCount) <==> !kind.Ordinary? && cpus.Ok? && |values| != cpus.value
      ensures r.Err? && r.error.WrongValueSize? <==>
        !kind.Ordinary? && cpus.Ok? && |values| == cpus.value && exists v <- values :: |v| != valueSize
      ensures r == Err(WrongKeySize) <==>
        && !kind.Ordinary? && cpus.Ok? && |values| == cpus.value && (forall v <- values :: |v| == valueSize) && |key| != keySize
      ensures !kind.Ordinary? && cpus.Err? ==> r == Err(System(cpus.error))
      ensures
        (!kind.Ordinary? && cpus.Ok? && |values| == cpus.value && (forall v <- values :: |v| == valueSize) && |key| == keySize && errno != 0)
        ==> r == Err(System(errno))
      ensures r.Err? && r.error.WrongValueSize? ==>
        && r.error.cpu < |values| && |values[r.error.cpu]| != valueSize
        && forall j | 0 <= j < r.error.cpu :: |values[j]| == valueSize
      ensures stored == if r.Ok? then old(stored)[key := values] else old(stored)
    {
      if !kind.PerCpu? && !kind.Unknown? {
        return Err(WrongMapType);
      }
      if cpus.Err? {
        return Err(System(cpus.error));
      }
      var n := cpus.value;
      if |values| != n {
        return Err(WrongCpuCount);
      }
      var a := Aligned(valueSize);
      var buffer := new byte[n * a](_ => 0);
      var bad := FillSlots(buffer, values, a, valueSize);
      if bad.Some? {
        return Err(WrongValueSize(bad.value));
      }
      if |key| != keySize {
        return Err(WrongKeySize);
      }
      if errno != 0 {
        return Err(System(errno));
      }
      FilledSlots(buffer[..], values, n, a, valueSize);
      stored := stored[key := Slots(buffer[..], n, a, valueSize)];
      r := Ok(());
    }

    /**
     Read one value per CPU; `errno` is the system call's answer, 2 (ENOENT) for a missing key only,
     and `raw` is what it wrote to the buffer.
     */
    method LookupPerCpu(key: Bytes, raw: Bytes, errno: nat) returns (r: Result<Option<seq<Bytes>>, Error>)
      requires Valid()
      requires errno == 0 ==> cpus.Ok? && key in stored && |raw| == cpus.value * Aligned(valueSize)
                              && Slots(raw, cpus.value, Aligned(valueSize), valueSize) == stored[key]
      requires errno == 2 ==> key !in stored
      ensures r.Ok? && r.value.Some? <==> !kind.Ordinary? && cpus.Ok? && |key| == keySize && errno == 0 && valueSize > 0
      ensures r.Ok? && r.value.Some? ==> key in stored && r.value.value == stored[key]
      ensures r == Ok(None) <==> !kind.Ordinary? && cpus.Ok? && |key| == keySize && errno == 2
      ensures r == Ok(None) ==> key !in stored
      ensures r == Err(Panicked) <==> !kind.Ordinary? && cpus.Ok? && |key| == keySize && errno == 0 && valueSize == 0
      ensures r == Err(WrongMapType) <==> kind.Ordinary?
      ensures r == Err(WrongKeySize) <==> !kind.Ordinary? && cpus.Ok? && |key| != keySize
      ensures !kind.Ordinary? && cpus.Err? ==> r == Err(System(cpus.error))
      ensures !kind.Ordinary? && cpus.Ok? && |key| == keySize && errno != 0 && errno != 2 ==> r == Err(System(errno))
    {
      if !kind.PerCpu? && !kind.Unknown? {
        return Err(WrongMapType);
      }
      if cpus.Err? {
        return Err(System(cpus.error));
      }
      var a := Aligned(valueSize);
      if |key| != keySize {
        return Err(WrongKeySize);
      }
      if errno != 0 {
        if errno == 2 {
          return Ok(None);
        }
        return Err(System(errno));
      }
      if a == 0 {
        return Err(Panicked);
      }
      var out := ReadSlots(raw, cpus.value, a, valueSize);
      r := Ok(Some(out));
    }
  }

  /** Copy one value into place; everything before it stays. */
  method CopySlot(buffer: array<byte>, at: nat, value: Bytes)
    requires at + |value| <= buffer.Length
    modifies buffer
    ensures buffer[at..at + |value|] == value
    ensures buffer[..at] == old(buffer[..at])
  {
    var k := 0;
    while k < |value|
      invariant 0 <= k <= |value|
      invariant forall m | 0 <= m < k :: buffer[at + m] == value[m]
      invariant buffer[..at] == old(buffer[..at])
    {
      buffer[at + k] := value[k];
      k := k + 1;
    }
  }

  predicate SlotHolds(buffer: Bytes, j: nat, a: nat, value: Bytes) {
    HoldsAt(buffer, j * a, value)
  }

  predicate HoldsAt(buffer: Bytes, at: nat, value: Bytes) {
    at + |value| <= |buffer| && buffer[at..at + |value|] == value
  }

  lemma SlotKept(before: Bytes, after: Bytes, limit: nat, at: nat, value: Bytes)
    requires limit <= |before| == |after| && before[..limit] == after[..limit]
    requires at + |value| <= limit && HoldsAt(before, at, value)
    ensures HoldsAt(after, at, value)
  {
    assert after[at..at + |value|] == after[..limit][at..at + |value|];
    assert before[at..at + |value|] == before[..limit][at..at + |value|];
  }

  /** The slots before `n` hold the values given for them. */
  ghost predicate Filled(buffer: Bytes, values: seq<Bytes>, n: nat, a: nat, size: nat) {
    && n <= |values|
    && forall j | 0 <= j < n :: |values[j]| == size && SlotHolds(buffer, j, a, values[j])
  }

  lemma SlotStays(before: Bytes, after: Bytes, limit: nat, i: nat, j: nat, a: nat, value: Bytes)
    requires j < i && limit == i * a && |value| <= a && SlotHolds(before, j, a, value)
    requires limit <= |before| == |after| && before[..limit] == after[..limit]
    ensures SlotHolds(after, j, a, value)
  {
    ProductOrder(j, i, a);
    SlotKept(before, after, limit, j * a, value);
  }

  lemma FilledStep(before: Bytes, after: Bytes, values: seq<Bytes>, i: nat, a: nat, size: nat, limit: nat)
    requires i < |values| && |values[i]| == size <= a && Filled(before, values, i, a, size)
    requires limit == i * a && limit <= |before| == |after| && before[..limit] == after[..limit]
    requires HoldsAt(after, limit, values[i])
    ensures Filled(after, values, i + 1, a, size)
  {
    forall j | 0 <= j < i ensures SlotHolds(after, j, a, values[j]) {
      SlotStays(before, after, limit, i, j, a, values[j]);
    }
  }

  /** Fill the slots in order until a value of the wrong size is met. */
  method FillSlots(buffer: array<byte>, values: seq<Bytes>, a: nat, size: nat) returns (bad: Option<nat>)
    requires buffer.Length == |values| * a && size <= a
    modifies buffer
    ensures bad.None? ==> Filled(buffer[..], values, |values|, a, size)
    ensures bad.Some? ==>
      && bad.value < |values| && |values[bad.value]| != size
      && forall j | 0 <= j < bad.value :: |values[j]| == size
  {
    var i := 0;
    while i < |values|
      invariant 0 <= i <= |values| && Filled(buffer[..], values, i, a, size)
    {
      if |values[i]| != size {
        return Some(i);
      }
      ProductOrder(i, |values|, a);
      ghost var before := buffer[..];
      CopySlot(buffer, i * a, values[i]);
      FilledStep(before, buffer[..], values, i, a, size, i * a);
      i := i + 1;
    }
    bad := None;
  }

  /** What was filled in reads back unchanged. */
  lemma FilledSlots(buffer: Bytes, values: seq<Bytes>, cpus: nat, a: nat, size: nat)
    requires |buffer| == cpus * a && |values| == cpus && size <= a
    requires Filled(buffer, values, cpus, a, size)
    ensures Slots(buffer, cpus, a, size) == values
  {
    forall j | 0 <= j < cpus ensures Slots(buffer, cpus, a, size)[j] == values[j] {
      assert SlotHolds(buffer, j, a, values[j]);
    }
  }

  lemma ChunkHoldsSlot(buffer: Bytes, cpus: nat, a: nat, size: nat, i: nat)
    requires |buffer| == cpus * a && size <= a && i < cpus
    ensures i * a + a <= |buffer| && buffer[i * a..i * a + a][..size] == Slots(buffer, cpus, a, size)[i]
  {
    ProductOrder(i, cpus, a);
  }

  /** Cut the buffer into chunks of one slot and drop each slot's padding. */
  method ReadSlots(buffer: Bytes, cpus: nat, a: nat, size: nat) returns (out: seq<Bytes>)
    requires |buffer| == cpus * a && size <= a
    ensures out == Slots(buffer, cpus, a, size)
  {
    ghost var slots := Slots(buffer, cpus, a, size);
    out := [];
    var i := 0;
    while i < cpus
      invariant 0 <= i <= cpus && out == slots[..i]
    {
      ChunkHoldsSlot(buffer, cpus, a, size, i);
      var chunk := buffer[i * a..i * a + a];
      out := out + [chunk[..size]];
      i := i + 1;
    }
  }
}
