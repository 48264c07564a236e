/** Little-endian loads and stores over byte-addressed memory. */
module ByteMemory {

  type Byte = x: int | 0 <= x < 256

  type Memory = map<int, Byte>

  const TWO_TO_32: nat := 0x1_0000_0000
  const TWO_TO_64: nat := 0x1_0000_0000_0000_0000

  predicate Mapped(m: Memory, a: int, size: nat) { forall i :: a <= i < a + size ==> i in m }

  function Load(m: Memory, a: int, size: nat): nat
    requires Mapped(m, a, size)
    decreases size
  {
    if size == 0 then 0 else m[a] + 256 * Load(m, a + 1, size - 1)
  }

  function Store(m: Memory, a: int, size: nat, v: nat): Memory
    requires Mapped(m, a, size)
    decreases size
  {
    if size == 0 then m else Store(m[a := v % 256], a + 1, size - 1, v / 256)
  }

  /** A store maps nothing new and changes its own bytes only. */
  lemma {:induction false} StoreFrame(m: Memory, a: int, size: nat, v: nat)
    requires Mapped(m, a, size)
    ensures Store(m, a, size, v).Keys == m.Keys
    ensures forall i :: i in m && !(a <= i < a + size) ==> Store(m, a, size, v)[i] == m[i]
    decreases size
  {
    if size > 0 { StoreFrame(m[a := v % 256], a + 1, size - 1, v / 256); }
  }

  function Width(size: nat): nat {
    if size == 0 then 1 else 256 * Width(size - 1)
  }

  lemma Widths()
    ensures Width(4) == TWO_TO_32 && Width(8) == TWO_TO_64
  {
    assert Width(2) == 65536 && Width(3) == 16777216 && Width(4) == 4294967296;
    assert Width(5) == 256 * 4294967296 && Width(6) == 65536 * 4294967296;
    assert Width(7) == 16777216 * 4294967296;
  }

  /** A load depends on its own bytes only. */
  lemma {:induction false} LoadFrame(m: Memory, m': Memory, a: int, size: nat)
    requires Mapped(m, a, size) && Mapped(m', a, size)
    requires forall i :: a <= i < a + size ==> m[i] == m'[i]
    ensures Load(m, a, size) == Load(m', a, size)
    decreases size
  {
    if size > 0 { LoadFrame(m, m', a + 1, size - 1); }
  }

  lemma {:induction false} LoadStored(m: Memory, a: int, size: nat, v: nat)
    requires Mapped(m, a, size) && v < Width(size)
    ensures Mapped(Store(m, a, size, v), a, size) && Load(Store(m, a, size, v), a, size) == v
    decreases size
  {
    StoreFrame(m, a, size, v);
    if size > 0 {
      var rest := m[a := v % 256];
      LoadStored(rest, a + 1, size - 1, v / 256);
      StoreFrame(rest, a + 1, size - 1, v / 256);
      assert Store(m, a, size, v) == Store(rest, a + 1, size - 1, v / 256);
      assert Store(m, a, size, v)[a] == v % 256;
    }
  }

  lemma LoadElsewhere(m: Memory, a: int, size: nat, v: nat, b: int, width: nat)
    requires Mapped(m, a, size) && Mapped(m, b, width)
    requires a + size <= b || b + width <= a
    ensures Mapped(Store(m, a, size, v), b, width) && Load(Store(m, a, size, v), b, width) == Load(m, b, width)
  {
    StoreFrame(m, a, size, v);
    LoadFrame(Store(m, a, size, v), m, b, width);
  }

  lemma {:induction false} LoadBound(m: Memory, a: int, size: nat)
    requires Mapped(m, a, size)
    ensures Load(m, a, size) < Width(size)
    decreases size
  {
    if size > 0 { LoadBound(m, a + 1, size - 1); }
  }
}
