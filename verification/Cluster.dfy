/** Hash slots: the 64-bit djb2 fold of a key, and round-robin slot ownership. */
module Cluster {
  import opened Prelude

  const SLOTS: nat := 16384
  const WORD: nat := 0x1_0000_0000_0000_0000
  const SEED: nat := 5381

  /** A `char` of the server, sign-extended: the low eight bits as a two's-complement byte. */
  function SignedChar(c: char): int {
    var byte := c as int % 256;
    if byte < 128 then byte else byte - 256
  }

  // ---------- the integer polynomial ----------

  function Pow33(n: nat): nat {
    if n == 0 then 1 else 33 * Pow33(n - 1)
  }

  /** The sum of c_i * 33^(n-1-i) over the characters of `key`. */
  function Weighted(key: string): int {
    if key == "" then 0 else SignedChar(key[0]) * Pow33(|key| - 1) + Weighted(key[1..])
  }

  /** The hash over unbounded integers: 5381 * 33^n + the weighted characters. */
  function IdealHash(key: string): int {
    SEED * Pow33(|key|) + Weighted(key)
  }

  function SlotOf(key: string): nat {
    IdealHash(key) % SLOTS
  }

  lemma {:induction false} WeightedAppend(key: string, c: char)
    ensures Weighted(key + [c]) == 33 * Weighted(key) + SignedChar(c)
  {
    if key == "" {
      assert key + [c] == [c];
      assert Weighted([c]) == SignedChar(c) * Pow33(0) + Weighted([c][1..]);
    } else {
      assert (key + [c])[1..] == key[1..] + [c];
      WeightedAppend(key[1..], c);
      var p := Pow33(|key| - 1);
      assert Pow33(|key|) == 33 * p;
      assert SignedChar(key[0]) * (33 * p) == 33 * (SignedChar(key[0]) * p);
    }
  }

  lemma {:induction false} IdealHashAppend(key: string, c: char)
    ensures IdealHash(key + [c]) == 33 * IdealHash(key) + SignedChar(c)
  {
    WeightedAppend(key, c);
  }

  lemma ModShift(x: int, q: int)
    ensures (x + q * SLOTS) % SLOTS == x % SLOTS
  {
    var y := x + q * SLOTS;
    assert (y / SLOTS - x / SLOTS - q) * SLOTS == x % SLOTS - y % SLOTS;
  }

  /** One fold step respects congruence modulo the slot count. */
  lemma {:induction false} FoldCongruent(h: int, g: int, c: int)
    requires h % SLOTS == g % SLOTS
    ensures (33 * h + c) % SLOTS == (33 * g + c) % SLOTS
  {
    var q := h / SLOTS - g / SLOTS;
    assert h == g + q * SLOTS;
    assert 33 * h + c == 33 * g + c + 33 * q * SLOTS;
    ModShift(33 * g + c, 33 * q);
  }

  /** Truncating to 64 bits does not disturb the slot, because 2^64 is a multiple of 2^14. */
  lemma {:induction false} WordKeepsSlot(x: int)
    ensures x % WORD % SLOTS == x % SLOTS
  {
    var q := x / WORD;
    assert x == x % WORD + (q * (WORD / SLOTS)) * SLOTS;
    ModShift(x % WORD, q * (WORD / SLOTS));
  }

  /** One iteration of the server's loop on `size_t`: each operator truncates. */
  function Fold64(hash: nat, c: char): (h: nat)
    ensures h < WORD
  {
    ((hash * 32 % WORD + hash) % WORD + SignedChar(c)) % WORD
  }

  lemma {:induction false} Fold64KeepsSlot(hash: nat, c: char)
    ensures Fold64(hash, c) % SLOTS == (33 * hash + SignedChar(c)) % SLOTS
  {
    var shifted := hash * 32 % WORD;
    var p := hash * 32 / WORD;
    var q := (shifted + hash) / WORD;
    var r := (shifted + hash) % WORD;
    assert r + SignedChar(c) == 33 * hash + SignedChar(c) + ((-p - q) * (WORD / SLOTS)) * SLOTS;
    ModShift(33 * hash + SignedChar(c), (-p - q) * (WORD / SLOTS));
    WordKeepsSlot(r + SignedChar(c));
  }

  /** The wrapping loop computes the slot of the ideal polynomial, for every key of every length. */
  method CalculateHashSlot(key: string) returns (slot: nat)
    ensures slot == SlotOf(key) < SLOTS
  {
    var hash: nat := SEED;
    for i := 0 to |key|
      invariant hash < WORD
      invariant hash % SLOTS == IdealHash(key[..i]) % SLOTS
    {
      assert key[..i + 1] == key[..i] + [key[i]];
      IdealHashAppend(key[..i], key[i]);
      FoldCongruent(hash, IdealHash(key[..i]), SignedChar(key[i]));
      Fold64KeepsSlot(hash, key[i]);
      hash := Fold64(hash, key[i]);
    }
    assert key[..|key|] == key;
    slot := hash % SLOTS;
  }

  /** The same fold with only fourteen bits of state. */
  function Fold14(key: string): nat {
    if key == "" then SEED
    else (33 * Fold14(key[..|key| - 1]) + SignedChar(key[|key| - 1])) % SLOTS
  }

  /** Word width never matters: fourteen bits of state give the same slot. */
  lemma {:induction false} FourteenBitsSuffice(key: string)
    ensures Fold14(key) == SlotOf(key)
  {
    if key == "" {
    } else {
      var n := |key| - 1;
      FourteenBitsSuffice(key[..n]);
      assert key == key[..n] + [key[n]];
      IdealHashAppend(key[..n], key[n]);
      FoldCongruent(Fold14(key[..n]), IdealHash(key[..n]), SignedChar(key[n]));
    }
  }

  /** The slot function in full, by recursion on the key: no characters give 5381, and one more character,
      read as a signed byte, makes 33 times the slot plus that byte, modulo 16384. */
  lemma {:induction false} SlotByCharacter(key: string, c: char, byte: int)
    requires -128 <= byte < 128 && (c as int - byte) % 256 == 0
    ensures SlotOf("") == 5381
    ensures SlotOf(key + [c]) == (33 * SlotOf(key) + byte) % 16384
  {
    assert byte == SignedChar(c);
    IdealHashAppend(key, c);
    FoldCongruent(SlotOf(key), IdealHash(key), byte);
    assert Weighted("") == 0 && Pow33(0) == 1;
  }

  // ---------- ownership ----------

  /** The index `findNodeForSlot` picks; with no nodes there is none. */
  function NodeForSlot(slot: nat, nodes: nat): Option<nat> {
    if nodes == 0 then None else Some(slot % nodes)
  }

  function OwnedBelow(node: nat, nodes: nat, limit: nat): set<nat> {
    set slot: nat | slot < limit && NodeForSlot(slot, nodes) == Some(node)
  }

  lemma {:induction false} DivModStep(m: nat, n: nat)
    requires n > 0
    ensures if m % n == n - 1 then (m + 1) / n == m / n + 1 && (m + 1) % n == 0
            else (m + 1) / n == m / n && (m + 1) % n == m % n + 1
  {
    var q := if m % n == n - 1 then m / n + 1 else m / n;
    var r := if m % n == n - 1 then 0 else m % n + 1;
    assert m + 1 == n * q + r by {
      assert m == n * (m / n) + m % n;
      assert n * (m / n + 1) == n * (m / n) + n;
    }
    DivModUnique(m + 1, n, q, r);
  }

  lemma {:induction false} DivModUnique(m: nat, n: nat, q: nat, r: nat)
    requires n > 0 && r < n && m == n * q + r
    ensures m / n == q && m % n == r
  {
    var d := m / n - q;
    assert m == n * (m / n) + m % n;
    assert n * d == n * (m / n) - n * q;
    MultipleGap(n, d);
  }

  lemma MultipleGap(n: int, d: int)
    requires n > 0
    ensures d >= 1 ==> n * d >= n
    ensures d <= -1 ==> n * d <= -n
  {
  }

  lemma {:induction false} OwnedCount(node: nat, nodes: nat, limit: nat)
    requires node < nodes
    ensures |OwnedBelow(node, nodes, limit)| == limit / nodes + (if node < limit % nodes then 1 else 0)
  {
    if limit == 0 {
      assert OwnedBelow(node, nodes, 0) == {};
      DivModUnique(0, nodes, 0, 0);
    } else {
      var m := limit - 1;
      OwnedCount(node, nodes, m);
      DivModStep(m, nodes);
      if m % nodes == node {
        assert OwnedBelow(node, nodes, limit) == OwnedBelow(node, nodes, m) + {m};
      } else {
        assert OwnedBelow(node, nodes, limit) == OwnedBelow(node, nodes, m);
      }
    }
  }

  ghost predicate HasOwner(slot: nat, nodes: nat) {
    exists node: nat :: node < nodes && slot in OwnedBelow(node, nodes, SLOTS)
  }

  /** Ownership is balanced for every cluster size: the first `SLOTS % nodes` nodes own one slot
      more than the rest, and each slot has exactly one owner. */
  lemma {:induction false} RoundRobinIsBalanced(nodes: nat)
    requires nodes > 0
    ensures forall node: nat :: node < nodes ==>
      |OwnedBelow(node, nodes, SLOTS)| == SLOTS / nodes + (if node < SLOTS % nodes then 1 else 0)
    ensures forall slot: nat :: slot < SLOTS ==> HasOwner(slot, nodes)
    ensures forall a: nat, b: nat :: a < b < nodes ==> OwnedBelow(a, nodes, SLOTS) !! OwnedBelow(b, nodes, SLOTS)
  {
    forall node: nat | node < nodes
      ensures |OwnedBelow(node, nodes, SLOTS)| == SLOTS / nodes + (if node < SLOTS % nodes then 1 else 0)
    {
      OwnedCount(node, nodes, SLOTS);
    }
    forall slot: nat | slot < SLOTS
      ensures HasOwner(slot, nodes)
    {
      assert slot in OwnedBelow(slot % nodes, nodes, SLOTS);
    }
  }
}
