/** Small shared vocabulary: optional values, orderings of finite sets and sums. */
module Prelude {

  datatype Option<+T> = None | Some(value: T)

  /** `order` lists every element of `elements` exactly once. */
  ghost predicate IsOrdering<T(!new)>(order: seq<T>, elements: set<T>) {
    && (forall x :: x in elements <==> x in order)
    && (forall i, j :: 0 <= i < j < |order| ==> order[i] != order[j])
  }

  /** One more element, taken from those still missing. */
  lemma {:induction false} OrderingGrows<T(!new)>(order: seq<T>, all: set<T>, left: set<T>, x: T)
    requires x in left && left <= all && IsOrdering(order, all - left)
    ensures IsOrdering(order + [x], all - (left - {x}))
  {
  }

  /** Copying the listed entries of `source` into `found`, one `put` at a time. */
  function Entered<K, V>(source: map<K, V>, order: seq<K>, found: map<K, V>): map<K, V> {
    if order == [] then found
    else Entered(source, order[1..], if order[0] in source then found[order[0] := source[order[0]]] else found)
  }

  lemma {:induction false} EnteredEntries<K, V>(source: map<K, V>, order: seq<K>, found: map<K, V>)
    requires forall k <- found :: k in source && found[k] == source[k]
    ensures var all := Entered(source, order, found);
      && (forall k <- all :: k in source && all[k] == source[k])
      && (forall k <- source :: k in all <==> k in found || k in order)
  {
    if order == [] {
    } else {
      EnteredEntries(source, order[1..], if order[0] in source then found[order[0] := source[order[0]]] else found);
      assert order == [order[0]] + order[1..];
    }
  }

  /** Listing every key copies the whole map. */
  lemma {:induction false} EnteredAll<K, V>(source: map<K, V>, order: seq<K>)
    requires forall k <- source :: k in order
    ensures Entered(source, order, map[]) == source
  {
    EnteredEntries(source, order, map[]);
  }

  function Min(a: int, b: int): int {
    if a < b then a else b
  }

  function Max(a: int, b: int): int {
    if a > b then a else b
  }

  function Reverse<T>(s: seq<T>): (r: seq<T>) {
    if s == [] then [] else Reverse(s[1..]) + [s[0]]
  }

  function SetOf<T(!new)>(s: seq<T>): (r: set<T>)
    ensures forall x :: x in r <==> x in s
  {
    set x | x in s
  }

  lemma SetOfTake<T(!new)>(s: seq<T>, i: nat)
    requires i < |s|
    ensures SetOf(s[..i + 1]) == SetOf(s[..i]) + {s[i]}
  {
  }

  /** The sum of `weight` over a sequence. */
  function Sum<T>(s: seq<T>, weight: T -> int): int {
    if s == [] then 0 else weight(s[0]) + Sum(s[1..], weight)
  }

  /** Replacing one element moves the sum by the difference of the two weights. */
  lemma {:induction false} SumUpdate<T>(s: seq<T>, i: nat, x: T, weight: T -> int)
    requires i < |s|
    ensures Sum(s[i := x], weight) == Sum(s, weight) - weight(s[i]) + weight(x)
  {
    if i == 0 {
      assert s[0 := x][1..] == s[1..];
    } else {
      assert s[i := x][1..] == s[1..][i - 1 := x];
      SumUpdate(s[1..], i - 1, x, weight);
    }
  }

  lemma {:induction false} SumAppend<T>(s: seq<T>, x: T, weight: T -> int)
    ensures Sum(s + [x], weight) == Sum(s, weight) + weight(x)
  {
    if s == [] {
      assert [x][1..] == [];
      assert Sum([x], weight) == weight(x) + Sum([], weight);
    } else {
      assert (s + [x])[1..] == s[1..] + [x];
      SumAppend(s[1..], x, weight);
    }
  }
}
