/**
  The synthetic data model of the benchmark (src/thing.rs): the entities every
  format must encode and decode, and their `new` constructors, each of which
  consumes the generator in the order the source does and returns the built
  value together with the generator's successor state.
 */
module Thing {
  import opened Wrappers
  import opened Random

  type U8 = x: int | 0 <= x < 0x100
  type U16 = x: int | 0 <= x < 0x1_0000
  type I16 = x: int | -0x8000 <= x < 0x8000
  type I32 = x: int | -0x8000_0000 <= x < 0x8000_0000

  /** A drawn floating-point value, kept as the raw word it was drawn from:
      float arithmetic and the float distributions are not modelled. */
  datatype F32 = F32(word: nat)
  datatype F64 = F64(word: nat)

  datatype Condition = Any | Directory | File | TextFile | BinaryFile

  /** Every condition, in declaration order. */
  const CONDITIONS: seq<Condition> := [Any, Directory, File, TextFile, BinaryFile]

  /** `Condition::default()`. */
  function DefaultCondition(): (c: Condition)
    ensures c in CONDITIONS && c == CONDITIONS[0]
  {
    Any
  }

  datatype DetailedThing = DetailedThing(
    key: string,
    value: F32,
    coords: (F64, F64),
    cost: Option<U8>,
    text: string)

  /** The untagged union: which variant a value is does not show in its encoding. */
  datatype VarThing = Simple(s: string) | Detailed(detailed: DetailedThing)

  datatype Bidule = Bidule(id: string, numbers: seq<I32>)

  datatype Stuff = Stuff(
    name: Option<string>,
    quantity: U16,
    varThing: Option<VarThing>,
    good: Option<bool>,
    tags: seq<string>,
    condition: Condition,
    x: I16)

  datatype Thing = Thing(
    name: string,
    surname: Option<string>,
    varThings: seq<VarThing>,
    stuff: map<string, Stuff>,
    bidules: seq<Bidule>)

  // ---------------------------------------------------------------------
  // The shapes the constructors guarantee.
  // ---------------------------------------------------------------------

  ghost predicate ValidDetailedThing(d: DetailedThing)
  {
    IsRandString(d.key) && IsRandText(d.text)
  }

  ghost predicate ValidVarThing(v: VarThing)
  {
    match v
    case Simple(s) => IsRandString(s)
    case Detailed(d) => ValidDetailedThing(d)
  }

  ghost predicate ValidTags(tags: seq<string>)
  {
    forall i :: 0 <= i < |tags| ==> |tags[i]| == 4 && IsAlphanumeric(tags[i])
  }

  ghost predicate ValidStuff(s: Stuff)
  {
    && s.name.Some? && IsRandString(s.name.value)
    && 3 <= s.quantity < 500
    && (s.varThing.Some? ==> ValidVarThing(s.varThing.value))
    && 5 <= |s.tags| < 15 && ValidTags(s.tags)
    && s.condition in CONDITIONS
  }

  ghost predicate ValidBidule(b: Bidule)
  {
    |b.id| == 10 && IsAlphanumeric(b.id) && |b.numbers| == 20
  }

  ghost predicate ValidThing(t: Thing)
  {
    && IsRandString(t.name)
    && t.surname.Some? && IsRandString(t.surname.value)
    && 1400 <= |t.varThings| < 1500
    && (forall i :: 0 <= i < |t.varThings| ==> ValidVarThing(t.varThings[i]))
    && 1 <= |t.stuff| < 1800
    && (forall k :: k in t.stuff ==> IsRandString(k) && ValidStuff(t.stuff[k]))
    && 1500 <= |t.bidules| < 2000
    && (forall i :: 0 <= i < |t.bidules| ==> ValidBidule(t.bidules[i]))
  }

  // ---------------------------------------------------------------------
  // The numeric draws (`r.gen()` at the field's type).
  // ---------------------------------------------------------------------

  function GenU8(g: Rng): (r: (U8, Rng))
    ensures r.1 == Skip(g, 1)
  {
    GenRange(g, 0, 0x100)
  }

  function GenI16(g: Rng): (r: (I16, Rng))
    ensures r.1 == Skip(g, 1)
  {
    GenRange(g, -0x8000, 0x8000)
  }

  function GenI32(g: Rng): (r: (I32, Rng))
    ensures r.1 == Skip(g, 1)
  {
    GenRange(g, -0x8000_0000, 0x8000_0000)
  }

  function GenF32(g: Rng): (r: (F32, Rng))
    ensures r.1 == Skip(g, 1)
  {
    (F32(g.words(g.pos)), Skip(g, 1))
  }

  function GenF64(g: Rng): (r: (F64, Rng))
    ensures r.1 == Skip(g, 1)
  {
    (F64(g.words(g.pos)), Skip(g, 1))
  }

  // ---------------------------------------------------------------------
  // Constructors.
  // ---------------------------------------------------------------------

  /** The optional cost of `DetailedThing::new`: a coin, and on true a `u8` draw. */
  function GenCost(g: Rng): (r: (Option<U8>, Rng))
    ensures r.0.Some? <==> Coin(g).0
    ensures r.1 == Skip(g, if Coin(g).0 then 2 else 1)
  {
    var (hasCost, g1) := Coin(g);
    if hasCost then
      var (c, g2) := GenU8(g1);
      (Some(c), g2)
    else (None, g1)
  }

  /** `DetailedThing::new`: cost, text, the two coordinates, key, value, in
      that order. */
  function NewDetailedThing(g: Rng): (r: (DetailedThing, Rng))
    ensures ValidDetailedThing(r.0)
    ensures r.0.cost.Some? <==> Coin(g).0
    ensures Follows(g, r.1)
  {
    var (cost, g1) := GenCost(g);
    var (text, g2) := RandText(g1);
    var (x, g3) := GenF64(g2);
    var (y, g4) := GenF64(g3);
    var (key, g5) := RandString(g4);
    var (value, g6) := GenF32(g5);
    (DetailedThing(key, value, (x, y), cost, text), g6)
  }

  /** `VarThing::new`: a coin chooses `Simple` (true) or `Detailed` (false). */
  function NewVarThing(g: Rng): (r: (VarThing, Rng))
    ensures ValidVarThing(r.0)
    ensures r.0.Simple? <==> Coin(g).0
    ensures Follows(g, r.1)
  {
    var (simple, g1) := Coin(g);
    if simple then
      var (s, g2) := RandString(g1);
      (Simple(s), g2)
    else
      var (d, g2) := NewDetailedThing(g1);
      (Detailed(d), g2)
  }

  /** `n` tags of exactly four alphanumeric characters, drawn in order. */
  function NewTags(g: Rng, n: nat): (r: (seq<string>, Rng))
    ensures |r.0| == n
    ensures ValidTags(r.0)
    ensures r.1 == Skip(g, 4 * n)
    decreases n
  {
    if n == 0 then ([], g)
    else
      var (t, g1) := RandStringOfLen(g, 4);
      var (ts, g2) := NewTags(g1, n - 1);
      ([t] + ts, g2)
  }

  /** The optional var_thing of `Stuff::new`: a coin, and on true a `VarThing`. */
  function GenOptionalVarThing(g: Rng): (r: (Option<VarThing>, Rng))
    ensures r.0.Some? <==> Coin(g).0
    ensures r.0.Some? ==> ValidVarThing(r.0.value)
    ensures Follows(g, r.1)
  {
    var (present, g1) := Coin(g);
    if present then
      var (v, g2) := NewVarThing(g1);
      (Some(v), g2)
    else (None, g1)
  }

  /** The optional `good` flag of `Stuff::new`: a coin, and on true a second coin. */
  function GenGood(g: Rng): (r: (Option<bool>, Rng))
    ensures r.0.Some? <==> Coin(g).0
    ensures r.1 == Skip(g, if Coin(g).0 then 2 else 1)
  {
    var (present, g1) := Coin(g);
    if present then
      var (b, g2) := Coin(g1);
      (Some(b), g2)
    else (None, g1)
  }

  /** `Stuff::new`: var_thing, good, tag count and tags, condition, x, name,
      quantity, in that order. */
  function NewStuff(g: Rng): (r: (Stuff, Rng))
    ensures ValidStuff(r.0)
    ensures r.0.varThing.Some? <==> Coin(g).0
    ensures r.0.good.Some? <==> Coin(GenOptionalVarThing(g).1).0
    ensures Follows(g, r.1)
  {
    var (varThing, g1) := GenOptionalVarThing(g);
    var (good, g2) := GenGood(g1);
    var (n, g3) := GenRange(g2, 5, 15);
    var (tags, g4) := NewTags(g3, n);
    var (ci, g5) := GenRange(g4, 0, |CONDITIONS|);
    var (x, g6) := GenI16(g5);
    var (name, g7) := RandString(g6);
    var (quantity, g8) := GenRange(g7, 3, 500);
    (Stuff(Some(name), quantity, varThing, good, tags, CONDITIONS[ci], x), g8)
  }

  /** `n` 32-bit numbers, drawn in order. */
  function NewNumbers(g: Rng, n: nat): (r: (seq<I32>, Rng))
    ensures |r.0| == n
    ensures r.1 == Skip(g, n)
    decreases n
  {
    if n == 0 then ([], g)
    else
      var (x, g1) := GenI32(g);
      var (xs, g2) := NewNumbers(g1, n - 1);
      ([x] + xs, g2)
  }

  /** `Bidule::new`: a ten-character id, then twenty numbers. */
  function NewBidule(g: Rng): (r: (Bidule, Rng))
    ensures ValidBidule(r.0)
    ensures r.1 == Skip(g, 30)
  {
    var (id, g1) := RandStringOfLen(g, 10);
    var (numbers, g2) := NewNumbers(g1, 20);
    (Bidule(id, numbers), g2)
  }

  /** `n` var_things, drawn in order. */
  function NewVarThings(g: Rng, n: nat): (r: (seq<VarThing>, Rng))
    ensures |r.0| == n
    ensures forall i :: 0 <= i < n ==> ValidVarThing(r.0[i])
    ensures Follows(g, r.1)
    decreases n
  {
    if n == 0 then ([], g)
    else
      var (v, g1) := NewVarThing(g);
      var (vs, g2) := NewVarThings(g1, n - 1);
      ([v] + vs, g2)
  }

  /** `n` (key, stuff) pairs, each drawn key first, in order. */
  function NewStuffPairs(g: Rng, n: nat): (r: (seq<(string, Stuff)>, Rng))
    ensures |r.0| == n
    ensures forall i :: 0 <= i < n ==> IsRandString(r.0[i].0) && ValidStuff(r.0[i].1)
    ensures Follows(g, r.1)
    decreases n
  {
    if n == 0 then ([], g)
    else
      var (k, g1) := RandString(g);
      var (s, g2) := NewStuff(g1);
      var (ps, g3) := NewStuffPairs(g2, n - 1);
      ([(k, s)] + ps, g3)
  }

  /** `n` bidules, drawn in order. */
  function NewBidules(g: Rng, n: nat): (r: (seq<Bidule>, Rng))
    ensures |r.0| == n
    ensures forall i :: 0 <= i < n ==> ValidBidule(r.0[i])
    ensures r.1 == Skip(g, 30 * n)
    decreases n
  {
    if n == 0 then ([], g)
    else
      var (b, g1) := NewBidule(g);
      var (bs, g2) := NewBidules(g1, n - 1);
      assert g2 == Skip(g, 30 * n) by { assert g1 == Skip(g, 30); }
      var r := [b] + bs;
      assert forall i :: 0 < i < n ==> r[i] == bs[i - 1];
      (r, g2)
  }

  /** Collecting pairs into a map: one insertion per pair, in order, so a
      later pair with the same key replaces the earlier value. */
  function Collect<K(==), V>(pairs: seq<(K, V)>): (m: map<K, V>)
    ensures m.Keys == Keys(pairs)
  {
    if pairs == [] then map[]
    else
      KeysSnoc(pairs);
      Collect(pairs[..|pairs| - 1])[pairs[|pairs| - 1].0 := pairs[|pairs| - 1].1]
  }

  /** The keys of a sequence of pairs. */
  function Keys<K(==), V>(pairs: seq<(K, V)>): set<K>
  {
    set i | 0 <= i < |pairs| :: pairs[i].0
  }

  /** Every key occurs at most once. */
  predicate DistinctKeys<K(==), V>(pairs: seq<(K, V)>)
  {
    forall i, j :: 0 <= i < j < |pairs| ==> pairs[i].0 != pairs[j].0
  }

  /** `Thing::new`: var_things, stuff, bidules (each count drawn first), then
      name and surname. */
  function NewThing(g: Rng): (r: (Thing, Rng))
    ensures ValidThing(r.0)
    ensures Follows(g, r.1)
    ensures
      var (n1, g1) := GenRange(g, 1400, 1500);
      var (_, g2) := NewVarThings(g1, n1);
      var (n2, g3) := GenRange(g2, 1500, 1800);
      var (pairs, g4) := NewStuffPairs(g3, n2);
      var (n3, _) := GenRange(g4, 1500, 2000);
      && |r.0.varThings| == n1
      && r.0.stuff == Collect(pairs) && |r.0.stuff| <= n2
      && |r.0.bidules| == n3
  {
    var (n1, g1) := GenRange(g, 1400, 1500);
    var (varThings, g2) := NewVarThings(g1, n1);
    var (n2, g3) := GenRange(g2, 1500, 1800);
    var (pairs, g4) := NewStuffPairs(g3, n2);
    var (n3, g5) := GenRange(g4, 1500, 2000);
    var (bidules, g6) := NewBidules(g5, n3);
    var (name, g7) := RandString(g6);
    var (surname, g8) := RandString(g7);
    CollectShape(pairs);
    CollectSize(pairs);
    (Thing(name, Some(surname), varThings, Collect(pairs), bidules), g8)
  }

  // ---------------------------------------------------------------------
  // Properties of the map construction.
  // ---------------------------------------------------------------------

  /** The map's keys are exactly the pairs' keys, and each key is bound to
      the value of its LAST pair. */
  lemma {:induction false} CollectLastWins<K, V>(pairs: seq<(K, V)>)
    ensures Collect(pairs).Keys == Keys(pairs)
    ensures forall k :: k in Collect(pairs) ==>
      exists i :: (0 <= i < |pairs| && pairs[i] == (k, Collect(pairs)[k])
        && forall j :: i < j < |pairs| ==> pairs[j].0 != k)
  {
    if pairs != [] {
      var init := pairs[..|pairs| - 1];
      CollectLastWins(init);
      var last := pairs[|pairs| - 1];
      forall k | k in Collect(pairs)
        ensures exists i :: (0 <= i < |pairs| && pairs[i] == (k, Collect(pairs)[k])
          && forall j :: i < j < |pairs| ==> pairs[j].0 != k)
      {
        if k == last.0 {
          assert pairs[|pairs| - 1] == (k, Collect(pairs)[k]);
        } else {
          var i :| (0 <= i < |init| && init[i] == (k, Collect(init)[k])
            && forall j :: i < j < |init| ==> init[j].0 != k);
          assert Collect(pairs)[k] == Collect(init)[k];
          assert pairs[i] == init[i];
          forall j | i < j < |pairs| ensures pairs[j].0 != k {
            if j < |init| { assert pairs[j] == init[j]; }
          }
        }
      }
    }
  }

  /** The keys of a non-empty list are those of its prefix plus the last key. */
  lemma KeysSnoc<K, V>(pairs: seq<(K, V)>)
    requires pairs != []
    ensures Keys(pairs) == Keys(pairs[..|pairs| - 1]) + {pairs[|pairs| - 1].0}
  {
    var init := pairs[..|pairs| - 1];
    forall k | k in Keys(pairs) ensures k in Keys(init) + {pairs[|pairs| - 1].0} {
      var i :| 0 <= i < |pairs| && pairs[i].0 == k;
      if i < |pairs| - 1 { assert init[i] == pairs[i]; }
    }
  }

  /** Every binding of the map comes from some pair. */
  lemma CollectShape<K, V>(pairs: seq<(K, V)>)
    ensures forall k :: k in Collect(pairs) ==>
      exists i :: 0 <= i < |pairs| && pairs[i] == (k, Collect(pairs)[k])
  {
    CollectLastWins(pairs);
  }

  /** The map has at most one key per pair, and exactly one per pair if and
      only if no key repeats. */
  lemma {:induction false} CollectSize<K, V>(pairs: seq<(K, V)>)
    ensures 1 <= |pairs| ==> 1 <= |Collect(pairs)|
    ensures |Collect(pairs)| <= |pairs|
    ensures |Collect(pairs)| == |pairs| <==> DistinctKeys(pairs)
  {
    if pairs != [] {
      var init := pairs[..|pairs| - 1];
      var last := pairs[|pairs| - 1];
      assert pairs == init + [last];
      CollectSize(init);
      var m := Collect(init);
      assert m.Keys == Keys(init);
      if last.0 in m {
        assert |Collect(pairs)| == |m|;
        var i :| 0 <= i < |init| && init[i].0 == last.0;
        assert pairs[i].0 == pairs[|pairs| - 1].0;
      } else {
        assert |Collect(pairs)| == |m| + 1;
        DistinctKeysSnoc(init, last);
      }
    }
  }

  /** Appending a pair with a new key keeps the keys distinct exactly when
      they were distinct before. */
  lemma DistinctKeysSnoc<K, V>(init: seq<(K, V)>, last: (K, V))
    requires last.0 !in Keys(init)
    ensures DistinctKeys(init + [last]) <==> DistinctKeys(init)
  {
    var pairs := init + [last];
    if DistinctKeys(init) {
      forall i, j | 0 <= i < j < |pairs| ensures pairs[i].0 != pairs[j].0 {
        if j == |pairs| - 1 {
          assert pairs[i].0 in Keys(init) by { assert init[i] == pairs[i]; }
        } else {
          assert init[i] == pairs[i] && init[j] == pairs[j];
        }
      }
    }
    if DistinctKeys(pairs) {
      forall i, j | 0 <= i < j < |init| ensures init[i].0 != init[j].0 {
        assert init[i] == pairs[i] && init[j] == pairs[j];
      }
    }
  }

  /** The condition list names every variant, each once, and starts with
      the default. */
  lemma ConditionsComplete()
    ensures |CONDITIONS| == 5
    ensures forall c: Condition :: c in CONDITIONS
    ensures forall i, j :: 0 <= i < j < |CONDITIONS| ==> CONDITIONS[i] != CONDITIONS[j]
    ensures CONDITIONS[0] == DefaultCondition()
  {
    forall c: Condition ensures c in CONDITIONS {
      match c
      case Any => assert CONDITIONS[0] == c;
      case Directory => assert CONDITIONS[1] == c;
      case File => assert CONDITIONS[2] == c;
      case TextFile => assert CONDITIONS[3] == c;
      case BinaryFile => assert CONDITIONS[4] == c;
    }
  }
}

