/** Named resource quantities: lookups, `can_satisfy`, `subtract`, `add`. Quantities are exact reals. */
module ResourceSets {
  import opened Prelude

  type Quantities = map<string, real>

  function Get(have: Quantities, name: string): real {
    if name in have then have[name] else 0.0
  }

  predicate CanSatisfy(have: Quantities, need: Quantities) {
    forall name | name in need :: need[name] <= Get(have, name)
  }

  /** What `subtract` leaves: named resources drop, and vanish once they reach zero or less. */
  function Minus(have: Quantities, need: Quantities): Quantities {
    map name | name in have.Keys + need.Keys && (name in need ==> Get(have, name) - need[name] > 0.0)
      :: Get(have, name) - Get(need, name)
  }

  function Plus(have: Quantities, more: Quantities): Quantities {
    map name | name in have.Keys + more.Keys :: Get(have, name) + Get(more, name)
  }

  ghost predicate NonNegative(q: Quantities) {
    forall name | name in q :: q[name] >= 0.0
  }

  ghost predicate SameLookups(a: Quantities, b: Quantities) {
    forall name :: Get(a, name) == Get(b, name)
  }

  ghost predicate NoMoreThan(a: Quantities, b: Quantities) {
    forall name :: Get(a, name) <= Get(b, name)
  }

  lemma MinusLookup(have: Quantities, need: Quantities, name: string)
    ensures Get(Minus(have, need), name) ==
            if name !in need then Get(have, name)
            else if Get(have, name) > need[name] then Get(have, name) - need[name]
            else 0.0
    ensures CanSatisfy(have, need) ==> Get(Minus(have, need), name) == Get(have, name) - Get(need, name)
  {
  }

  lemma PlusLookup(have: Quantities, more: Quantities, name: string)
    ensures Get(Plus(have, more), name) == Get(have, name) + Get(more, name)
  {
  }

  /** Releasing what was subtracted restores every lookup exactly when the subtraction was covered. */
  lemma SubtractThenAddRestores(have: Quantities, need: Quantities)
    ensures SameLookups(Plus(Minus(have, need), need), have) <==> CanSatisfy(have, need)
  {
  }

  /** The round trip restores lookups, not the key set: it leaves every name of either side, so a requirement
      for none of an absent resource makes that name appear. */
  lemma RoundTripKeys(have: Quantities, need: Quantities)
    ensures Plus(Minus(have, need), need).Keys == have.Keys + need.Keys
    ensures Plus(Minus(have, need), need).Keys == have.Keys <==> need.Keys <= have.Keys
  {
  }

  // ---- Admitting a batch, one `try_allocate` after another ----

  function AdmitAll(have: Quantities, batch: seq<Quantities>): Option<Quantities>
    decreases |batch|
  {
    if batch == [] then Some(have)
    else if CanSatisfy(have, batch[0]) then AdmitAll(Minus(have, batch[0]), batch[1..])
    else None
  }

  function Combined(batch: seq<Quantities>): Quantities {
    if batch == [] then map[] else Plus(batch[0], Combined(batch[1..]))
  }

  lemma {:induction false} CombinedNonNegative(batch: seq<Quantities>)
    requires forall need | need in batch :: NonNegative(need)
    ensures NonNegative(Combined(batch))
  {
    if batch != [] {
      CombinedNonNegative(batch[1..]);
      var rest := Combined(batch[1..]);
      assert NonNegative(batch[0]);
      forall name | name in Combined(batch) ensures Combined(batch)[name] >= 0.0 {
        assert Get(batch[0], name) >= 0.0 && Get(rest, name) >= 0.0;
      }
    }
  }

  /** A batch of non-negative requirements is admitted one by one exactly when its pointwise sum fits. */
  lemma {:induction false} AdmissionIsCombined(have: Quantities, batch: seq<Quantities>)
    requires forall need | need in batch :: NonNegative(need)
    ensures AdmitAll(have, batch).Some? <==> CanSatisfy(have, Combined(batch))
    ensures AdmitAll(have, batch).Some? ==>
              forall name :: Get(AdmitAll(have, batch).value, name) == Get(have, name) - Get(Combined(batch), name)
    decreases |batch|
  {
    if batch != [] {
      var need, rest, all := batch[0], Combined(batch[1..]), Combined(batch);
      CombinedNonNegative(batch[1..]);
      forall name ensures Get(all, name) == Get(need, name) + Get(rest, name) {
        PlusLookup(need, rest, name);
      }
      if CanSatisfy(have, need) {
        var left := Minus(have, need);
        AdmissionIsCombined(left, batch[1..]);
        forall name ensures Get(left, name) == Get(have, name) - Get(need, name) {
          MinusLookup(have, need, name);
        }
        if CanSatisfy(left, rest) {
          forall name | name in all ensures all[name] <= Get(have, name) {
            assert name in need || name in rest;
          }
        }
        if CanSatisfy(have, all) {
          forall name | name in rest ensures rest[name] <= Get(left, name) {
            assert name in all;
          }
        }
      } else {
        var name :| name in need && Get(have, name) < need[name];
        assert name in all && Get(have, name) < all[name];
      }
    }
  }

  lemma PlusSwap(a: Quantities, b: Quantities, c: Quantities)
    ensures Plus(a, Plus(b, c)) == Plus(b, Plus(a, c))
  {
    var left, right := Plus(a, Plus(b, c)), Plus(b, Plus(a, c));
    assert left.Keys == right.Keys;
    forall name | name in left ensures left[name] == right[name] {
      PlusLookup(b, c, name);
      PlusLookup(a, c, name);
    }
  }

  lemma {:induction false} CombinedPullOut(batch: seq<Quantities>, i: nat)
    requires i < |batch|
    ensures Combined(batch) == Plus(batch[i], Combined(RemoveAt(batch, i)))
  {
    if i == 0 {
      assert RemoveAt(batch, 0) == batch[1..];
    } else {
      CombinedPullOut(batch[1..], i - 1);
      assert RemoveAt(batch, i)[1..] == RemoveAt(batch[1..], i - 1);
      PlusSwap(batch[0], batch[i], Combined(RemoveAt(batch[1..], i - 1)));
    }
  }

  lemma HeadElsewhere(batch: seq<Quantities>, other: seq<Quantities>) returns (i: nat)
    requires batch != [] && multiset(batch) == multiset(other)
    ensures i < |other| && other[i] == batch[0] && multiset(batch[1..]) == multiset(RemoveAt(other, i))
  {
    assert batch[0] in multiset(batch);
    assert batch[0] in other;
    i :| 0 <= i < |other| && other[i] == batch[0];
    RemoveAtMultiset(other, i);
    assert batch == [batch[0]] + batch[1..];
    assert multiset(batch[1..]) == multiset(batch) - multiset{batch[0]};
    assert multiset(RemoveAt(other, i)) == multiset(other) - multiset{batch[0]};
  }

  lemma {:induction false} CombinedPermutation(batch: seq<Quantities>, other: seq<Quantities>)
    requires multiset(batch) == multiset(other)
    ensures Combined(batch) == Combined(other)
    decreases |batch|
  {
    if batch == [] {
      assert |multiset(other)| == 0;
    } else {
      var i := HeadElsewhere(batch, other);
      CombinedPermutation(batch[1..], RemoveAt(other, i));
      CombinedPullOut(other, i);
    }
  }

  /** Every order of the batch is admitted or none is, and all orders leave the same lookups. */
  lemma BatchOrderIrrelevant(have: Quantities, batch: seq<Quantities>, other: seq<Quantities>)
    requires multiset(batch) == multiset(other)
    requires forall need | need in batch :: NonNegative(need)
    ensures AdmitAll(have, batch).Some? <==> AdmitAll(have, other).Some?
    ensures AdmitAll(have, batch).Some? ==>
              SameLookups(AdmitAll(have, batch).value, AdmitAll(have, other).value)
  {
    CombinedPermutation(batch, other);
    forall need | need in other ensures need in batch {
      assert need in multiset(other);
    }
    AdmissionIsCombined(have, batch);
    AdmissionIsCombined(have, other);
  }

  /** With a negative requirement the order can decide admission. */
  lemma NegativeRequirementMakesOrderMatter()
    ensures var gain: Quantities, use: Quantities := map["CPU" := -1.0], map["CPU" := 1.0];
            AdmitAll(map[], [gain, use]).Some? && AdmitAll(map[], [use, gain]).None?
  {
    var gain: Quantities, use: Quantities := map["CPU" := -1.0], map["CPU" := 1.0];
    var left := Minus(map[], gain);
    assert left["CPU"] == 1.0;
    assert [gain, use][1..] == [use] && [use][1..] == [];
    assert AdmitAll(left, [use]).Some?;
    assert Get(map[], "CPU") < use["CPU"];
  }

  // ---- Batches of any sign: exactly when no order fails ----

  ghost function Positive(x: real): real {
    if x > 0.0 then x else 0.0
  }

  ghost function SumOf(batch: seq<Quantities>, name: string): real {
    if batch == [] then 0.0 else Get(batch[0], name) + SumOf(batch[1..], name)
  }

  ghost function PositiveSum(batch: seq<Quantities>, name: string): real {
    if batch == [] then 0.0 else Positive(Get(batch[0], name)) + PositiveSum(batch[1..], name)
  }

  /** Each requirement fits into what those before it leave. */
  ghost predicate PrefixesFit(have: Quantities, batch: seq<Quantities>) {
    forall j, name | 0 <= j < |batch| && name in batch[j] :: batch[j][name] <= Get(have, name) - SumOf(batch[..j], name)
  }

  lemma PrefixesFitRest(have: Quantities, batch: seq<Quantities>)
    requires batch != [] && CanSatisfy(have, batch[0])
    ensures PrefixesFit(have, batch) <==> PrefixesFit(Minus(have, batch[0]), batch[1..])
  {
    var left, rest := Minus(have, batch[0]), batch[1..];
    forall j: nat, name | j < |rest|
      ensures Get(have, name) - SumOf(batch[..j + 1], name) == Get(left, name) - SumOf(rest[..j], name)
    {
      MinusLookup(have, batch[0], name);
      assert batch[..j + 1][1..] == rest[..j];
    }
    forall j, name | PrefixesFit(left, rest) && 0 <= j < |batch| && name in batch[j]
      ensures batch[j][name] <= Get(have, name) - SumOf(batch[..j], name)
    {
      if j > 0 {
        assert rest[j - 1] == batch[j];
      }
    }
    forall j, name | PrefixesFit(have, batch) && 0 <= j < |rest| && name in rest[j]
      ensures rest[j][name] <= Get(left, name) - SumOf(rest[..j], name)
    {
      assert rest[j] == batch[j + 1];
    }
  }

  /** In order, a batch of any sign is admitted exactly when each requirement fits into what those before it leave. */
  lemma {:induction false} AdmittedIffPrefixesFit(have: Quantities, batch: seq<Quantities>)
    ensures AdmitAll(have, batch).Some? <==> PrefixesFit(have, batch)
    decreases |batch|
  {
    if batch != [] {
      if CanSatisfy(have, batch[0]) {
        PrefixesFitRest(have, batch);
        AdmittedIffPrefixesFit(Minus(have, batch[0]), batch[1..]);
      } else {
        var name :| name in batch[0] && Get(have, name) < batch[0][name];
        assert batch[..0] == [] && SumOf(batch[..0], name) == 0.0;
        assert !PrefixesFit(have, batch);
      }
    }
  }

  lemma {:induction false} PositiveSumAppend(a: seq<Quantities>, b: seq<Quantities>, name: string)
    ensures PositiveSum(a + b, name) == PositiveSum(a, name) + PositiveSum(b, name)
  {
    if a == [] {
      assert a + b == b;
    } else {
      assert (a + b)[1..] == a[1..] + b;
      PositiveSumAppend(a[1..], b, name);
    }
  }

  lemma PositiveSumPullOut(batch: seq<Quantities>, i: nat, name: string)
    requires i < |batch|
    ensures PositiveSum(batch, name) == Positive(Get(batch[i], name)) + PositiveSum(RemoveAt(batch, i), name)
  {
    assert batch == batch[..i] + ([batch[i]] + batch[i + 1..]);
    PositiveSumAppend(batch[..i], [batch[i]] + batch[i + 1..], name);
    PositiveSumAppend([batch[i]], batch[i + 1..], name);
    PositiveSumAppend(batch[..i], batch[i + 1..], name);
    assert [batch[i]][1..] == [];
  }

  lemma {:induction false} PositiveSumPermutation(batch: seq<Quantities>, other: seq<Quantities>, name: string)
    requires multiset(batch) == multiset(other)
    ensures PositiveSum(batch, name) == PositiveSum(other, name)
    decreases |batch|
  {
    if batch == [] {
      assert |multiset(other)| == 0;
    } else {
      var i := HeadElsewhere(batch, other);
      PositiveSumPermutation(batch[1..], RemoveAt(other, i), name);
      PositiveSumPullOut(other, i, name);
    }
  }

  lemma {:induction false} SumWithinPositive(batch: seq<Quantities>, name: string)
    ensures SumOf(batch, name) <= PositiveSum(batch, name)
    ensures (forall q | q in batch :: Get(q, name) > 0.0) ==> SumOf(batch, name) == PositiveSum(batch, name)
    ensures (forall q | q in batch :: Get(q, name) <= 0.0) ==> PositiveSum(batch, name) == 0.0
    ensures PositiveSum(batch, name) >= 0.0
  {
    if batch != [] {
      SumWithinPositive(batch[1..], name);
      assert forall q | q in batch[1..] :: q in batch;
    }
  }

  /** Each requirement fits together with the positive parts of all others. */
  ghost predicate FitsWithAllOthers(have: Quantities, batch: seq<Quantities>) {
    forall need, name | need in batch && name in need ::
      need[name] + (PositiveSum(batch, name) - Positive(need[name])) <= Get(have, name)
  }

  lemma OrderAdmitted(have: Quantities, batch: seq<Quantities>, other: seq<Quantities>)
    requires FitsWithAllOthers(have, batch) && multiset(batch) == multiset(other)
    ensures AdmitAll(have, other).Some?
  {
    forall j, name | 0 <= j < |other| && name in other[j]
      ensures other[j][name] <= Get(have, name) - SumOf(other[..j], name)
    {
      assert other[j] in multiset(other);
      assert other[j] in batch;
      PositiveSumPermutation(batch, other, name);
      PositiveSumPullOut(other, j, name);
      PositiveSumAppend(other[..j], other[j + 1..], name);
      SumWithinPositive(other[..j], name);
      SumWithinPositive(other[j + 1..], name);
    }
    AdmittedIffPrefixesFit(have, other);
  }

  ghost function Taking(rest: seq<Quantities>, name: string): seq<Quantities> {
    Filter(rest, (q: Quantities) => Get(q, name) > 0.0)
  }

  ghost function Sparing(rest: seq<Quantities>, name: string): seq<Quantities> {
    Filter(rest, (q: Quantities) => Get(q, name) <= 0.0)
  }

  lemma TakingAndSparing(rest: seq<Quantities>, name: string)
    ensures multiset(rest) == multiset(Taking(rest, name)) + multiset(Sparing(rest, name))
    ensures forall q | q in Taking(rest, name) :: Get(q, name) > 0.0
    ensures forall q | q in Sparing(rest, name) :: Get(q, name) <= 0.0
  {
    var takes, spares := (q: Quantities) => Get(q, name) > 0.0, (q: Quantities) => Get(q, name) <= 0.0;
    FilterPartition(rest, takes, spares);
    FilterPartition(rest, spares, takes);
  }

  lemma TakingSum(rest: seq<Quantities>, name: string)
    ensures SumOf(Taking(rest, name), name) == PositiveSum(rest, name)
  {
    TakingAndSparing(rest, name);
    SumWithinPositive(Taking(rest, name), name);
    SumWithinPositive(Sparing(rest, name), name);
    PositiveSumAppend(Taking(rest, name), Sparing(rest, name), name);
    PositiveSumPermutation(Taking(rest, name) + Sparing(rest, name), rest, name);
  }

  /** The order that tries everything else that takes some of `name` before `batch[i]`. */
  ghost function WorstOrder(batch: seq<Quantities>, i: nat, name: string): seq<Quantities>
    requires i < |batch|
  {
    Taking(RemoveAt(batch, i), name) + [batch[i]] + Sparing(RemoveAt(batch, i), name)
  }

  lemma WorstOrderIsOrder(batch: seq<Quantities>, i: nat, name: string)
    requires i < |batch|
    ensures multiset(WorstOrder(batch, i, name)) == multiset(batch)
  {
    TakingAndSparing(RemoveAt(batch, i), name);
    RemoveAtMultiset(batch, i);
  }

  /** Requirements of any sign: every order of the batch is admitted if and only if each requirement, name by name,
      fits together with the positive parts of all others. */
  lemma EveryOrderAdmitted(have: Quantities, batch: seq<Quantities>)
    ensures (forall other | multiset(other) == multiset(batch) :: AdmitAll(have, other).Some?) <==>
            FitsWithAllOthers(have, batch)
  {
    if FitsWithAllOthers(have, batch) {
      forall other | multiset(other) == multiset(batch) ensures AdmitAll(have, other).Some? {
        OrderAdmitted(have, batch, other);
      }
    } else {
      var need, name :| need in batch && name in need &&
                        need[name] + (PositiveSum(batch, name) - Positive(need[name])) > Get(have, name);
      var i :| 0 <= i < |batch| && batch[i] == need;
      var worst := WorstOrder(batch, i, name);
      WorstOrderIsOrder(batch, i, name);
      TakingSum(RemoveAt(batch, i), name);
      PositiveSumPullOut(batch, i, name);
      var j := |Taking(RemoveAt(batch, i), name)|;
      assert worst[j] == need && worst[..j] == Taking(RemoveAt(batch, i), name);
      AdmittedIffPrefixesFit(have, worst);
      assert AdmitAll(have, worst).None?;
    }
  }

  /** One turn of the `subtract` loop: the named resource drops, and vanishes when nothing is left. */
  lemma MinusStep(have: Quantities, done: Quantities, name: string, quantity: real)
    requires name !in done
    ensures var left := Minus(have, done);
            var current := Get(left, name) - quantity;
            Minus(have, done[name := quantity]) == if current <= 0.0 then left[name := current] - {name} else left[name := current]
  {
    var left, next := Minus(have, done), Minus(have, done[name := quantity]);
    MinusElsewhere(have, done, name, quantity);
    assert Get(left, name) == Get(have, name);
  }

  lemma MinusElsewhere(have: Quantities, done: Quantities, name: string, quantity: real)
    ensures var left, next := Minus(have, done), Minus(have, done[name := quantity]);
            forall other | other != name :: (other in left <==> other in next) && (other in left ==> left[other] == next[other])
  {
  }

  lemma PlusStep(have: Quantities, done: Quantities, name: string, quantity: real)
    requires name !in done
    ensures var sum := Plus(have, done);
            Plus(have, done[name := quantity]) == sum[name := Get(sum, name) + quantity]
  {
  }

  // ---- The struct with its in-place loops, over an arbitrary HashMap order ----

  class Resources {
    var quantities: Quantities

    constructor (q: Quantities)
      ensures quantities == q
    {
      quantities := q;
    }

    method Satisfies(required: Quantities) returns (ok: bool)
      ensures ok == CanSatisfy(quantities, required)
    {
      var todo := required.Keys;
      while todo != {}
        invariant todo <= required.Keys
        invariant forall name | name in required.Keys - todo :: required[name] <= Get(quantities, name)
        decreases todo
      {
        var name :| name in todo;
        if Get(quantities, name) < required[name] {
          return false;
        }
        todo := todo - {name};
      }
      return true;
    }

    method Subtract(other: Quantities)
      modifies this
      ensures quantities == Minus(old(quantities), other)
    {
      var todo := other.Keys;
      ghost var done: Quantities := map[];
      assert quantities == Minus(quantities, done);
      while todo != {}
        invariant todo !! done.Keys && todo + done.Keys == other.Keys
        invariant forall name | name in done :: done[name] == other[name]
        invariant quantities == Minus(old(quantities), done)
        decreases todo
      {
        var name :| name in todo;
        var current := Get(quantities, name) - other[name];
        MinusStep(old(quantities), done, name, other[name]);
        quantities := quantities[name := current];
        if current <= 0.0 {
          quantities := quantities - {name};
        }
        todo := todo - {name};
        done := done[name := other[name]];
      }
      assert done == other;
    }

    method Add(other: Quantities)
      modifies this
      ensures quantities == Plus(old(quantities), other)
    {
      var todo := other.Keys;
      ghost var done: Quantities := map[];
      assert quantities == Plus(quantities, done);
      while todo != {}
        invariant todo !! done.Keys && todo + done.Keys == other.Keys
        invariant forall name | name in done :: done[name] == other[name]
        invariant quantities == Plus(old(quantities), done)
        decreases todo
      {
        var name :| name in todo;
        PlusStep(old(quantities), done, name, other[name]);
        quantities := quantities[name := Get(quantities, name) + other[name]];
        todo := todo - {name};
        done := done[name := other[name]];
      }
      assert done == other;
    }
  }
}
