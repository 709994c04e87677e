/** The node-local pool of resources; every method body runs under one lock. */
module ResourceManagement {
  import opened ResourceSets

  function Utilization(total: Quantities, available: Quantities): Quantities {
    map name | name in total && total[name] > 0.0 :: (total[name] - Get(available, name)) / total[name]
  }

  /** Every reported utilization is a fraction exactly when the availability of each resource the node has lies
      between zero and its total. */
  lemma UtilizationIsFraction(total: Quantities, available: Quantities)
    ensures (forall name | name in Utilization(total, available) :: 0.0 <= Utilization(total, available)[name] <= 1.0) <==>
            (forall name | name in total && total[name] > 0.0 :: 0.0 <= Get(available, name) <= total[name])
  {
    forall name | name in total && total[name] > 0.0
      ensures 0.0 <= Utilization(total, available)[name] <= 1.0 <==> 0.0 <= Get(available, name) <= total[name]
    {
      FractionBounds(total[name] - Get(available, name), total[name]);
    }
  }

  /** The reported share of a resource is what is missing from its total. */
  lemma UtilizationIsUsedShare(total: Quantities, available: Quantities, name: string)
    ensures name in Utilization(total, available) <==> name in total && total[name] > 0.0
    ensures name in Utilization(total, available) ==>
              Utilization(total, available)[name] * total[name] == total[name] - Get(available, name)
  {
  }

  lemma FractionBounds(part: real, whole: real)
    requires whole > 0.0
    ensures 0.0 <= part / whole <= 1.0 <==> 0.0 <= part <= whole
  {
  }

  class ResourceManager {
    const total: Quantities
    const available: Resources

    constructor (total: Quantities)
      ensures this.total == total && fresh(available) && available.quantities == total
    {
      this.total := total;
      available := new Resources(total);
    }

    method TryAllocate(required: Quantities) returns (ok: bool)
      modifies available
      ensures ok == CanSatisfy(old(available.quantities), required)
      ensures available.quantities ==
              if ok then Minus(old(available.quantities), required) else old(available.quantities)
    {
      ok := available.Satisfies(required);
      if ok {
        available.Subtract(required);
      }
    }

    method Release(resources: Quantities)
      modifies available
      ensures available.quantities == Plus(old(available.quantities), resources)
    {
      available.Add(resources);
    }

    method ReportUtilization() returns (util: Quantities)
      ensures util == Utilization(total, available.quantities)
      ensures forall name :: name in util <==> name in total && total[name] > 0.0
      ensures forall name | name in util :: util[name] * total[name] == total[name] - Get(available.quantities, name)
    {
      util := map[];
      var todo := total.Keys;
      while todo != {}
        invariant todo <= total.Keys
        invariant util == map name | name in Utilization(total, available.quantities) && name !in todo
                            :: Utilization(total, available.quantities)[name]
        decreases todo
      {
        var name :| name in todo;
        var quantity := total[name];
        if quantity > 0.0 {
          util := util[name := (quantity - Get(available.quantities, name)) / quantity];
        }
        todo := todo - {name};
      }
    }
  }
}
