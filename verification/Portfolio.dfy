/** The blended plan (src/tqt/portfolio.py): several strategies' answers combined into one set of target weights. */
module Portfolio {
  import opened Wrappers
  import opened RealFacts
  import opened OrderedDict
  import opened Weights

  /** One sleeve: its share of capital, and what its strategy answered (an error is logged and skipped). */
  datatype Allocation = Allocation(weight: real, answer: Result<Dict, string>)

  datatype PlanError = NoAllocations | NeedsLeverage | NegativeWeight

  function WeightSum(allocations: seq<Allocation>): real {
    if |allocations| == 0 then 0.0
    else WeightSum(allocations[..|allocations| - 1]) + allocations[|allocations| - 1].weight
  }

  /** PortfolioPlan.__post_init__ */
  function CheckPlan(allocations: seq<Allocation>): Result<(), PlanError> {
    if |allocations| == 0 then Err(NoAllocations)
    else if WeightSum(allocations) > 1.0001 then Err(NeedsLeverage)
    else if exists i :: 0 <= i < |allocations| && allocations[i].weight < 0.0 then Err(NegativeWeight)
    else Ok(())
  }

  lemma {:induction false} SharesAreWithinTheSum(allocations: seq<Allocation>, i: nat)
    requires i < |allocations| && forall k :: 0 <= k < |allocations| ==> allocations[k].weight >= 0.0
    ensures 0.0 <= allocations[i].weight <= WeightSum(allocations)
  {
    var n := |allocations| - 1;
    if n > 0 { SharesAreWithinTheSum(allocations[..n], if i < n then i else 0); }
  }

  /**
   Exactly the plans that neither borrow nor sell short are accepted, and each sleeve of one has a share between none
   and all of the capital. A plan with both faults is reported as borrowing.
   */
  lemma PlanIsAcceptedIff(allocations: seq<Allocation>)
    ensures CheckPlan(allocations).Ok?
       <==> allocations != [] && WeightSum(allocations) <= 1.0001 && forall a :: a in allocations ==> a.weight >= 0.0
    ensures CheckPlan(allocations).Ok? ==> forall a :: a in allocations ==> 0.0 <= a.weight <= 1.0001
    ensures CheckPlan(allocations) == Err(NegativeWeight)
        ==> WeightSum(allocations) <= 1.0001 && exists a :: a in allocations && a.weight < 0.0
    ensures CheckPlan(allocations) == Err(NeedsLeverage) <==> allocations != [] && WeightSum(allocations) > 1.0001
  {
    hide WeightSum;
    if CheckPlan(allocations).Ok? {
      forall i | 0 <= i < |allocations| ensures allocations[i].weight <= 1.0001 {
        SharesAreWithinTheSum(allocations, i);
      }
    }
  }

  /** Decimal(str(w)) * alloc.weight */
  function Part(w: real, share: real): real {
    w * share
  }

  /** combined[sym] += w * weight, for the first n symbols of a sleeve. */
  function AddSleeve(combined: Dict, targets: Dict, weight: real, n: nat): Dict
    requires n <= |targets.keys|
  {
    if n == 0 then combined
    else
      var before := AddSleeve(combined, targets, weight, n - 1);
      var s := targets.keys[n - 1];
      Put(before, s, before.Get(s) + Part(targets.vals[s], weight))
  }

  function Combined(allocations: seq<Allocation>, n: nat): Dict
    requires n <= |allocations|
  {
    if n == 0 then EMPTY
    else
      match allocations[n - 1].answer
      case Err(_) => Combined(allocations, n - 1)
      case Ok(targets) => AddSleeve(Combined(allocations, n - 1), targets, allocations[n - 1].weight, |targets.keys|)
  }

  /** {k: v * scale for k, v in combined.items()} */
  function Scaled(d: Dict, scale: real): Dict {
    RawDict(d.keys, map s | s in d.vals :: Part(d.vals[s], scale))
  }

  /** The factor that keeps gross exposure at 100%. */
  function ScaleFor(total: real): real {
    if total > 1.0 then 1.0 / total else 1.0
  }

  function Blended(allocations: seq<Allocation>): Dict {
    var combined := Combined(allocations, |allocations|);
    if Total(combined) > 1.0 then Scaled(combined, ScaleFor(Total(combined))) else combined
  }

  /** PortfolioPlan.target_weights, from the sleeves' answers on. */
  method TargetWeights(allocations: seq<Allocation>) returns (weights: Dict)
    ensures weights == Blended(allocations)
  {
    hide Total, Part, Put, RawDict.Get;
    weights := EMPTY;
    for i := 0 to |allocations|
      invariant weights == Combined(allocations, i)
    {
      var a := allocations[i];
      if a.answer.Err? {
        continue;
      }
      var targets := a.answer.value;
      ghost var before := weights;
      for j := 0 to |targets.keys|
        invariant weights == AddSleeve(before, targets, a.weight, j)
      {
        var s := targets.keys[j];
        weights := Put(weights, s, weights.Get(s) + Part(targets.vals[s], a.weight));
      }
    }
    var total := Total(weights);
    if total > 1.0 {
      weights := Scaled(weights, ScaleFor(total));
    }
  }

  // ---------------------------------------------------------------- what each symbol gets

  /** What the plan asks for of a symbol: the sum over sleeves of its weight times the sleeve's. */
  function Demand(allocations: seq<Allocation>, s: Symbol, n: nat): real
    requires n <= |allocations|
  {
    if n == 0 then 0.0
    else
      Demand(allocations, s, n - 1)
      + match allocations[n - 1].answer
        case Err(_) => 0.0
        case Ok(targets) => Part(targets.Get(s), allocations[n - 1].weight)
  }

  /** The sleeves' answers sell nothing short. */
  ghost predicate SleevesAreLong(allocations: seq<Allocation>) {
    forall i :: 0 <= i < |allocations| && allocations[i].answer.Ok? ==> NonNegative(allocations[i].answer.value)
  }

  lemma PartOfNothing(share: real)
    ensures Part(0.0, share) == 0.0
  {
  }

  lemma PartIsNonNegative(w: real, share: real)
    requires w >= 0.0 && share >= 0.0
    ensures Part(w, share) >= 0.0
  {
    MulNonNegative(w, share);
  }

  lemma {:induction false} AddSleeveIs(combined: Dict, targets: Dict, weight: real, n: nat, s: Symbol)
    requires n <= |targets.keys|
    ensures AddSleeve(combined, targets, weight, n).Get(s)
         == combined.Get(s) + if s in targets.keys[..n] then Part(targets.vals[s], weight) else 0.0
  {
    hide Part, Put, RawDict.Get;
    if n > 0 {
      AddSleeveIs(combined, targets, weight, n - 1, s);
      assert targets.keys[..n] == targets.keys[..n - 1] + [targets.keys[n - 1]];
      var before, x := AddSleeve(combined, targets, weight, n - 1), targets.keys[n - 1];
      PutGet(before, x, before.Get(x) + Part(targets.vals[x], weight));
      if s == x { assert targets.keys[n - 1] !in targets.keys[..n - 1]; }
    }
  }

  lemma {:induction false} CombinedIs(allocations: seq<Allocation>, n: nat, s: Symbol)
    requires n <= |allocations|
    ensures Combined(allocations, n).Get(s) == Demand(allocations, s, n)
  {
    hide AddSleeve, Part;
    if n > 0 {
      CombinedIs(allocations, n - 1, s);
      if allocations[n - 1].answer.Ok? {
        var targets := allocations[n - 1].answer.value;
        AddSleeveIs(Combined(allocations, n - 1), targets, allocations[n - 1].weight, |targets.keys|, s);
        assert targets.keys[..|targets.keys|] == targets.keys;
        PartOfNothing(allocations[n - 1].weight);
      }
    }
  }

  lemma {:induction false} DemandIsNonNegative(allocations: seq<Allocation>, s: Symbol, n: nat)
    requires n <= |allocations| && CheckPlan(allocations).Ok? && SleevesAreLong(allocations)
    ensures Demand(allocations, s, n) >= 0.0
  {
    hide Part;
    if n > 0 {
      DemandIsNonNegative(allocations, s, n - 1);
      if allocations[n - 1].answer.Ok? {
        assert allocations[n - 1].answer.value.Get(s) >= 0.0;
        PartIsNonNegative(allocations[n - 1].answer.value.Get(s), allocations[n - 1].weight);
      }
    }
  }

  lemma ScaledEntry(d: Dict, scale: real, s: Symbol)
    ensures Scaled(d, scale).Get(s) == Part(d.Get(s), scale)
  {
    PartOfNothing(scale);
  }

  lemma PartsAdd(a: real, b: real, scale: real)
    ensures Part(a + b, scale) == Part(a, scale) + Part(b, scale)
  {
  }

  lemma {:induction false} ScalingOver(ks: seq<Symbol>, d: Dict, scale: real)
    requires forall k :: k in ks ==> k in d.vals
    ensures var e := Scaled(d, scale);
            WorthOver(ks, e.vals, Ones(e)) == Part(WorthOver(ks, d.vals, Ones(d)), scale)
  {
    hide Part;
    if |ks| > 0 {
      var n := |ks| - 1;
      ScalingOver(ks[..n], d, scale);
      PartsAdd(WorthOver(ks[..n], d.vals, Ones(d)), d.vals[ks[n]], scale);
    } else {
      PartOfNothing(scale);
    }
  }

  lemma TotalOfScaled(d: Dict, scale: real)
    ensures Total(Scaled(d, scale)) == Part(Total(d), scale)
  {
    ScalingOver(d.keys, d, scale);
  }

  lemma ScaleForIs(total: real)
    requires total >= 0.0
    ensures 0.0 < ScaleFor(total) <= 1.0
    ensures total > 1.0 ==> Part(total, ScaleFor(total)) == 1.0 && ScaleFor(total) < 1.0
  {
    if total > 1.0 {
      QuotientTimes(1.0, total);
      if 1.0 / total >= 1.0 { MulMono(1.0 / total, 1.0, total); }
    }
  }

  lemma PartOfAll(w: real)
    ensures Part(w, 1.0) == w
  {
  }

  /** The one factor the plan multiplies every sleeve's demand by. */
  function ScaleOf(allocations: seq<Allocation>): real {
    ScaleFor(Total(Combined(allocations, |allocations|)))
  }

  /** Every symbol's blended weight is the sleeves' own demand for it times one common factor. */
  lemma BlendKeepsProportions(allocations: seq<Allocation>, s: Symbol)
    ensures Blended(allocations).Get(s) == Part(Demand(allocations, s, |allocations|), ScaleOf(allocations))
  {
    hide Part, Total, Combined, Demand, Scaled;
    var combined := Combined(allocations, |allocations|);
    CombinedIs(allocations, |allocations|, s);
    ScaledEntry(combined, ScaleOf(allocations), s);
    PartOfAll(combined.Get(s));
  }

  /**
   The blended plan needs no leverage: its weights are not negative and sum to at most one. Demand is cut
   only when it adds up to more than everything, and then to exactly everything.
   */
  lemma BlendIsUnleveraged(allocations: seq<Allocation>)
    requires CheckPlan(allocations).Ok? && SleevesAreLong(allocations)
    ensures Unleveraged(Blended(allocations))
    ensures 0.0 < ScaleOf(allocations) <= 1.0
    ensures ScaleOf(allocations) < 1.0 ==> Total(Blended(allocations)) == 1.0
  {
    hide Part, Total, Combined, Demand, Scaled, CheckPlan, ScaleFor;
    var n := |allocations|;
    var combined := Combined(allocations, n);
    forall s ensures combined.Get(s) >= 0.0 {
      CombinedIs(allocations, n, s);
      DemandIsNonNegative(allocations, s, n);
    }
    TotalIsNonNegative(combined);
    var total := Total(combined);
    ScaleForIs(total);
    TotalOfScaled(combined, ScaleFor(total));
    forall s ensures Blended(allocations).Get(s) >= 0.0 {
      BlendKeepsProportions(allocations, s);
      DemandIsNonNegative(allocations, s, n);
      PartIsNonNegative(Demand(allocations, s, n), ScaleOf(allocations));
    }
    NoCutBelowOne(total);
  }

  lemma NoCutBelowOne(total: real)
    ensures total <= 1.0 ==> ScaleFor(total) == 1.0
  {
  }

  // ---------------------------------------------------------------- when nothing is cut

  lemma {:induction false} AddSleeveTotal(combined: Dict, targets: Dict, weight: real, n: nat)
    requires n <= |targets.keys|
    ensures Total(AddSleeve(combined, targets, weight, n))
         == Total(combined) + Part(HeadTotal(targets, n), weight)
  {
    hide Part, Total, Put, RawDict.Get, HeadTotal;
    if n == 0 {
      NoneSum(targets);
      PartOfNothing(weight);
    } else {
      AddSleeveTotal(combined, targets, weight, n - 1);
      var before := AddSleeve(combined, targets, weight, n - 1);
      var s := targets.keys[n - 1];
      TotalOfPut(before, s, before.Get(s) + Part(targets.vals[s], weight));
      OneMoreWeight(targets, n);
      PartsAdd(HeadTotal(targets, n - 1), targets.vals[s], weight);
    }
  }

  /** What the first n weights add up to. */
  function HeadTotal(d: Dict, n: nat): real
    requires n <= |d.keys|
  {
    WorthOver(d.keys[..n], d.vals, Ones(d))
  }

  lemma NoneSum(d: Dict)
    ensures HeadTotal(d, 0) == 0.0
  {
  }

  lemma OneMoreWeight(d: Dict, n: nat)
    requires 0 < n <= |d.keys|
    ensures HeadTotal(d, n) == HeadTotal(d, n - 1) + d.vals[d.keys[n - 1]]
  {
    assert d.keys[..n][..n - 1] == d.keys[..n - 1];
    assert Mark(Ones(d), d.keys[n - 1], d.vals[d.keys[n - 1]]) == d.vals[d.keys[n - 1]];
  }

  lemma PartIsBelow(total: real, weight: real)
    requires total <= 1.0 && weight >= 0.0
    ensures Part(total, weight) <= weight
  {
    MulMono(weight, total, 1.0);
  }

  lemma SumWithout(allocations: seq<Allocation>, n: nat)
    requires n < |allocations|
    ensures WeightSum(allocations[..n + 1]) == WeightSum(allocations[..n]) + allocations[n].weight
  {
    assert allocations[..n + 1][..n] == allocations[..n];
  }

  lemma EmptySum()
    ensures WeightSum([]) == 0.0
  {
  }

  lemma {:induction false} CombinedTotalIsBelow(allocations: seq<Allocation>, n: nat)
    requires n <= |allocations| && CheckPlan(allocations).Ok?
    requires forall i :: 0 <= i < |allocations| && allocations[i].answer.Ok? ==> Unleveraged(allocations[i].answer.value)
    ensures Total(Combined(allocations, n)) <= WeightSum(allocations[..n])
  {
    hide Part, Total, AddSleeve, WeightSum;
    if n == 0 {
      TotalOfEmpty();
      EmptySum();
    } else {
      CombinedTotalIsBelow(allocations, n - 1);
      SumWithout(allocations, n - 1);
      var a := allocations[n - 1];
      if a.answer.Ok? {
        var targets := a.answer.value;
        AddSleeveTotal(Combined(allocations, n - 1), targets, a.weight, |targets.keys|);
        WholeTotal(targets);
        PartIsBelow(Total(targets), a.weight);
      }
    }
  }

  lemma WholeTotal(d: Dict)
    ensures HeadTotal(d, |d.keys|) == Total(d)
  {
    assert d.keys[..|d.keys|] == d.keys;
  }

  /**
   A plan whose sleeve weights fit in the capital, made of strategies that do not borrow, is never scaled:
   every symbol gets exactly what its sleeves asked for. The guard acts only in the 0.0001 of tolerance.
   */
  lemma FittingPlanIsNotScaled(allocations: seq<Allocation>, s: Symbol)
    requires CheckPlan(allocations).Ok? && WeightSum(allocations) <= 1.0
    requires forall i :: 0 <= i < |allocations| && allocations[i].answer.Ok? ==> Unleveraged(allocations[i].answer.value)
    ensures Blended(allocations).Get(s) == Demand(allocations, s, |allocations|)
  {
    hide Part, Total, Combined, Demand, Blended;
    CombinedTotalIsBelow(allocations, |allocations|);
    assert allocations[..|allocations|] == allocations;
    BlendKeepsProportions(allocations, s);
    PartOfAll(Demand(allocations, s, |allocations|));
  }
}
