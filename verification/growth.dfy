/**
 The growth experiment (`run_growth_design`): split the intervention list
 into a treatment group A and a control group B, project the return on the
 incentive from fixed business assumptions, and say whether half the list
 is enough users per group for the required sample size.

 The random draws and the required sample size per group are inputs: the
 draws stand for the seeded generator, the sample size for the power solver.
 */
module Growth {
  import opened Frames
  import opened Seqs
  import Targeting

  datatype Group = A | B

  /** One row of the experiment roster: a listed user and the group drawn for them. */
  datatype Assignment = Assignment(user: Targeting.Intervention, group: Group)

  /** The seed the generator is fixed to before drawing. */
  const Seed: int := 42

  /** The business assumptions. */
  const IncentiveCost: real := 4.10
  const ModelPrecision: real := 0.92
  const MonthlyMargin: real := 4.00
  const ExtraMonths: nat := 5
  const BonusEffectiveness: real := 0.25

  /** The verdicts, as logged. */
  const Powered: string := "SÍ"
  const Underpowered: string := "NO (Ajustar MDE)"

  /**
   `df['group'] = draws`: every listed user gets the group drawn at their
   position. A column of the wrong length cannot be attached.
   */
  function Assign(list: seq<Targeting.Intervention>, draws: seq<Group>): (res: Result<seq<Assignment>>)
    ensures res.Ok? <==> |draws| == |list|
    ensures res.Err? ==> res.error == LengthMismatch
    ensures res.Ok? ==> |res.value| == |list|
    ensures res.Ok? ==> forall k :: 0 <= k < |list| ==> res.value[k] == Assignment(list[k], draws[k])
  {
    if |draws| != |list| then Err(LengthMismatch)
    else Ok(seq(|list|, k requires 0 <= k < |list| => Assignment(list[k], draws[k])))
  }

  predicate InA(a: Assignment)
  {
    a.group == A
  }

  predicate InB(a: Assignment)
  {
    a.group == B
  }

  /** `len(df[df['group'] == 'A'])`. */
  function Treated(roster: seq<Assignment>): nat
  {
    |Filter(InA, roster)|
  }

  /** Every user is in exactly one group, so the two groups together are the whole roster. */
  lemma {:induction false} GroupsPartition(roster: seq<Assignment>)
    ensures |Filter(InA, roster)| + |Filter(InB, roster)| == |roster|
  {
    if |roster| > 0 {
      GroupsPartition(roster[1..]);
    }
  }

  /** `ltv_total_recup`: the margin recovered over the extra months. */
  function LtvTotal(): (v: real)
    ensures v == 20.0
  {
    MonthlyMargin * ExtraMonths as real
  }

  /** The projected cost, users retained, return and ROI for a treated group. */
  datatype Projection = Projection(cost: real, saved: real, revenue: real, roi: real)

  /**
   The ROI projection for `treated` users. The ROI divides by the cost, so
   an empty treatment group is a division by zero. Otherwise the group size
   cancels: the ROI is 5/41 (12.2%) whatever the size.
   */
  function Project(treated: nat): (res: Result<Projection>)
    ensures res.Err? <==> treated == 0
    ensures res.Err? ==> res.error == ZeroDivision
    ensures res.Ok? ==> var pr := res.value;
              && pr.cost == treated as real * IncentiveCost
              && pr.saved == treated as real * ModelPrecision * BonusEffectiveness
              && pr.revenue == pr.saved * LtvTotal()
              && pr.roi == (pr.revenue - pr.cost) / pr.cost
    ensures res.Ok? ==> res.value.roi == 5.0 / 41.0
    ensures res.Ok? ==> res.value.revenue - res.value.cost == treated as real * 0.5
  {
    var n := treated as real;
    var cost := n * IncentiveCost;
    var saved := (n * ModelPrecision) * BonusEffectiveness;
    var revenue := saved * LtvTotal();
    if cost == 0.0 then Err(ZeroDivision)
    else
      assert revenue - cost == n * 0.5;
      CancelCommonFactor(0.5, IncentiveCost, n);
      Ok(Projection(cost, saved, revenue, (revenue - cost) / cost))
  }

  /** A factor common to numerator and denominator cancels. */
  lemma CancelCommonFactor(a: real, b: real, n: real)
    requires b != 0.0 && n != 0.0
    ensures (n * a) / (n * b) == a / b
  {
    var q := a / b;
    assert q * b == a;
    assert q * (n * b) == n * a;
  }

  /** The worked example: 1000 treated users cost $4,100, retain 230 users and return $4,600. */
  lemma ThousandUsers()
    ensures Project(1000) == Ok(Projection(4100.0, 230.0, 4600.0, 500.0 / 4100.0))
  {
  }

  /** The verdict compares half the list length, not the treated count, with the requirement. */
  function Verdict(listed: nat, required: real): (status: string)
    ensures status == Powered <==> listed as real >= 2.0 * required
    ensures status == Powered || status == Underpowered
  {
    if listed as real / 2.0 >= required then Powered else Underpowered
  }

  /** A generator gives as many draws as it is asked for. */
  ghost predicate Draws(draw: (int, nat) -> seq<Group>)
  {
    forall seed, n :: |draw(seed, n)| == n
  }

  /** The outcome of one run: the roster, the treated count, the projection and the verdict. */
  datatype Design = Design(roster: seq<Assignment>, treated: nat, projection: Projection, status: string)

  /**
   `run_growth_design`. A missing input file ends the run before anything
   is drawn or exported. `draw(seed, n)` is the generator: `n` draws after
   seeding with `seed`, one per user. `required` is the sample size per
   group.
   */
  function RunGrowthDesign(input: Option<seq<Targeting.Intervention>>, draw: (int, nat) -> seq<Group>,
                           required: real): (res: Result<Design>)
    requires Draws(draw)
    ensures input.None? ==> res == Err(MissingInput)
    ensures res.Ok? ==> input.Some? && |res.value.roster| == |input.value|
    ensures res.Ok? ==> forall k :: 0 <= k < |input.value| ==> res.value.roster[k].user == input.value[k]
    ensures res.Ok? ==> res.value.treated + |Filter(InB, res.value.roster)| == |input.value|
    ensures res.Ok? ==> res.value.projection.roi == 5.0 / 41.0
    ensures res.Ok? ==> (res.value.status == Powered <==> |input.value| as real >= 2.0 * required)
    ensures res.Ok? ==> forall k :: 0 <= k < |input.value| ==>
              res.value.roster[k] == Assignment(input.value[k], draw(Seed, |input.value|)[k])
    ensures res.Ok? ==> res.value.treated == |Filter(InA, res.value.roster)|
    ensures res.Ok? ==> Project(res.value.treated) == Ok(res.value.projection)
    ensures input.Some? ==> (res.Ok? <==> Treated(Assign(input.value, draw(Seed, |input.value|)).value) > 0)
    ensures res.Err? ==> res.error in {MissingInput, ZeroDivision}
    ensures input.Some? && res.Err? ==> res.error == ZeroDivision
    ensures res.Ok? ==> res.value.status == Verdict(|input.value|, required)
    ensures res.Ok? ==> res.value.status in {Powered, Underpowered}
  {
    if input.None? then Err(MissingInput)
    else
      var list := input.value;
      var roster := Assign(list, draw(Seed, |list|)).value;
      var treated := Treated(roster);
      GroupsPartition(roster);
      var projection := Project(treated);
      if projection.Err? then Err(projection.error)
      else Ok(Design(roster, treated, projection.value, Verdict(|list|, required)))
  }

  /**
   Reproducibility: two generators that agree on the draws for seed 42 give
   the same experiment, whatever they do for other seeds.
   */
  lemma Reproducible(input: Option<seq<Targeting.Intervention>>, draw1: (int, nat) -> seq<Group>,
                     draw2: (int, nat) -> seq<Group>, required: real)
    requires Draws(draw1) && Draws(draw2)
    requires input.Some? ==> draw1(Seed, |input.value|) == draw2(Seed, |input.value|)
    ensures RunGrowthDesign(input, draw1, required) == RunGrowthDesign(input, draw2, required)
  {
  }

  /** The verdict does not depend on the draws: two runs that both succeed report the same status. */
  lemma VerdictIgnoresDraws(list: seq<Targeting.Intervention>, draw1: (int, nat) -> seq<Group>,
                            draw2: (int, nat) -> seq<Group>, required: real)
    requires Draws(draw1) && Draws(draw2)
    requires RunGrowthDesign(Some(list), draw1, required).Ok?
    requires RunGrowthDesign(Some(list), draw2, required).Ok?
    ensures RunGrowthDesign(Some(list), draw1, required).value.status
            == RunGrowthDesign(Some(list), draw2, required).value.status
  {
  }
}
