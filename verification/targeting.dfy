/**
 The list of users to treat (`__main__` of the churn script, step 6): one
 record per engaged user with the model's churn probability, the target flag
 `probability >= threshold`, five raw attributes of the user and two derived
 features; then only the flagged users are kept, in their original order.

 The probabilities come from the trained model and are an input here.
 */
module Targeting {
  import opened Frames
  import opened Seqs
  import Engagement
  import Features
  import Threshold

  /** One row of `usuarios_a_tratar`. */
  datatype Intervention = Intervention(
    userId: Cell,
    probability: real,
    isTarget: int,
    tenure: Cell,
    logins: Cell,
    fiatVolume: Cell,
    cryptoVolume: Cell,
    earnVolume: Cell,
    breadth: real,
    earnRatio: real)

  /** The raw columns copied into the list, in the order the code reads them. */
  const Attributes: seq<string> :=
    [Engagement.Tenure, Engagement.Logins, Features.FiatPayment, Features.CryptoPayment, Features.EarnVolume]

  /** The inputs of the list line up: one probability, raw row, feature row and id per user. */
  predicate Aligned(raw: Table, fs: Features.FeatureSet, probs: seq<real>)
  {
    |probs| == |raw.rows| == |fs.x.rows| == |fs.ids|
  }

  /** Every column the list reads is there. */
  predicate Readable(raw: Table, fs: Features.FeatureSet)
  {
    && (forall c :: c in Attributes ==> c in raw.columns)
    && Features.Breadth in fs.x.columns
    && Features.Ratio in fs.x.columns
  }

  /** The record of user `k`. */
  function Record(raw: Table, fs: Features.FeatureSet, probs: seq<real>, threshold: real, k: nat): (i: Intervention)
    requires WellFormed(raw) && FrameWellFormed(fs.x)
    requires Readable(raw, fs) && Aligned(raw, fs, probs) && k < |probs|
  {
    var r := raw.rows[k];
    var x := fs.x.rows[k];
    assert r.Keys == ColumnSet(raw.columns) && x.Keys == ColumnSet(fs.x.columns);
    assert Engagement.Tenure in r && Engagement.Logins in r;
    assert Features.FiatPayment in r && Features.CryptoPayment in r && Features.EarnVolume in r;
    Intervention(
      fs.ids[k], probs[k], Threshold.Predict(probs, threshold)[k],
      r[Engagement.Tenure], r[Engagement.Logins],
      r[Features.FiatPayment], r[Features.CryptoPayment], r[Features.EarnVolume],
      x[Features.Breadth], x[Features.Ratio])
  }

  /**
   `usuarios_a_tratar`. A raw column or derived feature that is missing is a
   lookup error, reported for the first one the code reads; columns of
   different lengths cannot form one table.
   */
  function ScoreTable(raw: Table, fs: Features.FeatureSet, probs: seq<real>, threshold: real)
    : (res: Result<seq<Intervention>>)
    requires WellFormed(raw) && FrameWellFormed(fs.x)
    ensures res.Ok? <==> Readable(raw, fs) && Aligned(raw, fs, probs)
    ensures Engagement.Tenure !in raw.columns ==> res == Err(MissingColumn(Engagement.Tenure))
    ensures Readable(raw, fs) && !Aligned(raw, fs, probs) ==> res == Err(LengthMismatch)
    ensures res.Ok? ==> |res.value| == |probs|
    ensures res.Ok? ==> forall k :: 0 <= k < |probs| ==>
              && res.value[k].userId == fs.ids[k]
              && res.value[k].probability == probs[k]
              && (res.value[k].isTarget == 1 <==> probs[k] >= threshold)
              && res.value[k].isTarget in {0, 1}
  {
    var missing := Features.FirstMissing(raw.columns, Attributes);
    if missing.Some? then Err(MissingColumn(missing.value))
    else if Features.Breadth !in fs.x.columns then Err(MissingColumn(Features.Breadth))
    else if Features.Ratio !in fs.x.columns then Err(MissingColumn(Features.Ratio))
    else if !Aligned(raw, fs, probs) then Err(LengthMismatch)
    else Ok(seq(|probs|, k requires 0 <= k < |probs| => Record(raw, fs, probs, threshold, k)))
  }

  predicate IsTarget(i: Intervention)
  {
    i.isTarget == 1
  }

  /** `intervencion_df`: the flagged users. */
  function Interventions(raw: Table, fs: Features.FeatureSet, probs: seq<real>, threshold: real)
    : (res: Result<seq<Intervention>>)
    requires WellFormed(raw) && FrameWellFormed(fs.x)
    ensures res.Ok? <==> ScoreTable(raw, fs, probs, threshold).Ok?
    ensures res.Ok? ==> |res.value| <= |probs|
    ensures res.Ok? ==> forall k :: 0 <= k < |res.value| ==>
              res.value[k].isTarget == 1 && res.value[k].probability >= threshold
  {
    var table := ScoreTable(raw, fs, probs, threshold);
    if table.Err? then Err(table.error)
    else Ok(Filter(IsTarget, table.value))
  }

  /** The positions of the flagged users: those whose probability reaches the threshold. */
  function Chosen(probs: seq<real>, threshold: real): (ix: seq<nat>)
  {
    Selected((p: real) => p >= threshold, probs)
  }

  /**
   The list holds exactly the users whose probability reaches the
   threshold, in input order, and each record carries that user's id,
   probability, raw attributes and features: the k-th record comes from the
   k-th chosen position j, and every user at or above the threshold is
   chosen.
   */
  lemma InterventionsExactly(raw: Table, fs: Features.FeatureSet, probs: seq<real>, threshold: real)
    requires WellFormed(raw) && FrameWellFormed(fs.x)
    requires Readable(raw, fs) && Aligned(raw, fs, probs)
    ensures var res := Interventions(raw, fs, probs, threshold);
            var ix := Chosen(probs, threshold);
            && res.Ok? && |res.value| == |ix|
            && (forall k :: 0 <= k < |ix| ==>
                  && ix[k] < |probs| && probs[ix[k]] >= threshold
                  && res.value[k] == Record(raw, fs, probs, threshold, ix[k]))
            && (forall k, l :: 0 <= k < l < |ix| ==> ix[k] < ix[l])
            && (forall j :: 0 <= j < |probs| && probs[j] >= threshold ==> j in ix)
  {
    var table := ScoreTable(raw, fs, probs, threshold).value;
    SameSelection(table, probs, threshold);
    SelectedSpec(IsTarget, table);
    SelectedSpec((p: real) => p >= threshold, probs);
  }

  /**
   The whole chain on an engaged table: once `transform` succeeds and the
   model gives one probability per user, the list can be built whenever the
   table has tenure and logins columns, and each user's record carries the
   identifier with missing values filled, the count of active product lines
   and the smoothed earn ratio of that same user's coerced, capped row.
   */
  lemma ScoresOfTransform(t: Table, parse: string -> Option<real>, parseInt: string -> Option<int>,
                          cap: string -> real, fs: Features.FeatureSet, probs: seq<real>, threshold: real)
    requires WellFormed(t)
    requires Features.Transform(t, parse, parseInt, cap) == Ok(fs)
    requires Engagement.Tenure in t.columns && Engagement.Logins in t.columns
    requires |probs| == |t.rows|
    ensures FrameWellFormed(fs.x)
    ensures ScoreTable(t, fs, probs, threshold).Ok?
    ensures forall k :: 0 <= k < |t.rows| ==>
              var i := ScoreTable(t, fs, probs, threshold).value[k];
              var m := Features.Prepare(t.rows[k], parse, cap);
              && Features.UserId in t.rows[k]
              && i.userId == Features.FillMissing(t.rows[k][Features.UserId])
              && (forall c :: c in Features.Required ==> c in m)
              && i.breadth == |Features.ActiveProducts(m)| as real
              && Features.RatioOf(i.earnRatio, m)
  {
    TransformReadable(t, parse, parseInt, cap, fs, probs);
    forall k | 0 <= k < |t.rows|
      ensures var i := ScoreTable(t, fs, probs, threshold).value[k];
              var m := Features.Prepare(t.rows[k], parse, cap);
              && Features.UserId in t.rows[k]
              && i.userId == Features.FillMissing(t.rows[k][Features.UserId])
              && (forall c :: c in Features.Required ==> c in m)
              && i.breadth == |Features.ActiveProducts(m)| as real
              && Features.RatioOf(i.earnRatio, m)
    {
      UserOfTransform(t, parse, parseInt, cap, fs, probs, threshold, k);
    }
  }

  /** One user's record, read through `transform`. */
  lemma UserOfTransform(t: Table, parse: string -> Option<real>, parseInt: string -> Option<int>,
                        cap: string -> real, fs: Features.FeatureSet, probs: seq<real>, threshold: real, k: nat)
    requires WellFormed(t)
    requires Features.Transform(t, parse, parseInt, cap) == Ok(fs)
    requires Engagement.Tenure in t.columns && Engagement.Logins in t.columns
    requires |probs| == |t.rows| && k < |t.rows|
    ensures FrameWellFormed(fs.x) && ScoreTable(t, fs, probs, threshold).Ok?
    ensures var i := ScoreTable(t, fs, probs, threshold).value[k];
            var m := Features.Prepare(t.rows[k], parse, cap);
            && Features.UserId in t.rows[k]
            && i.userId == Features.FillMissing(t.rows[k][Features.UserId])
            && (forall c :: c in Features.Required ==> c in m)
            && i.breadth == |Features.ActiveProducts(m)| as real
            && Features.RatioOf(i.earnRatio, m)
  {
    TransformReadable(t, parse, parseInt, cap, fs, probs);
    Features.TransformAligned(t, parse, parseInt, cap);
    assert ScoreTable(t, fs, probs, threshold).value[k] == Record(t, fs, probs, threshold, k);
    RecordOfRow(t, parse, cap, fs, probs, threshold, k);
  }

  /** What `transform` returns can be read by the list builder. */
  lemma TransformReadable(t: Table, parse: string -> Option<real>, parseInt: string -> Option<int>,
                          cap: string -> real, fs: Features.FeatureSet, probs: seq<real>)
    requires WellFormed(t)
    requires Features.Transform(t, parse, parseInt, cap) == Ok(fs)
    requires Engagement.Tenure in t.columns && Engagement.Logins in t.columns
    requires |probs| == |t.rows|
    ensures FrameWellFormed(fs.x) && Readable(t, fs) && Aligned(t, fs, probs)
  {
    Features.TransformAligned(t, parse, parseInt, cap);
    Features.TransformColumns(t, parse, parseInt, cap);
    Features.TransformIsAssemble(t, parse, parseInt, cap);
    Features.DerivedNotLeaks();
    assert Features.Breadth in ColumnSet(fs.x.columns) && Features.Ratio in ColumnSet(fs.x.columns);
  }

  /** User `k`'s record when X's row and id are the ones `transform` computes for that user. */
  lemma RecordOfRow(t: Table, parse: string -> Option<real>, cap: string -> real,
                    fs: Features.FeatureSet, probs: seq<real>, threshold: real, k: nat)
    requires WellFormed(t) && FrameWellFormed(fs.x)
    requires Readable(t, fs) && Aligned(t, fs, probs) && k < |probs|
    requires Features.HasRequired(t.rows[k]) && Features.UserId in t.rows[k]
    requires Features.RatioDefined(Features.Prepare(t.rows[k], parse, cap))
    requires fs.x.rows[k] == Features.FeatureRow(t.rows[k], parse, cap)
    requires fs.ids[k] == Features.FillMissing(t.rows[k][Features.UserId])
    ensures Record(t, fs, probs, threshold, k).userId == Features.FillMissing(t.rows[k][Features.UserId])
    ensures forall c :: c in Features.Required ==> c in Features.Prepare(t.rows[k], parse, cap)
    ensures Record(t, fs, probs, threshold, k).breadth
            == |Features.ActiveProducts(Features.Prepare(t.rows[k], parse, cap))| as real
    ensures Features.RatioOf(Record(t, fs, probs, threshold, k).earnRatio, Features.Prepare(t.rows[k], parse, cap))
  {
    var m := Features.Prepare(t.rows[k], parse, cap);
    var x := Features.Featurize(m);
    assert fs.x.rows[k] == x;
    Features.DerivedValues(m);
    var i := Record(t, fs, probs, threshold, k);
    assert i.breadth == x[Features.Breadth] && i.earnRatio == x[Features.Ratio];
  }

  /** Flagging by record and flagging by probability choose the same positions. */
  lemma {:induction false} SameSelection(table: seq<Intervention>, probs: seq<real>, threshold: real)
    requires |table| == |probs|
    requires forall k :: 0 <= k < |probs| ==> (table[k].isTarget == 1 <==> probs[k] >= threshold)
    ensures Selected(IsTarget, table) == Selected((p: real) => p >= threshold, probs)
  {
    if |table| > 0 {
      SameSelection(table[1..], probs[1..], threshold);
    }
  }
}
