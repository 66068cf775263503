/**
 Feature engineering (`DataProcessor.transform`): a pure function from the
 engaged table to the feature matrix X, the optional label vector y and the
 user identifiers, aligned by row.

 Steps, in the order the code runs them: cast the label to an integer,
 coerce every other non-identifier cell to a number (failures and missing
 values become 0), cap every volume/amount column at its given upper value,
 add three derived columns, drop the leak columns.
 */
module Features {
  import opened Frames
  import opened Strings
  import opened Seqs
  import Engagement

  const Target := "is_churn"
  const UserId := "user_id"
  const EarnTx := "avg_month_earn_tx_amount"
  const TxTotal := Engagement.TxTotal
  const FiatPayment := "avg_month_fiat_payment_volumen"
  const CryptoPayment := "avg_month_crypto_payment_volumen"
  const EarnVolume := "avg_month_earn_volumen"
  const CashIn := "avg_month_fiat_cashin_volumen"
  const CashOut := "avg_month_fiat_cashout_volumen"

  /** The derived columns. */
  const Ratio := "earn_tx_ratio"
  const Breadth := "product_breadth"
  const NetFlow := "net_fiat_flow"
  const Derived: set<string> := {Ratio, Breadth, NetFlow}

  /** Added to the transaction total before dividing: smoothing for users with no transactions. */
  const RatioSmoothing: real := 1.0

  /** Columns never coerced to numbers. */
  const Excluded: set<string> := {UserId, Target}

  /** Columns that reveal the label or the future, dropped from X. */
  const Leaks: set<string> :=
    {UserId, Target, Engagement.Engaged, "days_since_last_login", "frecuency_score_last_active_month"}

  /** Columns the derived features read, in the order the code reads them. */
  const Required: seq<string> := [EarnTx, TxTotal, FiatPayment, CryptoPayment, EarnVolume, CashIn, CashOut]

  /** The three product lines counted by `product_breadth`. */
  const Products: set<string> := {FiatPayment, CryptoPayment, EarnVolume}

  /** Columns capped at their upper quantile: the name holds "volumen" or "amount". */
  predicate IsCapped(c: string)
  {
    Contains(c, "volumen") || Contains(c, "amount")
  }

  /** `pd.to_numeric(errors='coerce')` followed by `fillna(0)` on one cell. */
  function Coerce(c: Cell, parse: string -> Option<real>): real
  {
    match c
    case Num(x) => x
    case Text(s) => parse(s).GetOr(0.0)
    case Missing => 0.0
  }

  /** `astype(int)` on a float: truncation toward zero. */
  function Truncate(x: real): (n: int)
    ensures x >= 0.0 ==> 0 <= n && n as real <= x < n as real + 1.0
    ensures x < 0.0 ==> n <= 0 && n as real - 1.0 < x <= n as real
  {
    if x >= 0.0 then x.Floor else -((-x).Floor)
  }

  /** The integer label of one cell; NaN and non-integer text cannot be cast. */
  function LabelOf(c: Cell, parseInt: string -> Option<int>): Option<int>
  {
    match c
    case Num(x) => Some(Truncate(x))
    case Text(s) => parseInt(s)
    case Missing => None
  }

  /** Every row's label can be cast to an integer. */
  predicate LabelsCast(rows: seq<Row>, parseInt: string -> Option<int>)
  {
    forall k :: 0 <= k < |rows| && Target in rows[k] ==> LabelOf(rows[k][Target], parseInt).Some?
  }

  /** A row's cells as numbers, without the identifier and the label. */
  function NumericRow(r: Row, parse: string -> Option<real>): (m: map<string, real>)
    ensures m.Keys == r.Keys - Excluded
  {
    map c | c in r && c !in Excluded :: Coerce(r[c], parse)
  }

  /** `clip(upper=...)` on one value. */
  function Clip(v: real, upper: real): (w: real)
    ensures w <= upper
    ensures v <= upper ==> w == v
    ensures w == v || w == upper
  {
    if v > upper then upper else v
  }

  /** The value column `c` holds after capping. */
  function CapValue(c: string, v: real, cap: string -> real): real
  {
    if IsCapped(c) then Clip(v, cap(c)) else v
  }

  /** Winsorization of one row; `cap(c)` is the column's 99th percentile. */
  function CapRow(m: map<string, real>, cap: string -> real): (w: map<string, real>)
    ensures w.Keys == m.Keys
  {
    map c | c in m :: CapValue(c, m[c], cap)
  }

  /** The value of column `c` in the coerced, capped row. */
  function Prepared(r: Row, c: string, parse: string -> Option<real>, cap: string -> real): real
    requires c in r
  {
    CapValue(c, Coerce(r[c], parse), cap)
  }

  /** The product lines a user is active in. */
  function ActiveProducts(m: map<string, real>): set<string>
    requires Products <= m.Keys
  {
    set p | p in Products && m[p] > 0.0
  }

  function Indicator(b: bool): real
  {
    if b then 1.0 else 0.0
  }

  /** The ratio is defined: the smoothed transaction total is not zero. */
  predicate RatioDefined(m: map<string, real>)
    requires TxTotal in m
  {
    m[TxTotal] + RatioSmoothing != 0.0
  }

  /** `ratio` is the earn transactions per smoothed transaction: multiplied back it gives them. */
  predicate RatioOf(ratio: real, m: map<string, real>)
    requires EarnTx in m && TxTotal in m
  {
    ratio * (m[TxTotal] + RatioSmoothing) == m[EarnTx]
  }

  /**
   The three derived features: the smoothed earn ratio, the number of product
   lines with positive volume, and the net fiat flow. Nothing else changes.
   */
  function DeriveRow(m: map<string, real>): (d: map<string, real>)
    requires forall c :: c in Required ==> c in m
    requires RatioDefined(m)
    ensures d.Keys == m.Keys + Derived
    ensures forall c :: c in m && c !in Derived ==> d[c] == m[c]
    ensures RatioOf(d[Ratio], m)
    ensures d[Breadth] == |ActiveProducts(m)| as real
    ensures 0.0 <= d[Breadth] <= 3.0
    ensures d[NetFlow] + m[CashOut] == m[CashIn]
  {
    BreadthCounts(m);
    m[Ratio := m[EarnTx] / (m[TxTotal] + RatioSmoothing)]
     [Breadth := Indicator(m[FiatPayment] > 0.0) + Indicator(m[CryptoPayment] > 0.0) + Indicator(m[EarnVolume] > 0.0)]
     [NetFlow := m[CashIn] - m[CashOut]]
  }

  /** Summing one indicator per product line counts the active product lines. */
  lemma BreadthCounts(m: map<string, real>)
    requires Products <= m.Keys
    ensures Indicator(m[FiatPayment] > 0.0) + Indicator(m[CryptoPayment] > 0.0) + Indicator(m[EarnVolume] > 0.0)
            == |ActiveProducts(m)| as real
    ensures |ActiveProducts(m)| <= 3
  {
    assert FiatPayment != CryptoPayment && FiatPayment != EarnVolume && CryptoPayment != EarnVolume;
    CountPositive(m, FiatPayment, CryptoPayment, EarnVolume);
    assert ActiveProducts(m) == set p | p in {FiatPayment, CryptoPayment, EarnVolume} && m[p] > 0.0;
  }

  /** Three indicators over three different keys count the keys with a positive value. */
  lemma CountPositive(m: map<string, real>, a: string, b: string, c: string)
    requires a in m && b in m && c in m
    requires a != b && a != c && b != c
    ensures var active := set p | p in {a, b, c} && m[p] > 0.0;
            && Indicator(m[a] > 0.0) + Indicator(m[b] > 0.0) + Indicator(m[c] > 0.0) == |active| as real
            && |active| <= 3
  {
    var fa := if m[a] > 0.0 then {a} else {};
    var fb := if m[b] > 0.0 then {b} else {};
    var fc := if m[c] > 0.0 then {c} else {};
    assert (set p | p in {a, b, c} && m[p] > 0.0) == fa + fb + fc;
    assert fa !! fb && (fa + fb) !! fc;
    assert |fa + fb| == |fa| + |fb|;
    assert |fa + fb + fc| == |fa + fb| + |fc|;
  }

  /** Drop the leak columns. */
  function DropLeaks(m: map<string, real>): (x: map<string, real>)
    ensures x.Keys == m.Keys - Leaks
    ensures forall c :: c in x ==> x[c] == m[c]
  {
    map c | c in m && c !in Leaks :: m[c]
  }

  predicate HasRequired(r: Row)
  {
    forall c :: c in Required ==> c in r
  }

  /**
   One row after coercion and capping: an entry per column other than the
   identifier and the label, holding the cell's number (0 when it has none);
   a column whose name holds "volumen" or "amount" is clipped at its cap.
   */
  function Prepare(r: Row, parse: string -> Option<real>, cap: string -> real): (m: map<string, real>)
    ensures m.Keys == r.Keys - Excluded
    ensures forall c :: c in m && !IsCapped(c) && r[c].Num? ==> m[c] == r[c].x
    ensures forall c :: c in m && !IsCapped(c) && r[c].Text? && parse(r[c].s).Some? ==> m[c] == parse(r[c].s).value
    ensures forall c :: c in m && !IsCapped(c) && (r[c].Missing? || (r[c].Text? && parse(r[c].s).None?)) ==> m[c] == 0.0
    ensures forall c :: c in m && IsCapped(c) ==>
              && m[c] <= cap(c)
              && (Coerce(r[c], parse) <= cap(c) ==> m[c] == Coerce(r[c], parse))
              && (Coerce(r[c], parse) > cap(c) ==> m[c] == cap(c))
    ensures forall c :: c in m ==> c in r && m[c] == Prepared(r, c, parse, cap)
    ensures HasRequired(r) ==> forall c :: c in Required ==> c in m
  {
    ColumnRoles();
    CapRow(NumericRow(r, parse), cap)
  }

  /** Derive the three features, then drop the leaks. */
  function Featurize(m: map<string, real>): (x: map<string, real>)
    requires forall c :: c in Required ==> c in m
    requires RatioDefined(m)
    ensures x.Keys == (m.Keys + Derived) - Leaks
    ensures forall c :: c in x && c !in Derived ==> x[c] == m[c]
  {
    DropLeaks(DeriveRow(m))
  }

  /** The feature row X gets for one input row. */
  function FeatureRow(r: Row, parse: string -> Option<real>, cap: string -> real): (x: map<string, real>)
    requires HasRequired(r)
    requires RatioDefined(Prepare(r, parse, cap))
    ensures x.Keys == (r.Keys + Derived) - Leaks
    ensures forall c :: c in x && c !in Derived ==> c in r && x[c] == Prepared(r, c, parse, cap)
  {
    ColumnRoles();
    Featurize(Prepare(r, parse, cap))
  }

  /**
   The derived values of a feature row: the ratio times the smoothed total
   gives back the earn transactions, the breadth counts the active product
   lines (so it is 0 to 3), and the net flow is cash-in minus cash-out, all
   on the coerced, capped row.
   */
  lemma DerivedValues(m: map<string, real>)
    requires forall c :: c in Required ==> c in m
    requires RatioDefined(m)
    ensures var x := Featurize(m);
            && Ratio in x && Breadth in x && NetFlow in x
            && RatioOf(x[Ratio], m)
            && x[Breadth] == |ActiveProducts(m)| as real
            && |ActiveProducts(m)| <= 3
            && x[NetFlow] == m[CashIn] - m[CashOut]
  {
    DerivedNotLeaks();
    BreadthCounts(m);
    var d := DeriveRow(m);
    assert Featurize(m) == DropLeaks(d);
  }

  /** The derived columns are not leak columns. */
  lemma DerivedNotLeaks()
    ensures Ratio !in Leaks && Breadth !in Leaks && NetFlow !in Leaks
  {
  }

  /** The fixed column names play distinct roles. */
  lemma ColumnRoles()
    ensures forall c :: c in Required ==> c !in Excluded && c !in Derived && c !in Leaks
    ensures Derived !! Leaks && Excluded <= Leaks
    ensures Ratio != Breadth && Ratio != NetFlow && Breadth != NetFlow
    ensures Products <= set c | c in Required
  {
  }

  /** The first column of `required` missing from `columns`. */
  function FirstMissing(columns: seq<string>, required: seq<string>): (r: Option<string>)
    ensures r.None? <==> forall c :: c in required ==> c in columns
    ensures r.Some? ==> r.value in required && r.value !in columns
  {
    if |required| == 0 then None
    else if required[0] !in columns then Some(required[0])
    else FirstMissing(columns, required[1..])
  }

  /** X's column list: derived columns appended, leak columns removed. */
  function FeatureColumns(columns: seq<string>): (r: seq<string>)
    ensures ColumnSet(r) == (ColumnSet(columns) + Derived) - Leaks
    ensures Distinct(columns) ==> Distinct(r)
  {
    var all := WithColumn(WithColumn(WithColumn(columns, Ratio), Breadth), NetFlow);
    assert ColumnSet(all) == ColumnSet(columns) + Derived;
    var kept := Filter(IsFeature, all);
    FilterColumnSet(IsFeature, all);
    assert Distinct(columns) ==> Distinct(kept) by {
      if Distinct(columns) {
        FilterDistinct(IsFeature, all);
      }
    }
    kept
  }

  predicate IsFeature(c: string)
  {
    c !in Leaks
  }

  /** `fillna(0)` on an identifier cell. */
  function FillMissing(c: Cell): Cell
  {
    if c.Missing? then Num(0.0) else c
  }

  /** Every row's smoothed transaction total is non-zero, so the ratio is finite. */
  predicate RatiosDefined(t: Table, parse: string -> Option<real>, cap: string -> real)
    requires WellFormed(t) && forall c :: c in Required ==> c in t.columns
  {
    forall k :: 0 <= k < |t.rows| ==> RatioDefined(Prepare(t.rows[k], parse, cap))
  }

  /** Everything `transform` needs: castable labels, the columns it reads, finite ratios. */
  predicate Ready(t: Table, parse: string -> Option<real>, parseInt: string -> Option<int>, cap: string -> real)
    requires WellFormed(t)
  {
    && (Target in t.columns ==> LabelsCast(t.rows, parseInt))
    && (forall c :: c in Required ==> c in t.columns)
    && UserId in t.columns
    && RatiosDefined(t, parse, cap)
  }

  datatype FeatureSet = FeatureSet(x: Frame, y: Option<seq<int>>, ids: seq<Cell>)

  /**
   `transform`. It fails where pandas raises: a label that cannot be cast, a
   column the derived features read, or the identifier column, is missing.
   A ratio whose denominator is zero is reported too (pandas would produce
   an infinite value). It succeeds in every other case.
   */
  function Transform(t: Table, parse: string -> Option<real>, parseInt: string -> Option<int>,
                     cap: string -> real): (res: Result<FeatureSet>)
    requires WellFormed(t)
    ensures Target in t.columns && !LabelsCast(t.rows, parseInt) ==> res == Err(NotAnInteger(Target))
    ensures (Target in t.columns ==> LabelsCast(t.rows, parseInt)) && UserId !in t.columns ==> res.Err?
    ensures (exists c :: c in Required && c !in t.columns) ==> res.Err?
    ensures (Target in t.columns ==> LabelsCast(t.rows, parseInt)) && FirstMissing(t.columns, Required).Some?
            ==> res == Err(MissingColumn(FirstMissing(t.columns, Required).value))
    ensures res.Ok? <==> Ready(t, parse, parseInt, cap)
  {
    var missing := FirstMissing(t.columns, Required);
    if Target in t.columns && !LabelsCast(t.rows, parseInt) then Err(NotAnInteger(Target))
    else if missing.Some? then Err(MissingColumn(missing.value))
    else if UserId !in t.columns then Err(MissingColumn(UserId))
    else if !RatiosDefined(t, parse, cap) then Err(NonFinite(Ratio))
    else Ok(Assemble(t, parse, parseInt, cap))
  }

  /** The successful result: one feature row, label and identifier per input row. */
  function Assemble(t: Table, parse: string -> Option<real>, parseInt: string -> Option<int>,
                    cap: string -> real): FeatureSet
    requires WellFormed(t) && Ready(t, parse, parseInt, cap)
  {
    RowsReady(t, parse, parseInt, cap);
    var y := if Target in t.columns then Some(Labels(t.rows, parseInt)) else None;
    FeatureSet(Frame(FeatureColumns(t.columns), FeatureRows(t.rows, parse, cap)), y, Ids(t.rows))
  }

  function Labels(rows: seq<Row>, parseInt: string -> Option<int>): seq<int>
    requires forall k :: 0 <= k < |rows| ==> Target in rows[k]
    requires LabelsCast(rows, parseInt)
  {
    seq(|rows|, k requires 0 <= k < |rows| => LabelOf(rows[k][Target], parseInt).value)
  }

  /** Rows that `transform` can turn into feature rows. */
  predicate RowsPrepared(rows: seq<Row>, parse: string -> Option<real>, cap: string -> real)
  {
    forall k :: 0 <= k < |rows| ==> HasRequired(rows[k]) && RatioDefined(Prepare(rows[k], parse, cap))
  }

  function FeatureRows(rows: seq<Row>, parse: string -> Option<real>, cap: string -> real): seq<map<string, real>>
    requires RowsPrepared(rows, parse, cap)
  {
    seq(|rows|, k requires 0 <= k < |rows| => FeatureRow(rows[k], parse, cap))
  }

  lemma FeatureRowsAt(rows: seq<Row>, parse: string -> Option<real>, cap: string -> real)
    requires RowsPrepared(rows, parse, cap)
    ensures |FeatureRows(rows, parse, cap)| == |rows|
    ensures forall k :: 0 <= k < |rows| ==> FeatureRows(rows, parse, cap)[k] == FeatureRow(rows[k], parse, cap)
  {
  }

  function Ids(rows: seq<Row>): seq<Cell>
    requires forall k :: 0 <= k < |rows| ==> UserId in rows[k]
  {
    seq(|rows|, k requires 0 <= k < |rows| => FillMissing(rows[k][UserId]))
  }

  /**
   X, y and the identifiers line up with the input: one entry per input row,
   in input order, each computed from that row. y is present exactly when
   the label column is.
   */
  lemma TransformAligned(t: Table, parse: string -> Option<real>, parseInt: string -> Option<int>,
                         cap: string -> real)
    requires WellFormed(t)
    requires Transform(t, parse, parseInt, cap).Ok?
    ensures var fs := Transform(t, parse, parseInt, cap).value;
            && |fs.x.rows| == |t.rows| && |fs.ids| == |t.rows|
            && (fs.y.Some? <==> Target in t.columns)
            && (fs.y.Some? ==> |fs.y.value| == |t.rows|)
            && (forall k :: 0 <= k < |t.rows| ==>
                  && HasRequired(t.rows[k])
                  && RatioDefined(Prepare(t.rows[k], parse, cap))
                  && fs.x.rows[k] == FeatureRow(t.rows[k], parse, cap)
                  && fs.ids[k] == FillMissing(t.rows[k][UserId])
                  && (fs.y.Some? ==> Some(fs.y.value[k]) == LabelOf(t.rows[k][Target], parseInt)))
  {
    TransformIsAssemble(t, parse, parseInt, cap);
    AssembleAligned(t, parse, parseInt, cap);
  }

  lemma TransformIsAssemble(t: Table, parse: string -> Option<real>, parseInt: string -> Option<int>,
                            cap: string -> real)
    requires WellFormed(t)
    requires Transform(t, parse, parseInt, cap).Ok?
    ensures Ready(t, parse, parseInt, cap)
    ensures Transform(t, parse, parseInt, cap).value == Assemble(t, parse, parseInt, cap)
  {
  }

  lemma AssembleAligned(t: Table, parse: string -> Option<real>, parseInt: string -> Option<int>,
                        cap: string -> real)
    requires WellFormed(t) && Ready(t, parse, parseInt, cap)
    ensures var fs := Assemble(t, parse, parseInt, cap);
            && |fs.x.rows| == |t.rows| && |fs.ids| == |t.rows|
            && (fs.y.Some? <==> Target in t.columns)
            && (fs.y.Some? ==> |fs.y.value| == |t.rows|)
            && (forall k :: 0 <= k < |t.rows| ==>
                  && HasRequired(t.rows[k])
                  && RatioDefined(Prepare(t.rows[k], parse, cap))
                  && fs.x.rows[k] == FeatureRow(t.rows[k], parse, cap)
                  && fs.ids[k] == FillMissing(t.rows[k][UserId])
                  && (fs.y.Some? ==> Some(fs.y.value[k]) == LabelOf(t.rows[k][Target], parseInt)))
  {
    RowsReady(t, parse, parseInt, cap);
    AssembleRows(t, parse, parseInt, cap);
    AssembleLabels(t, parse, parseInt, cap);
  }

  /** Every input row has the columns the derived features read, and a finite ratio. */
  lemma RowsReady(t: Table, parse: string -> Option<real>, parseInt: string -> Option<int>,
                  cap: string -> real)
    requires WellFormed(t) && Ready(t, parse, parseInt, cap)
    ensures RowsPrepared(t.rows, parse, cap)
    ensures forall k :: 0 <= k < |t.rows| ==> UserId in t.rows[k]
    ensures Target in t.columns ==> forall k :: 0 <= k < |t.rows| ==> Target in t.rows[k]
  {
    forall k | 0 <= k < |t.rows|
      ensures HasRequired(t.rows[k]) && UserId in t.rows[k]
      ensures Target in t.columns ==> Target in t.rows[k]
    {
      assert t.rows[k].Keys == ColumnSet(t.columns);
    }
  }

  lemma AssembleRows(t: Table, parse: string -> Option<real>, parseInt: string -> Option<int>,
                     cap: string -> real)
    requires WellFormed(t) && Ready(t, parse, parseInt, cap)
    ensures var fs := Assemble(t, parse, parseInt, cap);
            && |fs.x.rows| == |t.rows| && |fs.ids| == |t.rows|
            && (forall k :: 0 <= k < |t.rows| ==>
                  && fs.x.rows[k] == FeatureRow(t.rows[k], parse, cap)
                  && fs.ids[k] == FillMissing(t.rows[k][UserId]))
  {
    RowsReady(t, parse, parseInt, cap);
    FeatureRowsAt(t.rows, parse, cap);
  }

  lemma AssembleLabels(t: Table, parse: string -> Option<real>, parseInt: string -> Option<int>,
                       cap: string -> real)
    requires WellFormed(t) && Ready(t, parse, parseInt, cap)
    ensures var fs := Assemble(t, parse, parseInt, cap);
            && (fs.y.Some? <==> Target in t.columns)
            && (fs.y.Some? ==> |fs.y.value| == |t.rows|)
            && (forall k :: 0 <= k < |t.rows| && fs.y.Some? ==>
                  Target in t.rows[k] && Some(fs.y.value[k]) == LabelOf(t.rows[k][Target], parseInt))
  {
    RowsReady(t, parse, parseInt, cap);
    var fs := Assemble(t, parse, parseInt, cap);
    if Target in t.columns {
      assert fs.y == Some(Labels(t.rows, parseInt));
    }
  }

  /**
   X is a proper table whose columns are the input's plus the derived ones,
   minus every leak column: no leak reaches X and nothing else is lost.
   */
  lemma TransformColumns(t: Table, parse: string -> Option<real>, parseInt: string -> Option<int>,
                         cap: string -> real)
    requires WellFormed(t)
    requires Transform(t, parse, parseInt, cap).Ok?
    ensures var x := Transform(t, parse, parseInt, cap).value.x;
            && FrameWellFormed(x)
            && ColumnSet(x.columns) == (ColumnSet(t.columns) + Derived) - Leaks
  {
    var x := Transform(t, parse, parseInt, cap).value.x;
    TransformAligned(t, parse, parseInt, cap);
    assert x == Assemble(t, parse, parseInt, cap).x;
    forall k | 0 <= k < |x.rows| ensures x.rows[k].Keys == ColumnSet(x.columns) {
      assert t.rows[k].Keys == ColumnSet(t.columns);
    }
  }

  /**
   Winsorization as seen in X: every capped input column is at most its cap,
   and a value already at most its cap reaches X unchanged.
   */
  lemma CappedColumnsBounded(t: Table, parse: string -> Option<real>, parseInt: string -> Option<int>,
                             cap: string -> real, k: nat, c: string)
    requires WellFormed(t)
    requires Transform(t, parse, parseInt, cap).Ok?
    requires k < |t.rows| && c in Transform(t, parse, parseInt, cap).value.x.columns
    requires IsCapped(c) && c !in Derived
    ensures var x := Transform(t, parse, parseInt, cap).value.x;
            && c in t.rows[k]
            && x.rows[k][c] <= cap(c)
            && (Coerce(t.rows[k][c], parse) <= cap(c) ==> x.rows[k][c] == Coerce(t.rows[k][c], parse))
  {
    var x := Transform(t, parse, parseInt, cap).value.x;
    assert c in ColumnSet(x.columns);
    assert c in x.rows[k];
  }

  /** Coercion and fill: every feature that is not derived holds the cell's number, or 0. */
  lemma FeaturesCoerced(t: Table, parse: string -> Option<real>, parseInt: string -> Option<int>,
                        cap: string -> real, k: nat, c: string)
    requires WellFormed(t)
    requires Transform(t, parse, parseInt, cap).Ok?
    requires k < |t.rows| && c in t.columns && c !in Leaks && c !in Derived && !IsCapped(c)
    ensures var x := Transform(t, parse, parseInt, cap).value.x;
            && c in x.rows[k]
            && (t.rows[k][c].Num? ==> x.rows[k][c] == t.rows[k][c].x)
            && (t.rows[k][c].Missing? ==> x.rows[k][c] == 0.0)
            && (t.rows[k][c].Text? && parse(t.rows[k][c].s).None? ==> x.rows[k][c] == 0.0)
            && (t.rows[k][c].Text? && parse(t.rows[k][c].s).Some? ==> x.rows[k][c] == parse(t.rows[k][c].s).value)
  {
    var x := Transform(t, parse, parseInt, cap).value.x;
    assert c in ColumnSet(t.columns);
  }

  /** Capping twice caps once. */
  lemma CapIdempotent(m: map<string, real>, cap: string -> real)
    ensures CapRow(CapRow(m, cap), cap) == CapRow(m, cap)
  {
  }
}
