/**
 The engagement filter (`DataProcessor.define_engagement`): before any
 modelling, keep only users with at least two months of tenure who log in
 or transact at least once a month on average.
 */
module Engagement {
  import opened Frames
  import opened Strings
  import opened Seqs

  /** Columns whose name holds this marker count monthly transactions. */
  const TxMarker := "_tx_amount"
  const Tenure := "active_month"
  const Logins := "avg_month_logins_amount"
  /** The two columns the filter adds. */
  const TxTotal := "total_avg_tx_count"
  const Engaged := "is_engaged"

  /** The processor holds the table it loaded, if a file was given. */
  datatype Processor = Processor(df: Option<Table>)

  predicate IsTxColumn(c: string)
  {
    Contains(c, TxMarker)
  }

  function TxColumns(columns: seq<string>): seq<string>
  {
    Filter(IsTxColumn, columns)
  }

  /** What a cell adds to a row sum: pandas skips missing values. */
  function SumValue(c: Cell): real
  {
    if c.Num? then c.x else 0.0
  }

  /** The row sum over `columns`, taken left to right. */
  function SumOver(r: Row, columns: seq<string>): real
    requires forall c :: c in columns ==> c in r
  {
    if |columns| == 0 then 0.0
    else SumOver(r, columns[..|columns| - 1]) + SumValue(r[columns[|columns| - 1]])
  }

  /** `total_avg_tx_count` of a row whose table has `columns`. */
  function TxTotalOf(r: Row, columns: seq<string>): real
    requires forall c :: c in columns ==> c in r
  {
    SumOver(r, TxColumns(columns))
  }

  /** A numeric comparison `cell >= bound`; NaN compares false. */
  predicate AtLeast(c: Cell, bound: real)
  {
    c.Num? && c.x >= bound
  }

  /** The segmentation rule. Last-month activity is deliberately not consulted. */
  predicate Rule(tenure: Cell, logins: Cell, txTotal: real)
  {
    AtLeast(tenure, 2.0) && (AtLeast(logins, 1.0) || txTotal >= 1.0)
  }

  predicate IsEngagedRow(r: Row, columns: seq<string>)
    requires Tenure in r && Logins in r
    requires forall c :: c in columns ==> c in r
  {
    Rule(r[Tenure], r[Logins], TxTotalOf(r, columns))
  }

  /** A boolean column value, stored as 1 or 0. */
  function Flag(b: bool): Cell
  {
    Num(if b then 1.0 else 0.0)
  }

  predicate IsFlagged(r: Row)
  {
    Engaged in r && r[Engaged] == Num(1.0)
  }

  /**
   A row after the two assignments of the filter: it gains exactly the
   transaction total and the engagement flag, and the flag is set exactly
   when the rule holds of the original row.
   */
  function AnnotateRow(r: Row, columns: seq<string>): (a: Row)
    requires Tenure in r && Logins in r
    requires forall c :: c in columns ==> c in r
    ensures a.Keys == r.Keys + {TxTotal, Engaged}
    ensures forall c :: c in r && c != TxTotal && c != Engaged ==> a[c] == r[c]
    ensures a[TxTotal] == Num(TxTotalOf(r, columns))
    ensures IsFlagged(a) <==> IsEngagedRow(r, columns)
  {
    var total := TxTotalOf(r, columns);
    r[TxTotal := Num(total)][Engaged := Flag(Rule(r[Tenure], r[Logins], total))]
  }

  /** No row holds text in column `c`. */
  predicate NoText(rows: seq<Row>, c: string)
  {
    forall k :: 0 <= k < |rows| && c in rows[k] ==> !rows[k][c].Text?
  }

  /** The first of `columns` holding a text cell in some row. */
  function FirstTextColumn(rows: seq<Row>, columns: seq<string>): (r: Option<string>)
    ensures r.None? <==> forall c :: c in columns ==> NoText(rows, c)
    ensures r.Some? ==> r.value in columns && !NoText(rows, r.value)
  {
    if |columns| == 0 then None
    else if !NoText(rows, columns[0]) then Some(columns[0])
    else FirstTextColumn(rows, columns[1..])
  }

  /** The table holds everything the rule reads, and all of it is numeric or missing. */
  predicate Ready(t: Table)
  {
    && FirstTextColumn(t.rows, TxColumns(t.columns)).None?
    && Tenure in t.columns && NoText(t.rows, Tenure)
    && Logins in t.columns && NoText(t.rows, Logins)
  }

  /** The processor's table after the filter ran: every row annotated, none removed. */
  function Annotate(t: Table): (a: Table)
    requires WellFormed(t) && Tenure in t.columns && Logins in t.columns
    ensures WellFormed(a)
    ensures a.columns == WithColumn(WithColumn(t.columns, TxTotal), Engaged)
    ensures |a.rows| == |t.rows|
    ensures forall k :: 0 <= k < |t.rows| ==> a.rows[k] == AnnotateRow(t.rows[k], t.columns)
  {
    var rows := seq(|t.rows|, k requires 0 <= k < |t.rows| => AnnotateRow(t.rows[k], t.columns));
    Table(WithColumn(WithColumn(t.columns, TxTotal), Engaged), rows)
  }

  /**
   `define_engagement`: fails without data, fails where pandas would raise
   (a missing rule column, text in a summed or compared column), and
   otherwise returns the processor holding the annotated table together with
   the engaged rows.
   */
  function DefineEngagement(p: Processor): (res: Result<(Processor, Table)>)
    requires p.df.Some? ==> WellFormed(p.df.value)
    ensures p.df.None? ==> res == Err(NoData)
    ensures res.Ok? <==> p.df.Some? && Ready(p.df.value)
    ensures res.Ok? ==> |res.value.1.rows| <= |p.df.value.rows|
    ensures res.Ok? ==> res.value.0.df.Some? && |res.value.0.df.value.rows| == |p.df.value.rows|
    ensures res.Ok? ==> res.value.1.columns == WithColumn(WithColumn(p.df.value.columns, TxTotal), Engaged)
    ensures res.Ok? ==> && Tenure in p.df.value.columns && Logins in p.df.value.columns
                        && res.value.0 == Processor(Some(Annotate(p.df.value)))
  {
    match p.df
    case None => Err(NoData)
    case Some(t) =>
      var text := FirstTextColumn(t.rows, TxColumns(t.columns));
      if text.Some? then Err(TypeMismatch(text.value))
      else if Tenure !in t.columns then Err(MissingColumn(Tenure))
      else if !NoText(t.rows, Tenure) then Err(TypeMismatch(Tenure))
      else if Logins !in t.columns then Err(MissingColumn(Logins))
      else if !NoText(t.rows, Logins) then Err(TypeMismatch(Logins))
      else
        var annotated := Annotate(t);
        Ok((Processor(Some(annotated)), Table(annotated.columns, Filter(IsFlagged, annotated.rows))))
  }

  /** Positions, in the loaded table, of the rows the filter returns. */
  function EngagedPositions(t: Table): seq<nat>
    requires WellFormed(t) && Tenure in t.columns && Logins in t.columns
  {
    Selected(IsFlagged, Annotate(t).rows)
  }

  /**
   The engaged output holds exactly the rows satisfying the rule, in their
   original order, each one the original row plus the two new columns.
   */
  lemma EngagedExactly(t: Table)
    requires WellFormed(t) && Ready(t)
    ensures DefineEngagement(Processor(Some(t))).Ok?
    ensures var out := DefineEngagement(Processor(Some(t))).value.1.rows;
            var ix := EngagedPositions(t);
            && |out| == |ix|
            && (forall k :: 0 <= k < |ix| ==>
                  && ix[k] < |t.rows|
                  && IsEngagedRow(t.rows[ix[k]], t.columns)
                  && out[k] == AnnotateRow(t.rows[ix[k]], t.columns))
            && (forall k, l :: 0 <= k < l < |ix| ==> ix[k] < ix[l])
            && (forall i :: 0 <= i < |t.rows| && IsEngagedRow(t.rows[i], t.columns) ==> i in ix)
  {
    var a := Annotate(t);
    var out := Filter(IsFlagged, a.rows);
    assert DefineEngagement(Processor(Some(t))).value.1.rows == out;
    var ix := Selected(IsFlagged, a.rows);
    SelectedSpec(IsFlagged, a.rows);
    forall k | 0 <= k < |ix|
      ensures ix[k] < |t.rows| && IsEngagedRow(t.rows[ix[k]], t.columns)
      ensures out[k] == AnnotateRow(t.rows[ix[k]], t.columns)
    {
      assert IsFlagged(a.rows[ix[k]]);
    }
    forall i | 0 <= i < |t.rows| && IsEngagedRow(t.rows[i], t.columns)
      ensures i in ix
    {
      assert IsFlagged(a.rows[i]);
    }
  }

  /** Changing one cell of a row moves its sum over `columns` by the change, if the cell is summed. */
  lemma {:induction false} SumOverUpdate(r: Row, columns: seq<string>, c: string, v: Cell)
    requires forall d :: d in columns ==> d in r
    requires Distinct(columns) && c in r
    ensures SumOver(r[c := v], columns)
            == SumOver(r, columns) + (if c in columns then SumValue(v) - SumValue(r[c]) else 0.0)
  {
    if |columns| > 0 {
      var init := columns[..|columns| - 1];
      var last := columns[|columns| - 1];
      assert Distinct(init);
      SumOverUpdate(r, init, c, v);
      assert columns == init + [last];
      if c == last {
        assert c !in init;
      } else {
        assert c in columns <==> c in init;
      }
    }
  }

  /**
   `total_avg_tx_count` sums exactly the transaction columns, each once:
   changing a transaction cell moves the total by the change, changing any
   other cell leaves it alone.
   */
  lemma TxTotalCountsTxColumns(r: Row, columns: seq<string>, c: string, v: Cell)
    requires forall d :: d in columns ==> d in r
    requires Distinct(columns) && c in columns
    ensures TxTotalOf(r[c := v], columns)
            == TxTotalOf(r, columns) + (if IsTxColumn(c) then SumValue(v) - SumValue(r[c]) else 0.0)
  {
    FilterDistinct(IsTxColumn, columns);
    SumOverUpdate(r, TxColumns(columns), c, v);
    assert c in TxColumns(columns) <==> IsTxColumn(c) by {
      if IsTxColumn(c) {
        var i :| 0 <= i < |columns| && columns[i] == c;
      }
    }
  }

  /** A user with less than two months of tenure, or unknown tenure, is never engaged. */
  lemma ShortTenureNeverEngaged(r: Row, columns: seq<string>)
    requires Tenure in r && Logins in r
    requires forall c :: c in columns ==> c in r
    requires !AtLeast(r[Tenure], 2.0)
    ensures !IsEngagedRow(r, columns)
  {
  }

  /**
   Three months of tenure, no logins and two transactions a month on
   average: the user is engaged through the transaction branch alone.
   */
  lemma TransactingUserEngaged(tx: string)
    requires IsTxColumn(tx)
    ensures var columns := [Tenure, Logins, tx];
            var r := map[Tenure := Num(3.0), Logins := Num(0.0), tx := Num(2.0)];
            TxTotalOf(r, columns) == 2.0 && IsEngagedRow(r, columns)
  {
    var columns := [Tenure, Logins, tx];
    var r := map[Tenure := Num(3.0), Logins := Num(0.0), tx := Num(2.0)];
    OnlyTxColumn(tx);
    assert r[tx] == Num(2.0);
    assert [tx][..0] == [];
    assert SumOver(r, [tx]) == SumOver(r, []) + SumValue(r[tx]);
  }

  /** Among tenure, logins and one transaction column, only the last is summed. */
  lemma OnlyTxColumn(tx: string)
    requires IsTxColumn(tx)
    ensures tx != Tenure && tx != Logins
    ensures TxColumns([Tenure, Logins, tx]) == [tx]
  {
    RuleColumnsAreNotTx();
    var columns := [Tenure, Logins, tx];
    var rest := [Logins, tx];
    assert columns[1..] == rest && rest[1..] == [tx] && [tx][1..] == [];
    var none := Filter(IsTxColumn, []);
    assert none == [];
    assert Filter(IsTxColumn, [tx]) == [tx] + none;
    assert Filter(IsTxColumn, rest) == Filter(IsTxColumn, [tx]);
  }

  /** Neither tenure nor logins is a transaction column ("x" occurs in neither name). */
  lemma RuleColumnsAreNotTx()
    ensures !IsTxColumn(Tenure) && !IsTxColumn(Logins)
  {
    MissingCharacter(Tenure, TxMarker, 2);
    MissingCharacter(Logins, TxMarker, 2);
  }

  /** More tenure, logins or transactions never make an engaged user disengaged. */
  lemma RuleMonotone(t1: Cell, l1: Cell, x1: real, t2: Cell, l2: Cell, x2: real)
    requires Rule(t1, l1, x1)
    requires t2.Num? && t1.x <= t2.x
    requires AtLeast(l1, 1.0) ==> l2.Num? && l1.x <= l2.x
    requires x1 <= x2
    ensures Rule(t2, l2, x2)
  {
  }
}
