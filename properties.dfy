/**
 * What the returns edition page promises, stated about the pivot table it
 * reads: when it shows nothing, which analytic codes its synthesis lists,
 * what each synthesis line holds, and what the global totals add up to.
 */
module Properties {
  import opened Wrappers
  import opened Accounts
  import opened Pivot
  import opened Synthesis

  /** The category of row `i` of the pivot table, read from its normalised account. */
  function RowCategory(pivot: seq<Row>, i: nat): Option<Category>
    requires i < |pivot|
  {
    Classify(NormalizeCompte(pivot[i].compte))
  }

  /**
   * The page shows nothing exactly when no account starts with 709000 or
   * 709100, whatever provision rows (681…) there are.
   */
  lemma NoReportWithoutReturnsOrDiscounts(pivot: seq<Row>)
    ensures Edition(pivot).None? <==>
      forall i :: 0 <= i < |pivot| ==>
        !StartsWith(NormalizeCompte(pivot[i].compte), "709000") && !StartsWith(NormalizeCompte(pivot[i].compte), "709100")
  {
    var df := Normalize(pivot);
    RowsOfEmpty(df, Returns);
    RowsOfEmpty(df, Discounts);
    assert forall i :: 0 <= i < |pivot| ==> df[i].account == NormalizeCompte(pivot[i].compte);
  }

  /**
   * The synthesis has one line per analytic code carried by at least one row of
   * the three categories, and no other line.
   */
  lemma SynthesisCodes(pivot: seq<Row>, k: string)
    requires Edition(pivot).Some?
    ensures k in Edition(pivot).value.synthesis <==>
      exists i :: 0 <= i < |pivot| && pivot[i].code == Some(k) && RowCategory(pivot, i).Some?
  {
    var df := Normalize(pivot);
    var ret, rem, prov := Table(df, Returns), Table(df, Discounts), Table(df, Provisions);
    assert Edition(pivot).value.synthesis == Synthesize(ret, rem, prov);
    assert k in Synthesize(ret, rem, prov) <==> k in ret || k in rem || k in prov;
    TableKeys(df, Returns, k);
    TableKeys(df, Discounts, k);
    TableKeys(df, Provisions, k);
    RowsOfCodes(df, Returns, k);
    RowsOfCodes(df, Discounts, k);
    RowsOfCodes(df, Provisions, k);
    CodedRowOrigin(pivot, k);
  }

  /**
   * Each synthesis line holds, for its code: returns as debit minus credit over
   * the code's returns rows, discounts as credit minus debit over its discount
   * rows, provisions as the debit of its provision rows (credits ignored), each
   * 0 when the code has no row of that category, and `Total_impact` as their sum.
   */
  lemma SynthesisLine(pivot: seq<Row>, k: string)
    requires Edition(pivot).Some? && k in Edition(pivot).value.synthesis
    ensures var df := Normalize(pivot);
      var line := Edition(pivot).value.synthesis[k];
      var ret, rem, prov := CodeRows(RowsOf(df, Returns), k), CodeRows(RowsOf(df, Discounts), k), CodeRows(RowsOf(df, Provisions), k);
      && line.retour == SumDebit(ret) - SumCredit(ret)
      && line.remise == SumCredit(rem) - SumDebit(rem)
      && line.provision == SumDebit(prov)
      && line.total == line.retour + line.remise + line.provision
  {
    var df := Normalize(pivot);
    TableLookup(RowsOf(df, Returns), Returns, k);
    TableLookup(RowsOf(df, Discounts), Discounts, k);
    TableLookup(RowsOf(df, Provisions), Provisions, k);
  }

  /**
   * The global totals: returns are net debit over all returns rows, discounts
   * net credit over all discount rows, provisions the debit of all provision
   * rows (rows without an analytic code left out, as the group-by drops them),
   * and the global impact is their sum.
   */
  lemma TotalsMatchRows(pivot: seq<Row>)
    requires Edition(pivot).Some?
    ensures var df := Normalize(pivot);
      var t := Edition(pivot).value.totals;
      var ret, rem, prov := Coded(RowsOf(df, Returns)), Coded(RowsOf(df, Discounts)), Coded(RowsOf(df, Provisions));
      && t.retours == SumDebit(ret) - SumCredit(ret)
      && t.remises == SumCredit(rem) - SumDebit(rem)
      && t.provisions == SumDebit(prov)
      && t.impact == t.retours + t.remises + t.provisions
  {
    var df := Normalize(pivot);
    SynthesisTotals(Table(df, Returns), Table(df, Discounts), Table(df, Provisions));
    GroupingPreservesTotal(RowsOf(df, Returns), Returns);
    GroupingPreservesTotal(RowsOf(df, Discounts), Discounts);
    GroupingPreservesTotal(RowsOf(df, Provisions), Provisions);
  }
}
