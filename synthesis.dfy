/**
 * The returns edition page: per analytic code, the net amount of returns
 * (accounts 709000…), of bookseller discounts (709100…) and of provisions on
 * returns (681…), merged into one synthesis table with `Total_impact`, and
 * the global totals of its columns.
 */
module Synthesis {
  import opened Wrappers
  import opened Accounts
  import opened Pivot
  import opened ColumnSums

  /** One line of the synthesis table (after `fillna(0)` and the `Total_impact` column). */
  datatype Line = Line(retour: int, remise: int, provision: int, total: int)

  /** The global totals table. */
  datatype Totals = Totals(retours: int, remises: int, provisions: int, impact: int)

  /** What the page shows when there is something to show. */
  datatype Report = Report(synthesis: map<string, Line>, totals: Totals)

  // ---------------------------------------------------------------------------
  // Signed balance per analytic code
  // ---------------------------------------------------------------------------

  /**
   * The amount of one category for one analytic code, from its summed debit and
   * credit: returns are net debit, discounts net credit, provisions the debit alone.
   */
  function Montant(c: Category, s: Sums): int {
    match c
    case Returns => s.debit - s.credit
    case Discounts => s.credit - s.debit
    case Provisions => s.debit
  }

  /** The `Montant_…` column of a group-by table. */
  function Amounts(c: Category, g: map<string, Sums>): (t: map<string, int>)
    ensures t.Keys == g.Keys
  {
    map k | k in g :: Montant(c, g[k])
  }

  /** The per-code table of category `c` (`ret_isbn`, `rem_isbn`, `prov_isbn`). */
  function Table(df: seq<Entry>, c: Category): map<string, int> {
    Amounts(c, GroupSums(RowsOf(df, c)))
  }

  // ---------------------------------------------------------------------------
  // Outer merges into the synthesis table
  // ---------------------------------------------------------------------------

  /** A line of `df_indic` while the merges run: a component not yet known is NaN (`None`). */
  datatype Partial = Partial(retour: Option<int>, remise: Option<int>, provision: Option<int>)

  function Component(p: Partial, c: Category): Option<int> {
    match c
    case Returns => p.retour
    case Discounts => p.remise
    case Provisions => p.provision
  }

  function WithComponent(p: Partial, c: Category, v: Option<int>): (q: Partial)
    ensures Component(q, c) == v
    ensures forall c' :: c' != c ==> Component(q, c') == Component(p, c')
  {
    match c
    case Returns => p.(retour := v)
    case Discounts => p.(remise := v)
    case Provisions => p.(provision := v)
  }

  /**
   * `pd.merge(indic, t, on="Code_Analytique", how="outer")` where `t` brings the
   * column of category `c`: every code of either side gets a line, and a side
   * that lacks the code leaves its columns NaN there.
   */
  function OuterMerge(indic: map<string, Partial>, c: Category, t: map<string, int>): (m: map<string, Partial>)
    ensures m.Keys == indic.Keys + t.Keys
    ensures forall k :: k in m ==> Component(m[k], c) == (if k in t then Some(t[k]) else None)
    ensures forall k, c' :: k in m && c' != c ==>
      Component(m[k], c') == (if k in indic then Component(indic[k], c') else None)
  {
    map k | k in indic.Keys + t.Keys ::
      WithComponent(if k in indic then indic[k] else Partial(None, None, None), c, if k in t then Some(t[k]) else None)
  }

  /** `fillna(0)` on one line, then its `Total_impact`. */
  function FillAndTotal(p: Partial): (l: Line)
    ensures l.retour == p.retour.GetOr(0) && l.remise == p.remise.GetOr(0) && l.provision == p.provision.GetOr(0)
    ensures l.total == l.retour + l.remise + l.provision
  {
    var r, m, v := p.retour.GetOr(0), p.remise.GetOr(0), p.provision.GetOr(0);
    Line(r, m, v, r + m + v)
  }

  /**
   * The synthesis the merges are meant to produce: one line per code present in
   * any of the three tables, each component that table's amount or 0, and the
   * total their sum.
   */
  function Synthesize(ret: map<string, int>, rem: map<string, int>, prov: map<string, int>): map<string, Line> {
    map k | k in ret.Keys + rem.Keys + prov.Keys ::
      var r, m, v := Lookup(ret, k), Lookup(rem, k), Lookup(prov, k);
      Line(r, m, v, r + m + v)
  }

  // ---------------------------------------------------------------------------
  // Global totals
  // ---------------------------------------------------------------------------

  datatype Col = Retour | Remise | Provision | Impact

  function Pick(l: Line, col: Col): int {
    match col
    case Retour => l.retour
    case Remise => l.remise
    case Provision => l.provision
    case Impact => l.total
  }

  /** One column of the synthesis table. */
  function Column(s: map<string, Line>, col: Col): (m: map<string, int>)
    ensures m.Keys == s.Keys
  {
    map k | k in s :: Pick(s[k], col)
  }

  /** The column sums of a synthesis table. */
  ghost function ColumnTotals(s: map<string, Line>): Totals {
    Totals(SumValues(Column(s, Retour)), SumValues(Column(s, Remise)),
           SumValues(Column(s, Provision)), SumValues(Column(s, Impact)))
  }

  function AddLine(t: Totals, l: Line): Totals {
    Totals(t.retours + l.retour, t.remises + l.remise, t.provisions + l.provision, t.impact + l.total)
  }

  /** Adding a line for a new code adds that line to every total. */
  lemma ColumnTotalsInsert(s: map<string, Line>, k: string, l: Line)
    requires k !in s
    ensures ColumnTotals(s[k := l]) == AddLine(ColumnTotals(s), l)
  {
    ColumnInsert(s, k, l, Retour);
    ColumnInsert(s, k, l, Remise);
    ColumnInsert(s, k, l, Provision);
    ColumnInsert(s, k, l, Impact);
  }

  lemma ColumnInsert(s: map<string, Line>, k: string, l: Line, col: Col)
    requires k !in s
    ensures SumValues(Column(s[k := l], col)) == SumValues(Column(s, col)) + Pick(l, col)
  {
    assert Column(s[k := l], col) == Column(s, col)[k := Pick(l, col)];
    SumValuesUpdate(Column(s, col), k, Pick(l, col));
  }

  /** The totals table, summing the synthesis one code at a time. */
  method SumColumns(s: map<string, Line>) returns (t: Totals)
    ensures t == ColumnTotals(s)
  {
    t := Totals(0, 0, 0, 0);
    var todo := s.Keys;
    ghost var done: map<string, Line> := map[];
    assert ColumnTotals(done) == t by {
      forall col: Col ensures Column(done, col) == map[] { }
    }
    while todo != {}
      invariant todo !! done.Keys && todo + done.Keys == s.Keys
      invariant forall k :: k in done ==> k in s && done[k] == s[k]
      invariant t == ColumnTotals(done)
      decreases todo
    {
      var k :| k in todo;
      ColumnTotalsInsert(done, k, s[k]);
      t := AddLine(t, s[k]);
      done := done[k := s[k]];
      todo := todo - {k};
    }
    assert done == s;
  }

  /** In a table whose every line has `total == retour + remise + provision`, the totals add up the same way. */
  lemma {:induction false} ImpactIsSumOfTotals(s: map<string, Line>)
    requires forall k :: k in s ==> s[k].total == s[k].retour + s[k].remise + s[k].provision
    ensures ColumnTotals(s).impact == ColumnTotals(s).retours + ColumnTotals(s).remises + ColumnTotals(s).provisions
    decreases |s|
  {
    if s != map[] {
      var k :| k in s;
      var rest := s - {k};
      assert |rest| < |s| by {
        assert rest.Keys == s.Keys - {k};
      }
      ImpactIsSumOfTotals(rest);
      ColumnTotalsInsert(rest, k, s[k]);
      assert rest[k := s[k]] == s;
    } else {
      forall col: Col ensures Column(s, col) == map[] { }
    }
  }

  /** The column totals of a synthesis are the sums of the three tables it was built from. */
  lemma SynthesisTotals(ret: map<string, int>, rem: map<string, int>, prov: map<string, int>)
    ensures var t := ColumnTotals(Synthesize(ret, rem, prov));
      && t.retours == SumValues(ret) && t.remises == SumValues(rem) && t.provisions == SumValues(prov)
      && t.impact == t.retours + t.remises + t.provisions
  {
    var s := Synthesize(ret, rem, prov);
    var keys := ret.Keys + rem.Keys + prov.Keys;
    assert Column(s, Retour) == Padded(ret, keys);
    assert Column(s, Remise) == Padded(rem, keys);
    assert Column(s, Provision) == Padded(prov, keys);
    SumValuesPadded(ret, keys);
    SumValuesPadded(rem, keys);
    SumValuesPadded(prov, keys);
    ImpactIsSumOfTotals(s);
  }

  // ---------------------------------------------------------------------------
  // Grouping preserves totals
  // ---------------------------------------------------------------------------

  /** Each category's amount is additive in the debit and credit it is computed from. */
  lemma MontantAdd(c: Category, a: Sums, b: Sums)
    ensures Montant(c, Sums(a.debit + b.debit, a.credit + b.credit)) == Montant(c, a) + Montant(c, b)
  {
  }

  /** Changing the sums of one code changes the sum of the per-code amounts by the difference. */
  lemma AmountsUpdate(c: Category, g: map<string, Sums>, k: string, s': Sums)
    ensures SumValues(Amounts(c, g[k := s'])) == SumValues(Amounts(c, g)) - Lookup(Amounts(c, g), k) + Montant(c, s')
  {
    assert Amounts(c, g[k := s']) == Amounts(c, g)[k := Montant(c, s')];
    SumValuesUpdate(Amounts(c, g), k, Montant(c, s'));
  }

  /** Folding in one row adds that row's amount to the sum of the per-code amounts. */
  lemma AddRowTotal(c: Category, g: map<string, Sums>, e: Entry)
    ensures SumValues(Amounts(c, AddRow(g, e)))
         == SumValues(Amounts(c, g)) + (if e.code.Some? then Montant(c, Sums(e.debit, e.credit)) else 0)
  {
    if e.code.Some? {
      var k := e.code.value;
      var s := if k in g then g[k] else Sums(0, 0);
      assert AddRow(g, e) == g[k := Plus(s, e)];
      AmountsUpdate(c, g, k, Plus(s, e));
      MontantAdd(c, s, Sums(e.debit, e.credit));
    }
  }

  lemma {:induction false} GroupedTotal(rows: seq<Entry>, c: Category)
    ensures SumValues(Amounts(c, Grouped(rows))) == Montant(c, Sums(SumDebit(Coded(rows)), SumCredit(Coded(rows))))
  {
    if rows == [] {
      assert Amounts(c, Grouped(rows)) == map[];
    } else {
      var init, e := rows[..|rows| - 1], rows[|rows| - 1];
      assert rows == init + [e];
      GroupedTotal(init, c);
      assert Grouped(rows) == AddRow(Grouped(init), e);
      AddRowTotal(c, Grouped(init), e);
      SumsSnoc(init, e);
      var coded := Coded(init);
      if e.code.Some? {
        assert Coded(rows) == coded + [e];
        SumsSnoc(coded, e);
        MontantAdd(c, Sums(SumDebit(coded), SumCredit(coded)), Sums(e.debit, e.credit));
      } else {
        assert Coded(rows) == coded;
      }
    }
  }

  /**
   * Summing a category's per-code amounts gives the category's amount over all
   * its rows that carry an analytic code: the group-by neither loses nor
   * double-counts a row.
   */
  lemma GroupingPreservesTotal(rows: seq<Entry>, c: Category)
    ensures SumValues(Amounts(c, GroupSums(rows))) == Montant(c, Sums(SumDebit(Coded(rows)), SumCredit(Coded(rows))))
  {
    GroupedTotal(rows, c);
    GroupedIsGroupSums(rows);
  }

  /** A category's table gives each code the category's amount over that code's rows, and 0 to a code without rows. */
  lemma TableLookup(rows: seq<Entry>, c: Category, k: string)
    ensures Lookup(Amounts(c, GroupSums(rows)), k) == Montant(c, CodeSums(rows, k))
  {
    CodesExist(rows, k);
  }

  // ---------------------------------------------------------------------------
  // The page
  // ---------------------------------------------------------------------------

  /**
   * What the returns edition page shows for a pivot table: nothing when there is
   * neither a returns row nor a discount row, otherwise the synthesis of the
   * three per-code tables and its column totals.
   */
  ghost function Edition(pivot: seq<Row>): Option<Report> {
    var df := Normalize(pivot);
    if RowsOf(df, Returns) == [] && RowsOf(df, Discounts) == [] then None
    else
      var synthesis := Synthesize(Table(df, Returns), Table(df, Discounts), Table(df, Provisions));
      Some(Report(synthesis, ColumnTotals(synthesis)))
  }

  /** A category's table lists exactly the analytic codes of that category's rows. */
  lemma TableKeys(df: seq<Entry>, c: Category, k: string)
    ensures k in Table(df, c) <==> k in Codes(RowsOf(df, c))
  {
    assert Table(df, c).Keys == GroupSums(RowsOf(df, c)).Keys;
  }

  lemma EmptyTable(df: seq<Entry>, c: Category)
    requires RowsOf(df, c) == []
    ensures Table(df, c) == map[]
  {
    assert GroupSums(RowsOf(df, c)) == map[];
  }

  /**
   * `test.py`, lines 71-77: start from the returns table (or an empty frame),
   * outer-merge the discounts and provisions tables when their categories have
   * rows, fill the gaps with 0 and add `Total_impact`. A table whose merge is
   * skipped is empty, so the result is the synthesis of the three tables.
   */
  method MergeTables(retIsbn: map<string, int>, remIsbn: map<string, int>, provIsbn: map<string, int>,
                     hasRet: bool, hasRemises: bool, hasProv: bool)
    returns (synthesis: map<string, Line>)
    requires !hasRet ==> retIsbn == map[]
    requires !hasRemises ==> remIsbn == map[]
    requires !hasProv ==> provIsbn == map[]
    ensures synthesis == Synthesize(retIsbn, remIsbn, provIsbn)
  {
    var indic: map<string, Partial> := map[];
    if hasRet {
      indic := OuterMerge(indic, Returns, retIsbn);
      MergeKeeps(map[], Returns, retIsbn, Discounts, map[]);
      MergeKeeps(map[], Returns, retIsbn, Provisions, map[]);
    }
    assert Tracks(indic, Returns, retIsbn) && Tracks(indic, Discounts, map[]) && Tracks(indic, Provisions, map[]);
    assert indic.Keys == retIsbn.Keys;
    if hasRemises {
      ghost var before := indic;
      indic := OuterMerge(indic, Discounts, remIsbn);
      MergeKeeps(before, Discounts, remIsbn, Returns, retIsbn);
      MergeKeeps(before, Discounts, remIsbn, Provisions, map[]);
    }
    assert Tracks(indic, Returns, retIsbn) && Tracks(indic, Discounts, remIsbn) && Tracks(indic, Provisions, map[]);
    assert indic.Keys == retIsbn.Keys + remIsbn.Keys;
    if hasProv {
      ghost var before := indic;
      indic := OuterMerge(indic, Provisions, provIsbn);
      MergeKeeps(before, Provisions, provIsbn, Returns, retIsbn);
      MergeKeeps(before, Provisions, provIsbn, Discounts, remIsbn);
    }
    assert Tracks(indic, Returns, retIsbn) && Tracks(indic, Discounts, remIsbn) && Tracks(indic, Provisions, provIsbn);
    synthesis := map k | k in indic :: FillAndTotal(indic[k]);
    FilledIsSynthesis(indic, retIsbn, remIsbn, provIsbn);
  }

  /** Every line of `indic`, with NaN read as 0, holds the amount `t` gives its code in category `c`. */
  ghost predicate Tracks(indic: map<string, Partial>, c: Category, t: map<string, int>) {
    forall k :: k in indic ==> Component(indic[k], c).GetOr(0) == Lookup(t, k)
  }

  /** The merged table holds its own column, and a merge keeps the columns already there. */
  lemma MergeKeeps(indic: map<string, Partial>, c: Category, t: map<string, int>, c2: Category, t2: map<string, int>)
    requires c != c2 && Tracks(indic, c2, t2) && t2.Keys <= indic.Keys
    ensures Tracks(OuterMerge(indic, c, t), c, t)
    ensures Tracks(OuterMerge(indic, c, t), c2, t2)
  {
  }

  lemma FilledIsSynthesis(indic: map<string, Partial>, ret: map<string, int>, rem: map<string, int>, prov: map<string, int>)
    requires indic.Keys == ret.Keys + rem.Keys + prov.Keys
    requires Tracks(indic, Returns, ret) && Tracks(indic, Discounts, rem) && Tracks(indic, Provisions, prov)
    ensures (map k | k in indic :: FillAndTotal(indic[k])) == Synthesize(ret, rem, prov)
  {
    var filled := map k | k in indic :: FillAndTotal(indic[k]);
    var spec := Synthesize(ret, rem, prov);
    forall k | k in indic ensures filled[k] == spec[k] {
      assert Component(indic[k], Returns) == indic[k].retour;
      assert Component(indic[k], Discounts) == indic[k].remise;
      assert Component(indic[k], Provisions) == indic[k].provision;
    }
  }

  /**
   * The page body step by step: clean the frame, detect and select the rows of
   * each category, group each non-empty selection by analytic code, merge the
   * tables into `df_indic`, fill the gaps with 0, add `Total_impact`, sum the
   * columns.
   */
  method ReturnsEdition(pivot: seq<Row>) returns (report: Option<Report>)
    ensures report == Edition(pivot)
  {
    var df := Normalize(pivot);
    var dfRet := IsIn(df, DetectedAccounts(df, Returns));
    var dfRemises := IsIn(df, DetectedAccounts(df, Discounts));
    var dfProv := IsIn(df, DetectedAccounts(df, Provisions));
    DetectThenSelect(df, Returns);
    DetectThenSelect(df, Discounts);
    DetectThenSelect(df, Provisions);

    if dfRet != [] || dfRemises != [] {
      var retIsbn: map<string, int> := map[];
      if dfRet != [] {
        var g := GroupBy(dfRet);
        assert g == GroupSums(dfRet);
        retIsbn := Amounts(Returns, g);
      } else {
        EmptyTable(df, Returns);
      }
      var remIsbn: map<string, int> := map[];
      if dfRemises != [] {
        var g := GroupBy(dfRemises);
        assert g == GroupSums(dfRemises);
        remIsbn := Amounts(Discounts, g);
      } else {
        EmptyTable(df, Discounts);
      }
      var provIsbn: map<string, int> := map[];
      if dfProv != [] {
        var g := GroupBy(dfProv);
        assert g == GroupSums(dfProv);
        provIsbn := Amounts(Provisions, g);
      } else {
        EmptyTable(df, Provisions);
      }

      var synthesis := MergeTables(retIsbn, remIsbn, provIsbn, dfRet != [], dfRemises != [], dfProv != []);
      var totals := SumColumns(synthesis);
      report := Some(Report(synthesis, totals));
    } else {
      report := None;
    }
  }
}
