/**
 * The pivot table handed to the returns edition page: its rows, the cleaning
 * step that rewrites the `Compte`, `Débit` and `Crédit` columns, the
 * selection of the rows of one category, and the group-by on
 * `Code_Analytique` that sums debits and credits per analytic code (ISBN).
 * Amounts are exact integers (cents).
 */
module Pivot {
  import opened Wrappers
  import opened Accounts

  /** A row as it arrives: any cell may be missing, including the analytic code. */
  datatype Row = Row(compte: Cell, code: Option<string>, debit: Option<int>, credit: Option<int>)

  /** A row after cleaning: canonical account text and amounts with missing values as 0. */
  datatype Entry = Entry(account: string, code: Option<string>, debit: int, credit: int)

  /** Debit and credit summed over a group of rows. */
  datatype Sums = Sums(debit: int, credit: int)

  // ---------------------------------------------------------------------------
  // Cleaning the Compte, Débit and Crédit columns
  // ---------------------------------------------------------------------------

  function Clean(r: Row): Entry {
    Entry(NormalizeCompte(r.compte), r.code, r.debit.GetOr(0), r.credit.GetOr(0))
  }

  /**
   * The frame after its three columns are overwritten: row for row, the account
   * is normalised, the analytic code is kept, and a missing amount becomes 0.
   */
  function Normalize(pivot: seq<Row>): (df: seq<Entry>)
    ensures |df| == |pivot|
    ensures forall i :: 0 <= i < |pivot| ==> df[i] == Clean(pivot[i])
  {
    seq(|pivot|, i requires 0 <= i < |pivot| => Clean(pivot[i]))
  }

  /** A cleaned row with analytic code `k` and some category comes from a pivot row with that code and category. */
  lemma CodedRowOrigin(pivot: seq<Row>, k: string)
    ensures (exists e :: e in Normalize(pivot) && e.code == Some(k) && CategoryOf(e).Some?) <==>
      exists i :: 0 <= i < |pivot| && pivot[i].code == Some(k) && Classify(NormalizeCompte(pivot[i].compte)).Some?
  {
    var df := Normalize(pivot);
    if exists e :: e in df && e.code == Some(k) && CategoryOf(e).Some? {
      var e :| e in df && e.code == Some(k) && CategoryOf(e).Some?;
      var i :| 0 <= i < |df| && df[i] == e;
      assert e == Clean(pivot[i]);
    }
    if exists i :: 0 <= i < |pivot| && pivot[i].code == Some(k) && Classify(NormalizeCompte(pivot[i].compte)).Some? {
      var i :| 0 <= i < |pivot| && pivot[i].code == Some(k) && Classify(NormalizeCompte(pivot[i].compte)).Some?;
      assert df[i] in df;
    }
  }

  /** A missing debit or credit contributes 0, a present one its own value. */
  lemma MissingAmountIsZero(pivot: seq<Row>, i: nat)
    requires i < |pivot|
    ensures pivot[i].debit.None? ==> Normalize(pivot)[i].debit == 0
    ensures pivot[i].credit.None? ==> Normalize(pivot)[i].credit == 0
    ensures pivot[i].debit.Some? ==> Normalize(pivot)[i].debit == pivot[i].debit.value
    ensures pivot[i].credit.Some? ==> Normalize(pivot)[i].credit == pivot[i].credit.value
  {
  }

  // ---------------------------------------------------------------------------
  // Selecting the rows of a category
  // ---------------------------------------------------------------------------

  /** The distinct accounts of the frame that start with the category's prefix. */
  function DetectedAccounts(df: seq<Entry>, c: Category): (accounts: set<string>)
    ensures forall a :: a in accounts <==>
      StartsWith(a, Prefix(c)) && exists i :: 0 <= i < |df| && df[i].account == a
  {
    set e | e in df && StartsWith(e.account, Prefix(c)) :: e.account
  }

  /** The rows whose account is one of `accounts`, in frame order (pandas' `isin` mask). */
  function IsIn(df: seq<Entry>, accounts: set<string>): seq<Entry> {
    if df == [] then []
    else
      var last := df[|df| - 1];
      IsIn(df[..|df| - 1], accounts) + (if last.account in accounts then [last] else [])
  }

  /** The category a cleaned row belongs to, by the prefix of its account. */
  function CategoryOf(e: Entry): Option<Category> {
    Classify(e.account)
  }

  /** The rows of category `c`, in frame order. */
  function RowsOf(df: seq<Entry>, c: Category): seq<Entry> {
    if df == [] then []
    else
      var last := df[|df| - 1];
      RowsOf(df[..|df| - 1], c) + (if CategoryOf(last) == Some(c) then [last] else [])
  }

  /** The rows no category claims. */
  function Unclassified(df: seq<Entry>): seq<Entry> {
    if df == [] then []
    else
      var last := df[|df| - 1];
      Unclassified(df[..|df| - 1]) + (if CategoryOf(last).None? then [last] else [])
  }

  lemma {:induction false} IsInAgrees(df: seq<Entry>, accounts: set<string>, c: Category)
    requires forall i :: 0 <= i < |df| ==> (df[i].account in accounts <==> CategoryOf(df[i]) == Some(c))
    ensures IsIn(df, accounts) == RowsOf(df, c)
  {
    if df != [] {
      IsInAgrees(df[..|df| - 1], accounts, c);
    }
  }

  /**
   * Detecting the accounts of a category and then keeping the rows whose
   * account was detected selects exactly the rows whose account has the
   * category's prefix.
   */
  lemma DetectThenSelect(df: seq<Entry>, c: Category)
    ensures IsIn(df, DetectedAccounts(df, c)) == RowsOf(df, c)
  {
    var accounts := DetectedAccounts(df, c);
    forall i | 0 <= i < |df| ensures df[i].account in accounts <==> CategoryOf(df[i]) == Some(c) {
      assert StartsWith(df[i].account, Prefix(c)) <==> Classify(df[i].account) == Some(c);
    }
    IsInAgrees(df, accounts, c);
  }

  /** A category has rows exactly when some account of the frame has its prefix. */
  lemma {:induction false} RowsOfEmpty(df: seq<Entry>, c: Category)
    ensures RowsOf(df, c) == [] <==> forall i :: 0 <= i < |df| ==> !StartsWith(df[i].account, Prefix(c))
  {
    if df != [] {
      var init := df[..|df| - 1];
      RowsOfEmpty(init, c);
      assert forall i :: 0 <= i < |init| ==> init[i] == df[i];
      var a := df[|df| - 1].account;
      assert StartsWith(a, Prefix(c)) <==> Classify(a) == Some(c);
    }
  }

  /** The last row of the frame adds itself to the one selection that claims it, and to no other. */
  lemma SelectionsSnoc(df: seq<Entry>)
    requires df != []
    ensures var init, last := df[..|df| - 1], df[|df| - 1];
      var one, none := multiset{last}, multiset{};
      var k := CategoryOf(last);
      && multiset(RowsOf(df, Returns)) == multiset(RowsOf(init, Returns)) + (if k == Some(Returns) then one else none)
      && multiset(RowsOf(df, Discounts)) == multiset(RowsOf(init, Discounts)) + (if k == Some(Discounts) then one else none)
      && multiset(RowsOf(df, Provisions)) == multiset(RowsOf(init, Provisions)) + (if k == Some(Provisions) then one else none)
      && multiset(Unclassified(df)) == multiset(Unclassified(init)) + (if k == None then one else none)
      && multiset(df) == multiset(init) + one
  {
    assert df == df[..|df| - 1] + [df[|df| - 1]];
  }

  /**
   * The three categories and the unclassified rows partition the frame: every
   * row lands in exactly one of the four selections.
   */
  lemma {:induction false} CategoriesPartition(df: seq<Entry>)
    ensures multiset(RowsOf(df, Returns)) + multiset(RowsOf(df, Discounts))
          + multiset(RowsOf(df, Provisions)) + multiset(Unclassified(df)) == multiset(df)
  {
    if df != [] {
      CategoriesPartition(df[..|df| - 1]);
      SelectionsSnoc(df);
    }
  }

  // ---------------------------------------------------------------------------
  // Sums and group-by on the analytic code
  // ---------------------------------------------------------------------------

  function SumDebit(rows: seq<Entry>): int {
    if rows == [] then 0 else SumDebit(rows[..|rows| - 1]) + rows[|rows| - 1].debit
  }

  function SumCredit(rows: seq<Entry>): int {
    if rows == [] then 0 else SumCredit(rows[..|rows| - 1]) + rows[|rows| - 1].credit
  }

  /** The rows of analytic code `k`, in frame order. */
  function CodeRows(rows: seq<Entry>, k: string): seq<Entry> {
    if rows == [] then []
    else
      var last := rows[|rows| - 1];
      CodeRows(rows[..|rows| - 1], k) + (if last.code == Some(k) then [last] else [])
  }

  /** The rows that carry an analytic code (pandas' group-by drops the others). */
  function Coded(rows: seq<Entry>): seq<Entry> {
    if rows == [] then []
    else
      var last := rows[|rows| - 1];
      Coded(rows[..|rows| - 1]) + (if last.code.Some? then [last] else [])
  }

  /** The analytic codes present in the rows. */
  function Codes(rows: seq<Entry>): set<string> {
    if rows == [] then {}
    else
      var last := rows[|rows| - 1];
      Codes(rows[..|rows| - 1]) + (if last.code.Some? then {last.code.value} else {})
  }

  /**
   * The group-by table: one entry per analytic code present, holding the sums
   * of debit and credit over the rows of that code.
   */
  function GroupSums(rows: seq<Entry>): map<string, Sums> {
    map k | k in Codes(rows) :: CodeSums(rows, k)
  }

  /** The debit and credit sums over the rows of analytic code `k`. */
  function CodeSums(rows: seq<Entry>, k: string): Sums {
    Sums(SumDebit(CodeRows(rows, k)), SumCredit(CodeRows(rows, k)))
  }

  /** A row's amounts added to running sums. */
  function Plus(s: Sums, e: Entry): Sums {
    Sums(s.debit + e.debit, s.credit + e.credit)
  }

  /** A code is present exactly when some row carries it, and a code that is absent has no rows. */
  lemma {:induction false} CodesExist(rows: seq<Entry>, k: string)
    ensures k in Codes(rows) <==> exists e :: e in rows && e.code == Some(k)
    ensures k !in Codes(rows) ==> CodeRows(rows, k) == []
  {
    if rows != [] {
      var init, last := rows[..|rows| - 1], rows[|rows| - 1];
      CodesExist(init, k);
      assert rows == init + [last];
    }
  }

  /** A row is selected for a category exactly when it is in the frame and has that category. */
  lemma {:induction false} InRowsOf(df: seq<Entry>, c: Category)
    ensures forall e :: e in RowsOf(df, c) <==> e in df && CategoryOf(e) == Some(c)
  {
    if df != [] {
      var init, last := df[..|df| - 1], df[|df| - 1];
      InRowsOf(init, c);
      assert df == init + [last];
    }
  }

  /** A code appears among a category's rows exactly when a row of that category carries it. */
  lemma RowsOfCodes(df: seq<Entry>, c: Category, k: string)
    ensures k in Codes(RowsOf(df, c)) <==> exists e :: e in df && e.code == Some(k) && CategoryOf(e) == Some(c)
  {
    CodesExist(RowsOf(df, c), k);
    InRowsOf(df, c);
  }

  lemma SumsSnoc(rows: seq<Entry>, e: Entry)
    ensures SumDebit(rows + [e]) == SumDebit(rows) + e.debit
    ensures SumCredit(rows + [e]) == SumCredit(rows) + e.credit
    ensures Codes(rows + [e]) == Codes(rows) + (if e.code.Some? then {e.code.value} else {})
    ensures Coded(rows + [e]) == Coded(rows) + (if e.code.Some? then [e] else [])
  {
    assert (rows + [e])[..|rows|] == rows;
  }

  /** The sums of one code over a frame and over the frame without its last row: the last row counts only toward its own code. */
  lemma CodeSumsLast(rows: seq<Entry>, k: string)
    requires rows != []
    ensures var init, e := rows[..|rows| - 1], rows[|rows| - 1];
      CodeSums(rows, k) == if e.code == Some(k) then Plus(CodeSums(init, k), e) else CodeSums(init, k)
  {
    var init, e := rows[..|rows| - 1], rows[|rows| - 1];
    if e.code == Some(k) {
      assert CodeRows(rows, k) == CodeRows(init, k) + [e];
      SumsSnoc(CodeRows(init, k), e);
    } else {
      assert CodeRows(init, k) + [] == CodeRows(init, k);
      assert CodeRows(rows, k) == CodeRows(init, k);
    }
  }

  /** One row folded into a group-by table: only the entry of the row's own code changes. */
  function AddRow(g: map<string, Sums>, e: Entry): map<string, Sums> {
    match e.code
    case None => g
    case Some(k) => g[k := Plus(if k in g then g[k] else Sums(0, 0), e)]
  }

  /** The group-by table of a frame is that of the frame without its last row, with the last row added in. */
  lemma GroupSumsLast(rows: seq<Entry>)
    requires rows != []
    ensures GroupSums(rows) == AddRow(GroupSums(rows[..|rows| - 1]), rows[|rows| - 1])
  {
    var init, e := rows[..|rows| - 1], rows[|rows| - 1];
    var g, g' := GroupSums(init), GroupSums(rows);
    var a := AddRow(g, e);
    assert Codes(rows) == Codes(init) + (if e.code.Some? then {e.code.value} else {});
    assert g'.Keys == a.Keys;
    forall j | j in g' ensures g'[j] == a[j] {
      CodeSumsLast(rows, j);
      if e.code == Some(j) && j !in g {
        CodesExist(init, j);
      }
    }
  }

  /** The rows folded one at a time into an empty table, in frame order. */
  function Grouped(rows: seq<Entry>): map<string, Sums> {
    if rows == [] then map[] else AddRow(Grouped(rows[..|rows| - 1]), rows[|rows| - 1])
  }

  /** Folding the rows one at a time builds the group-by table. */
  lemma {:induction false} GroupedIsGroupSums(rows: seq<Entry>)
    ensures Grouped(rows) == GroupSums(rows)
  {
    if rows == [] {
      assert GroupSums(rows) == map[];
    } else {
      GroupedIsGroupSums(rows[..|rows| - 1]);
      GroupSumsLast(rows);
    }
  }

  /** pandas' `groupby("Code_Analytique").agg({"Débit": "sum", "Crédit": "sum"})`, one row at a time. */
  method GroupBy(rows: seq<Entry>) returns (g: map<string, Sums>)
    ensures g.Keys == Codes(rows)
    ensures forall k :: k in g ==> g[k] == CodeSums(rows, k)
  {
    g := map[];
    for i := 0 to |rows|
      invariant g == Grouped(rows[..i])
    {
      var e := rows[i];
      assert rows[..i + 1][..i] == rows[..i];
      if e.code.Some? {
        var k := e.code.value;
        var s := if k in g then g[k] else Sums(0, 0);
        g := g[k := Sums(s.debit + e.debit, s.credit + e.credit)];
      }
    }
    assert rows[..|rows|] == rows;
    GroupedIsGroupSums(rows);
  }
}
