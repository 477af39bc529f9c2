/**
 The pages of the rankings. Each request sorts and cuts anew, and the database may order equal keys as it likes.
 */
module HolderPages {
  import opened Decimals
  import opened SortKeys

  /** Of a stored balance only its holder and value matter here. */
  datatype Row = Row(holder: nat, balance: nat)

  /** What the sort stage of the holder listing may return: the matching rows, by descending keys. */
  ghost predicate Ranked(rows: seq<Row>, sorted: seq<Row>) {
    && multiset(sorted) == multiset(rows)
    && forall i: nat, j: nat {:trigger sorted[i], sorted[j]} :: i < j < |sorted| ==>
         var s, t := Decimal(sorted[i].balance), Decimal(sorted[j].balance);
         !KeyLess(|s|, s, |t|, t)
  }

  /** The skip and limit stages. */
  function Page<T>(rows: seq<T>, page: nat, limit: nat): seq<T> {
    var from := limit * page;
    if |rows| <= from then [] else if |rows| - from < limit then rows[from..] else rows[from..from + limit]
  }

  /** Where a row of a page is in the whole listing. */
  lemma PageAt<T>(rows: seq<T>, page: nat, limit: nat, i: nat) returns (k: nat)
    requires i < |Page(rows, page, limit)|
    ensures limit * page <= k < limit * page + limit && k < |rows| && Page(rows, page, limit)[i] == rows[k]
  {
    k := limit * page + i;
  }

  /** The page that place `k` of a listing is on: k / limit. */
  function PageOf(k: nat, limit: nat): nat
    requires limit > 0
  {
    if k < limit then 0 else 1 + PageOf(k - limit, limit)
  }

  lemma {:induction false} PlaceOfPage(k: nat, limit: nat)
    requires limit > 0
    ensures limit * PageOf(k, limit) <= k < limit * PageOf(k, limit) + limit
  {
    if k >= limit {
      PlaceOfPage(k - limit, limit);
      assert limit * (1 + PageOf(k - limit, limit)) == limit + limit * PageOf(k - limit, limit);
    }
  }

  /** Every row is on the page of its place. */
  lemma PagesCover<T>(rows: seq<T>, limit: nat, k: nat)
    requires limit > 0 && k < |rows|
    ensures rows[k] in Page(rows, PageOf(k, limit), limit)
  {
    PlaceOfPage(k, limit);
    var i := k - limit * PageOf(k, limit);
    assert Page(rows, PageOf(k, limit), limit)[i] == rows[k];
  }

  lemma LaterPage(limit: nat, p: nat, q: nat)
    requires p < q
    ensures limit * p + limit <= limit * q
  {
    assert limit * q == limit * p + limit * (q - p);
    AtMost(1, q - p, limit);
  }

  /** Every request sorts anew, and ties may fall otherwise. Still no balance on a later page of one sorting is
      larger than one on an earlier page of another. */
  lemma PagesRankHolders(rows: seq<Row>, sorted: seq<Row>, again: seq<Row>, limit: nat, p: nat, q: nat)
    requires Ranked(rows, sorted) && Ranked(rows, again) && p < q
    ensures forall i: nat, j: nat :: i < |Page(sorted, p, limit)| && j < |Page(again, q, limit)| ==>
              Page(sorted, p, limit)[i].balance >= Page(again, q, limit)[j].balance
  {
    var earlier, later := Page(sorted, p, limit), Page(again, q, limit);
    LaterPage(limit, p, q);
    forall i: nat, j: nat | i < |earlier| && j < |later|
      ensures earlier[i].balance >= later[j].balance
    {
      var k := PageAt(sorted, p, limit, i);
      var l := PageAt(again, q, limit, j);
      SameRank(rows, sorted, again, l);
      RankedPair(rows, sorted, k, l);
    }
  }

  // ---------------------------------------------------------------------------
  // One listing, sorted twice
  // ---------------------------------------------------------------------------

  /** How many balances are larger. */
  function Above(sorted: seq<Row>, bound: nat): nat {
    if sorted == [] then 0
    else Above(sorted[..|sorted| - 1], bound) + if sorted[|sorted| - 1].balance > bound then 1 else 0
  }

  lemma {:induction false} AboveAppend(a: seq<Row>, b: seq<Row>, bound: nat)
    ensures Above(a + b, bound) == Above(a, bound) + Above(b, bound)
  {
    if b == [] {
      assert a + b == a;
    } else {
      assert (a + b)[..|a + b| - 1] == a + b[..|b| - 1];
      AboveAppend(a, b[..|b| - 1], bound);
    }
  }

  predicate AllAbove(s: seq<Row>, bound: nat) {
    forall i: nat :: i < |s| ==> s[i].balance > bound
  }

  predicate NoneAbove(s: seq<Row>, bound: nat) {
    forall i: nat :: i < |s| ==> s[i].balance <= bound
  }

  lemma {:induction false} AboveBounds(s: seq<Row>, bound: nat)
    ensures AllAbove(s, bound) ==> Above(s, bound) == |s|
    ensures NoneAbove(s, bound) ==> Above(s, bound) == 0
    ensures Above(s, bound) <= |s|
  {
    if s != [] {
      AboveBounds(s[..|s| - 1], bound);
    }
  }

  lemma {:induction false} AboveIgnoresOrder(s: seq<Row>, t: seq<Row>, bound: nat)
    requires multiset(s) == multiset(t)
    ensures Above(s, bound) == Above(t, bound) && |s| == |t|
  {
    if s == [] {
      assert |multiset(t)| == 0;
    } else {
      var n := |s| - 1;
      var k := IndexOf(t, s[n], multiset(s));
      var rest := t[..k] + t[k + 1..];
      assert s == s[..n] + [s[n]] && t == t[..k] + [s[n]] + t[k + 1..];
      TakeOut(s[..n], s[n], t[..k], t[k + 1..]);
      AboveIgnoresOrder(s[..n], rest, bound);
      AboveAppend(t[..k], t[k + 1..], bound);
      AboveAppend(t[..k], [s[n]], bound);
      AboveAppend(t[..k] + [s[n]], t[k + 1..], bound);
    }
  }

  lemma TakeOut(s: seq<Row>, x: Row, a: seq<Row>, b: seq<Row>)
    requires multiset(s + [x]) == multiset(a + [x] + b)
    ensures multiset(s) == multiset(a + b)
  {
    assert multiset(s + [x]) == multiset(s) + multiset{x};
    assert multiset(a + [x] + b) == multiset(a + b) + multiset{x};
    forall y
      ensures multiset(s)[y] == multiset(a + b)[y]
    {
      assert (multiset(s) + multiset{x})[y] == (multiset(a + b) + multiset{x})[y];
    }
  }

  lemma IndexOf(t: seq<Row>, row: Row, rows: multiset<Row>) returns (k: nat)
    requires rows == multiset(t) && row in rows
    ensures k < |t| && t[k] == row
  {
    assert row in t;
    k :| k < |t| && t[k] == row;
  }

  /** Everything up to a place with a larger balance is larger. */
  lemma FrontAbove(rows: seq<Row>, b: seq<Row>, l: nat, bound: nat)
    requires Ranked(rows, b) && l < |b| && b[l].balance > bound
    ensures Above(b, bound) >= l + 1
  {
    FrontIsAbove(rows, b, l, bound);
    AboveBounds(b[..l + 1], bound);
    AboveAppend(b[..l + 1], b[l + 1..], bound);
    assert b == b[..l + 1] + b[l + 1..];
  }

  lemma FrontIsAbove(rows: seq<Row>, b: seq<Row>, l: nat, bound: nat)
    requires Ranked(rows, b) && l < |b| && b[l].balance > bound
    ensures AllAbove(b[..l + 1], bound)
  {
    var front := b[..l + 1];
    forall i: nat | i < |front|
      ensures front[i].balance > bound
    {
      if i < l {
        RankedPair(rows, b, i, l);
      }
    }
  }

  /** Nothing from a place on is larger than what is there. */
  lemma TailNotAbove(rows: seq<Row>, a: seq<Row>, l: nat)
    requires Ranked(rows, a) && l < |a|
    ensures Above(a, a[l].balance) <= l
  {
    TailIsNotAbove(rows, a, l);
    SplitAbove(a, l, a[l].balance);
  }

  lemma TailIsNotAbove(rows: seq<Row>, a: seq<Row>, l: nat)
    requires Ranked(rows, a) && l < |a|
    ensures NoneAbove(a[l..], a[l].balance)
  {
    var tail := a[l..];
    forall i: nat | i < |tail|
      ensures tail[i].balance <= a[l].balance
    {
      if i > 0 {
        RankedPair(rows, a, l, l + i);
      }
    }
  }

  lemma SplitAbove(a: seq<Row>, l: nat, bound: nat)
    requires l <= |a| && NoneAbove(a[l..], bound)
    ensures Above(a, bound) <= l
  {
    AboveBounds(a[l..], bound);
    AboveBounds(a[..l], bound);
    AboveAppend(a[..l], a[l..], bound);
    assert a == a[..l] + a[l..];
  }

  lemma NotLarger(rows: seq<Row>, a: seq<Row>, b: seq<Row>, l: nat)
    requires Ranked(rows, a) && Ranked(rows, b) && l < |a| && l < |b|
    ensures b[l].balance <= a[l].balance
  {
    AboveIgnoresOrder(a, b, a[l].balance);
    TailNotAbove(rows, a, l);
    if b[l].balance > a[l].balance {
      FrontAbove(rows, b, l, a[l].balance);
    }
  }

  /** Two sortings of the same rows have the same balance in every place. */
  lemma SameRank(rows: seq<Row>, a: seq<Row>, b: seq<Row>, l: nat)
    requires Ranked(rows, a) && Ranked(rows, b) && l < |b|
    ensures l < |a| && a[l].balance == b[l].balance
  {
    AboveIgnoresOrder(a, b, 0);
    NotLarger(rows, a, b, l);
    NotLarger(rows, b, a, l);
  }

  ghost predicate NoTies(rows: seq<Row>) {
    forall x, y :: x in rows && y in rows && x.balance == y.balance ==> x == y
  }

  /** There is only one way to sort exactly if no two holders have the same balance. */
  lemma OneSortingIff(rows: seq<Row>, sorted: seq<Row>)
    requires Ranked(rows, sorted)
    ensures (forall again :: Ranked(rows, again) ==> again == sorted) <==> NoTies(rows)
  {
    if NoTies(rows) {
      forall again | Ranked(rows, again)
        ensures again == sorted
      {
        NoTiesOneSorting(rows, sorted, again);
      }
    } else {
      var x, y :| x in rows && y in rows && x.balance == y.balance && x != y;
      var swapped := Swap(rows, sorted, x, y);
    }
  }

  lemma NoTiesOneSorting(rows: seq<Row>, sorted: seq<Row>, again: seq<Row>)
    requires Ranked(rows, sorted) && Ranked(rows, again) && NoTies(rows)
    ensures again == sorted
  {
    AboveIgnoresOrder(sorted, again, 0);
    forall l: nat | l < |again|
      ensures sorted[l] == again[l]
    {
      SameRank(rows, sorted, again, l);
      assert sorted[l] in multiset(rows) && again[l] in multiset(rows);
      assert sorted[l] in rows && again[l] in rows;
    }
  }

  lemma Swap(rows: seq<Row>, sorted: seq<Row>, x: Row, y: Row) returns (swapped: seq<Row>)
    requires Ranked(rows, sorted) && x in rows && y in rows && x.balance == y.balance && x != y
    ensures Ranked(rows, swapped) && swapped != sorted
  {
    assert x in multiset(rows) && y in multiset(rows);
    var i := IndexOf(sorted, x, multiset(rows));
    var j := IndexOf(sorted, y, multiset(rows));
    swapped := sorted[i := y][j := x];
    SwapKeepsRank(rows, sorted, i, j);
    assert swapped[i] != sorted[i];
  }

  /** Two rows with the same balance may change places. */
  lemma SwapKeepsRank(rows: seq<Row>, sorted: seq<Row>, i: nat, j: nat)
    requires Ranked(rows, sorted) && i < |sorted| && j < |sorted| && sorted[i].balance == sorted[j].balance
    ensures Ranked(rows, sorted[i := sorted[j]][j := sorted[i]])
  {
    var swapped := sorted[i := sorted[j]][j := sorted[i]];
    assert multiset(swapped) == multiset(sorted);
    forall k: nat | k < |sorted|
      ensures swapped[k].balance == sorted[k].balance
    {
    }
    forall k: nat, l: nat | k < l < |swapped|
      ensures var s, t := Decimal(swapped[k].balance), Decimal(swapped[l].balance); !KeyLess(|s|, s, |t|, t)
    {
      var s, t := Decimal(sorted[k].balance), Decimal(sorted[l].balance);
      assert !KeyLess(|s|, s, |t|, t);
    }
  }

  lemma RankedPair(rows: seq<Row>, sorted: seq<Row>, k: nat, l: nat)
    requires Ranked(rows, sorted) && k < l < |sorted|
    ensures sorted[k].balance >= sorted[l].balance
  {
    LengthThenStringIsNumeric(sorted[k].balance, sorted[l].balance);
  }

  // ---------------------------------------------------------------------------
  // Pages of different requests
  // ---------------------------------------------------------------------------

  /** A place within the skip and limit of a page is on that page. */
  lemma PlaceOnPage(limit: nat, p: nat, k: nat)
    requires limit > 0 && limit * p <= k < limit * p + limit
    ensures PageOf(k, limit) == p
  {
    var q := PageOf(k, limit);
    PlaceOfPage(k, limit);
    if q < p {
      LaterPage(limit, q, p);
    } else if p < q {
      LaterPage(limit, p, q);
    }
  }

  ghost predicate OnPage<T(!new)>(rows: seq<T>, limit: nat, p: nat, x: T)
    requires limit > 0
  {
    exists k: nat :: k < |rows| && PageOf(k, limit) == p && rows[k] == x
  }

  /** What skip and limit return are the rows whose places are on the page. */
  lemma PageHas<T(!new)>(rows: seq<T>, limit: nat, p: nat, x: T)
    requires limit > 0
    ensures x in Page(rows, p, limit) <==> OnPage(rows, limit, p, x)
  {
    if x in Page(rows, p, limit) {
      var i: nat :| i < |Page(rows, p, limit)| && Page(rows, p, limit)[i] == x;
      var k := PageAt(rows, p, limit, i);
      PlaceOnPage(limit, p, k);
    }
    if OnPage(rows, limit, p, x) {
      var k: nat :| k < |rows| && PageOf(k, limit) == p && rows[k] == x;
      PagesCover(rows, limit, k);
    }
  }

  /** Any two requests find the same rows on every page. */
  ghost predicate PagesFit(rows: seq<Row>, limit: nat) {
    forall a, b, p: nat, x {:trigger Ranked(rows, a), x in Page(b, p, limit)} ::
      Ranked(rows, a) && Ranked(rows, b) && x in Page(b, p, limit) ==> x in Page(a, p, limit)
  }

  /** Equal balances are on one page. */
  ghost predicate TiesTogether(sorted: seq<Row>, limit: nat)
    requires limit > 0
  {
    forall i: nat, j: nat {:trigger sorted[i], sorted[j]} ::
      i < j < |sorted| && sorted[i].balance == sorted[j].balance ==>
        PageOf(i, limit) == PageOf(j, limit)
  }

  /** A holder has one row. */
  ghost predicate Distinct(rows: seq<Row>) {
    forall x :: multiset(rows)[x] <= 1
  }

  lemma OnePlace(rows: seq<Row>, k: nat, l: nat)
    requires Distinct(rows) && k < l < |rows|
    ensures rows[k] != rows[l]
  {
    var a, b := rows[..l], rows[l..];
    assert rows == a + b && a[k] == rows[k] && b[0] == rows[l];
    assert multiset(rows) == multiset(a) + multiset(b);
    assert rows[k] in multiset(a) && rows[l] in multiset(b);
    assert multiset(rows)[rows[k]] <= 1;
  }

  lemma RowMoves(rows: seq<Row>, sorted: seq<Row>, a: seq<Row>, b: seq<Row>, limit: nat, k: nat)
    requires limit > 0 && Ranked(rows, sorted) && TiesTogether(sorted, limit)
    requires Ranked(rows, a) && Ranked(rows, b) && k < |b|
    ensures OnPage(a, limit, PageOf(k, limit), b[k])
  {
    assert b[k] in multiset(b);
    var l := IndexOf(a, b[k], multiset(rows));
    SameRank(rows, sorted, b, k);
    SameRank(rows, sorted, a, l);
    assert sorted[k].balance == sorted[l].balance;
  }

  lemma OnlyThere(rows: seq<Row>, limit: nat, p: nat, j: nat)
    requires limit > 0 && Distinct(rows) && j < |rows| && PageOf(j, limit) != p
    ensures !OnPage(rows, limit, p, rows[j])
  {
    if OnPage(rows, limit, p, rows[j]) {
      var k: nat :| k < |rows| && PageOf(k, limit) == p && rows[k] == rows[j];
      OnePlace(rows, if k < j then k else j, if k < j then j else k);
    }
  }

  lemma MissedRow(rows: seq<Row>, a: seq<Row>, b: seq<Row>, limit: nat, p: nat, x: Row)
    requires limit > 0 && Ranked(rows, a) && Ranked(rows, b) && OnPage(b, limit, p, x) && !OnPage(a, limit, p, x)
    ensures !PagesFit(rows, limit)
  {
    PageHas(a, limit, p, x);
    PageHas(b, limit, p, x);
  }

  lemma TieMoves(rows: seq<Row>, sorted: seq<Row>, limit: nat, i: nat, j: nat)
    requires limit > 0 && Ranked(rows, sorted) && Distinct(rows)
    requires i < j < |sorted| && sorted[i].balance == sorted[j].balance && PageOf(i, limit) != PageOf(j, limit)
    ensures !PagesFit(rows, limit)
  {
    var swapped := sorted[i := sorted[j]][j := sorted[i]];
    SwapKeepsRank(rows, sorted, i, j);
    OnlyThere(swapped, limit, PageOf(i, limit), j);
    MissedRow(rows, swapped, sorted, limit, PageOf(i, limit), sorted[i]);
  }

  /** The pages of different requests fit together exactly if equal balances are on one page: a tie within a page
      does no harm. The condition is seen in any one sorting. */
  lemma PagesFitIff(rows: seq<Row>, sorted: seq<Row>, limit: nat)
    requires limit > 0 && Ranked(rows, sorted) && Distinct(rows)
    ensures PagesFit(rows, limit) <==> TiesTogether(sorted, limit)
  {
    if TiesTogether(sorted, limit) {
      forall a, b, p: nat, x | Ranked(rows, a) && Ranked(rows, b) && x in Page(b, p, limit)
        ensures x in Page(a, p, limit)
      {
        PageHas(b, limit, p, x);
        var k: nat :| k < |b| && PageOf(k, limit) == p && b[k] == x;
        RowMoves(rows, sorted, a, b, limit, k);
        PageHas(a, limit, p, x);
      }
    } else {
      var i: nat, j: nat :|
        i < j < |sorted| && sorted[i].balance == sorted[j].balance && PageOf(i, limit) != PageOf(j, limit);
      TieMoves(rows, sorted, limit, i, j);
    }
  }

  /** Two equal holders on pages of one row: a reader of both pages may see one of them twice. */
  lemma TieAcrossPages()
    ensures !PagesFit([Row(1, 5), Row(2, 5)], 1) && PagesFit([Row(1, 5), Row(2, 5)], 10)
  {
    var rows := [Row(1, 5), Row(2, 5)];
    LengthThenStringIsNumeric(5, 5);
    assert Ranked(rows, rows);
    PagesFitIff(rows, rows, 1);
    PagesFitIff(rows, rows, 10);
    assert rows[0].balance == rows[1].balance && PageOf(0, 1) != PageOf(1, 1);
    assert TiesTogether(rows, 10);
  }

  // ---------------------------------------------------------------------------
  // A listing that is cut before it is sorted
  // ---------------------------------------------------------------------------

  /** A positive balance of one holder, with the decimals of its token. */
  datatype Holding = Holding(balance: nat, decimals: nat)

  predicate Below(x: Holding, y: Holding) {
    var s, t := Decimal(x.balance), Decimal(y.balance);
    KeyLess(BalLen(s, x.decimals), s, BalLen(t, y.decimals), t)
  }

  /** No page shows anything that ranks above something on an earlier page. */
  ghost predicate PagesRanked(stored: seq<Holding>, limit: nat) {
    forall p: nat, q: nat, x, y {:trigger x in Page(stored, p, limit), y in Page(stored, q, limit)} ::
      p < q && x in Page(stored, p, limit) && y in Page(stored, q, limit) ==> !Below(x, y)
  }

  /** The pages are cut from the stored order and sorted one by one, which changes no page's rows. They rank across
      pages exactly if the stored order does so wherever it crosses pages. */
  lemma PagesOfTokensRankedIff(stored: seq<Holding>, limit: nat)
    requires limit > 0
    ensures PagesRanked(stored, limit)
       <==> forall k: nat, l: nat {:trigger stored[k], stored[l]} ::
              k < |stored| && l < |stored| && PageOf(k, limit) < PageOf(l, limit) ==> !Below(stored[k], stored[l])
  {
    forall p: nat, x
      ensures x in Page(stored, p, limit) <==> OnPage(stored, limit, p, x)
    {
      PageHas(stored, limit, p, x);
    }
    if PagesRanked(stored, limit) {
      forall k: nat, l: nat | k < |stored| && l < |stored| && PageOf(k, limit) < PageOf(l, limit)
        ensures !Below(stored[k], stored[l])
      {
        assert OnPage(stored, limit, PageOf(k, limit), stored[k]);
        assert OnPage(stored, limit, PageOf(l, limit), stored[l]);
      }
    }
  }

  /** A small balance stored first fills the first page, whatever comes after it. */
  lemma SmallBalanceFirst()
    ensures !PagesRanked([Holding(1, 18), Holding(5, 18)], 1)
  {
    var stored := [Holding(1, 18), Holding(5, 18)];
    assert Page(stored, 0, 1) == [stored[0]] && Page(stored, 1, 1) == [stored[1]];
    assert stored[0] in Page(stored, 0, 1) && stored[1] in Page(stored, 1, 1);
    LengthThenStringIsNumeric(1, 5);
    assert |Decimal(1)| == |Decimal(5)| == 1;
  }
}
