/**
 * The bounded replay query over one tenant's committed rows, as the SQL computes it
 * (candidates, running byte totals, cutoff cursor, final selection), and the greedy
 * scan it stands for.
 */
module Replay {
  import opened Numbers
  import opened Signals

  const MAX_LOAD_LIMIT: nat := 1_000
  const MAX_REPLAY_JSON_BYTES: nat := 64 * 1024 * 1024

  predicate Sorted(rows: seq<Row>) {
    forall i, j :: 0 <= i < j < |rows| ==> rows[i].cursor < rows[j].cursor
  }

  /** The rows past a cursor. */
  function After(log: seq<Row>, after: nat): seq<Row> {
    if log == [] then [] else
      var n := |log| - 1;
      After(log[..n], after) + if log[n].cursor > after then [log[n]] else []
  }

  function SelectUpTo(rows: seq<Row>, cutoff: nat): seq<Row> {
    if rows == [] then [] else
      var n := |rows| - 1;
      SelectUpTo(rows[..n], cutoff) + if rows[n].cursor <= cutoff then [rows[n]] else []
  }

  /** The rows past `low`, up to and including `high`. */
  function Window(log: seq<Row>, low: nat, high: nat): seq<Row> {
    SelectUpTo(After(log, low), high)
  }

  function TotalBytes(rows: seq<Row>): nat {
    if rows == [] then 0 else TotalBytes(rows[..|rows| - 1]) + rows[|rows| - 1].bytes
  }

  /** The filter on the ranked rows: the first row, or a running total within budget. */
  predicate Keeps(rows: seq<Row>, budget: nat, ordinal: nat)
    requires 1 <= ordinal <= |rows|
  {
    ordinal == 1 || TotalBytes(rows[..ordinal]) <= budget
  }

  /** The largest cursor among the first `k` ranked rows that pass the filter. */
  function Cutoff(rows: seq<Row>, budget: nat, k: nat): Option<nat>
    requires k <= |rows|
  {
    if k == 0 then None else
      var best := Cutoff(rows, budget, k - 1);
      if !Keeps(rows, budget, k) then best
      else if best.None? || best.value < rows[k - 1].cursor then Some(rows[k - 1].cursor)
      else best
  }

  /** Rank the first `limit` rows, find the cutoff, and select every row up to it. */
  function Page(later: seq<Row>, limit: nat, budget: nat): seq<Row> {
    var candidates := later[..Min(|later|, limit)];
    var cutoff := Cutoff(candidates, budget, |candidates|);
    if cutoff.None? then [] else SelectUpTo(later, cutoff.value)
  }

  /** The bounded replay query with its store-wide caps. */
  function Load(log: seq<Row>, after: nat, rowLimit: nat, maxBytes: nat): seq<Row> {
    Page(After(log, after), Min(rowLimit, MAX_LOAD_LIMIT), Min(maxBytes, MAX_REPLAY_JSON_BYTES))
  }

  // ---------------------------------------------------------------------------
  // The reference: scan forward, stop at the first row that does not fit
  // ---------------------------------------------------------------------------

  function ScanRest(rows: seq<Row>, limit: nat, budget: int): seq<Row> {
    if rows == [] || limit == 0 || rows[0].bytes > budget then []
    else [rows[0]] + ScanRest(rows[1..], limit - 1, budget - rows[0].bytes)
  }

  /** The first row always, then each next row while count and bytes allow. */
  function Scan(rows: seq<Row>, limit: nat, budget: nat): seq<Row> {
    if rows == [] || limit == 0 then []
    else [rows[0]] + ScanRest(rows[1..], limit - 1, budget - rows[0].bytes)
  }

  /** `m` is the length of the longest prefix within both limits (or one row, if that is too big). */
  predicate IsPageLength(rows: seq<Row>, limit: nat, budget: nat, m: nat) {
    && m <= |rows| && m <= limit
    && (m >= 1 ==> Keeps(rows, budget, m))
    && (m < |rows| && m < limit ==> !Keeps(rows, budget, m + 1))
  }

  lemma {:induction false} TotalBytesMonotone(rows: seq<Row>, i: nat, j: nat)
    requires i <= j <= |rows|
    ensures TotalBytes(rows[..i]) <= TotalBytes(rows[..j])
    decreases j
  {
    if i < j {
      TotalBytesMonotone(rows, i, j - 1);
      assert rows[..j][..j - 1] == rows[..j - 1];
    }
  }

  lemma {:induction false} PageLengthUnique(rows: seq<Row>, limit: nat, budget: nat, m: nat, m': nat)
    requires IsPageLength(rows, limit, budget, m) && IsPageLength(rows, limit, budget, m')
    ensures m == m'
  {
    if m < m' {
      TotalBytesMonotone(rows, m + 1, m');
    } else if m' < m {
      TotalBytesMonotone(rows, m' + 1, m);
    }
  }

  lemma {:induction false} TotalBytesCons(row: Row, rows: seq<Row>)
    ensures TotalBytes([row] + rows) == row.bytes + TotalBytes(rows)
    decreases |rows|
  {
    var all := [row] + rows;
    if rows == [] {
      assert all[..0] == [];
    } else {
      var n := |rows| - 1;
      TotalBytesCons(row, rows[..n]);
      assert all[..n + 1] == [row] + rows[..n];
    }
  }

  lemma {:induction false} PrefixBytes(rows: seq<Row>, k: nat)
    requires 1 <= |rows| && k <= |rows| - 1
    ensures TotalBytes(rows[..k + 1]) == rows[0].bytes + TotalBytes(rows[1..][..k])
    ensures k + 1 < |rows| ==> TotalBytes(rows[..k + 2]) == rows[0].bytes + TotalBytes(rows[1..][..k + 1])
  {
    assert rows[..k + 1] == [rows[0]] + rows[1..][..k];
    TotalBytesCons(rows[0], rows[1..][..k]);
    if k + 1 < |rows| {
      assert rows[..k + 2] == [rows[0]] + rows[1..][..k + 1];
      TotalBytesCons(rows[0], rows[1..][..k + 1]);
    }
  }

  lemma {:induction false} ScanRestLength(rows: seq<Row>, limit: nat, budget: int)
    ensures var m := |ScanRest(rows, limit, budget)|;
      && m <= limit && ScanRest(rows, limit, budget) <= rows
      && (m >= 1 ==> TotalBytes(rows[..m]) <= budget)
      && (m < |rows| && m < limit ==> TotalBytes(rows[..m + 1]) > budget)
    decreases |rows|
  {
    if rows == [] || limit == 0 || rows[0].bytes > budget {
      if rows != [] {
        assert rows[..1] == [rows[0]] + [];
        TotalBytesCons(rows[0], []);
      }
    } else {
      ScanRestLength(rows[1..], limit - 1, budget - rows[0].bytes);
      PrefixBytes(rows, |ScanRest(rows[1..], limit - 1, budget - rows[0].bytes)|);
    }
  }

  /** The first row and `n` more are a page exactly as `n` rows are one of what is left. */
  lemma {:induction false} OneMoreRow(rows: seq<Row>, limit: nat, budget: nat, n: nat)
    requires rows != [] && n <= |rows| - 1 && n < limit
    requires var left := budget - rows[0].bytes;
      && (n >= 1 ==> TotalBytes(rows[1..][..n]) <= left)
      && (n < |rows| - 1 && n < limit - 1 ==> TotalBytes(rows[1..][..n + 1]) > left)
    ensures IsPageLength(rows, limit, budget, n + 1)
  {
    PrefixBytes(rows, n);
  }

  lemma {:induction false} ScanIsPrefix(row: Row, rest: seq<Row>, rows: seq<Row>)
    requires rows != [] && row == rows[0] && rest <= rows[1..]
    ensures [row] + rest <= rows
  {
    assert rows == [row] + rows[1..];
  }

  /** A scan that goes on with `rest` after the first row. */
  lemma {:induction false} ScanFromFirst(rows: seq<Row>, limit: nat, budget: nat, rest: seq<Row>)
    requires rows != [] && limit > 0 && rest == ScanRest(rows[1..], limit - 1, budget - rows[0].bytes)
    ensures IsPageLength(rows, limit, budget, |rest| + 1) && [rows[0]] + rest <= rows
  {
    ScanRestLength(rows[1..], limit - 1, budget - rows[0].bytes);
    OneMoreRow(rows, limit, budget, |rest|);
    ScanIsPrefix(rows[0], rest, rows);
  }

  lemma {:induction false} ScanIsPage(rows: seq<Row>, limit: nat, budget: nat)
    ensures IsPageLength(rows, limit, budget, |Scan(rows, limit, budget)|)
    ensures Scan(rows, limit, budget) <= rows
  {
    if rows != [] && limit > 0 {
      var rest := ScanRest(rows[1..], limit - 1, budget - rows[0].bytes);
      ScanFromFirst(rows, limit, budget, rest);
      assert Scan(rows, limit, budget) == [rows[0]] + rest && |[rows[0]] + rest| == |rest| + 1;
    }
  }

  // ---------------------------------------------------------------------------
  // What the query returns
  // ---------------------------------------------------------------------------

  /** On rows in cursor order, the cutoff is the cursor of the last row that passes the filter. */
  lemma {:induction false} CutoffRow(rows: seq<Row>, budget: nat, k: nat) returns (m: nat)
    requires Sorted(rows) && k <= |rows|
    ensures m <= k && IsPageLength(rows, k, budget, m)
    ensures Cutoff(rows, budget, k) == if m == 0 then None else Some(rows[m - 1].cursor)
    decreases k
  {
    if k == 0 {
      m := 0;
    } else {
      m := CutoffRow(rows, budget, k - 1);
      if Keeps(rows, budget, k) {
        m := k;
      }
    }
  }

  lemma {:induction false} SelectIsPrefix(rows: seq<Row>, cutoff: nat, m: nat)
    requires m <= |rows|
    requires forall i :: 0 <= i < m ==> rows[i].cursor <= cutoff
    requires forall i :: m <= i < |rows| ==> rows[i].cursor > cutoff
    ensures SelectUpTo(rows, cutoff) == rows[..m]
    decreases |rows|
  {
    if rows != [] {
      var n := |rows| - 1;
      if m == |rows| {
        SelectIsPrefix(rows[..n], cutoff, n);
        assert rows[..m] == rows[..n][..n] + [rows[n]];
      } else {
        SelectIsPrefix(rows[..n], cutoff, m);
        assert rows[..m] == rows[..n][..m];
      }
    }
  }

  /** On a sorted log the rows past a cursor are a suffix. */
  lemma {:induction false} AfterIsSuffix(log: seq<Row>, after: nat, k: nat)
    requires k <= |log|
    requires forall i :: 0 <= i < k ==> log[i].cursor <= after
    requires forall i :: k <= i < |log| ==> log[i].cursor > after
    ensures After(log, after) == log[k..]
    decreases |log|
  {
    if log != [] {
      var n := |log| - 1;
      if k == |log| {
        AfterIsSuffix(log[..n], after, n);
        assert log[k..] == [] == log[..n][n..];
      } else {
        AfterIsSuffix(log[..n], after, k);
        assert log[k..] == log[..n][k..] + [log[n]];
      }
    }
  }

  /** How many rows of a sorted log a cursor has passed. */
  lemma {:induction false} Passed(log: seq<Row>, after: nat, from: nat) returns (k: nat)
    requires Sorted(log) && from <= |log|
    requires forall i :: 0 <= i < from ==> log[i].cursor <= after
    ensures from <= k <= |log|
    ensures forall i :: 0 <= i < k ==> log[i].cursor <= after
    ensures forall i :: k <= i < |log| ==> log[i].cursor > after
    ensures After(log, after) == log[k..]
  {
    k := from;
    while k < |log| && log[k].cursor <= after
      invariant from <= k <= |log|
      invariant forall i :: 0 <= i < k ==> log[i].cursor <= after
    {
      k := k + 1;
    }
    AfterIsSuffix(log, after, k);
  }

  lemma {:induction false} AfterSorted(log: seq<Row>, after: nat)
    requires Sorted(log)
    ensures Sorted(After(log, after))
    ensures forall r :: r in After(log, after) ==> r in log && r.cursor > after
  {
    var k := Passed(log, after, 0);
  }

  /** The same length is a page length of the candidates and of all later rows. */
  lemma {:induction false} CandidatesDecide(later: seq<Row>, limit: nat, budget: nat, m: nat)
    requires var k := Min(|later|, limit); m <= k && IsPageLength(later[..k], k, budget, m)
    ensures IsPageLength(later, limit, budget, m)
  {
    var k := Min(|later|, limit);
    assert later[..k][..m] == later[..m];
    if m < k {
      assert later[..k][..m + 1] == later[..m + 1];
    }
  }

  lemma {:induction false} PageIsPrefix(later: seq<Row>, limit: nat, budget: nat)
    requires Sorted(later)
    ensures IsPageLength(later, limit, budget, |Page(later, limit, budget)|)
    ensures Page(later, limit, budget) <= later
  {
    var k := Min(|later|, limit);
    var m := CutoffRow(later[..k], budget, k);
    CandidatesDecide(later, limit, budget, m);
    if m > 0 {
      assert later[..k][m - 1] == later[m - 1];
      SelectIsPrefix(later, later[m - 1].cursor, m);
    }
  }

  /** The page is the longest prefix of the later rows that the (capped) row and byte limits allow. */
  lemma {:induction false} LoadIsPage(log: seq<Row>, after: nat, rowLimit: nat, maxBytes: nat)
    requires Sorted(log)
    ensures var page := Load(log, after, rowLimit, maxBytes);
      && page <= After(log, after)
      && IsPageLength(After(log, after), Min(rowLimit, MAX_LOAD_LIMIT), Min(maxBytes, MAX_REPLAY_JSON_BYTES), |page|)
  {
    AfterSorted(log, after);
    PageIsPrefix(After(log, after), Min(rowLimit, MAX_LOAD_LIMIT), Min(maxBytes, MAX_REPLAY_JSON_BYTES));
  }

  /** The windowed query refines the greedy scan. */
  lemma {:induction false} LoadRefinesScan(log: seq<Row>, after: nat, rowLimit: nat, maxBytes: nat)
    requires Sorted(log)
    ensures Load(log, after, rowLimit, maxBytes)
         == Scan(After(log, after), Min(rowLimit, MAX_LOAD_LIMIT), Min(maxBytes, MAX_REPLAY_JSON_BYTES))
  {
    var later, limit, budget := After(log, after), Min(rowLimit, MAX_LOAD_LIMIT), Min(maxBytes, MAX_REPLAY_JSON_BYTES);
    LoadIsPage(log, after, rowLimit, maxBytes);
    ScanIsPage(later, limit, budget);
    PageLengthUnique(later, limit, budget, |Page(later, limit, budget)|, |Scan(later, limit, budget)|);
  }

  // ---------------------------------------------------------------------------
  // Paging
  // ---------------------------------------------------------------------------

  /** Resuming from the cursor of the `m`-th row returns what followed it. */
  lemma {:induction false} AfterResume(log: seq<Row>, after: nat, m: nat)
    requires Sorted(log) && 1 <= m <= |After(log, after)|
    ensures After(log, after)[m..] == After(log, After(log, after)[m - 1].cursor)
  {
    var k := Passed(log, after, 0);
    var c := log[k + m - 1].cursor;
    assert After(log, after)[m - 1].cursor == c;
    assert After(log, c) == log[k + m..] by {
      AfterIsSuffix(log, c, k + m);
    }
    assert log[k..][m..] == log[k + m..];
  }

  lemma {:induction false} HeadOfAfter(log: seq<Row>, after: nat)
    requires Sorted(log) && After(log, after) != []
    ensures var later := After(log, after);
      later[0] in log && later[0].cursor > after && later[1..] == After(log, later[0].cursor)
  {
    AfterSorted(log, after);
    AfterResume(log, after, 1);
    assert After(log, after)[0] in After(log, after);
  }

  lemma {:induction false} PrefixTail(page: seq<Row>, later: seq<Row>)
    requires page != [] && page <= later
    ensures page[1..] <= later[1..] && later == [page[0]] + later[1..]
  {}

  /** On a sorted log, what lies past `low` is the window up to `high`, then what lies past `high`. */
  lemma {:induction false} WindowThenAfter(log: seq<Row>, low: nat, high: nat)
    requires Sorted(log) && low <= high
    ensures After(log, low) == Window(log, low, high) + After(log, high)
  {
    var k := Passed(log, low, 0);
    var k' := Passed(log, high, k);
    SelectIsPrefix(log[k..], high, k' - k);
    assert log[k..] == log[k..][..k' - k] + log[k'..];
  }

  datatype Limits = Limits(rows: nat, bytes: nat)

  function NextCursor(page: seq<Row>, after: nat): nat {
    if page == [] then after else page[|page| - 1].cursor
  }

  /** The concatenated pages of a client that resumes each page from the last cursor of the one before. */
  function Pages(log: seq<Row>, after: nat, plan: seq<Limits>): seq<Row>
    decreases |plan|
  {
    if plan == [] then [] else
      var page := Load(log, after, plan[0].rows, plan[0].bytes);
      page + Pages(log, NextCursor(page, after), plan[1..])
  }

  lemma {:induction false} PrefixThenRest(page: seq<Row>, later: seq<Row>)
    requires page <= later
    ensures later == page + later[|page|..]
    ensures page != [] ==> later[|page| - 1] == page[|page| - 1]
  {}

  /** A page and what a query from its last cursor finds make up everything later. */
  lemma {:induction false} PageThenRest(log: seq<Row>, after: nat, rows: nat, bytes: nat)
    requires Sorted(log)
    ensures var page := Load(log, after, rows, bytes);
      && After(log, after) == page + After(log, NextCursor(page, after))
      && (rows >= 1 && After(log, after) != [] ==> page != [])
  {
    var page := Load(log, after, rows, bytes);
    LoadIsPage(log, after, rows, bytes);
    PrefixThenRest(page, After(log, after));
    if page != [] {
      AfterResume(log, after, |page|);
    }
  }

  /**
   * Whatever limits each page uses, the pages form a prefix of the full replay; with row
   * limits of at least one, as many pages as there are rows return all of it.
   */
  lemma {:induction false} PagesCoverReplay(log: seq<Row>, after: nat, plan: seq<Limits>)
    requires Sorted(log)
    ensures Pages(log, after, plan) <= After(log, after)
    ensures (forall i :: 0 <= i < |plan| ==> plan[i].rows >= 1) && |plan| >= |After(log, after)|
        ==> Pages(log, after, plan) == After(log, after)
    decreases |plan|
  {
    if plan != [] {
      var page := Load(log, after, plan[0].rows, plan[0].bytes);
      PageThenRest(log, after, plan[0].rows, plan[0].bytes);
      PagesCoverReplay(log, NextCursor(page, after), plan[1..]);
    }
  }
}
