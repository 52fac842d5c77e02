/** The computations the dashboard runs on the loaded snapshot: the
    day-over-day `Change` columns (a left merge with the previous day),
    the milestone counts, the `Avg_7Days` rate and `Next_Milestone` label
    of every song, and the rate and projection of an album's card. */
module Dashboard {
  import opened Wrappers
  import opened PyText
  import opened Cells
  import opened Frames
  import opened Files
  import opened Milestones
  import opened History
  import opened Loader

  // ----- the left merge with the previous day -----

  /** The previous day's `Daily_Num` cells of the rows whose `key` cell is
      `k`, in row order. */
  function PrevMatches(prev: seq<Row>, key: string, k: Cell): (r: seq<Cell>)
    ensures |r| <= |prev|
    decreases |prev|
  {
    if prev == [] then []
    else
      var last := prev[|prev| - 1];
      PrevMatches(prev[..|prev| - 1], key, k) + (if CellAt(last, key) == k then [CellAt(last, "Daily_Num")] else [])
  }

  /** A current row after the merge: once for each matching previous row,
      with that row's daily count as `Daily_Num_Prev`, or once with a
      missing `Daily_Num_Prev` when no previous row matches. */
  function JoinRow(row: Row, prev: seq<Row>, key: string): (r: seq<Row>)
    ensures var ms := PrevMatches(prev, key, CellAt(row, key));
            |r| == if ms == [] then 1 else |ms|
    ensures forall i :: 0 <= i < |r| ==> r[i] == row["Daily_Num_Prev" := CellAt(r[i], "Daily_Num_Prev")]
    ensures PrevMatches(prev, key, CellAt(row, key)) == [] ==> CellAt(r[0], "Daily_Num_Prev") == Missing
    ensures forall i :: 0 <= i < |r| && PrevMatches(prev, key, CellAt(row, key)) != [] ==>
              CellAt(r[i], "Daily_Num_Prev") == PrevMatches(prev, key, CellAt(row, key))[i]
  {
    var ms := PrevMatches(prev, key, CellAt(row, key));
    if ms == [] then [row["Daily_Num_Prev" := Missing]]
    else seq(|ms|, i requires 0 <= i < |ms| => row["Daily_Num_Prev" := ms[i]])
  }

  /** The merged rows, current row by current row, in the current order. */
  function JoinRows(cur: seq<Row>, prev: seq<Row>, key: string): (r: seq<Row>)
    ensures |r| >= |cur|
    decreases |cur|
  {
    if cur == [] then []
    else JoinRows(cur[..|cur| - 1], prev, key) + JoinRow(cur[|cur| - 1], prev, key)
  }

  /** A cell is among the matches exactly when some previous row with the
      key `k` has it as its daily count. */
  lemma {:induction false} PrevMatchesMembership(prev: seq<Row>, key: string, k: Cell, c: Cell)
    ensures c in PrevMatches(prev, key, k) <==>
            exists j :: 0 <= j < |prev| && CellAt(prev[j], key) == k && CellAt(prev[j], "Daily_Num") == c
    decreases |prev|
  {
    if prev != [] {
      var init := prev[..|prev| - 1];
      PrevMatchesMembership(init, key, k, c);
      if c in PrevMatches(init, key, k) {
        var j :| 0 <= j < |init| && CellAt(init[j], key) == k && CellAt(init[j], "Daily_Num") == c;
        assert prev[j] == init[j];
      }
      if exists j :: 0 <= j < |prev| && CellAt(prev[j], key) == k && CellAt(prev[j], "Daily_Num") == c {
        var j :| 0 <= j < |prev| && CellAt(prev[j], key) == k && CellAt(prev[j], "Daily_Num") == c;
        if j < |init| {
          assert init[j] == prev[j];
        }
      }
    }
  }

  /** A merged row carries a missing `Daily_Num_Prev` when no previous row
      shares its key, and otherwise the daily count of a previous row that
      does. */
  lemma JoinRowPrevious(row: Row, prev: seq<Row>, key: string, i: int)
    requires 0 <= i < |JoinRow(row, prev, key)|
    ensures var p := CellAt(JoinRow(row, prev, key)[i], "Daily_Num_Prev");
      && ((forall j :: 0 <= j < |prev| ==> CellAt(prev[j], key) != CellAt(row, key)) ==> p == Missing)
      && ((exists j :: 0 <= j < |prev| && CellAt(prev[j], key) == CellAt(row, key)) ==>
          exists j :: 0 <= j < |prev| && CellAt(prev[j], key) == CellAt(row, key) && CellAt(prev[j], "Daily_Num") == p)
  {
    var ms := PrevMatches(prev, key, CellAt(row, key));
    var p := CellAt(JoinRow(row, prev, key)[i], "Daily_Num_Prev");
    PrevMatchesEmpty(prev, key, CellAt(row, key));
    if ms != [] {
      assert p == ms[i] && p in ms;
      PrevMatchesMembership(prev, key, CellAt(row, key), p);
    }
  }

  lemma ConcatAssociative<T>(x: seq<T>, y: seq<T>, z: seq<T>)
    ensures (x + y) + z == x + (y + z)
  {
  }

  /** One step of the merge: the last current row's merged rows come last. */
  lemma JoinRowsStep(cur: seq<Row>, prev: seq<Row>, key: string)
    requires cur != []
    ensures JoinRows(cur, prev, key) == JoinRows(cur[..|cur| - 1], prev, key) + JoinRow(cur[|cur| - 1], prev, key)
  {
  }

  /** Merging a concatenation of current rows concatenates the merges. */
  lemma {:induction false} JoinRowsAppend(a: seq<Row>, b: seq<Row>, prev: seq<Row>, key: string)
    ensures JoinRows(a + b, prev, key) == JoinRows(a, prev, key) + JoinRows(b, prev, key)
    decreases |b|
  {
    if b == [] {
      assert a + b == a;
    } else {
      var init, last := b[..|b| - 1], b[|b| - 1];
      var ab := a + b;
      assert ab[..|ab| - 1] == a + init && ab[|ab| - 1] == last;
      JoinRowsStep(ab, prev, key);
      JoinRowsStep(b, prev, key);
      JoinRowsAppend(a, init, prev, key);
      var ja, ji, jl := JoinRows(a, prev, key), JoinRows(init, prev, key), JoinRow(last, prev, key);
      assert JoinRows(ab, prev, key) == (ja + ji) + jl;
      assert JoinRows(b, prev, key) == ji + jl;
      ConcatAssociative(ja, ji, jl);
    }
  }

  /** The merged rows of the current row `i` sit after those of every
      earlier current row and before those of every later one. */
  lemma JoinRowsSplit(cur: seq<Row>, prev: seq<Row>, key: string, i: int)
    requires 0 <= i < |cur|
    ensures JoinRows(cur, prev, key)
         == JoinRows(cur[..i], prev, key) + JoinRow(cur[i], prev, key) + JoinRows(cur[i + 1..], prev, key)
  {
    var single := [cur[i]];
    assert cur == cur[..i] + (single + cur[i + 1..]);
    JoinRowsAppend(cur[..i], single + cur[i + 1..], prev, key);
    JoinRowsAppend(single, cur[i + 1..], prev, key);
    JoinRowsStep(single, prev, key);
    assert single[..0] == [];
    var jp, jr, jn := JoinRows(cur[..i], prev, key), JoinRow(cur[i], prev, key), JoinRows(cur[i + 1..], prev, key);
    assert JoinRows(single, prev, key) == jr;
    ConcatAssociative(jp, jr, jn);
  }

  /** Every merged row is a current row with its `Daily_Num_Prev` set. */
  lemma {:induction false} JoinRowsOrigin(cur: seq<Row>, prev: seq<Row>, key: string, m: int)
    requires 0 <= m < |JoinRows(cur, prev, key)|
    ensures var row := JoinRows(cur, prev, key)[m];
            exists i :: 0 <= i < |cur| && row == cur[i]["Daily_Num_Prev" := CellAt(row, "Daily_Num_Prev")]
    decreases |cur|
  {
    var init := cur[..|cur| - 1];
    var row := JoinRows(cur, prev, key)[m];
    if m < |JoinRows(init, prev, key)| {
      JoinRowsOrigin(init, prev, key, m);
      var i :| 0 <= i < |init| && JoinRows(init, prev, key)[m] == init[i]["Daily_Num_Prev" := CellAt(JoinRows(init, prev, key)[m], "Daily_Num_Prev")];
      assert cur[i] == init[i];
    } else {
      var k := m - |JoinRows(init, prev, key)|;
      assert row == JoinRow(cur[|cur| - 1], prev, key)[k];
    }
  }

  /** Every current row has at least one merged row. */
  lemma JoinRowsCover(cur: seq<Row>, prev: seq<Row>, key: string, i: int)
    requires 0 <= i < |cur|
    ensures exists m :: 0 <= m < |JoinRows(cur, prev, key)| &&
              JoinRows(cur, prev, key)[m] == cur[i]["Daily_Num_Prev" := CellAt(JoinRows(cur, prev, key)[m], "Daily_Num_Prev")]
  {
    JoinRowsSplit(cur, prev, key, i);
    var m := |JoinRows(cur[..i], prev, key)|;
    assert JoinRows(cur, prev, key)[m] == JoinRow(cur[i], prev, key)[0];
  }

  /** `pd.merge(cur, prev[[key, 'Daily_Num']], on=key, how='left',
      suffixes=('', '_Prev'))`. `None` where the selection raises (the
      previous table lacks `key` or `Daily_Num`), where the merge raises
      (the current table lacks `key`), or where no `Daily_Num_Prev` column
      comes out because the current table has no `Daily_Num` to clash with. */
  function LeftMerge(cur: Table, prev: Table, key: string): (r: Option<Table>)
    ensures r.Some? <==> key in cur.columns && "Daily_Num" in cur.columns && key in prev.columns && "Daily_Num" in prev.columns
    ensures r.Some? ==> r.value.columns == cur.columns + ["Daily_Num_Prev"]
    ensures r.Some? ==> r.value.rows == JoinRows(cur.rows, prev.rows, key)
  {
    if key in cur.columns && "Daily_Num" in cur.columns && key in prev.columns && "Daily_Num" in prev.columns then
      Some(Table(cur.columns + ["Daily_Num_Prev"], JoinRows(cur.rows, prev.rows, key)))
    else None
  }

  /** `fillna(0)` on one cell. */
  function FillZero(c: Cell): (r: Cell)
    ensures r != Missing
    ensures c.Missing? ==> r == Int(0)
    ensures c != Missing ==> r == c
  {
    if c.Missing? then Int(0) else c
  }

  /** `df[col].fillna(0)`. */
  function FillNa(t: Table, col: string): (r: seq<Cell>)
    ensures |r| == |t.rows|
    ensures forall i :: 0 <= i < |r| ==> r[i] == FillZero(CellAt(t.rows[i], col))
  {
    seq(|t.rows|, i requires 0 <= i < |t.rows| => FillZero(CellAt(t.rows[i], col)))
  }

  /** `a - b` on two cells: a number for two numbers, missing otherwise. */
  function Minus(a: Cell, b: Cell): (r: Cell)
    ensures r.Int? <==> a.Int? && b.Int?
    ensures r.Int? ==> r.n + b.n == a.n
  {
    if a.Int? && b.Int? then Int(a.n - b.n) else Missing
  }

  /** `df[a] - df[b]`, row by row. */
  function Differences(t: Table, a: string, b: string): (r: seq<Cell>)
    ensures |r| == |t.rows|
    ensures forall i :: 0 <= i < |r| ==> r[i] == Minus(CellAt(t.rows[i], a), CellAt(t.rows[i], b))
  {
    seq(|t.rows|, i requires 0 <= i < |t.rows| => Minus(CellAt(t.rows[i], a), CellAt(t.rows[i], b)))
  }

  /** One `Change` block: with no previous table, `Change` is 0; with one,
      the merge, `Daily_Num_Prev` filled with 0, and `Change` as today's
      daily count less the previous one. `None` where the block raises. */
  function WithChange(cur: Table, prev: Option<Table>, key: string): (r: Option<Table>)
    ensures prev.None? ==> r.Some?
    ensures r.Some? ==> |r.value.rows| >= |cur.rows| && "Change" in r.value.columns
  {
    match prev
    case None => Some(WithColumn(cur, "Change", Zeros(|cur.rows|)))
    case Some(p) =>
      match LeftMerge(cur, p, key)
      case None => None
      case Some(m) =>
        var filled := WithColumn(m, "Daily_Num_Prev", FillNa(m, "Daily_Num_Prev"));
        Some(WithColumn(filled, "Change", Differences(filled, "Daily_Num", "Daily_Num_Prev")))
  }

  /** Without a previous day every row keeps its cells and gets a `Change`
      of 0. */
  lemma ChangeWithoutPrevious(cur: Table, key: string)
    ensures var r := WithChange(cur, None, key).value;
      && |r.rows| == |cur.rows|
      && (forall i :: 0 <= i < |r.rows| ==> CellAt(r.rows[i], "Change") == Int(0))
      && (forall i, c :: 0 <= i < |r.rows| && c != "Change" ==> CellAt(r.rows[i], c) == CellAt(cur.rows[i], c))
  {
  }

  /** The previous tables whose key cells are pairwise distinct. */
  predicate UniqueKeys(prev: seq<Row>, key: string) {
    forall i, j :: 0 <= i < j < |prev| ==> CellAt(prev[i], key) != CellAt(prev[j], key)
  }

  lemma {:induction false} PrevMatchesEmpty(prev: seq<Row>, key: string, k: Cell)
    ensures PrevMatches(prev, key, k) == [] <==> forall j :: 0 <= j < |prev| ==> CellAt(prev[j], key) != k
    decreases |prev|
  {
    if prev != [] {
      var front := prev[..|prev| - 1];
      PrevMatchesEmpty(front, key, k);
      assert forall j :: 0 <= j < |front| ==> front[j] == prev[j];
    }
  }

  /** With distinct previous keys a current row meets at most one previous
      row, and the matching row's daily count when it does. */
  lemma {:induction false} PrevMatchesUnique(prev: seq<Row>, key: string, k: Cell)
    requires UniqueKeys(prev, key)
    ensures |PrevMatches(prev, key, k)| <= 1
    ensures |PrevMatches(prev, key, k)| == 1 ==>
              exists j :: 0 <= j < |prev| && CellAt(prev[j], key) == k && PrevMatches(prev, key, k)[0] == CellAt(prev[j], "Daily_Num")
    decreases |prev|
  {
    if prev != [] {
      var n := |prev|;
      var front := prev[..n - 1];
      assert forall j :: 0 <= j < |front| ==> front[j] == prev[j];
      PrevMatchesUnique(front, key, k);
      if CellAt(prev[n - 1], key) == k {
        PrevMatchesEmpty(front, key, k);
        assert PrevMatches(prev, key, k) == [CellAt(prev[n - 1], "Daily_Num")];
      } else {
        assert PrevMatches(prev, key, k) == PrevMatches(front, key, k);
        if |PrevMatches(front, key, k)| == 1 {
          var j :| 0 <= j < |front| && CellAt(front[j], key) == k && PrevMatches(front, key, k)[0] == CellAt(front[j], "Daily_Num");
          assert prev[j] == front[j];
        }
      }
    }
  }

  /** The `Daily_Num_Prev` a current row with key `k` is given by a merge
      with distinct previous keys, before `fillna`. */
  function PrevCell(prev: seq<Row>, key: string, k: Cell): Cell {
    var ms := PrevMatches(prev, key, k);
    if ms == [] then Missing else ms[0]
  }

  lemma JoinRowUnique(row: Row, prev: seq<Row>, key: string) returns (tail: seq<Row>)
    requires UniqueKeys(prev, key)
    ensures tail == JoinRow(row, prev, key)
    ensures tail == [row["Daily_Num_Prev" := PrevCell(prev, key, CellAt(row, key))]]
  {
    PrevMatchesUnique(prev, key, CellAt(row, key));
    tail := JoinRow(row, prev, key);
  }

  /** With distinct previous keys the merge keeps exactly the current rows,
      in order, each with one `Daily_Num_Prev`. */
  lemma {:induction false} JoinRowsUnique(cur: seq<Row>, prev: seq<Row>, key: string)
    requires UniqueKeys(prev, key)
    ensures |JoinRows(cur, prev, key)| == |cur|
    ensures forall i :: 0 <= i < |cur| ==>
              JoinRows(cur, prev, key)[i] == cur[i]["Daily_Num_Prev" := PrevCell(prev, key, CellAt(cur[i], key))]
    decreases |cur|
  {
    if cur != [] {
      var n := |cur|;
      var front := cur[..n - 1];
      JoinRowsUnique(front, prev, key);
      var tail := JoinRowUnique(cur[n - 1], prev, key);
      var joined := JoinRows(front, prev, key) + tail;
      assert JoinRows(cur, prev, key) == joined;
      forall i | 0 <= i < n
        ensures joined[i] == cur[i]["Daily_Num_Prev" := PrevCell(prev, key, CellAt(cur[i], key))]
      {
        if i < n - 1 {
          assert front[i] == cur[i];
        }
      }
    }
  }

  /** The previous day's count a current row with key `k` is compared
      against: the matching row's `Daily_Num`, 0 when it is missing or when
      no previous row matches. */
  function PreviousDaily(prev: seq<Row>, key: string, k: Cell): (r: Cell)
    requires UniqueKeys(prev, key)
    ensures r != Missing
    ensures (forall j :: 0 <= j < |prev| ==> CellAt(prev[j], key) != k) ==> r == Int(0)
    ensures forall j :: 0 <= j < |prev| && CellAt(prev[j], key) == k ==> r == FillZero(CellAt(prev[j], "Daily_Num"))
  {
    PrevMatchesEmpty(prev, key, k);
    PrevMatchesUnique(prev, key, k);
    FillZero(PrevCell(prev, key, k))
  }

  /** With a previous table whose keys are distinct, the `Change` block
      keeps exactly the current rows and cells, and each row's `Change` is
      today's `Daily_Num` less the previous day's (0 when the row is new). */
  lemma ChangeWithPrevious(cur: Table, prev: Table, key: string)
    requires key in cur.columns && "Daily_Num" in cur.columns && key in prev.columns && "Daily_Num" in prev.columns
    requires key != "Daily_Num_Prev" && key != "Change"
    requires UniqueKeys(prev.rows, key)
    ensures WithChange(cur, Some(prev), key).Some?
    ensures var r := WithChange(cur, Some(prev), key).value;
      && |r.rows| == |cur.rows|
      && (forall i :: 0 <= i < |r.rows| ==>
            CellAt(r.rows[i], "Change") == Minus(CellAt(cur.rows[i], "Daily_Num"), PreviousDaily(prev.rows, key, CellAt(cur.rows[i], key))))
      && (forall i, c :: 0 <= i < |r.rows| && c != "Change" && c != "Daily_Num_Prev" ==> CellAt(r.rows[i], c) == CellAt(cur.rows[i], c))
  {
    var filled := FilledMerge(cur, prev, key);
  }

  /** The merged table after `fillna(0)`, row by row against the current
      table: the same rows and cells, with the previous day's count added. */
  lemma FilledMerge(cur: Table, prev: Table, key: string) returns (filled: Table)
    requires key in cur.columns && "Daily_Num" in cur.columns && key in prev.columns && "Daily_Num" in prev.columns
    requires key != "Daily_Num_Prev"
    requires UniqueKeys(prev.rows, key)
    ensures var m := LeftMerge(cur, prev, key).value;
      filled == WithColumn(m, "Daily_Num_Prev", FillNa(m, "Daily_Num_Prev"))
    ensures |filled.rows| == |cur.rows|
    ensures forall i :: 0 <= i < |cur.rows| ==>
      && CellAt(filled.rows[i], "Daily_Num") == CellAt(cur.rows[i], "Daily_Num")
      && CellAt(filled.rows[i], "Daily_Num_Prev") == PreviousDaily(prev.rows, key, CellAt(cur.rows[i], key))
    ensures forall i, c :: 0 <= i < |cur.rows| && c != "Daily_Num_Prev" ==> CellAt(filled.rows[i], c) == CellAt(cur.rows[i], c)
  {
    var m := LeftMerge(cur, prev, key).value;
    JoinRowsUnique(cur.rows, prev.rows, key);
    filled := WithColumn(m, "Daily_Num_Prev", FillNa(m, "Daily_Num_Prev"));
    forall i | 0 <= i < |cur.rows|
      ensures CellAt(filled.rows[i], "Daily_Num") == CellAt(cur.rows[i], "Daily_Num")
      ensures CellAt(filled.rows[i], "Daily_Num_Prev") == PreviousDaily(prev.rows, key, CellAt(cur.rows[i], key))
    {
      assert m.rows[i] == cur.rows[i]["Daily_Num_Prev" := PrevCell(prev.rows, key, CellAt(cur.rows[i], key))];
    }
    forall i, c | 0 <= i < |cur.rows| && c != "Daily_Num_Prev"
      ensures CellAt(filled.rows[i], c) == CellAt(cur.rows[i], c)
    {
      assert m.rows[i] == cur.rows[i]["Daily_Num_Prev" := PrevCell(prev.rows, key, CellAt(cur.rows[i], key))];
    }
  }

  /** Two rows that hold the same cells apart from `Change` and
      `Daily_Num_Prev`, the two columns the `Change` block writes. */
  ghost predicate SameOutsideChange(a: Row, b: Row) {
    forall c :: c != "Change" && c != "Daily_Num_Prev" ==> CellAt(a, c) == CellAt(b, c)
  }

  /** With a previous table, whatever its keys, the block's rows are the
      merged rows in order: `Daily_Num_Prev` filled with 0, `Change` as the
      daily count less it, and every other cell kept. */
  lemma ChangeMergedRows(cur: Table, prev: Table, key: string)
    requires key in cur.columns && "Daily_Num" in cur.columns && key in prev.columns && "Daily_Num" in prev.columns
    ensures WithChange(cur, Some(prev), key).Some?
    ensures var r := WithChange(cur, Some(prev), key).value;
            var j := JoinRows(cur.rows, prev.rows, key);
      && |r.rows| == |j|
      && (forall m :: 0 <= m < |j| ==>
            && CellAt(r.rows[m], "Daily_Num_Prev") == FillZero(CellAt(j[m], "Daily_Num_Prev"))
            && CellAt(r.rows[m], "Change") == Minus(CellAt(j[m], "Daily_Num"), CellAt(r.rows[m], "Daily_Num_Prev")))
      && (forall m :: 0 <= m < |j| ==> SameOutsideChange(r.rows[m], j[m]))
  {
    var m := LeftMerge(cur, prev, key).value;
    var filled := WithColumn(m, "Daily_Num_Prev", FillNa(m, "Daily_Num_Prev"));
    var r := WithColumn(filled, "Change", Differences(filled, "Daily_Num", "Daily_Num_Prev"));
    assert WithChange(cur, Some(prev), key) == Some(r);
    forall k | 0 <= k < |r.rows| ensures SameOutsideChange(r.rows[k], m.rows[k]) {
    }
  }

  /** No current row is lost: each one has a row of the block's result
      that keeps all its cells apart from `Change` and `Daily_Num_Prev`. */
  lemma ChangeKeepsRows(cur: Table, prev: Table, key: string, i: int)
    requires key in cur.columns && "Daily_Num" in cur.columns && key in prev.columns && "Daily_Num" in prev.columns
    requires 0 <= i < |cur.rows|
    ensures WithChange(cur, Some(prev), key).Some?
    ensures var r := WithChange(cur, Some(prev), key).value;
            exists m :: 0 <= m < |r.rows| && SameOutsideChange(r.rows[m], cur.rows[i])
  {
    ChangeMergedRows(cur, prev, key);
    var r := WithChange(cur, Some(prev), key).value;
    var j := JoinRows(cur.rows, prev.rows, key);
    JoinRowsCover(cur.rows, prev.rows, key, i);
    var m :| 0 <= m < |j| && j[m] == cur.rows[i]["Daily_Num_Prev" := CellAt(j[m], "Daily_Num_Prev")];
    assert SameOutsideChange(r.rows[m], j[m]);
    assert SameOutsideChange(r.rows[m], cur.rows[i]);
  }

  /** Nothing is invented: each row of the block's result keeps the cells
      of some current row apart from `Change` and `Daily_Num_Prev`. */
  lemma ChangeRowOrigin(cur: Table, prev: Table, key: string, m: int)
    requires key in cur.columns && "Daily_Num" in cur.columns && key in prev.columns && "Daily_Num" in prev.columns
    requires 0 <= m < |JoinRows(cur.rows, prev.rows, key)|
    ensures WithChange(cur, Some(prev), key).Some?
    ensures var r := WithChange(cur, Some(prev), key).value;
            m < |r.rows| && exists i :: 0 <= i < |cur.rows| && SameOutsideChange(r.rows[m], cur.rows[i])
  {
    ChangeMergedRows(cur, prev, key);
    var r := WithChange(cur, Some(prev), key).value;
    var j := JoinRows(cur.rows, prev.rows, key);
    JoinRowsOrigin(cur.rows, prev.rows, key, m);
    var i :| 0 <= i < |cur.rows| && j[m] == cur.rows[i]["Daily_Num_Prev" := CellAt(j[m], "Daily_Num_Prev")];
    assert SameOutsideChange(r.rows[m], j[m]);
    assert SameOutsideChange(r.rows[m], cur.rows[i]);
  }

  /** A previous table naming one key twice repeats the current row with
      that key: the merge then holds more rows than the current table. */
  lemma ChangeDuplicatesRows(cur: Table, prev: Table, key: string, i: int, j1: int, j2: int)
    requires key in cur.columns && "Daily_Num" in cur.columns && key in prev.columns && "Daily_Num" in prev.columns
    requires 0 <= i < |cur.rows| && 0 <= j1 < j2 < |prev.rows|
    requires CellAt(prev.rows[j1], key) == CellAt(cur.rows[i], key) == CellAt(prev.rows[j2], key)
    ensures |WithChange(cur, Some(prev), key).value.rows| > |cur.rows|
  {
    var k := CellAt(cur.rows[i], key);
    PrevMatchesTwo(prev.rows, key, k, j1, j2);
    JoinRowsLonger(cur.rows, prev.rows, key, i, k);
  }

  lemma {:induction false} PrevMatchesTwo(prev: seq<Row>, key: string, k: Cell, j1: int, j2: int)
    requires 0 <= j1 < j2 < |prev| && CellAt(prev[j1], key) == k && CellAt(prev[j2], key) == k
    ensures |PrevMatches(prev, key, k)| >= 2
    decreases |prev|
  {
    var n := |prev|;
    var front := prev[..n - 1];
    if j2 < n - 1 {
      assert front[j1] == prev[j1] && front[j2] == prev[j2];
      PrevMatchesTwo(front, key, k, j1, j2);
    } else {
      assert front[j1] == prev[j1];
      PrevMatchesEmpty(front, key, k);
    }
  }

  lemma {:induction false} JoinRowsLonger(cur: seq<Row>, prev: seq<Row>, key: string, i: int, k: Cell)
    requires 0 <= i < |cur| && CellAt(cur[i], key) == k && |PrevMatches(prev, key, k)| >= 2
    ensures |JoinRows(cur, prev, key)| > |cur|
    decreases |cur|
  {
    if i < |cur| - 1 {
      var m := JoinRowsSnoc(cur, prev, key);
      assert cur[..|cur| - 1][i] == cur[i];
      JoinRowsLonger(cur[..|cur| - 1], prev, key, i, k);
    } else {
      JoinRowsLast(cur, prev, key, k);
    }
  }

  lemma JoinRowsLast(cur: seq<Row>, prev: seq<Row>, key: string, k: Cell)
    requires cur != [] && CellAt(cur[|cur| - 1], key) == k && |PrevMatches(prev, key, k)| >= 2
    ensures |JoinRows(cur, prev, key)| > |cur|
  {
    var m := JoinRowsSnoc(cur, prev, key);
  }

  lemma JoinRowsSnoc(cur: seq<Row>, prev: seq<Row>, key: string) returns (m: nat)
    requires cur != []
    ensures m == |PrevMatches(prev, key, CellAt(cur[|cur| - 1], key))|
    ensures |JoinRows(cur, prev, key)| >= |JoinRows(cur[..|cur| - 1], prev, key)| + 1
    ensures |JoinRows(cur, prev, key)| >= |JoinRows(cur[..|cur| - 1], prev, key)| + m
  {
    m := |PrevMatches(prev, key, CellAt(cur[|cur| - 1], key))|;
    var rest := JoinRow(cur[|cur| - 1], prev, key);
    assert |JoinRows(cur, prev, key)| == |JoinRows(cur[..|cur| - 1], prev, key)| + |rest|;
  }

  /** The `Change` block for songs, run after the day-before file was
      loaded as written: a previous song file without a `Song` column
      makes it raise. */
  lemma SongsChangeAsWritten(entries: seq<FileEntry>, prevFile: string, raw: Table, cur: Table)
    requires ReadCsv(entries, prevFile) == Some(raw) && "Song" !in raw.columns
    ensures WithChange(cur, LoadPreviousAsWritten(entries, prevFile).0, "Song").None?
  {
    PreviousWithoutSongAsWritten(entries, prevFile, raw);
  }

  /** With the day before loaded as intended, the `Change` block for songs
      never raises. */
  lemma SongsChangeLoaded(dir: DataDir)
    ensures LoadDataPair(dir).Loaded? ==>
              var s := LoadDataPair(dir).snapshot;
              WithChange(s.songs, s.prevSongs, "Song").Some?
  {
    if LoadDataPair(dir).Loaded? {
      LoadedToday(dir.entries);
      LoadedPrevious(dir.entries);
    }
  }

  /** The `Change` block in place: the frame gets `Change` when there is no
      previous table; otherwise the name is rebound to a fresh merged frame
      that gets `Daily_Num_Prev` and `Change`, and the old frame is left
      as it was. `null` where the block raises. */
  method ApplyChange(df: DataFrame, prev: Option<Table>, key: string) returns (r: DataFrame?)
    modifies df
    ensures r == null <==> WithChange(old(df.Value()), prev, key).None?
    ensures r != null ==> r.Value() == WithChange(old(df.Value()), prev, key).value
    ensures prev.None? ==> r == df
    ensures prev.Some? ==> df.Value() == old(df.Value()) && (r != null ==> fresh(r))
  {
    if prev.None? {
      df.Assign("Change", Zeros(|df.rows|));
      return df;
    }
    var cur := df.Value();
    var merged := LeftMerge(cur, prev.value, key);
    if merged.None? {
      return null;
    }
    r := new DataFrame(merged.value);
    r.Assign("Daily_Num_Prev", FillNa(r.Value(), "Daily_Num_Prev"));
    r.Assign("Change", Differences(r.Value(), "Daily_Num", "Daily_Num_Prev"));
  }

  // ----- milestone counts -----

  /** A cell meets the bar `threshold`: a number at least that large
      (NaN and text compare false). */
  predicate Reaches(c: Cell, threshold: int) {
    c.Int? && c.n >= threshold
  }

  /** `df[df[col] >= threshold]` as positions: the rows whose cell under
      `col` meets the bar. */
  function RowsAtLeast(rows: seq<Row>, col: string, threshold: int): set<nat> {
    set i: nat | i < |rows| && Reaches(CellAt(rows[i], col), threshold)
  }

  /** Adding a row to the end adds its position exactly when it meets
      the bar. */
  lemma RowsAtLeastSnoc(rows: seq<Row>, col: string, threshold: int)
    requires rows != []
    ensures |RowsAtLeast(rows, col, threshold)|
            == |RowsAtLeast(rows[..|rows| - 1], col, threshold)|
               + (if Reaches(CellAt(rows[|rows| - 1], col), threshold) then 1 else 0)
  {
    var k := |rows| - 1;
    var front := RowsAtLeast(rows[..k], col, threshold);
    assert forall i :: 0 <= i < k ==> rows[..k][i] == rows[i];
    if Reaches(CellAt(rows[k], col), threshold) {
      assert RowsAtLeast(rows, col, threshold) == front + {k};
    } else {
      assert RowsAtLeast(rows, col, threshold) == front;
    }
  }

  /** `len(df[df[col] >= threshold])`: how many rows meet the bar. */
  function CountAtLeast(rows: seq<Row>, col: string, threshold: int): (n: nat)
    ensures n == |RowsAtLeast(rows, col, threshold)|
    ensures n <= |rows|
    decreases |rows|
  {
    if rows == [] then
      assert RowsAtLeast(rows, col, threshold) == {};
      0
    else
      var last := CellAt(rows[|rows| - 1], col);
      RowsAtLeastSnoc(rows, col, threshold);
      CountAtLeast(rows[..|rows| - 1], col, threshold) + (if last.Int? && last.n >= threshold then 1 else 0)
  }

  /** A higher bar is met by no more rows. */
  lemma {:induction false} CountAtLeastAntitone(rows: seq<Row>, col: string, lo: int, hi: int)
    requires lo <= hi
    ensures CountAtLeast(rows, col, hi) <= CountAtLeast(rows, col, lo)
    decreases |rows|
  {
    if rows != [] {
      CountAtLeastAntitone(rows[..|rows| - 1], col, lo, hi);
    }
  }

  /** The count is 0 exactly when no row reaches the bar. */
  lemma {:induction false} CountAtLeastZero(rows: seq<Row>, col: string, threshold: int)
    ensures CountAtLeast(rows, col, threshold) == 0
            <==> forall i :: 0 <= i < |rows| ==> !(CellAt(rows[i], col).Int? && CellAt(rows[i], col).n >= threshold)
    decreases |rows|
  {
    if rows != [] {
      var front := rows[..|rows| - 1];
      CountAtLeastZero(front, col, threshold);
      assert forall i :: 0 <= i < |front| ==> front[i] == rows[i];
    }
  }

  /** `count_1b` and `count_100m`: the songs with at least a billion and
      at least a hundred million streams. */
  function MilestoneCounts(songs: Table): (r: (nat, nat))
    ensures r.0 == |RowsAtLeast(songs.rows, "Streams_Num", Billion)|
    ensures r.1 == |RowsAtLeast(songs.rows, "Streams_Num", HundredMillion)|
    ensures r.0 <= r.1 <= |songs.rows|
  {
    CountAtLeastAntitone(songs.rows, "Streams_Num", HundredMillion, Billion);
    (CountAtLeast(songs.rows, "Streams_Num", Billion), CountAtLeast(songs.rows, "Streams_Num", HundredMillion))
  }

  // ----- a song's rate and next milestone -----

  /** A cell as a rate: a number, or `None` for NaN and text. */
  function CellRate(c: Cell): (r: Option<real>)
    ensures r.Some? <==> c.Int?
    ensures r.Some? ==> r.value == c.n as real
  {
    if c.Int? then Some(c.n as real) else None
  }

  /** `df['Song'].map(avg_7day_map).fillna(df['Daily_Num'])` for one row. */
  function Avg7Days(row: Row, averages: map<string, real>): (r: Option<real>)
    ensures CellAt(row, "Song").Str? && CellAt(row, "Song").s in averages ==> r == Some(averages[CellAt(row, "Song").s])
    ensures !(CellAt(row, "Song").Str? && CellAt(row, "Song").s in averages) ==> r == CellRate(CellAt(row, "Daily_Num"))
  {
    var song := CellAt(row, "Song");
    if song.Str? && song.s in averages then Some(averages[song.s]) else CellRate(CellAt(row, "Daily_Num"))
  }

  /** A song without an integer daily count in the files the seven-file
      average reads is rated at today's `Daily_Num`. */
  lemma Avg7DaysFallback(entries: seq<FileEntry>, row: Row, song: string)
    requires CellAt(row, "Song") == Str(song)
    requires var frames := Collect(LastSeven(Listing(entries, "_songs.csv")), SongStep(entries));
             forall i, d :: 0 <= i < |frames| ==> SongDaily(song, Int(d)) !in frames[i]
    ensures Avg7Days(row, SevenDayAverageOf(Dir(entries))) == CellRate(CellAt(row, "Daily_Num"))
  {
    var recent := LastSeven(Listing(entries, "_songs.csv"));
    SongAveragesKeys(entries, recent, song);
  }

  /** With fewer than two song files there is no seven-file average, and
      every song is rated at today's `Daily_Num`. */
  lemma Avg7DaysFewFiles(entries: seq<FileEntry>, row: Row)
    ensures |LastSeven(Listing(entries, "_songs.csv"))| < 2 ==>
              Avg7Days(row, SevenDayAverageOf(Dir(entries))) == CellRate(CellAt(row, "Daily_Num"))
  {
  }

  /** `format_milestone_prediction(row)`: the label for a song whose
      `Streams_Num` is a number; `"nan"` for a missing one, since NaN
      arithmetic gives a NaN gap, formatted as `nan`, and a NaN number of
      days, which is never below the bar; `None` for text, where `//`
      raises. */
  function NextMilestoneLabel(row: Row, averages: map<string, real>): (r: Option<string>)
    ensures r.Some? <==> !CellAt(row, "Streams_Num").Str?
    ensures CellAt(row, "Streams_Num").Missing? ==> r == Some("nan")
    ensures CellAt(row, "Streams_Num").Int? ==>
              FormatThousands(Remaining(CellAt(row, "Streams_Num").n, HundredMillion)) <= r.value
  {
    match CellAt(row, "Streams_Num")
    case Int(n) =>
      MilestoneLabelForms(n, Avg7Days(row, averages));
      Some(MilestoneLabel(n, Avg7Days(row, averages)))
    case Missing => Some("nan")
    case Str(_) => None
  }

  /** A song whose rate is not positive shows only the distance to its
      next hundred million, which reads back as that number. */
  lemma NextMilestoneLabelReadsBack(row: Row, averages: map<string, real>, n: int)
    requires CellAt(row, "Streams_Num") == Int(n)
    requires Avg7Days(row, averages).None? || Avg7Days(row, averages).value <= 0.0
    ensures CleanNumber(Str(NextMilestoneLabel(row, averages).value)) == Remaining(n, HundredMillion)
  {
    MilestoneLabelReadsBack(n, Avg7Days(row, averages));
  }

  // ----- an album's card -----

  /** The rate an album's card projects with: the seven-file average, or
      today's `Daily_Num` when that average is 0. */
  function CardRate(avg7: real, daily: Cell): (r: Option<real>)
    ensures avg7 != 0.0 ==> r == Some(avg7)
    ensures avg7 == 0.0 ==> r == CellRate(daily)
  {
    if avg7 == 0.0 then CellRate(daily) else Some(avg7)
  }

  /** Today's count is the fallback exactly when none of the last seven
      album files has a positive count for the album; otherwise the rate
      is the positive seven-file average. */
  lemma CardRateFallback(dir: DataDir, base: string, daily: Cell)
    ensures AlbumDailies(dir, base) == [] ==> CardRate(Album7DayAverageOf(dir, base), daily) == CellRate(daily)
    ensures AlbumDailies(dir, base) != [] ==>
              CardRate(Album7DayAverageOf(dir, base), daily) == Some(Album7DayAverageOf(dir, base))
              && Album7DayAverageOf(dir, base) > 0.0
  {
    Album7DayAverageZero(dir, base);
  }

  /** One card of the crystal ball: the album's first row, its total, the
      rate and the billion projection. `None` where no row names the album,
      where the projection is `None` (a total that is not positive), or
      where the total or the fallback rate is not a number. */
  datatype Card = Card(base: string, total: int, rate: real, projection: Projection)

  function AlbumCard(albums: Table, base: string, avg7: real): (r: Option<Card>)
    ensures r.Some? ==> r.value.total > 0 && r.value.base == base
    ensures r.Some? ==> MilestoneProjection1B(r.value.total, r.value.rate) == Some(r.value.projection)
    ensures r.Some? ==> exists k :: 0 <= k < |albums.rows| && CellAt(albums.rows[k], "Base_Name") == Str(base)
                         && CellAt(albums.rows[k], "Total_Num") == Int(r.value.total)
                         && CardRate(avg7, CellAt(albums.rows[k], "Daily_Num")) == Some(r.value.rate)
                         && forall j :: 0 <= j < k ==> CellAt(albums.rows[j], "Base_Name") != Str(base)
    ensures var k := FirstRowIndex(albums, "Base_Name", Str(base));
            "Base_Name" in albums.columns && k < |albums.rows|
            && CellAt(albums.rows[k], "Total_Num").Int? && CellAt(albums.rows[k], "Total_Num").n > 0
            && CardRate(avg7, CellAt(albums.rows[k], "Daily_Num")).Some?
            ==> r.Some?
  {
    if "Base_Name" !in albums.columns then None
    else
      var k := FirstRowIndex(albums, "Base_Name", Str(base));
      if k == |albums.rows| then None
      else
        var total := CellAt(albums.rows[k], "Total_Num");
        var rate := CardRate(avg7, CellAt(albums.rows[k], "Daily_Num"));
        if total.Int? && rate.Some? then
          match MilestoneProjection1B(total.n, rate.value)
          case Some(p) => Some(Card(base, total.n, rate.value, p))
          case None => None
        else None
  }

  /** An album with a positive seven-file average always has a finite
      estimate on its card. */
  lemma AlbumCardHasEstimate(albums: Table, dir: DataDir, base: string)
    ensures AlbumDailies(dir, base) != [] && AlbumCard(albums, base, Album7DayAverageOf(dir, base)).Some?
            ==> AlbumCard(albums, base, Album7DayAverageOf(dir, base)).value.projection.eta.InDays?
  {
    Album7DayAverageZero(dir, base);
  }
}
