/** Tables as pandas holds them after `read_csv`, column assignment, and
    `standardize_columns`, which gives every table the canonical numeric
    columns `Daily_Num` and `Total_Num` (albums) or `Streams_Num` (songs). */
module Frames {
  import opened Wrappers
  import opened PyText
  import opened Cells

  /** One row: the cell under each column. A key the row lacks reads as a
      missing value. */
  type Row = map<string, Cell>

  /** A table: its column labels in order and its rows in order. */
  datatype Table = Table(columns: seq<string>, rows: seq<Row>)

  /** `row[col]`, with a missing value where the row has no such cell. */
  function CellAt(row: Row, col: string): Cell {
    if col in row then row[col] else Missing
  }

  /** `df[col] = values`: every row gets its value under `col`; the column
      is appended to the labels unless it is already there. */
  function WithColumn(t: Table, col: string, values: seq<Cell>): (r: Table)
    requires |values| == |t.rows|
    ensures |r.rows| == |t.rows|
    ensures t.columns <= r.columns
    ensures forall c :: c in r.columns <==> c in t.columns || c == col
    ensures forall i :: 0 <= i < |r.rows| ==> CellAt(r.rows[i], col) == values[i]
    ensures forall i, c :: 0 <= i < |r.rows| && c != col ==> CellAt(r.rows[i], c) == CellAt(t.rows[i], c)
  {
    Table(if col in t.columns then t.columns else t.columns + [col],
          seq(|t.rows|, i requires 0 <= i < |t.rows| => t.rows[i][col := values[i]]))
  }

  /** `df[src].apply(clean_number)`. */
  function CleanedColumn(t: Table, src: string): (r: seq<Cell>)
    ensures |r| == |t.rows|
    ensures forall i :: 0 <= i < |r| ==> r[i] == Int(CleanNumber(CellAt(t.rows[i], src)))
  {
    seq(|t.rows|, i requires 0 <= i < |t.rows| => Int(CleanNumber(CellAt(t.rows[i], src))))
  }

  /** The scalar 0 broadcast over `n` rows. */
  function Zeros(n: nat): (r: seq<Cell>)
    ensures |r| == n && forall i :: 0 <= i < n ==> r[i] == Int(0)
  {
    seq(n, _ => Int(0))
  }

  /** `df[col].apply(normalize_text)`. */
  function NormalizedColumn(t: Table, col: string): (r: seq<Cell>)
    ensures |r| == |t.rows|
    ensures forall i :: 0 <= i < |r| ==> r[i] == Str(NormalizeText(CellAt(t.rows[i], col)))
  {
    seq(|t.rows|, i requires 0 <= i < |t.rows| => Str(NormalizeText(CellAt(t.rows[i], col))))
  }

  /** The position of the first alias that is a column of the table, or
      `|aliases|` when none is. */
  function FirstPresentIndex(columns: seq<string>, aliases: seq<string>): (k: nat)
    ensures k <= |aliases|
    ensures forall j :: 0 <= j < k ==> aliases[j] !in columns
    ensures k < |aliases| ==> aliases[k] in columns
    decreases |aliases|
  {
    if aliases == [] then 0
    else if aliases[0] in columns then 0
    else 1 + FirstPresentIndex(columns, aliases[1..])
  }

  /** Where `Daily_Num` may come from, in the order they are tried. */
  const DailyAliases: seq<string> := ["Daily_Raw", "Daily Raw", "Daily"]
  /** Where an album's `Total_Num` may come from. */
  const TotalAliases: seq<string> := ["Total", "Streams"]
  /** Where a song's `Streams_Num` may come from. */
  const StreamsAliases: seq<string> := ["Streams"]

  /** One step of `standardize_columns`: a canonical column that is absent
      is filled from the first alias present, through `clean_number`, or
      with 0 when there is none. */
  function EnsureColumn(t: Table, col: string, aliases: seq<string>): (r: Table)
    ensures |r.rows| == |t.rows| && t.columns <= r.columns
    ensures forall c :: c in r.columns <==> c in t.columns || c == col
    ensures forall i, c :: 0 <= i < |r.rows| && c != col ==> CellAt(r.rows[i], c) == CellAt(t.rows[i], c)
    ensures col in t.columns ==> r == t
  {
    if col in t.columns then t
    else
      var k := FirstPresentIndex(t.columns, aliases);
      WithColumn(t, col, if k < |aliases| then CleanedColumn(t, aliases[k]) else Zeros(|t.rows|))
  }

  /** `standardize_columns(df, is_album)` on a table. */
  function Standardized(t: Table, isAlbum: bool): (r: Table)
    ensures |r.rows| == |t.rows| && t.columns <= r.columns
    ensures "Daily_Num" in r.columns && (if isAlbum then "Total_Num" else "Streams_Num") in r.columns
  {
    var withDaily := EnsureColumn(t, "Daily_Num", DailyAliases);
    if isAlbum then EnsureColumn(withDaily, "Total_Num", TotalAliases)
    else EnsureColumn(withDaily, "Streams_Num", StreamsAliases)
  }

  /** The canonical column `standardize_columns` adds besides `Daily_Num`. */
  function CountColumn(isAlbum: bool): string {
    if isAlbum then "Total_Num" else "Streams_Num"
  }

  /** The value a filled-in canonical column takes in row `i`: the cleaned
      value of the first alias present, or 0 when no alias is present. */
  lemma EnsureColumnFrom(t: Table, col: string, aliases: seq<string>, i: int)
    requires col !in t.columns && 0 <= i < |t.rows|
    ensures var k := FirstPresentIndex(t.columns, aliases);
            CellAt(EnsureColumn(t, col, aliases).rows[i], col)
            == if k < |aliases| then Int(CleanNumber(CellAt(t.rows[i], aliases[k]))) else Int(0)
  {
  }

  /** Which of the `Daily_Num` aliases is used. */
  lemma DailyIndex(columns: seq<string>)
    ensures FirstPresentIndex(columns, DailyAliases)
            == if "Daily_Raw" in columns then 0
               else if "Daily Raw" in columns then 1
               else if "Daily" in columns then 2
               else 3
  {
    var k := FirstPresentIndex(columns, DailyAliases);
    assert DailyAliases[0] == "Daily_Raw" && DailyAliases[1] == "Daily Raw" && DailyAliases[2] == "Daily";
  }

  /** Which of the `Total_Num` aliases is used. */
  lemma TotalIndex(columns: seq<string>)
    ensures FirstPresentIndex(columns, TotalAliases)
            == if "Total" in columns then 0 else if "Streams" in columns then 1 else 2
  {
    var k := FirstPresentIndex(columns, TotalAliases);
    assert TotalAliases[0] == "Total" && TotalAliases[1] == "Streams";
  }

  /** Which of the `Streams_Num` aliases is used. */
  lemma StreamsIndex(columns: seq<string>)
    ensures FirstPresentIndex(columns, StreamsAliases) == if "Streams" in columns then 0 else 1
  {
    var k := FirstPresentIndex(columns, StreamsAliases);
    assert StreamsAliases[0] == "Streams";
  }

  /** Row count and every column other than the canonical ones survive
      `standardize_columns`; afterwards both canonical columns exist. */
  lemma StandardizedShape(t: Table, isAlbum: bool)
    ensures var r := Standardized(t, isAlbum);
      && |r.rows| == |t.rows|
      && t.columns <= r.columns
      && "Daily_Num" in r.columns && CountColumn(isAlbum) in r.columns
      && (forall c :: c in r.columns <==> c in t.columns || c == "Daily_Num" || c == CountColumn(isAlbum))
      && (forall i, c :: 0 <= i < |r.rows| && c != "Daily_Num" && c != CountColumn(isAlbum)
                         ==> CellAt(r.rows[i], c) == CellAt(t.rows[i], c))
  {
    var d := EnsureColumn(t, "Daily_Num", DailyAliases);
    var r := Standardized(t, isAlbum);
    assert t.columns <= d.columns <= r.columns;
  }

  /** A canonical column the input already has is left exactly as it was. */
  lemma StandardizedKeepsCanonical(t: Table, isAlbum: bool, i: int)
    requires 0 <= i < |t.rows|
    ensures var r := Standardized(t, isAlbum);
      && i < |r.rows|
      && ("Daily_Num" in t.columns ==> CellAt(r.rows[i], "Daily_Num") == CellAt(t.rows[i], "Daily_Num"))
      && (CountColumn(isAlbum) in t.columns
          ==> CellAt(r.rows[i], CountColumn(isAlbum)) == CellAt(t.rows[i], CountColumn(isAlbum)))
  {
    StandardizedShape(t, isAlbum);
  }

  /** `Daily_Num`, when absent, comes from `Daily_Raw`, else `Daily Raw`,
      else `Daily`, through `clean_number`, else 0. */
  lemma DailyNumResolution(t: Table, isAlbum: bool, i: int)
    requires "Daily_Num" !in t.columns && 0 <= i < |t.rows|
    ensures var v := CellAt(Standardized(t, isAlbum).rows[i], "Daily_Num");
      && ("Daily_Raw" in t.columns ==> v == Int(CleanNumber(CellAt(t.rows[i], "Daily_Raw"))))
      && ("Daily_Raw" !in t.columns && "Daily Raw" in t.columns
          ==> v == Int(CleanNumber(CellAt(t.rows[i], "Daily Raw"))))
      && ("Daily_Raw" !in t.columns && "Daily Raw" !in t.columns && "Daily" in t.columns
          ==> v == Int(CleanNumber(CellAt(t.rows[i], "Daily"))))
      && ("Daily_Raw" !in t.columns && "Daily Raw" !in t.columns && "Daily" !in t.columns
          ==> v == Int(0))
  {
    var d := EnsureColumn(t, "Daily_Num", DailyAliases);
    EnsureColumnFrom(t, "Daily_Num", DailyAliases, i);
    DailyIndex(t.columns);
    assert CellAt(Standardized(t, isAlbum).rows[i], "Daily_Num") == CellAt(d.rows[i], "Daily_Num");
  }

  /** An album's `Total_Num`, when absent, comes from `Total`, else
      `Streams`, through `clean_number`, else 0. */
  lemma TotalNumResolution(t: Table, i: int)
    requires "Total_Num" !in t.columns && 0 <= i < |t.rows|
    ensures var v := CellAt(Standardized(t, true).rows[i], "Total_Num");
      && ("Total" in t.columns ==> v == Int(CleanNumber(CellAt(t.rows[i], "Total"))))
      && ("Total" !in t.columns && "Streams" in t.columns
          ==> v == Int(CleanNumber(CellAt(t.rows[i], "Streams"))))
      && ("Total" !in t.columns && "Streams" !in t.columns ==> v == Int(0))
  {
    var d := EnsureColumn(t, "Daily_Num", DailyAliases);
    EnsureColumnFrom(d, "Total_Num", TotalAliases, i);
    TotalIndex(d.columns);
    assert CellAt(d.rows[i], "Total") == CellAt(t.rows[i], "Total");
    assert CellAt(d.rows[i], "Streams") == CellAt(t.rows[i], "Streams");
  }

  /** A song's `Streams_Num`, when absent, comes from `Streams` through
      `clean_number`, else 0. */
  lemma StreamsNumResolution(t: Table, i: int)
    requires "Streams_Num" !in t.columns && 0 <= i < |t.rows|
    ensures var v := CellAt(Standardized(t, false).rows[i], "Streams_Num");
      && ("Streams" in t.columns ==> v == Int(CleanNumber(CellAt(t.rows[i], "Streams"))))
      && ("Streams" !in t.columns ==> v == Int(0))
  {
    var d := EnsureColumn(t, "Daily_Num", DailyAliases);
    EnsureColumnFrom(d, "Streams_Num", StreamsAliases, i);
    StreamsIndex(d.columns);
    assert CellAt(d.rows[i], "Streams") == CellAt(t.rows[i], "Streams");
  }

  /** A second `standardize_columns` changes nothing. */
  lemma StandardizedIdempotent(t: Table, isAlbum: bool)
    ensures Standardized(Standardized(t, isAlbum), isAlbum) == Standardized(t, isAlbum)
  {
    var r := Standardized(t, isAlbum);
    StandardizedShape(t, isAlbum);
    assert EnsureColumn(r, "Daily_Num", DailyAliases) == r;
  }

  /** `df['Song'] = df['Song'].apply(normalize_text)`, or `None` where the
      table has no `Song` column and pandas raises `KeyError`. */
  function NormalizedSongs(t: Table): (r: Option<Table>)
    ensures r.Some? <==> "Song" in t.columns
    ensures r.Some? ==> r.value.columns == t.columns && |r.value.rows| == |t.rows|
    ensures r.Some? ==> forall i :: 0 <= i < |t.rows| ==>
              CellAt(r.value.rows[i], "Song") == Str(NormalizeText(CellAt(t.rows[i], "Song")))
    ensures r.Some? ==> forall i, c :: 0 <= i < |t.rows| && c != "Song" ==>
              CellAt(r.value.rows[i], c) == CellAt(t.rows[i], c)
  {
    if "Song" in t.columns then Some(WithColumn(t, "Song", NormalizedColumn(t, "Song"))) else None
  }

  /** `df[df[col] == v].iloc[0]`: the position of the first row holding
      `v` under `col`, or the row count when there is none (`row.empty`). */
  function FirstRowIndex(t: Table, col: string, v: Cell): (k: nat)
    ensures k <= |t.rows|
    ensures forall j :: 0 <= j < k ==> CellAt(t.rows[j], col) != v
    ensures k < |t.rows| ==> CellAt(t.rows[k], col) == v
  {
    FirstRowFrom(t.rows, col, v, 0)
  }

  function FirstRowFrom(rows: seq<Row>, col: string, v: Cell, from: nat): (k: nat)
    requires from <= |rows|
    requires forall j :: 0 <= j < from ==> CellAt(rows[j], col) != v
    ensures from <= k <= |rows|
    ensures forall j :: 0 <= j < k ==> CellAt(rows[j], col) != v
    ensures k < |rows| ==> CellAt(rows[k], col) == v
    decreases |rows| - from
  {
    if from == |rows| || CellAt(rows[from], col) == v then from
    else FirstRowFrom(rows, col, v, from + 1)
  }

  /** A pandas DataFrame that the engine updates in place by assigning
      columns. */
  class DataFrame {
    var columns: seq<string>
    var rows: seq<Row>

    /** The table the frame currently holds. */
    function Value(): Table
      reads this
    {
      Table(columns, rows)
    }

    constructor (t: Table)
      ensures Value() == t
    {
      columns := t.columns;
      rows := t.rows;
    }

    /** `df[col] = values`. */
    method Assign(col: string, values: seq<Cell>)
      requires |values| == |rows|
      modifies this
      ensures Value() == WithColumn(old(Value()), col, values)
    {
      if col !in columns {
        columns := columns + [col];
      }
      var current := rows;
      rows := seq(|current|, i requires 0 <= i < |current| => current[i][col := values[i]]);
    }

    /** `df[dst] = df[src].apply(clean_number)`. */
    method AssignCleaned(dst: string, src: string)
      modifies this
      ensures Value() == WithColumn(old(Value()), dst, CleanedColumn(old(Value()), src))
    {
      Assign(dst, CleanedColumn(Value(), src));
    }

    /** The `Daily_Num` chain of `standardize_columns`. */
    method EnsureDaily()
      modifies this
      ensures Value() == EnsureColumn(old(Value()), "Daily_Num", DailyAliases)
    {
      DailyIndex(columns);
      if "Daily_Num" !in columns {
        if "Daily_Raw" in columns {
          AssignCleaned("Daily_Num", "Daily_Raw");
        } else if "Daily Raw" in columns {
          AssignCleaned("Daily_Num", "Daily Raw");
        } else if "Daily" in columns {
          AssignCleaned("Daily_Num", "Daily");
        } else {
          Assign("Daily_Num", Zeros(|rows|));
        }
      }
    }

    /** The `Total_Num` chain, for albums. */
    method EnsureTotal()
      modifies this
      ensures Value() == EnsureColumn(old(Value()), "Total_Num", TotalAliases)
    {
      TotalIndex(columns);
      if "Total_Num" !in columns {
        if "Total" in columns {
          AssignCleaned("Total_Num", "Total");
        } else if "Streams" in columns {
          AssignCleaned("Total_Num", "Streams");
        } else {
          Assign("Total_Num", Zeros(|rows|));
        }
      }
    }

    /** The `Streams_Num` chain, for songs. */
    method EnsureStreams()
      modifies this
      ensures Value() == EnsureColumn(old(Value()), "Streams_Num", StreamsAliases)
    {
      StreamsIndex(columns);
      if "Streams_Num" !in columns {
        if "Streams" in columns {
          AssignCleaned("Streams_Num", "Streams");
        } else {
          Assign("Streams_Num", Zeros(|rows|));
        }
      }
    }

    /** The body of `standardize_columns`, on a frame that is not `None`. */
    method Standardize(isAlbum: bool)
      modifies this
      ensures Value() == Standardized(old(Value()), isAlbum)
    {
      EnsureDaily();
      if isAlbum {
        EnsureTotal();
      }
      if !isAlbum {
        EnsureStreams();
      }
    }
  }

  /** `standardize_columns(df, is_album)`: `None` stays `None`; otherwise
      the frame is standardized in place and returned. */
  method StandardizeColumns(df: DataFrame?, isAlbum: bool) returns (r: DataFrame?)
    modifies df
    ensures r == df
    ensures df != null ==> df.Value() == Standardized(old(df.Value()), isAlbum)
  {
    if df == null {
      return null;
    }
    df.Standardize(isAlbum);
    return df;
  }
}
