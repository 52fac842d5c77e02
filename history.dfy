/** The history scans: loops over the sorted daily files that build the
    career trend (`get_career_history`), one song's or album's trend
    (`get_item_history`), the listener trend (`get_listeners_history`) and
    the trailing seven-file averages (`get_album_7day_average`,
    `get_7day_average`). A file on which a step raises is skipped. */
module History {
  import opened Wrappers
  import opened PyText
  import opened Cells
  import opened Frames
  import opened Files
  import opened Milestones

  /** One row of a history frame: the date of a daily file and a value. */
  datatype Point<T> = Point(date: string, value: T)

  // ----- the scan shared by every loop -----

  /** What a loop over `xs` appends to its list: the element each step
      yields, in order, nothing for a step that is skipped. */
  function Collect<S, T>(xs: seq<S>, step: S -> Option<T>): (r: seq<T>)
    ensures |r| <= |xs|
    decreases |xs|
  {
    if xs == [] then []
    else Collect(xs[..|xs| - 1], step) + step(xs[|xs| - 1]).ToSeq()
  }

  /** An element is collected exactly when some step yields it. */
  lemma {:induction false} CollectMembership<S, T>(xs: seq<S>, step: S -> Option<T>, x: T)
    ensures x in Collect(xs, step) <==> exists i :: 0 <= i < |xs| && step(xs[i]) == Some(x)
    decreases |xs|
  {
    if xs != [] {
      var front := xs[..|xs| - 1];
      CollectMembership(front, step, x);
      if x in Collect(xs, step) && x !in Collect(front, step) {
        assert step(xs[|xs| - 1]) == Some(x);
      }
      if exists i :: 0 <= i < |front| && step(front[i]) == Some(x) {
        var i :| 0 <= i < |front| && step(front[i]) == Some(x);
        assert xs[i] == front[i];
      }
      if exists i :: 0 <= i < |xs| && step(xs[i]) == Some(x) {
        var i :| 0 <= i < |xs| && step(xs[i]) == Some(x);
        if i < |xs| - 1 {
          assert front[i] == xs[i];
        }
      }
    }
  }

  /** One more element adds what its step yields. */
  lemma CollectSnoc<S, T>(xs: seq<S>, i: int, step: S -> Option<T>)
    requires 0 <= i < |xs|
    ensures Collect(xs[..i + 1], step) == Collect(xs[..i], step) + step(xs[i]).ToSeq()
  {
    assert xs[..i + 1][..i] == xs[..i];
  }

  /** Scanning two runs one after the other collects the first run's
      elements, then the second's: order is kept. */
  lemma {:induction false} CollectAppend<S, T>(a: seq<S>, b: seq<S>, step: S -> Option<T>)
    ensures Collect(a + b, step) == Collect(a, step) + Collect(b, step)
    decreases |b|
  {
    if b == [] {
      assert a + b == a;
    } else {
      var b' := b[..|b| - 1];
      assert (a + b)[..|a + b| - 1] == a + b';
      assert (a + b)[|a + b| - 1] == b[|b| - 1];
      CollectAppend(a, b', step);
    }
  }

  /** When no step is skipped, every element contributes one. */
  lemma {:induction false} CollectNoneSkipped<S, T>(xs: seq<S>, step: S -> Option<T>)
    requires forall i :: 0 <= i < |xs| ==> step(xs[i]).Some?
    ensures |Collect(xs, step)| == |xs|
    decreases |xs|
  {
    if xs != [] {
      var front := xs[..|xs| - 1];
      assert forall i :: 0 <= i < |front| ==> front[i] == xs[i];
      CollectNoneSkipped(front, step);
      assert step(xs[|xs| - 1]).Some?;
    }
  }

  /** The loop every history function runs: visit each element in order,
      keep what its step yields, skip it when the step raises. */
  method Scan<S, T>(xs: seq<S>, step: S -> Option<T>) returns (kept: seq<T>)
    ensures kept == Collect(xs, step)
  {
    kept := [];
    var i := 0;
    while i < |xs|
      invariant 0 <= i <= |xs|
      invariant kept == Collect(xs[..i], step)
    {
      var result := step(xs[i]);
      if result.Some? {
        kept := kept + [result.value];
      }
      CollectSnoc(xs, i, step);
      i := i + 1;
    }
    assert xs[..i] == xs;
  }

  // ----- career history -----

  /** `meta['career_total']` as a number; `None` where the lookup or the
      subtraction that follows it would raise. */
  function CareerTotal(doc: Option<Json>): Option<int> {
    match doc
    case Some(JObject(m)) =>
      if "career_total" in m && m["career_total"].JInt? then Some(m["career_total"].n) else None
    case _ => None
  }

  /** The largest daily rise accepted as genuine, exclusive. */
  const MaxDailyRise: int := 100_000_000

  /** What one pair of consecutive meta files adds to the career trend:
      the rise of the career total, dated with the later file, when it is
      positive and below `MaxDailyRise`. */
  function CareerStep(entries: seq<FileEntry>, prev: string, curr: string): (r: Option<Point<int>>)
    ensures r.Some? ==> 0 < r.value.value < MaxDailyRise && r.value.date == DatePrefix(curr)
    ensures r.Some? <==> CareerTotal(ReadJson(entries, curr)).Some? && CareerTotal(ReadJson(entries, prev)).Some?
                         && 0 < CareerTotal(ReadJson(entries, curr)).value - CareerTotal(ReadJson(entries, prev)).value < MaxDailyRise
    ensures r.Some? ==> r.value.value == CareerTotal(ReadJson(entries, curr)).value - CareerTotal(ReadJson(entries, prev)).value
  {
    match (CareerTotal(ReadJson(entries, curr)), CareerTotal(ReadJson(entries, prev)))
    case (Some(c), Some(p)) =>
      var rise := c - p;
      if rise > 0 && rise < MaxDailyRise then Some(Point(DatePrefix(curr), rise)) else None
    case _ => None
  }

  /** The pairs `(files[i-1], files[i])` the career loop visits, in order. */
  function Pairs(files: seq<string>): (r: seq<(string, string)>)
    ensures |files| >= 1 ==> |r| == |files| - 1
    ensures |files| < 2 ==> r == []
    ensures forall i :: 0 <= i < |r| ==> r[i] == (files[i], files[i + 1])
  {
    if |files| < 2 then [] else seq(|files| - 1, i requires 0 <= i < |files| - 1 => (files[i], files[i + 1]))
  }

  function CareerPairStep(entries: seq<FileEntry>): ((string, string)) -> Option<Point<int>> {
    (pair: (string, string)) => CareerStep(entries, pair.0, pair.1)
  }

  /** The points of consecutive pairs of `files`, in order. */
  function CareerPoints(entries: seq<FileEntry>, files: seq<string>): seq<Point<int>> {
    Collect(Pairs(files), CareerPairStep(entries))
  }

  /** A point is in the career trend exactly when some consecutive pair of
      files yields it; each such point is a plausible rise dated with the
      later file of its pair. */
  lemma CareerPointsMembership(entries: seq<FileEntry>, files: seq<string>, x: Point<int>)
    ensures x in CareerPoints(entries, files)
            <==> exists i :: 1 <= i < |files| && CareerStep(entries, files[i - 1], files[i]) == Some(x)
    ensures x in CareerPoints(entries, files) ==> 0 < x.value < MaxDailyRise
  {
    var pairs := Pairs(files);
    var step := CareerPairStep(entries);
    CollectMembership(pairs, step, x);
    if exists i :: 0 <= i < |pairs| && step(pairs[i]) == Some(x) {
      var i :| 0 <= i < |pairs| && step(pairs[i]) == Some(x);
      assert CareerStep(entries, files[i + 1 - 1], files[i + 1]) == Some(x);
    }
    if exists i :: 1 <= i < |files| && CareerStep(entries, files[i - 1], files[i]) == Some(x) {
      var i :| 1 <= i < |files| && CareerStep(entries, files[i - 1], files[i]) == Some(x);
      assert pairs[i - 1] == (files[i - 1], files[i]);
      assert step(pairs[i - 1]) == Some(x);
    }
  }

  /** With fewer than two meta files the career trend is empty, and it never
      has more points than there are consecutive pairs. */
  lemma CareerPointsCount(entries: seq<FileEntry>, files: seq<string>)
    ensures |files| < 2 ==> CareerPoints(entries, files) == []
    ensures |files| >= 1 ==> |CareerPoints(entries, files)| <= |files| - 1
  {
  }

  /** `get_career_history()` as a value. */
  function CareerHistoryOf(dir: DataDir): seq<Point<int>> {
    match dir
    case NoDir => []
    case Dir(entries) => CareerPoints(entries, Listing(entries, "_meta.json"))
  }

  /** `get_career_history`: the loop over consecutive meta files. */
  method CareerHistory(dir: DataDir) returns (history: seq<Point<int>>)
    ensures history == CareerHistoryOf(dir)
  {
    if dir.NoDir? {
      return [];
    }
    var files := Listing(dir.entries, "_meta.json");
    history := [];
    if |files| < 2 {
      return;
    }
    ghost var pairs := Pairs(files);
    ghost var step := CareerPairStep(dir.entries);
    var i := 1;
    while i < |files|
      invariant 1 <= i <= |files|
      invariant history == Collect(pairs[..i - 1], step)
    {
      var point := CareerStep(dir.entries, files[i - 1], files[i]);
      if point.Some? {
        history := history + [point.value];
      }
      CollectSnoc(pairs, i - 1, step);
      i := i + 1;
    }
    assert pairs[..i - 1] == pairs;
  }

  // ----- one item's history -----

  /** The column that names a row: `Base_Name` for albums, `Song` for songs. */
  function KeyColumn(isAlbum: bool): string {
    if isAlbum then "Base_Name" else "Song"
  }

  /** The files of one kind: `*_albums.csv` or `*_songs.csv`. */
  function KindSuffix(isAlbum: bool): string {
    if isAlbum then "_albums.csv" else "_songs.csv"
  }

  /** `df[df[key] == item].iloc[0]['Daily_Num']` on one table: the daily
      count of the first row naming the item; `None` when no row names it,
      or when the table has no `key` column (the lookup raises). */
  function FirstDaily(t: Table, key: string, item: string): (r: Option<Cell>)
    ensures key !in t.columns ==> r.None?
    ensures r.Some? ==> exists k :: 0 <= k < |t.rows| && CellAt(t.rows[k], key) == Str(item)
                          && r.value == CellAt(t.rows[k], "Daily_Num")
                          && forall j :: 0 <= j < k ==> CellAt(t.rows[j], key) != Str(item)
    ensures r.None? && key in t.columns ==> forall j :: 0 <= j < |t.rows| ==> CellAt(t.rows[j], key) != Str(item)
  {
    if key !in t.columns then None
    else
      var k := FirstRowIndex(t, key, Str(item));
      if k < |t.rows| then Some(CellAt(t.rows[k], "Daily_Num")) else None
  }

  /** The item's daily count in one file, or `None` when the file is skipped. */
  function ItemDaily(entries: seq<FileEntry>, name: string, item: string, isAlbum: bool): Option<Cell> {
    match ReadDaily(entries, name, isAlbum)
    case None => None
    case Some(t) => FirstDaily(t, KeyColumn(isAlbum), item)
  }

  function ItemPoint(entries: seq<FileEntry>, item: string, isAlbum: bool, name: string): Option<Point<Cell>> {
    match ItemDaily(entries, name, item, isAlbum)
    case Some(v) => Some(Point(DatePrefix(name), v))
    case None => None
  }

  function ItemStep(entries: seq<FileEntry>, item: string, isAlbum: bool): string -> Option<Point<Cell>> {
    name => ItemPoint(entries, item, isAlbum, name)
  }

  /** `get_item_history(item_name, is_album)` as a value. */
  function ItemHistoryOf(dir: DataDir, item: string, isAlbum: bool): seq<Point<Cell>> {
    match dir
    case NoDir => []
    case Dir(entries) => Collect(Listing(entries, KindSuffix(isAlbum)), ItemStep(entries, item, isAlbum))
  }

  /** A point of an item's trend is the `Daily_Num` of the item's first
      row in one of the files, dated with that file; every file holding
      the item contributes one. */
  lemma ItemHistoryMembership(entries: seq<FileEntry>, item: string, isAlbum: bool, x: Point<Cell>)
    ensures var files := Listing(entries, KindSuffix(isAlbum));
            x in ItemHistoryOf(Dir(entries), item, isAlbum)
            <==> exists i :: 0 <= i < |files| && ItemDaily(entries, files[i], item, isAlbum) == Some(x.value)
                             && x.date == DatePrefix(files[i])
  {
    var files := Listing(entries, KindSuffix(isAlbum));
    var step := ItemStep(entries, item, isAlbum);
    CollectMembership(files, step, x);
    forall i | 0 <= i < |files|
      ensures step(files[i]) == Some(x)
              <==> ItemDaily(entries, files[i], item, isAlbum) == Some(x.value) && x.date == DatePrefix(files[i])
    {
      assert step(files[i]) == ItemPoint(entries, item, isAlbum, files[i]);
    }
  }

  /** `get_item_history`: the loop over the files of one kind. */
  method ItemHistory(dir: DataDir, item: string, isAlbum: bool) returns (history: seq<Point<Cell>>)
    ensures history == ItemHistoryOf(dir, item, isAlbum)
  {
    if dir.NoDir? {
      return [];
    }
    var files := Listing(dir.entries, KindSuffix(isAlbum));
    history := Scan(files, ItemStep(dir.entries, item, isAlbum));
  }

  // ----- listener history -----

  /** `meta.get('listeners', 0)`, replaced by its `.get('count', 0)` when
      it is an object; `None` where the lookup or the comparison with 0
      would raise. */
  function ListenerCount(doc: Option<Json>): Option<int> {
    match doc
    case Some(JObject(m)) =>
      var l := if "listeners" in m then m["listeners"] else JInt(0);
      var c := if l.JObject? then (if "count" in l.fields then l.fields["count"] else JInt(0)) else l;
      if c.JInt? then Some(c.n) else None
    case _ => None
  }

  /** A count nested as `{"count": n}` reads the same as a flat `n`, and a
      missing count or listener entry reads as 0. */
  lemma ListenerCountForms(m: map<string, Json>, n: int)
    ensures ListenerCount(Some(JObject(m["listeners" := JObject(map["count" := JInt(n)])]))) == Some(n)
    ensures ListenerCount(Some(JObject(m["listeners" := JInt(n)]))) == Some(n)
    ensures ListenerCount(Some(JObject(m["listeners" := JObject(map[])]))) == Some(0)
    ensures ListenerCount(Some(JObject(m - {"listeners"}))) == Some(0)
  {
  }

  function ListenerPoint(entries: seq<FileEntry>, name: string): (r: Option<Point<int>>)
    ensures r.Some? ==> r.value.value > 0 && r.value.date == DatePrefix(name)
    ensures r.Some? <==> ListenerCount(ReadJson(entries, name)).Some? && ListenerCount(ReadJson(entries, name)).value > 0
  {
    match ListenerCount(ReadJson(entries, name))
    case Some(n) => if n > 0 then Some(Point(DatePrefix(name), n)) else None
    case None => None
  }

  function ListenerStep(entries: seq<FileEntry>): string -> Option<Point<int>> {
    name => ListenerPoint(entries, name)
  }

  /** `get_listeners_history()` as a value. */
  function ListenersHistoryOf(dir: DataDir): seq<Point<int>> {
    match dir
    case NoDir => []
    case Dir(entries) => Collect(Listing(entries, "_meta.json"), ListenerStep(entries))
  }

  /** The listener trend holds only positive counts, one per meta file that
      has one, and nothing else. */
  lemma ListenersHistoryMembership(entries: seq<FileEntry>, x: Point<int>)
    ensures var files := Listing(entries, "_meta.json");
            x in ListenersHistoryOf(Dir(entries))
            <==> x.value > 0 && exists i :: 0 <= i < |files| && ListenerCount(ReadJson(entries, files[i])) == Some(x.value)
                                             && x.date == DatePrefix(files[i])
  {
    var files := Listing(entries, "_meta.json");
    var step := ListenerStep(entries);
    CollectMembership(files, step, x);
    forall i | 0 <= i < |files|
      ensures step(files[i]) == Some(x)
              <==> x.value > 0 && ListenerCount(ReadJson(entries, files[i])) == Some(x.value)
                   && x.date == DatePrefix(files[i])
    {
      assert step(files[i]) == ListenerPoint(entries, files[i]);
    }
  }

  /** `get_listeners_history`: the loop over the meta files. */
  method ListenersHistory(dir: DataDir) returns (history: seq<Point<int>>)
    ensures history == ListenersHistoryOf(dir)
  {
    if dir.NoDir? {
      return [];
    }
    var files := Listing(dir.entries, "_meta.json");
    history := Scan(files, ListenerStep(dir.entries));
  }

  // ----- means -----

  function Sum(xs: seq<int>): int
    decreases |xs|
  {
    if xs == [] then 0 else Sum(xs[..|xs| - 1]) + xs[|xs| - 1]
  }

  /** `sum(xs) / len(xs)`, and 0 for no values. */
  function Mean(xs: seq<int>): real {
    if xs == [] then 0.0 else (Sum(xs) as real) / (|xs| as real)
  }

  lemma {:induction false} SumBounds(xs: seq<int>, lo: int, hi: int)
    requires forall i :: 0 <= i < |xs| ==> lo <= xs[i] <= hi
    ensures |xs| * lo <= Sum(xs) <= |xs| * hi
    decreases |xs|
  {
    if xs != [] {
      var front := xs[..|xs| - 1];
      assert forall i :: 0 <= i < |front| ==> front[i] == xs[i];
      SumBounds(front, lo, hi);
      assert |xs| * lo == |front| * lo + lo && |xs| * hi == |front| * hi + hi;
    }
  }

  /** The mean of values in a band lies in that band. */
  lemma MeanBounds(xs: seq<int>, lo: int, hi: int)
    requires xs != [] && forall i :: 0 <= i < |xs| ==> lo <= xs[i] <= hi
    ensures lo as real <= Mean(xs) <= hi as real
  {
    SumBounds(xs, lo, hi);
    var n := |xs| as real;
    var s := Sum(xs) as real;
    assert n * (lo as real) <= s <= n * (hi as real);
    QuotientBounds(s, n, lo as real, hi as real);
  }

  lemma QuotientBounds(s: real, n: real, lo: real, hi: real)
    requires n > 0.0 && n * lo <= s <= n * hi
    ensures lo <= s / n <= hi
  {
    var q := s / n;
    assert q * n == s;
    RealMonotone(q, lo, n);
    RealMonotone(hi, q, n);
  }

  /** The mean of positive values is positive, and 0 only for no values. */
  lemma MeanOfPositives(xs: seq<int>)
    requires forall i :: 0 <= i < |xs| ==> xs[i] > 0
    ensures xs == [] <==> Mean(xs) == 0.0
    ensures xs != [] ==> Mean(xs) > 0.0
  {
    if xs != [] {
      var hi := MaxOf(xs);
      MeanBounds(xs, 1, hi);
    }
  }

  function MaxOf(xs: seq<int>): (m: int)
    requires xs != []
    ensures forall i :: 0 <= i < |xs| ==> xs[i] <= m
    decreases |xs|
  {
    if |xs| == 1 then xs[0]
    else
      var rest := MaxOf(xs[1..]);
      assert forall i :: 1 <= i < |xs| ==> xs[i] == xs[1..][i - 1];
      if xs[0] > rest then xs[0] else rest
  }

  // ----- an album's seven-file average -----

  /** Today's daily count of album `base` in one album file, kept only when
      it is a positive number; `None` when the file is skipped. */
  function AlbumDaily(entries: seq<FileEntry>, name: string, base: string): (r: Option<int>)
    ensures r.Some? ==> r.value > 0
    ensures r.Some? <==> exists n :: ItemDaily(entries, name, base, true) == Some(Int(n)) && n > 0
    ensures r.Some? ==> ItemDaily(entries, name, base, true) == Some(Int(r.value))
  {
    match ItemDaily(entries, name, base, true)
    case Some(Int(n)) => if n > 0 then Some(n) else None
    case _ => None
  }

  function AlbumStep(entries: seq<FileEntry>, base: string): string -> Option<int> {
    name => AlbumDaily(entries, name, base)
  }

  /** The positive daily counts of album `base` in the last seven album files. */
  function AlbumDailies(dir: DataDir, base: string): (r: seq<int>)
    ensures |r| <= 7
  {
    match dir
    case NoDir => []
    case Dir(entries) => Collect(LastSeven(Listing(entries, "_albums.csv")), AlbumStep(entries, base))
  }

  lemma AlbumDailiesPositive(dir: DataDir, base: string)
    ensures forall i :: 0 <= i < |AlbumDailies(dir, base)| ==> AlbumDailies(dir, base)[i] > 0
  {
    if dir.Dir? {
      var files := LastSeven(Listing(dir.entries, "_albums.csv"));
      var step := AlbumStep(dir.entries, base);
      forall i | 0 <= i < |AlbumDailies(dir, base)|
        ensures AlbumDailies(dir, base)[i] > 0
      {
        var x := AlbumDailies(dir, base)[i];
        CollectMembership(files, step, x);
        var k :| 0 <= k < |files| && step(files[k]) == Some(x);
        assert step(files[k]) == AlbumDaily(dir.entries, files[k], base);
      }
    }
  }

  /** `get_album_7day_average(album_base_name)` as a value. */
  function Album7DayAverageOf(dir: DataDir, base: string): real {
    Mean(AlbumDailies(dir, base))
  }

  /** The album average is 0 exactly when none of the last seven album
      files holds a positive daily count for the album, and positive
      otherwise. */
  lemma Album7DayAverageZero(dir: DataDir, base: string)
    ensures Album7DayAverageOf(dir, base) == 0.0 <==> AlbumDailies(dir, base) == []
    ensures Album7DayAverageOf(dir, base) >= 0.0
  {
    AlbumDailiesPositive(dir, base);
    MeanOfPositives(AlbumDailies(dir, base));
  }

  /** `get_album_7day_average`: the loop over the last seven album files. */
  method Album7DayAverage(dir: DataDir, base: string) returns (avg: real)
    ensures avg == Album7DayAverageOf(dir, base)
  {
    if dir.NoDir? {
      return 0.0;
    }
    var recent := LastSeven(Listing(dir.entries, "_albums.csv"));
    if recent == [] {
      return 0.0;
    }
    var dailies := Scan(recent, AlbumStep(dir.entries, base));
    if dailies == [] {
      return 0.0;
    }
    return (Sum(dailies) as real) / (|dailies| as real);
  }

  // ----- the songs' seven-file averages -----

  /** One `(Song, Daily)` row of a daily song file. */
  datatype SongDaily = SongDaily(song: string, daily: Cell)

  /** `df[['Song', 'Daily_Num']]` of one song file; `None` when the file is
      skipped. */
  function SongDailies(entries: seq<FileEntry>, name: string): (r: Option<seq<SongDaily>>)
    ensures r.Some? <==> ReadDaily(entries, name, false).Some?
    ensures r.Some? ==> |r.value| == |ReadDaily(entries, name, false).value.rows|
    ensures r.Some? ==> forall i :: 0 <= i < |r.value| ==>
              && r.value[i].song == NormalizeText(CellAt(ReadCsv(entries, name).value.rows[i], "Song"))
              && r.value[i].daily == CellAt(ReadDaily(entries, name, false).value.rows[i], "Daily_Num")
  {
    match ReadDaily(entries, name, false)
    case None => None
    case Some(t) =>
      Some(seq(|t.rows|, i requires 0 <= i < |t.rows| =>
             SongDaily(PyStr(CellAt(t.rows[i], "Song")), CellAt(t.rows[i], "Daily_Num"))))
  }

  function SongStep(entries: seq<FileEntry>): string -> Option<seq<SongDaily>> {
    name => SongDailies(entries, name)
  }

  function Flatten<T>(xss: seq<seq<T>>): seq<T>
    decreases |xss|
  {
    if xss == [] then [] else Flatten(xss[..|xss| - 1]) + xss[|xss| - 1]
  }

  lemma {:induction false} FlattenMembership<T>(xss: seq<seq<T>>, x: T)
    ensures x in Flatten(xss) <==> exists i :: 0 <= i < |xss| && x in xss[i]
    decreases |xss|
  {
    if xss != [] {
      var front := xss[..|xss| - 1];
      FlattenMembership(front, x);
      if exists i :: 0 <= i < |front| && x in front[i] {
        var i :| 0 <= i < |front| && x in front[i];
        assert xss[i] == front[i];
      }
      if exists i :: 0 <= i < |xss| && x in xss[i] {
        var i :| 0 <= i < |xss| && x in xss[i];
        if i < |xss| - 1 {
          assert front[i] == xss[i];
        }
      }
    }
  }

  /** The integer daily counts of one song, in row order. */
  function DailiesOf(rows: seq<SongDaily>, song: string): (r: seq<int>)
    ensures |r| <= |rows|
    decreases |rows|
  {
    if rows == [] then []
    else
      var last := rows[|rows| - 1];
      DailiesOf(rows[..|rows| - 1], song)
        + (if last.song == song && last.daily.Int? then [last.daily.n] else [])
  }

  lemma {:induction false} DailiesOfMembership(rows: seq<SongDaily>, song: string)
    ensures DailiesOf(rows, song) != []
            <==> exists i :: 0 <= i < |rows| && rows[i].song == song && rows[i].daily.Int?
    decreases |rows|
  {
    if rows != [] {
      var front := rows[..|rows| - 1];
      DailiesOfMembership(front, song);
      if exists i :: 0 <= i < |front| && front[i].song == song && front[i].daily.Int? {
        var i :| 0 <= i < |front| && front[i].song == song && front[i].daily.Int?;
        assert rows[i] == front[i];
      }
      if exists i :: 0 <= i < |rows| && rows[i].song == song && rows[i].daily.Int? {
        var i :| 0 <= i < |rows| && rows[i].song == song && rows[i].daily.Int?;
        if i < |rows| - 1 {
          assert front[i] == rows[i];
        }
      }
    }
  }

  /** The songs with at least one integer daily count. */
  function SongsWithDailies(rows: seq<SongDaily>): set<string> {
    set i | 0 <= i < |rows| && rows[i].daily.Int? :: rows[i].song
  }

  /** `groupby('Song')['Daily'].mean().to_dict()`: each song with an
      integer daily count, mapped to the mean of its counts. */
  function GroupMean(rows: seq<SongDaily>): (r: map<string, real>)
    ensures forall s :: s in r <==> DailiesOf(rows, s) != []
    ensures forall s :: s in r ==> r[s] == Mean(DailiesOf(rows, s))
  {
    forall s ensures s in SongsWithDailies(rows) <==> DailiesOf(rows, s) != [] {
      DailiesOfMembership(rows, s);
    }
    map s | s in SongsWithDailies(rows) :: Mean(DailiesOf(rows, s))
  }

  /** `get_7day_average()` as a value. */
  function SevenDayAverageOf(dir: DataDir): map<string, real> {
    match dir
    case NoDir => map[]
    case Dir(entries) =>
      var recent := LastSeven(Listing(entries, "_songs.csv"));
      if |recent| < 2 then map[]
      else GroupMean(Flatten(Collect(recent, SongStep(entries))))
  }

  /** A song's average lies between the least and the greatest of its
      integer daily counts. */
  lemma GroupMeanBounds(rows: seq<SongDaily>, song: string, lo: int, hi: int)
    requires forall i :: 0 <= i < |rows| && rows[i].song == song && rows[i].daily.Int? ==> lo <= rows[i].daily.n <= hi
    ensures song in GroupMean(rows) ==> lo as real <= GroupMean(rows)[song] <= hi as real
  {
    if song in GroupMean(rows) {
      DailiesOfBounds(rows, song, lo, hi);
      MeanBounds(DailiesOf(rows, song), lo, hi);
    }
  }

  lemma {:induction false} DailiesOfBounds(rows: seq<SongDaily>, song: string, lo: int, hi: int)
    requires forall i :: 0 <= i < |rows| && rows[i].song == song && rows[i].daily.Int? ==> lo <= rows[i].daily.n <= hi
    ensures forall i :: 0 <= i < |DailiesOf(rows, song)| ==> lo <= DailiesOf(rows, song)[i] <= hi
    decreases |rows|
  {
    if rows != [] {
      var front := rows[..|rows| - 1];
      assert forall i :: 0 <= i < |front| ==> front[i] == rows[i];
      DailiesOfBounds(front, song, lo, hi);
    }
  }

  /** The averages name exactly the songs that have an integer daily count
      in at least one of the files read. */
  lemma SongAveragesKeys(entries: seq<FileEntry>, files: seq<string>, song: string)
    ensures var frames := Collect(files, SongStep(entries));
            song in GroupMean(Flatten(frames))
            <==> exists i, d :: 0 <= i < |frames| && SongDaily(song, Int(d)) in frames[i]
  {
    var frames := Collect(files, SongStep(entries));
    var rows := Flatten(frames);
    DailiesOfMembership(rows, song);
    if song in GroupMean(rows) {
      var k :| 0 <= k < |rows| && rows[k].song == song && rows[k].daily.Int?;
      assert rows[k] == SongDaily(song, Int(rows[k].daily.n));
      FlattenMembership(frames, rows[k]);
    }
    if exists i, d :: 0 <= i < |frames| && SongDaily(song, Int(d)) in frames[i] {
      var i, d :| 0 <= i < |frames| && SongDaily(song, Int(d)) in frames[i];
      FlattenMembership(frames, SongDaily(song, Int(d)));
      var k :| 0 <= k < |rows| && rows[k] == SongDaily(song, Int(d));
    }
  }

  /** Song file `name` is read, and one of its rows has `song` as its
      normalized `Song` and a whole number as its daily count. */
  predicate ReportsDaily(entries: seq<FileEntry>, name: string, song: string) {
    match ReadDaily(entries, name, false)
    case None => false
    case Some(t) =>
      exists i :: 0 <= i < |t.rows|
        && NormalizeText(CellAt(ReadCsv(entries, name).value.rows[i], "Song")) == song
        && CellAt(t.rows[i], "Daily_Num").Int?
  }

  /** A file's `(Song, Daily)` rows, when it is read, hold `song` with a
      whole daily count. */
  predicate YieldsCount(rows: Option<seq<SongDaily>>, song: string) {
    rows.Some? && exists i :: 0 <= i < |rows.value| && rows.value[i].song == song && rows.value[i].daily.Int?
  }

  lemma ReportsDailyYields(entries: seq<FileEntry>, name: string, song: string)
    requires ReportsDaily(entries, name, song)
    ensures YieldsCount(SongDailies(entries, name), song)
  {
    var t := ReadDaily(entries, name, false).value;
    var i :| 0 <= i < |t.rows|
      && NormalizeText(CellAt(ReadCsv(entries, name).value.rows[i], "Song")) == song
      && CellAt(t.rows[i], "Daily_Num").Int?;
    var x := SongDailies(entries, name).value;
    assert x[i].song == song && x[i].daily.Int?;
  }

  lemma YieldsReportsDaily(entries: seq<FileEntry>, name: string, song: string)
    requires YieldsCount(SongDailies(entries, name), song)
    ensures ReportsDaily(entries, name, song)
  {
    var x := SongDailies(entries, name).value;
    var i :| 0 <= i < |x| && x[i].song == song && x[i].daily.Int?;
    var t := ReadDaily(entries, name, false).value;
    assert NormalizeText(CellAt(ReadCsv(entries, name).value.rows[i], "Song")) == song
      && CellAt(t.rows[i], "Daily_Num").Int?;
  }

  /** A file reports a song exactly when its `(Song, Daily)` rows hold
      that song with a whole daily count. */
  lemma ReportsDailyRows(entries: seq<FileEntry>, name: string, song: string)
    ensures ReportsDaily(entries, name, song) <==> YieldsCount(SongDailies(entries, name), song)
  {
    if ReportsDaily(entries, name, song) {
      ReportsDailyYields(entries, name, song);
    }
    if YieldsCount(SongDailies(entries, name), song) {
      YieldsReportsDaily(entries, name, song);
    }
  }

  /** Some frame the loop collects holds `song` with a whole daily count
      exactly when some file's step yields such a row. */
  lemma {:induction false} CollectedCount<S>(xs: seq<S>, step: S -> Option<seq<SongDaily>>, song: string)
    ensures var frames := Collect(xs, step);
            (exists j, d :: 0 <= j < |frames| && SongDaily(song, Int(d)) in frames[j])
            <==> exists k :: 0 <= k < |xs| && YieldsCount(step(xs[k]), song)
  {
    var frames := Collect(xs, step);
    if exists j, d :: 0 <= j < |frames| && SongDaily(song, Int(d)) in frames[j] {
      var j, d :| 0 <= j < |frames| && SongDaily(song, Int(d)) in frames[j];
      CollectMembership(xs, step, frames[j]);
      var k :| 0 <= k < |xs| && step(xs[k]) == Some(frames[j]);
      var i :| 0 <= i < |frames[j]| && frames[j][i] == SongDaily(song, Int(d));
      assert YieldsCount(step(xs[k]), song);
    }
    if exists k :: 0 <= k < |xs| && YieldsCount(step(xs[k]), song) {
      var k :| 0 <= k < |xs| && YieldsCount(step(xs[k]), song);
      var x := step(xs[k]).value;
      var i :| 0 <= i < |x| && x[i].song == song && x[i].daily.Int?;
      var d := x[i].daily.n;
      assert x[i] == SongDaily(song, Int(d));
      CollectMembership(xs, step, x);
      var j :| 0 <= j < |frames| && frames[j] == x;
      assert SongDaily(song, Int(d)) in frames[j];
    }
  }

  /** Some frame of the song-file loop holds `song` with a whole daily
      count exactly when some file of the loop reports it. */
  lemma ReportsDailyFrames(entries: seq<FileEntry>, files: seq<string>, song: string)
    ensures var frames := Collect(files, SongStep(entries));
            (exists j, d :: 0 <= j < |frames| && SongDaily(song, Int(d)) in frames[j])
            <==> exists k :: 0 <= k < |files| && ReportsDaily(entries, files[k], song)
  {
    var step := SongStep(entries);
    CollectedCount(files, step, song);
    forall k | 0 <= k < |files|
      ensures ReportsDaily(entries, files[k], song) <==> YieldsCount(step(files[k]), song)
    {
      ReportsDailyRows(entries, files[k], song);
    }
  }

  /** The seven-file averages name exactly the songs that some row of one
      of the last seven song files reports with a whole daily count, and
      none at all when fewer than two song files exist. */
  lemma SevenDayAverageKeys(entries: seq<FileEntry>, song: string)
    ensures var recent := LastSeven(Listing(entries, "_songs.csv"));
            song in SevenDayAverageOf(Dir(entries))
            <==> |recent| >= 2 && exists k :: 0 <= k < |recent| && ReportsDaily(entries, recent[k], song)
  {
    var recent := LastSeven(Listing(entries, "_songs.csv"));
    if |recent| >= 2 {
      SongAveragesKeys(entries, recent, song);
      ReportsDailyFrames(entries, recent, song);
    }
  }

  /** `get_7day_average`: the loop over the last seven song files, then
      the per-song mean. */
  method SevenDayAverage(dir: DataDir) returns (averages: map<string, real>)
    ensures averages == SevenDayAverageOf(dir)
  {
    if dir.NoDir? {
      return map[];
    }
    var recent := LastSeven(Listing(dir.entries, "_songs.csv"));
    if |recent| < 2 {
      return map[];
    }
    var frames := Scan(recent, SongStep(dir.entries));
    if frames == [] {
      return map[];
    }
    averages := GroupMean(Flatten(frames));
  }
}
