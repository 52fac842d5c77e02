/** The `daily_data` directory as the engine sees it: file names matched by
    `glob`, put in order by `sorted`, split at the first `_` into a date,
    and read with `read_csv` or `json.load`. */
module Files {
  import opened Wrappers
  import opened PyText
  import opened Cells
  import opened Frames

  /** A parsed JSON document, as far as the engine looks into it: whole
      numbers, objects, and everything else. */
  datatype Json = JInt(n: int) | JObject(fields: map<string, Json>) | JOther

  /** One file of the directory: its name, what `pd.read_csv` returns for
      it and what `json.load` returns for it (`None` where the call raises). */
  datatype FileEntry = FileEntry(name: string, csv: Option<Table>, json: Option<Json>)

  /** `daily_data`: absent, or present with its entries in directory order. */
  datatype DataDir = NoDir | Dir(entries: seq<FileEntry>)

  // ----- glob -----

  /** `glob("*" + suffix)` matches a name: it ends with the suffix and, as
      for every `*` pattern, does not start with a dot. */
  predicate Matches(name: string, suffix: string) {
    EndsWith(name, suffix) && (name == [] || name[0] != '.')
  }

  /** The names `glob` returns for `*suffix`, in directory order. */
  function Glob(entries: seq<FileEntry>, suffix: string): (r: seq<string>)
    ensures |r| <= |entries|
    ensures forall n :: n in r ==> Matches(n, suffix)
    ensures forall n :: n in r <==> exists e :: e in entries && e.name == n && Matches(n, suffix)
  {
    if entries == [] then []
    else
      var rest := Glob(entries[1..], suffix);
      assert forall e :: e in entries <==> e == entries[0] || e in entries[1..];
      if Matches(entries[0].name, suffix) then [entries[0].name] + rest else rest
  }

  /** The first entry with the given name: what `open` reaches. */
  function Find(entries: seq<FileEntry>, name: string): (r: Option<FileEntry>)
    ensures r.Some? ==> r.value in entries && r.value.name == name
    ensures r.None? ==> forall e :: e in entries ==> e.name != name
  {
    if entries == [] then None
    else if entries[0].name == name then Some(entries[0])
    else Find(entries[1..], name)
  }

  /** `os.path.exists(path)` for a file of the directory. */
  predicate Exists(entries: seq<FileEntry>, name: string) {
    Find(entries, name).Some?
  }

  /** `pd.read_csv(path)`; `None` where it raises, including a missing file. */
  function ReadCsv(entries: seq<FileEntry>, name: string): Option<Table> {
    match Find(entries, name)
    case Some(e) => e.csv
    case None => None
  }

  /** `json.load(open(path))`; `None` where either raises. */
  function ReadJson(entries: seq<FileEntry>, name: string): Option<Json> {
    match Find(entries, name)
    case Some(e) => e.json
    case None => None
  }

  // ----- sorted -----

  /** Python's `a <= b` on strings: code point by code point, a proper
      prefix first. */
  predicate LexLe(a: string, b: string)
    decreases |a|
  {
    a == [] || (b != [] && (a[0] < b[0] || (a[0] == b[0] && LexLe(a[1..], b[1..]))))
  }

  lemma {:induction false} LexLeTotal(a: string, b: string)
    ensures LexLe(a, b) || LexLe(b, a)
    decreases |a|
  {
    if a != [] && b != [] && a[0] == b[0] {
      LexLeTotal(a[1..], b[1..]);
    }
  }

  lemma {:induction false} LexLeTrans(a: string, b: string, c: string)
    requires LexLe(a, b) && LexLe(b, c)
    ensures LexLe(a, c)
    decreases |a|
  {
    if a != [] && a[0] == b[0] && b[0] == c[0] {
      LexLeTrans(a[1..], b[1..], c[1..]);
    }
  }

  /** Each name is at most the next one. */
  predicate Sorted(s: seq<string>)
    decreases |s|
  {
    |s| < 2 || (LexLe(s[0], s[1]) && Sorted(s[1..]))
  }

  /** Inserts `x` before the first name it is at most. */
  function Insert(x: string, s: seq<string>): (r: seq<string>)
    ensures |r| == |s| + 1
    ensures r[0] == x || (s != [] && r[0] == s[0])
    ensures multiset(r) == multiset(s) + multiset{x}
    decreases |s|
  {
    if s == [] || LexLe(x, s[0]) then [x] + s
    else
      assert s == [s[0]] + s[1..];
      [s[0]] + Insert(x, s[1..])
  }

  lemma {:induction false} InsertSorted(x: string, s: seq<string>)
    requires Sorted(s)
    ensures Sorted(Insert(x, s))
    decreases |s|
  {
    if s != [] && !LexLe(x, s[0]) {
      LexLeTotal(x, s[0]);
      InsertSorted(x, s[1..]);
      var r := Insert(x, s[1..]);
      assert Insert(x, s) == [s[0]] + r;
      assert ([s[0]] + r)[1..] == r;
    }
  }

  /** `sorted(names)`. */
  function SortNames(s: seq<string>): (r: seq<string>)
    ensures |r| == |s| && multiset(r) == multiset(s)
    decreases |s|
  {
    if s == [] then []
    else
      assert s == [s[0]] + s[1..];
      Insert(s[0], SortNames(s[1..]))
  }

  /** `sorted` returns its input in ascending order. */
  lemma {:induction false} SortNamesSorted(s: seq<string>)
    ensures Sorted(SortNames(s))
    decreases |s|
  {
    if s != [] {
      SortNamesSorted(s[1..]);
      InsertSorted(s[0], SortNames(s[1..]));
    }
  }

  /** In a sorted list every name is at most every later one. */
  lemma {:induction false} SortedPairs(s: seq<string>, i: int, j: int)
    requires Sorted(s) && 0 <= i <= j < |s|
    ensures LexLe(s[i], s[j])
    decreases j - i
  {
    if i == j {
      LexLeReflexive(s[i]);
    } else {
      SortedStep(s, i);
      SortedPairs(s, i + 1, j);
      LexLeTrans(s[i], s[i + 1], s[j]);
    }
  }

  lemma {:induction false} SortedStep(s: seq<string>, i: int)
    requires Sorted(s) && 0 <= i < |s| - 1
    ensures LexLe(s[i], s[i + 1])
    decreases i
  {
    if i > 0 {
      SortedStep(s[1..], i - 1);
    }
  }

  lemma {:induction false} LexLeReflexive(a: string)
    ensures LexLe(a, a)
    decreases |a|
  {
    if a != [] {
      LexLeReflexive(a[1..]);
    }
  }

  /** The files `sorted(glob(...))` lists for a suffix. */
  function Listing(entries: seq<FileEntry>, suffix: string): seq<string> {
    SortNames(Glob(entries, suffix))
  }

  /** The last name of the listing is the greatest match, and the one
      before it is the greatest of the others. */
  lemma LatestAndPrevious(entries: seq<FileEntry>, suffix: string)
    ensures var files := Listing(entries, suffix);
      && multiset(files) == multiset(Glob(entries, suffix))
      && (files != [] ==> forall k :: 0 <= k < |files| ==> LexLe(files[k], files[|files| - 1]))
      && (|files| >= 2 ==> forall k :: 0 <= k < |files| - 1 ==> LexLe(files[k], files[|files| - 2]))
  {
    var files := Listing(entries, suffix);
    SortNamesSorted(Glob(entries, suffix));
    forall k | 0 <= k < |files|
      ensures LexLe(files[k], files[|files| - 1])
    {
      SortedPairs(files, k, |files| - 1);
    }
    forall k | 0 <= k < |files| - 1
      ensures LexLe(files[k], files[|files| - 2])
    {
      SortedPairs(files, k, |files| - 2);
    }
  }

  /** `files[-7:]`: the last seven names, or all of them when there are fewer. */
  function LastSeven(files: seq<string>): (r: seq<string>)
    ensures |r| <= 7 && (|files| >= 7 ==> |r| == 7) && (|files| < 7 ==> r == files)
    ensures r == files[|files| - |r|..]
  {
    if |files| <= 7 then files else files[|files| - 7..]
  }

  // ----- dates -----

  /** `os.path.basename(f).split('_')[0]`: the date a daily file belongs to. */
  function DatePrefix(name: string): (r: string)
    ensures '_' !in r && r <= name
  {
    UpToFirst(name, '_')
  }

  /** A file named after a date reads back that date. */
  lemma DatePrefixOf(date: string, kind: string)
    requires '_' !in date
    ensures DatePrefix(date + "_" + kind) == date
  {
    UpToFirstSplit(date, '_', kind);
  }

  // ----- reading one daily table -----

  /** A daily table as the engine uses it: read with `read_csv`, song
      names passed through `normalize_text` (song files only), then
      `standardize_columns`. `None` where a step raises. */
  function ReadDaily(entries: seq<FileEntry>, name: string, isAlbum: bool): (r: Option<Table>)
    ensures r.Some? <==> ReadCsv(entries, name).Some?
                         && (isAlbum || "Song" in ReadCsv(entries, name).value.columns)
    ensures r.Some? && isAlbum ==> r.value == Standardized(ReadCsv(entries, name).value, true)
    ensures r.Some? && !isAlbum ==>
              r.value == Standardized(NormalizedSongs(ReadCsv(entries, name).value).value, false)
    ensures r.Some? ==> |r.value.rows| == |ReadCsv(entries, name).value.rows|
    ensures r.Some? ==> "Daily_Num" in r.value.columns && CountColumn(isAlbum) in r.value.columns
    ensures r.Some? && !isAlbum ==> "Song" in r.value.columns
    ensures r.Some? && !isAlbum ==> forall i :: 0 <= i < |r.value.rows| ==>
              CellAt(r.value.rows[i], "Song")
              == Str(NormalizeText(CellAt(ReadCsv(entries, name).value.rows[i], "Song")))
  {
    match ReadCsv(entries, name)
    case None => None
    case Some(raw) =>
      if isAlbum then
        StandardizedShape(raw, true);
        Some(Standardized(raw, true))
      else
        match NormalizedSongs(raw)
        case None => None
        case Some(t) =>
          StandardizedShape(t, false);
          Some(Standardized(t, false))
  }
}
