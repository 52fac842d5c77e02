/** `load_data_pair`: today's song, album and meta files, picked by the
    latest song file's date, and the day before's song and album files
    when there is one. */
module Loader {
  import opened Wrappers
  import opened PyText
  import opened Frames
  import opened Files

  /** The six values `load_data_pair` returns when it succeeds. */
  datatype Snapshot = Snapshot(
    songs: Table,
    albums: Option<Table>,
    meta: Json,
    date: string,
    prevSongs: Option<Table>,
    prevAlbums: Option<Table>)

  /** No data directory or no song file (six `None`s, nothing reported);
      a failure while reading today's files (six `None`s after an error
      message naming the date); or the loaded snapshot. */
  datatype LoadResult = NoData | LoadFailed(date: string) | Loaded(snapshot: Snapshot)

  /** The companion file of a daily file: same date, another kind. */
  function Companion(date: string, kind: string): string {
    date + "_" + kind
  }

  /** Today's albums: `None` inside when the file does not exist; the
      outer `None` when it exists and reading it raises. */
  function TodayAlbums(entries: seq<FileEntry>, albumFile: string): (r: Option<Option<Table>>)
    ensures !Exists(entries, albumFile) ==> r == Some(None)
    ensures Exists(entries, albumFile) && ReadDaily(entries, albumFile, true).Some?
            ==> r == Some(ReadDaily(entries, albumFile, true))
    ensures Exists(entries, albumFile) && ReadDaily(entries, albumFile, true).None? ==> r.None?
  {
    if !Exists(entries, albumFile) then Some(None)
    else
      match ReadDaily(entries, albumFile, true)
      case None => None
      case Some(t) => Some(Some(t))
  }

  /** The inner `try` for the day before, as written: once `read_csv` has
      succeeded the frame stays bound, so a previous song file without a
      `Song` column is returned raw, unnormalised and unstandardised. */
  function LoadPreviousAsWritten(entries: seq<FileEntry>, prevFile: string): (r: (Option<Table>, Option<Table>))
    ensures r.1.Some? ==> r.0.Some?
  {
    var prevAlbumFile := Companion(DatePrefix(prevFile), "albums.csv");
    match ReadCsv(entries, prevFile)
    case None => (None, None)
    case Some(raw) =>
      match NormalizedSongs(raw)
      case None => (Some(raw), None)
      case Some(t) =>
        var songs := Standardized(t, false);
        if Exists(entries, prevAlbumFile) then
          match ReadCsv(entries, prevAlbumFile)
          case None => (Some(songs), None)
          case Some(a) => (Some(songs), Some(Standardized(a, true)))
        else (Some(songs), None)
  }

  /** A previous song file that lacks a `Song` column comes back as the raw
      table, still without `Song`. */
  lemma PreviousWithoutSongAsWritten(entries: seq<FileEntry>, prevFile: string, raw: Table)
    requires ReadCsv(entries, prevFile) == Some(raw) && "Song" !in raw.columns
    ensures LoadPreviousAsWritten(entries, prevFile) == (Some(raw), None)
    ensures "Song" !in LoadPreviousAsWritten(entries, prevFile).0.value.columns
  {
  }

  /** The inner `try` for the day before, with a failure anywhere in the
      previous song file discarding it, as the `except` evidently intends. */
  function LoadPrevious(entries: seq<FileEntry>, prevFile: string): (r: (Option<Table>, Option<Table>))
    ensures r.0 == ReadDaily(entries, prevFile, false)
    ensures var albumFile := Companion(DatePrefix(prevFile), "albums.csv");
            r.1 == if r.0.Some? && Exists(entries, albumFile) then ReadDaily(entries, albumFile, true) else None
    ensures r.1.Some? ==> r.0.Some?
  {
    var prevAlbumFile := Companion(DatePrefix(prevFile), "albums.csv");
    match ReadDaily(entries, prevFile, false)
    case None => (None, None)
    case Some(songs) =>
      if Exists(entries, prevAlbumFile) then
        match ReadDaily(entries, prevAlbumFile, true)
        case None => (Some(songs), None)
        case Some(a) => (Some(songs), Some(a))
      else (Some(songs), None)
  }

  /** Both versions agree on every previous song file that has a `Song`
      column, and differ only by returning the raw table for one without. */
  lemma LoadPreviousAgrees(entries: seq<FileEntry>, prevFile: string)
    ensures ReadCsv(entries, prevFile).Some? && "Song" !in ReadCsv(entries, prevFile).value.columns
            ==> LoadPrevious(entries, prevFile) == (None, None)
    ensures !(ReadCsv(entries, prevFile).Some? && "Song" !in ReadCsv(entries, prevFile).value.columns)
            ==> LoadPrevious(entries, prevFile) == LoadPreviousAsWritten(entries, prevFile)
  {
  }

  /** The day before: the second-greatest song file, when there are two,
      read by the corrected `LoadPrevious`. */
  function PreviousPair(entries: seq<FileEntry>, files: seq<string>): (r: (Option<Table>, Option<Table>))
    ensures |files| < 2 ==> r == (None, None)
    ensures |files| >= 2 ==> r == LoadPrevious(entries, files[|files| - 2])
    ensures r.0.Some? ==> "Song" in r.0.value.columns && "Daily_Num" in r.0.value.columns
    ensures r.1.Some? ==> r.0.Some? && "Daily_Num" in r.1.value.columns && "Total_Num" in r.1.value.columns
  {
    if |files| >= 2 then LoadPrevious(entries, files[|files| - 2]) else (None, None)
  }

  /** `load_data_pair()`, with the corrected inner `try` for the day before
      (`PreviousPair`, `LoadPrevious`); `LoadPreviousAsWritten` is the
      `try` as the code has it. The date loaded or reported is that of the
      last song file of the listing, the greatest name (`LatestAndPrevious`). */
  function LoadDataPair(dir: DataDir): (r: LoadResult)
    ensures !r.NoData? ==> dir.Dir? && var files := Listing(dir.entries, "_songs.csv");
              files != [] && (if r.Loaded? then r.snapshot.date else r.date) == DatePrefix(files[|files| - 1])
    ensures dir.Dir? && Listing(dir.entries, "_songs.csv") != [] ==>
              var files := Listing(dir.entries, "_songs.csv");
              var latest := files[|files| - 1];
              var date := DatePrefix(latest);
              && (r.Loaded? || r.LoadFailed?)
              && (r.Loaded? <==>
                    && ReadDaily(dir.entries, latest, false).Some?
                    && ReadJson(dir.entries, Companion(date, "meta.json")).Some?
                    && TodayAlbums(dir.entries, Companion(date, "albums.csv")).Some?)
  {
    match dir
    case NoDir => NoData
    case Dir(entries) =>
      var files := Listing(entries, "_songs.csv");
      if files == [] then NoData
      else
        var latest := files[|files| - 1];
        var date := DatePrefix(latest);
        match (ReadDaily(entries, latest, false),
               ReadJson(entries, Companion(date, "meta.json")),
               TodayAlbums(entries, Companion(date, "albums.csv")))
        case (Some(songs), Some(meta), Some(albums)) =>
          var prev := PreviousPair(entries, files);
          Loaded(Snapshot(songs, albums, meta, date, prev.0, prev.1))
        case _ => LoadFailed(date)
  }

  /** Nothing is loaded, and nothing reported, exactly when the directory
      or every song file is missing. */
  lemma LoadDataPairNoData(dir: DataDir)
    ensures LoadDataPair(dir).NoData? <==> dir.NoDir? || Glob(dir.entries, "_songs.csv") == []
  {
    if dir.Dir? {
      var files := Listing(dir.entries, "_songs.csv");
      assert |files| == |Glob(dir.entries, "_songs.csv")|;
    }
  }

  /** A loaded snapshot has today's standardised songs with `Song`, and
      today's meta; albums are there exactly when today's album file
      exists. */
  lemma LoadedToday(entries: seq<FileEntry>)
    requires LoadDataPair(Dir(entries)).Loaded?
    ensures var s := LoadDataPair(Dir(entries)).snapshot;
            var files := Listing(entries, "_songs.csv");
      && Some(s.songs) == ReadDaily(entries, files[|files| - 1], false)
      && "Song" in s.songs.columns && "Daily_Num" in s.songs.columns && "Streams_Num" in s.songs.columns
      && Some(s.meta) == ReadJson(entries, Companion(s.date, "meta.json"))
      && (s.albums.Some? <==> Exists(entries, Companion(s.date, "albums.csv")))
      && (s.albums.Some? ==> "Daily_Num" in s.albums.value.columns && "Total_Num" in s.albums.value.columns)
  {
  }

  /** The day before is loaded only when there are two song files, from
      the second-greatest, by the corrected loader (`PreviousPair`). */
  lemma LoadedPrevious(entries: seq<FileEntry>)
    requires LoadDataPair(Dir(entries)).Loaded?
    ensures var s := LoadDataPair(Dir(entries)).snapshot;
            (s.prevSongs, s.prevAlbums) == PreviousPair(entries, Listing(entries, "_songs.csv"))
  {
  }
}
