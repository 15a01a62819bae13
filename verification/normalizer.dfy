/** `MultiSourceDataFetcher._standardize_data` and `_generate_mock_data`
    (Data_Analysis/stocker/data_sources.py): rename columns case-insensitively,
    check the required columns, synthesise a missing volume, derive the adjusted
    and Prophet columns, and sort by date. Prices are integers and dates are day
    numbers counted from 1970-01-01. */
module Normalizer {
  import opened Results
  import opened Text
  import opened Frames

  /** One standardised row. `ds` and `y` are the columns Prophet reads. */
  datatype Bar = Bar(
    date: int, open: int, high: int, low: int, close: int, volume: int,
    adjClose: int, adjOpen: int, ds: int, y: int, dailyChange: int)

  /** The columns every standardised table carries, in checking order. */
  const Required: seq<string> := ["Date", "Open", "High", "Low", "Close", "Volume"]

  /** Lower-cased synonym → canonical column name. */
  const Synonyms: map<string, string> :=
    map["date" := "Date", "open" := "Open", "high" := "High",
        "low" := "Low", "close" := "Close", "volume" := "Volume"]

  /** `np.random.randint(100000, 10000000)`: the generator's raw draw reduced into
      the half-open range. */
  const VolumeLow: int := 100000
  const VolumeHigh: int := 10000000

  function RandomVolume(draw: int): (v: int)
    ensures VolumeLow <= v < VolumeHigh
  {
    VolumeLow + draw % (VolumeHigh - VolumeLow)
  }

  /** `column_mapping.get(col.lower(), col)`. */
  function Canonical(c: string): string {
    var l := Lower(c);
    if l in Synonyms then Synonyms[l] else c
  }

  function Rename(cols: seq<string>): (r: seq<string>)
    ensures |r| == |cols|
    ensures forall i :: 0 <= i < |cols| ==> r[i] == Canonical(cols[i])
  {
    seq(|cols|, i requires 0 <= i < |cols| => Canonical(cols[i]))
  }

  /** Every canonical name maps to itself. */
  lemma SynonymValuesAreFixed()
    ensures forall l :: l in Synonyms ==> Canonical(Synonyms[l]) == Synonyms[l]
  {
    assert Lower("Date") == "date";
    assert Lower("Open") == "open";
    assert Lower("High") == "high";
    assert Lower("Low") == "low";
    assert Lower("Close") == "close";
    assert Lower("Volume") == "volume";
  }

  /** Renaming a renamed column changes nothing; unknown names pass through. */
  lemma CanonicalIdempotent(c: string)
    ensures Canonical(Canonical(c)) == Canonical(c)
    ensures Lower(c) !in Synonyms ==> Canonical(c) == c
  {
    SynonymValuesAreFixed();
  }

  lemma RenameIdempotent(cols: seq<string>)
    ensures Rename(Rename(cols)) == Rename(cols)
  {
    forall i | 0 <= i < |cols| ensures Rename(Rename(cols))[i] == Rename(cols)[i] {
      CanonicalIdempotent(cols[i]);
    }
  }

  /** The check loop over `Required` from position `k`: a missing column raises,
      except Volume, which is synthesised when Close is present. */
  function MissingColumn(cols: seq<string>, k: nat): (r: Option<string>)
    requires k <= |Required|
    ensures r.None? <==> forall j :: k <= j < |Required| ==>
      Required[j] in cols || (Required[j] == "Volume" && "Close" in cols)
    ensures r.Some? ==> exists j :: k <= j < |Required| && Required[j] == r.value && r.value !in cols
    ensures r.Some? ==> exists j :: (k <= j < |Required| && Required[j] == r.value &&
      forall i :: k <= i < j ==> Required[i] in cols || (Required[i] == "Volume" && "Close" in cols))
    decreases |Required| - k
  {
    if k == |Required| then None
    else
      var c := Required[k];
      if c !in cols && !(c == "Volume" && "Close" in cols) then Some(c)
      else MissingColumn(cols, k + 1)
  }

  /** Only the five price columns can make standardisation fail; Volume never does,
      because Close is checked before it. */
  lemma {:induction false} MissingColumnIsPrice(cols: seq<string>)
    ensures MissingColumn(cols, 0).None? <==>
      "Date" in cols && "Open" in cols && "High" in cols && "Low" in cols && "Close" in cols
    ensures MissingColumn(cols, 0) != Some("Volume")
  {
    if "Date" in cols && "Open" in cols && "High" in cols && "Low" in cols && "Close" in cols {
      assert MissingColumn(cols, 5) == MissingColumn(cols, 6);
      assert MissingColumn(cols, 3) == MissingColumn(cols, 5);
      assert MissingColumn(cols, 0) == MissingColumn(cols, 3);
    } else {
      assert MissingColumn(cols, 0).Some? by {
        var j := if "Date" !in cols then 0 else if "Open" !in cols then 1
          else if "High" !in cols then 2 else if "Low" !in cols then 3 else 4;
        assert !(Required[j] in cols || (Required[j] == "Volume" && "Close" in cols));
      }
      if "Date" !in cols {
      } else if "Open" !in cols {
        assert MissingColumn(cols, 0) == MissingColumn(cols, 1);
      } else if "High" !in cols {
        assert MissingColumn(cols, 0) == MissingColumn(cols, 2);
      } else if "Low" !in cols {
        assert MissingColumn(cols, 0) == MissingColumn(cols, 2);
        assert MissingColumn(cols, 2) == MissingColumn(cols, 3);
      } else {
        assert MissingColumn(cols, 0) == MissingColumn(cols, 2);
        assert MissingColumn(cols, 2) == MissingColumn(cols, 4);
      }
    }
  }

  predicate HasPrices(cols: seq<string>) {
    "Date" in cols && "Open" in cols && "High" in cols && "Low" in cols && "Close" in cols
  }

  /** The derived columns: `Adj. Close = Close`, `Adj. Open = Open`, `ds = Date`,
      `y = Adj. Close`, `Daily Change = Adj. Close - Adj. Open`. */
  predicate Derived(b: Bar) {
    && b.adjClose == b.close && b.adjOpen == b.open
    && b.ds == b.date && b.y == b.adjClose
    && b.dailyChange == b.adjClose - b.adjOpen
  }

  function Cell(cols: seq<string>, row: seq<int>, name: string): int
    requires |row| == |cols| && name in cols
  {
    row[ColumnIndex(cols, name)]
  }

  /** One input row after renaming, volume synthesis and derivation; `i` is the
      row's position, which picks its random draw. */
  function RowToBar(cols: seq<string>, row: seq<int>, i: nat, draw: nat -> int): (b: Bar)
    requires |row| == |cols| && HasPrices(cols)
    ensures Derived(b)
    ensures b.date == Cell(cols, row, "Date") && b.open == Cell(cols, row, "Open")
    ensures b.high == Cell(cols, row, "High") && b.low == Cell(cols, row, "Low")
    ensures b.close == Cell(cols, row, "Close")
    ensures "Volume" in cols ==> b.volume == Cell(cols, row, "Volume")
    ensures "Volume" !in cols ==> VolumeLow <= b.volume < VolumeHigh
  {
    var date := Cell(cols, row, "Date");
    var open := Cell(cols, row, "Open");
    var close := Cell(cols, row, "Close");
    var volume := if "Volume" in cols then Cell(cols, row, "Volume") else RandomVolume(draw(i));
    Bar(date, open, Cell(cols, row, "High"), Cell(cols, row, "Low"), close, volume,
        close, open, date, close, close - open)
  }

  /** The rows of a table as bars, in input order. */
  function RowsToBars(t: Table, cols: seq<string>, draw: nat -> int): (bars: seq<Bar>)
    requires |cols| == |t.columns| && HasPrices(cols)
    ensures |bars| == |t.rows|
    ensures forall i :: 0 <= i < |t.rows| ==> bars[i] == RowToBar(cols, t.rows[i], i, draw)
  {
    seq(|t.rows|, i requires 0 <= i < |t.rows| => RowToBar(cols, t.rows[i], i, draw))
  }

  predicate SortedByDate(s: seq<Bar>) {
    forall i, j :: 0 <= i < j < |s| ==> s[i].date <= s[j].date
  }

  /** Every element of a permutation of `s + [b]` is no earlier than `lo`
      when all of `s` and `b` are. */
  lemma BoundedPermutation(lo: int, b: Bar, s: seq<Bar>, r: seq<Bar>)
    requires multiset(r) == multiset(s) + multiset{b}
    requires lo <= b.date
    requires forall k :: 0 <= k < |s| ==> lo <= s[k].date
    ensures forall k :: 0 <= k < |r| ==> lo <= r[k].date
  {
    forall k | 0 <= k < |r| ensures lo <= r[k].date {
      assert r[k] in multiset(r);
      if r[k] != b {
        assert r[k] in multiset(s);
        var m :| 0 <= m < |s| && s[m] == r[k];
      }
    }
  }

  /** Inserts `b` into a date-sorted sequence. */
  function InsertByDate(b: Bar, s: seq<Bar>): (r: seq<Bar>)
    requires SortedByDate(s)
    ensures SortedByDate(r)
    ensures multiset(r) == multiset(s) + multiset{b}
    ensures |r| == |s| + 1
  {
    if |s| == 0 then [b]
    else if b.date <= s[0].date then [b] + s
    else
      var rest := InsertByDate(b, s[1..]);
      assert s == [s[0]] + s[1..];
      BoundedPermutation(s[0].date, b, s[1..], rest);
      [s[0]] + rest
  }

  /** `sort_values('Date')`: the result is in date order and is a permutation of
      the input. (pandas' default sort is not stable, so nothing is promised about
      rows with equal dates.) */
  function SortByDate(s: seq<Bar>): (r: seq<Bar>)
    ensures SortedByDate(r)
    ensures multiset(r) == multiset(s)
    ensures |r| == |s|
  {
    if |s| == 0 then []
    else
      assert s == [s[0]] + s[1..];
      InsertByDate(s[0], SortByDate(s[1..]))
  }

  /** `_standardize_data`: fails naming the first missing price column, in the
      order Date, Open, High, Low, Close; otherwise every input row becomes one bar
      with its derived columns, the bars are a permutation of the rows in date
      order, and a volume invented for a table without one lies in
      [100000, 10000000). */
  function Standardize(t: Table, draw: nat -> int): (r: Result<seq<Bar>, string>)
    ensures r.Err? <==> !HasPrices(Rename(t.columns))
    ensures r.Err? ==> r.error in Required[..5] && r.error !in Rename(t.columns)
    ensures r.Err? ==> exists j :: (0 <= j < 5 && Required[j] == r.error &&
      forall i :: 0 <= i < j ==> Required[i] in Rename(t.columns))
    ensures r.Ok? ==>
      && |r.value| == |t.rows|
      && SortedByDate(r.value)
      && multiset(r.value) == multiset(RowsToBars(t, Rename(t.columns), draw))
      && (forall b :: b in r.value ==> Derived(b))
    ensures r.Ok? && "Volume" !in Rename(t.columns) ==>
      forall b :: b in r.value ==> VolumeLow <= b.volume < VolumeHigh
  {
    var cols := Rename(t.columns);
    MissingColumnIsPrice(cols);
    match MissingColumn(cols, 0)
    case Some(c) =>
      assert c != "Volume";
      Err(c)
    case None =>
      var sorted := SortByDate(RowsToBars(t, cols, draw));
      SortedBarsKeep(t, cols, draw, sorted);
      Ok(sorted)
  }

  /** Each bar of a permutation of the converted rows is one of them, so it has its
      derived columns and, when the volume was invented, an in-range volume. */
  lemma SortedBarsKeep(t: Table, cols: seq<string>, draw: nat -> int, sorted: seq<Bar>)
    requires |cols| == |t.columns| && HasPrices(cols)
    requires multiset(sorted) == multiset(RowsToBars(t, cols, draw))
    ensures forall b :: b in sorted ==> Derived(b)
    ensures "Volume" !in cols ==> forall b :: b in sorted ==> VolumeLow <= b.volume < VolumeHigh
  {
    var bars := RowsToBars(t, cols, draw);
    forall b | b in sorted
      ensures Derived(b) && ("Volume" !in cols ==> VolumeLow <= b.volume < VolumeHigh)
    {
      assert b in multiset(sorted);
      assert b in multiset(bars);
      var i :| 0 <= i < |bars| && bars[i] == b;
    }
  }

  /** A table that already carries the six canonical columns is accepted, and its
      labels survive the rename unchanged. */
  lemma StandardizeCanonical(t: Table, draw: nat -> int)
    requires t.columns == Required
    ensures Standardize(t, draw).Ok?
    ensures Rename(t.columns) == Required
  {
    SynonymValuesAreFixed();
    assert Rename(Required) == Required by {
      assert Canonical("Date") == "Date";
      assert Canonical("Open") == "Open";
      assert Canonical("High") == "High";
      assert Canonical("Low") == "Low";
      assert Canonical("Close") == "Close";
      assert Canonical("Volume") == "Volume";
    }
  }

  /** Inputs to the mock series that stand in for numpy's random generator. */
  datatype Noise = Noise(
    open: nat -> int, high: nat -> int, low: nat -> int, close: nat -> int, volume: nat -> int)

  /** Day number of 2024-01-01, and the 366 days of 2024. */
  const MockStart: int := 19723
  const MockDays: nat := 366

  function MockRow(noise: Noise, i: nat): (row: seq<int>)
    ensures |row| == |Required|
    ensures row[0] == MockStart + i && row[5] == RandomVolume(noise.volume(i))
  {
    [MockStart + i, noise.open(i), noise.high(i), noise.low(i), noise.close(i),
     RandomVolume(noise.volume(i))]
  }

  /** `_generate_mock_data` before standardisation: one row per day of 2024. */
  function MockTable(noise: Noise): (t: Table)
    ensures t.columns == Required && |t.rows| == MockDays
    ensures forall i :: 0 <= i < MockDays ==> t.rows[i] == MockRow(noise, i)
  {
    Grid(Required, seq(MockDays, i requires 0 <= i < MockDays => MockRow(noise, i)))
  }

  /** Bars built from the mock rows carry 2024 dates and in-range volumes. */
  lemma MockBars(noise: Noise)
    ensures forall b :: b in RowsToBars(MockTable(noise), Required, noise.volume) ==>
      VolumeLow <= b.volume < VolumeHigh && MockStart <= b.date < MockStart + MockDays
  {
    var t := MockTable(noise);
    var bars := RowsToBars(t, Required, noise.volume);
    forall i | 0 <= i < |bars|
      ensures VolumeLow <= bars[i].volume < VolumeHigh && MockStart <= bars[i].date < MockStart + MockDays
    {
      assert bars[i] == RowToBar(Required, t.rows[i], i, noise.volume);
      MockRowBar(noise, i);
    }
  }

  lemma MockRowBar(noise: Noise, i: nat)
    requires i < MockDays
    ensures var b := RowToBar(Required, MockRow(noise, i), i, noise.volume);
      VolumeLow <= b.volume < VolumeHigh && b.date == MockStart + i
  {
    RequiredPositions();
  }

  lemma RequiredPositions()
    ensures "Volume" in Required && ColumnIndex(Required, "Volume") == 5
    ensures "Date" in Required && ColumnIndex(Required, "Date") == 0
  {
  }

  /** The mock series: 366 bars of 2024 in date order, each volume in
      [100000, 10000000). */
  function MockSeries(noise: Noise): (r: seq<Bar>)
    ensures |r| == MockDays
    ensures SortedByDate(r)
    ensures forall b :: b in r ==> VolumeLow <= b.volume < VolumeHigh && Derived(b)
    ensures forall b :: b in r ==> MockStart <= b.date < MockStart + MockDays
  {
    var t := MockTable(noise);
    StandardizeCanonical(t, noise.volume);
    MockBars(noise);
    match Standardize(t, noise.volume)
    case Ok(sorted) =>
      assert forall b :: b in sorted ==> b in multiset(RowsToBars(t, Required, noise.volume));
      sorted
  }
}
