/** `CompleteStockNameManager`: the cached directory of every A-share's name and
    board. Names come from a bulk listing fetch (three akshare listing calls),
    from single live lookups, or from a pickled cache that expires after seven days. */
module CompleteNames {
  import opened Results
  import opened Text
  import opened Dicts
  import opened Frames
  import opened Tickers

  const CacheExpireDays: int := 7
  /** Instants are integer microseconds, the resolution of Python's `datetime`. */
  const MicrosPerDay: int := 86_400_000_000
  const ExpireSpan: int := CacheExpireDays * MicrosPerDay

  const Placeholder: string := "股票-"
  const Other: string := "其他"
  const CodeCol: string := "代码"
  const NameCol: string := "名称"

  /** The manager's state, which is also exactly what the cache file holds:
      names in insertion order, industries, and the time of the last save. */
  datatype Directory = Directory(names: Dict<string>, industries: map<string, string>, date: Option<int>)

  function EmptyDirectory(): (d: Directory)
    ensures d.names.keys == [] && d.names.entries == map[] && d.industries == map[] && d.date.None?
  {
    Directory(Empty(), map[], None)
  }

  // ---------------------------------------------------------------------------
  // Ticker normalisation and the board guess
  // ---------------------------------------------------------------------------

  /** `ticker.strip().upper()`, cut at the first '.', zero-padded to six places
      when what is left is all digits. */
  function Normalize(ticker: string): (r: string)
    ensures '.' !in r
    ensures IsDigits(r) ==> |r| >= 6
  {
    var s := BeforeDot(Upper(Strip(ticker)));
    if IsDigits(s) then
      ZFillDigits(s, 6);
      assert IsDigits(ZFill(s, 6));
      assert '.' !in ZFill(s, 6) by {
        forall i | 0 <= i < |ZFill(s, 6)| ensures ZFill(s, 6)[i] != '.' {
          assert IsDigit(ZFill(s, 6)[i]);
        }
      }
      ZFill(s, 6)
    else s
  }

  /** A six-digit code, however it is decorated with case, whitespace or an
      exchange suffix, normalises to itself. */
  lemma NormalizeDecoratedCode(code: string, suffix: string)
    requires IsCode(code)
    ensures Normalize(code) == code
    ensures Normalize(code + "." + suffix) == code
  {
    assert IsDigit(code[0]) && IsDigit(code[5]);
    StripUnchanged(code);
    assert Upper(code) == code;
    var t := code + "." + suffix;
    assert t[0] == code[0];
    StripUnchanged(code + ".");
    assert Strip(code + ".") == code + ".";
    assert '.' !in code by {
      forall i | 0 <= i < |code| ensures code[i] != '.' { assert IsDigit(code[i]); }
    }
    assert BeforeDot(code) == code;
    ZFillDigitsIdempotent(code, 6);
    assert ZFill(code, 6) == code;
    SuffixedBase(code, suffix);
  }

  /** Stripping, upper-casing and cutting at the first '.' recover a code from "<code>.<suffix>". */
  lemma SuffixedBase(code: string, suffix: string)
    requires IsCode(code) && '.' !in code
    ensures BeforeDot(Upper(Strip(code + "." + suffix))) == code
  {
    assert IsDigit(code[0]);
    assert Upper(code) == code by {
      forall i | 0 <= i < |code| ensures Upper(code)[i] == code[i] { assert IsDigit(code[i]); }
    }
    assert code + "." + suffix == code + ("." + suffix);
    CutAtDot(code, "." + suffix);
  }

  /** Normalising again changes nothing as long as the first pass did not leave a
      trailing space, which only happens when whitespace precedes the first '.'. */
  lemma NormalizeIdempotent(ticker: string)
    requires |Normalize(ticker)| > 0 ==> !IsSpace(Normalize(ticker)[|Normalize(ticker)| - 1])
    ensures Normalize(Normalize(ticker)) == Normalize(ticker)
  {
    var st := Strip(ticker);
    var u := Upper(st);
    var s := BeforeDot(u);
    var r := Normalize(ticker);
    assert Upper(s) == s by {
      forall i | 0 <= i < |s| ensures UpperChar(s[i]) == s[i] {
        assert s[i] == u[i] == UpperChar(st[i]);
      }
    }
    if |s| > 0 {
      assert s[0] == u[0];
      UpperCharKeepsSpace(st[0]);
    }
    if IsDigits(s) {
      ZFillDigits(s, 6);
      ZFillDigitsIdempotent(s, 6);
      assert IsDigits(r);
      DigitsAreNormal(r);
    } else {
      assert r == s;
      StripUnchanged(s);
      assert BeforeDot(s) == s;
    }
  }

  /** A digit string is unchanged by stripping, upper-casing and the '.' split. */
  lemma DigitsAreNormal(r: string)
    requires IsDigits(r)
    ensures Strip(r) == r && Upper(r) == r && BeforeDot(r) == r
  {
    assert IsDigit(r[0]) && IsDigit(r[|r| - 1]);
    StripUnchanged(r);
    assert '.' !in r by {
      forall i | 0 <= i < |r| ensures r[i] != '.' { assert IsDigit(r[i]); }
    }
  }

  /** A word of capital letters. */
  predicate IsWord(x: string) {
    |x| > 0 && forall i :: 0 <= i < |x| ==> 'A' <= x[i] <= 'Z'
  }

  /** Where idempotence fails: for a word x, "x .y" normalises to "x ", which
      normalises to "x". */
  lemma NormalizeNotIdempotent(x: string, y: string)
    requires IsWord(x)
    ensures Normalize(x + " ." + y) == x + " "
    ensures Normalize(Normalize(x + " ." + y)) == x
  {
    SpacedDotFirst(x, y);
    SpacedDotSecond(x);
  }

  lemma WordFacts(x: string)
    requires IsWord(x)
    ensures Upper(x) == x && '.' !in x && !IsSpace(x[0]) && !IsSpace(x[|x| - 1]) && !IsDigits(x)
  {
    assert Upper(x) == x by {
      forall i | 0 <= i < |x| ensures Upper(x)[i] == x[i] { assert 'A' <= x[i] <= 'Z'; }
    }
    assert '.' !in x by {
      forall i | 0 <= i < |x| ensures x[i] != '.' { assert 'A' <= x[i] <= 'Z'; }
    }
    assert !IsDigit(x[0]);
  }

  lemma SpacedDotFirst(x: string, y: string)
    requires IsWord(x)
    ensures Normalize(x + " ." + y) == x + " "
  {
    WordFacts(x);
    var h := x + " ";
    assert Upper(h) == h by {
      forall i | 0 <= i < |h| ensures Upper(h)[i] == h[i] {
        if i < |x| { assert Upper(x)[i] == x[i]; }
      }
    }
    assert '.' !in h by { assert forall i :: 0 <= i < |x| ==> h[i] == x[i]; }
    assert h[0] == x[0];
    assert x + " ." + y == h + ("." + y);
    CutAtDot(h, "." + y);
    assert !IsDigit(h[|x|]);
  }

  lemma SpacedDotSecond(x: string)
    requires IsWord(x)
    ensures Normalize(x + " ") == x
  {
    WordFacts(x);
    var h := x + " ";
    assert h[0] == x[0];
    StripLeftUnchanged(h);
    StripRightKeeps(h, |x|);
    assert h[..|x|] == x;
    var r := StripRight(h);
    assert |r| == |x| by {
      assert h[|h| - 1] == ' ';
    }
    assert Strip(h) == x;
    assert BeforeDot(x) == x;
  }

  /** `_guess_industry_by_code`: the board from the first two digits. The four
      prefixes are distinct, so each board is chosen exactly for its prefix. */
  function GuessIndustry(code: string): (r: string)
    ensures r == "沪市主板" <==> StartsWith(code, "60")
    ensures r == "深市主板" <==> StartsWith(code, "00")
    ensures r == "创业板" <==> StartsWith(code, "30")
    ensures r == "科创板" <==> StartsWith(code, "68")
    ensures r == Other <==>
      !StartsWith(code, "60") && !StartsWith(code, "00") && !StartsWith(code, "30") && !StartsWith(code, "68")
  {
    if StartsWith(code, "60") then "沪市主板"
    else if StartsWith(code, "00") then "深市主板"
    else if StartsWith(code, "30") then "创业板"
    else if StartsWith(code, "68") then "科创板"
    else Other
  }

  /** The board guess agrees with the exchange suffix tushare would attach: a
      ".SZ" code is on the Shenzhen main board, a ".SH" code on the Shanghai one. */
  lemma GuessAgreesWithExchange(code: string)
    requires ToTushare(code).Some?
    ensures ToTushare(code).value[6..] == ".SZ" ==> GuessIndustry(code) == "深市主板"
    ensures ToTushare(code).value[6..] == ".SH" ==> GuessIndustry(code) == "沪市主板"
  {
    assert code[..2] == code[..3][..2];
  }

  // ---------------------------------------------------------------------------
  // The cache file and its expiry
  // ---------------------------------------------------------------------------

  /** `_is_cache_expired`: no date, or strictly more than seven days old. */
  function Expired(date: Option<int>, now: int): (r: bool)
    ensures !r <==> date.Some? && now - date.value <= ExpireSpan
  {
    match date
    case None => true
    case Some(t) => now > t + ExpireSpan
  }

  /** Exactly seven days after a save the cache is still fresh; a moment later it has expired. */
  lemma ExpiryBoundary(t: int)
    ensures !Expired(Some(t), t + ExpireSpan)
    ensures Expired(Some(t), t + ExpireSpan + 1)
  {
  }

  /** Once expired, a cache stays expired. */
  lemma ExpiredStaysExpired(date: Option<int>, now: int, later: int)
    requires Expired(date, now) && now <= later
    ensures Expired(date, later)
  {
  }

  /** `_load_cache`: the file's record, or (no file, unreadable file) an empty, undated directory. */
  function Load(file: Option<Directory>): (d: Directory)
    ensures file.None? ==> d.names.entries == map[] && d.industries == map[] && d.date.None?
    ensures file.Some? ==> d == file.value
  {
    match file
    case None => EmptyDirectory()
    case Some(rec) => rec
  }

  // ---------------------------------------------------------------------------
  // The bulk fetch
  // ---------------------------------------------------------------------------

  /** One listing call: it raised, or returned a frame of text cells. */
  datatype ListingReply = ListingFailed | ListingRows(table: Listing)

  /** What the three listing calls of one bulk fetch return: `stock_info_a_code_name`,
      `stock_zh_a_spot_em` for the second method, and `stock_zh_a_spot_em` again for
      the backup. `installed` is false when `import akshare` fails. */
  datatype Listings = Listings(installed: bool, codeName: ListingReply, spot: ListingReply, spotAgain: ListingReply)

  /** Relabels the two columns `c` and `n` as 代码 and 名称. */
  function Relabel(cols: seq<string>, c: string, n: string): (r: seq<string>)
    ensures |r| == |cols|
    ensures forall i :: 0 <= i < |cols| && cols[i] == c ==> r[i] == CodeCol
    ensures forall i :: 0 <= i < |cols| && cols[i] != c && cols[i] == n ==> r[i] == NameCol
    ensures forall i :: 0 <= i < |cols| && cols[i] != c && cols[i] != n ==> r[i] == cols[i]
    ensures c in cols ==> CodeCol in r
    ensures n in cols && n != c ==> NameCol in r
  {
    var r := seq(|cols|, i requires 0 <= i < |cols| =>
      if cols[i] == c then CodeCol else if cols[i] == n then NameCol else cols[i]);
    assert c in cols ==> r[IndexOf(cols, c)] == CodeCol;
    assert n in cols && n != c ==> r[IndexOf(cols, n)] == NameCol;
    r
  }

  /** The column standardisation of the first two methods: `code`/`name`, or else
      `股票代码`/`股票名称`, become 代码/名称 when both of the pair are present. */
  function RenameListing(cols: seq<string>): (r: seq<string>)
    ensures |r| == |cols|
    ensures ("code" in cols && "name" in cols) || ("股票代码" in cols && "股票名称" in cols) ==>
      CodeCol in r && NameCol in r
    ensures "code" in cols && "name" in cols ==> forall i :: 0 <= i < |cols| ==>
      r[i] == (if cols[i] == "code" then CodeCol else if cols[i] == "name" then NameCol else cols[i])
    ensures !("code" in cols && "name" in cols) && "股票代码" in cols && "股票名称" in cols ==>
      forall i :: 0 <= i < |cols| ==>
        r[i] == (if cols[i] == "股票代码" then CodeCol else if cols[i] == "股票名称" then NameCol else cols[i])
    ensures !(("code" in cols && "name" in cols) || ("股票代码" in cols && "股票名称" in cols)) ==> r == cols
  {
    if "code" in cols && "name" in cols then Relabel(cols, "code", "name")
    else if "股票代码" in cols && "股票名称" in cols then Relabel(cols, "股票代码", "股票名称")
    else cols
  }

  predicate RowsFit(rows: seq<seq<string>>, ci: nat, ni: nat) {
    forall i :: 0 <= i < |rows| ==> ci < |rows[i]| && ni < |rows[i]|
  }

  /** The row filter: the zero-padded code is all digits and the stripped name is non-empty. */
  predicate Accepted(row: seq<string>, ci: nat, ni: nat)
    requires ci < |row| && ni < |row|
  {
    IsDigits(ZFill(row[ci], 6)) && Strip(row[ni]) != ""
  }

  /** The filter in the cells' own terms: an empty code cell is accepted too, as "000000". */
  lemma AcceptedCells(row: seq<string>, ci: nat, ni: nat)
    requires ci < |row| && ni < |row|
    ensures Accepted(row, ci, ni) <==> (row[ci] == "" || IsDigits(row[ci])) && Strip(row[ni]) != ""
    ensures row[ci] == "" ==> ZFill(row[ci], 6) == "000000"
  {
    ZFillDigits(row[ci], 6);
  }

  /** The name the last accepted row for `code` carries, if any row for it is accepted. */
  function LastName(rows: seq<seq<string>>, ci: nat, ni: nat, code: string): (r: Option<string>)
    requires RowsFit(rows, ci, ni)
    ensures r.Some? ==> IsDigits(code) && |code| >= 6 && r.value != "" && Strip(r.value) == r.value
    decreases |rows|
  {
    if |rows| == 0 then None
    else
      var row := rows[|rows| - 1];
      if Accepted(row, ci, ni) && ZFill(row[ci], 6) == code then
        StripIdempotent(row[ni]);
        Some(Strip(row[ni]))
      else LastName(rows[..|rows| - 1], ci, ni, code)
  }

  /** What an accepted row does to the collected names: its padded code gets its stripped name. */
  function Step(prev: Dict<string>, row: seq<string>, ci: nat, ni: nat): Dict<string>
    requires ci < |row| && ni < |row|
  {
    if Accepted(row, ci, ni) then Put(prev, ZFill(row[ci], 6), Strip(row[ni])) else prev
  }

  /** How harvesting `rows` onto `acc` relates to `acc` and to the last accepted row
      of each code: earlier keys keep their order, a code is present when `acc` had it
      or some row was accepted for it, and the last such row supplies its name. */
  ghost predicate HarvestSpec(acc: Dict<string>, rows: seq<seq<string>>, ci: nat, ni: nat, r: Dict<string>)
    requires RowsFit(rows, ci, ni)
  {
    && |r.keys| >= |acc.keys| && r.keys[..|acc.keys|] == acc.keys
    && HarvestDomain(acc, rows, ci, ni, r)
    && HarvestValues(acc, rows, ci, ni, r)
  }

  ghost predicate HarvestDomain(acc: Dict<string>, rows: seq<seq<string>>, ci: nat, ni: nat, r: Dict<string>)
    requires RowsFit(rows, ci, ni)
  {
    forall k :: k in r.entries <==> k in acc.entries || LastName(rows, ci, ni, k).Some?
  }

  ghost predicate HarvestValues(acc: Dict<string>, rows: seq<seq<string>>, ci: nat, ni: nat, r: Dict<string>)
    requires RowsFit(rows, ci, ni)
  {
    && (forall k :: k in r.entries && LastName(rows, ci, ni, k).Some? ==> r.entries[k] == LastName(rows, ci, ni, k).value)
    && (forall k :: k in r.entries && LastName(rows, ci, ni, k).None? && k in acc.entries ==> r.entries[k] == acc.entries[k])
  }

  /** The `iterrows` loop: each accepted row assigns its code, so for every code the
      last accepted row wins, and codes no row carries keep their earlier name. */
  function HarvestRows(acc: Dict<string>, rows: seq<seq<string>>, ci: nat, ni: nat): (r: Dict<string>)
    requires RowsFit(rows, ci, ni)
    ensures HarvestSpec(acc, rows, ci, ni, r)
    decreases |rows|
  {
    if |rows| == 0 then acc
    else
      var init := rows[..|rows| - 1];
      var prev := HarvestRows(acc, init, ci, ni);
      HarvestStep(acc, rows, ci, ni, prev);
      Step(prev, rows[|rows| - 1], ci, ni)
  }

  lemma HarvestStep(acc: Dict<string>, rows: seq<seq<string>>, ci: nat, ni: nat, prev: Dict<string>)
    requires RowsFit(rows, ci, ni) && |rows| > 0
    requires HarvestSpec(acc, rows[..|rows| - 1], ci, ni, prev)
    ensures HarvestSpec(acc, rows, ci, ni, Step(prev, rows[|rows| - 1], ci, ni))
  {
    HarvestStepKeys(acc, prev, rows[|rows| - 1], ci, ni);
    HarvestStepDomain(acc, rows, ci, ni, prev);
    HarvestStepValues(acc, rows, ci, ni, prev);
  }

  lemma HarvestStepKeys(acc: Dict<string>, prev: Dict<string>, row: seq<string>, ci: nat, ni: nat)
    requires ci < |row| && ni < |row|
    requires |prev.keys| >= |acc.keys| && prev.keys[..|acc.keys|] == acc.keys
    ensures var r := Step(prev, row, ci, ni);
      |r.keys| >= |acc.keys| && r.keys[..|acc.keys|] == acc.keys
  {
    StepKeepsOrder(prev, row, ci, ni);
    PrefixOfPrefix(acc.keys, prev.keys, Step(prev, row, ci, ni).keys);
  }

  lemma StepKeepsOrder(prev: Dict<string>, row: seq<string>, ci: nat, ni: nat)
    requires ci < |row| && ni < |row|
    ensures var r := Step(prev, row, ci, ni);
      |r.keys| >= |prev.keys| && r.keys[..|prev.keys|] == prev.keys
  {
    if Accepted(row, ci, ni) {
      PutKeepsOrder(prev, ZFill(row[ci], 6), Strip(row[ni]));
    }
  }

  /** The last row's code, if it is accepted. */
  function LastCode(rows: seq<seq<string>>, ci: nat, ni: nat): Option<string>
    requires RowsFit(rows, ci, ni) && |rows| > 0
  {
    var row := rows[|rows| - 1];
    if Accepted(row, ci, ni) then Some(ZFill(row[ci], 6)) else None
  }

  lemma LastNameStep(rows: seq<seq<string>>, ci: nat, ni: nat, k: string)
    requires RowsFit(rows, ci, ni) && |rows| > 0
    ensures LastCode(rows, ci, ni) == Some(k) ==> LastName(rows, ci, ni, k) == Some(Strip(rows[|rows| - 1][ni]))
    ensures LastCode(rows, ci, ni) != Some(k) ==> LastName(rows, ci, ni, k) == LastName(rows[..|rows| - 1], ci, ni, k)
  {
  }

  lemma HarvestStepDomain(acc: Dict<string>, rows: seq<seq<string>>, ci: nat, ni: nat, prev: Dict<string>)
    requires RowsFit(rows, ci, ni) && |rows| > 0
    requires HarvestDomain(acc, rows[..|rows| - 1], ci, ni, prev)
    ensures HarvestDomain(acc, rows, ci, ni, Step(prev, rows[|rows| - 1], ci, ni))
  {
    var r := Step(prev, rows[|rows| - 1], ci, ni);
    forall k ensures k in r.entries <==> k in acc.entries || LastName(rows, ci, ni, k).Some? {
      LastNameStep(rows, ci, ni, k);
    }
  }

  lemma HarvestStepValues(acc: Dict<string>, rows: seq<seq<string>>, ci: nat, ni: nat, prev: Dict<string>)
    requires RowsFit(rows, ci, ni) && |rows| > 0
    requires HarvestDomain(acc, rows[..|rows| - 1], ci, ni, prev)
    requires HarvestValues(acc, rows[..|rows| - 1], ci, ni, prev)
    ensures HarvestValues(acc, rows, ci, ni, Step(prev, rows[|rows| - 1], ci, ni))
  {
    StepNamesHarvested(acc, rows, ci, ni, prev);
    StepNamesKept(acc, rows, ci, ni, prev);
  }

  /** After a step, a code some accepted row carries has the last such row's name. */
  lemma StepNamesHarvested(acc: Dict<string>, rows: seq<seq<string>>, ci: nat, ni: nat, prev: Dict<string>)
    requires RowsFit(rows, ci, ni) && |rows| > 0
    requires HarvestDomain(acc, rows[..|rows| - 1], ci, ni, prev)
    requires HarvestValues(acc, rows[..|rows| - 1], ci, ni, prev)
    ensures var r := Step(prev, rows[|rows| - 1], ci, ni);
      forall k :: k in r.entries && LastName(rows, ci, ni, k).Some? ==> r.entries[k] == LastName(rows, ci, ni, k).value
  {
    var r := Step(prev, rows[|rows| - 1], ci, ni);
    forall k | k in r.entries && LastName(rows, ci, ni, k).Some?
      ensures r.entries[k] == LastName(rows, ci, ni, k).value
    {
      LastNameStep(rows, ci, ni, k);
    }
  }

  /** After a step, a code no accepted row carries keeps its earlier name. */
  lemma StepNamesKept(acc: Dict<string>, rows: seq<seq<string>>, ci: nat, ni: nat, prev: Dict<string>)
    requires RowsFit(rows, ci, ni) && |rows| > 0
    requires HarvestDomain(acc, rows[..|rows| - 1], ci, ni, prev)
    requires HarvestValues(acc, rows[..|rows| - 1], ci, ni, prev)
    ensures var r := Step(prev, rows[|rows| - 1], ci, ni);
      forall k :: k in r.entries && LastName(rows, ci, ni, k).None? && k in acc.entries ==> r.entries[k] == acc.entries[k]
  {
    var r := Step(prev, rows[|rows| - 1], ci, ni);
    forall k | k in r.entries && LastName(rows, ci, ni, k).None? && k in acc.entries
      ensures r.entries[k] == acc.entries[k]
    {
      LastNameStep(rows, ci, ni, k);
    }
  }

  /** One of the first two methods: an empty frame or one without 代码/名称 (after
      the rename) adds nothing, and so does a call that raised. */
  function HarvestMethod(acc: Dict<string>, reply: ListingReply): (r: Dict<string>)
    ensures |r.keys| >= |acc.keys| && r.keys[..|acc.keys|] == acc.keys
    ensures reply.ListingFailed? || reply.table.IsEmpty() ==> r == acc
    ensures reply.ListingRows? && !reply.table.IsEmpty() ==>
      (CodeCol !in RenameListing(reply.table.columns) || NameCol !in RenameListing(reply.table.columns) ==> r == acc)
    ensures reply.ListingRows? && !reply.table.IsEmpty() ==>
      var cols := RenameListing(reply.table.columns);
      CodeCol in cols && NameCol in cols ==>
        var ci, ni := ColumnIndex(cols, CodeCol), ColumnIndex(cols, NameCol);
        RowsFit(reply.table.rows, ci, ni) && HarvestSpec(acc, reply.table.rows, ci, ni, r)
    ensures forall k :: k in r.entries && !(k in acc.entries && r.entries[k] == acc.entries[k]) ==>
      IsDigits(k) && |k| >= 6 && r.entries[k] != "" && Strip(r.entries[k]) == r.entries[k]
  {
    match reply
    case ListingFailed => acc
    case ListingRows(t) =>
      if t.IsEmpty() then acc
      else
        var cols := RenameListing(t.columns);
        if CodeCol in cols && NameCol in cols then
          HarvestRows(acc, t.rows, ColumnIndex(cols, CodeCol), ColumnIndex(cols, NameCol))
        else acc
  }

  /** `stock_zh_a_spot_em()[['代码', '名称']]`: the projection raises when either column is missing. */
  function Project(reply: ListingReply): (r: ListingReply)
    ensures reply.ListingFailed? ==> r.ListingFailed?
    ensures reply.ListingRows? ==> (r.ListingRows? <==> CodeCol in reply.table.columns && NameCol in reply.table.columns)
    ensures r.ListingRows? ==>
      && r.table.columns == [CodeCol, NameCol] && |r.table.rows| == |reply.table.rows|
      && forall i :: 0 <= i < |r.table.rows| ==>
        r.table.rows[i] == [reply.table.rows[i][ColumnIndex(reply.table.columns, CodeCol)],
                            reply.table.rows[i][ColumnIndex(reply.table.columns, NameCol)]]
  {
    match reply
    case ListingFailed => ListingFailed
    case ListingRows(t) =>
      if CodeCol in t.columns && NameCol in t.columns then
        var ci := ColumnIndex(t.columns, CodeCol);
        var ni := ColumnIndex(t.columns, NameCol);
        ListingRows(Grid([CodeCol, NameCol], seq(|t.rows|, i requires 0 <= i < |t.rows| => [t.rows[i][ci], t.rows[i][ni]])))
      else ListingFailed
  }

  /** The backup method reads 代码/名称 directly, with no rename. */
  function Backup(acc: Dict<string>, reply: ListingReply): (r: Dict<string>)
    ensures |r.keys| >= |acc.keys| && r.keys[..|acc.keys|] == acc.keys
    ensures reply.ListingFailed? ==> r == acc
    ensures reply.ListingRows? ==>
      (reply.table.IsEmpty() || CodeCol !in reply.table.columns || NameCol !in reply.table.columns ==> r == acc)
    ensures reply.ListingRows? && !reply.table.IsEmpty() && CodeCol in reply.table.columns && NameCol in reply.table.columns ==>
      var ci, ni := ColumnIndex(reply.table.columns, CodeCol), ColumnIndex(reply.table.columns, NameCol);
      RowsFit(reply.table.rows, ci, ni) && HarvestSpec(acc, reply.table.rows, ci, ni, r)
    ensures forall k :: k in r.entries && !(k in acc.entries && r.entries[k] == acc.entries[k]) ==>
      IsDigits(k) && |k| >= 6 && r.entries[k] != "" && Strip(r.entries[k]) == r.entries[k]
  {
    match reply
    case ListingFailed => acc
    case ListingRows(t) =>
      if !t.IsEmpty() && CodeCol in t.columns && NameCol in t.columns then
        HarvestRows(acc, t.rows, ColumnIndex(t.columns, CodeCol), ColumnIndex(t.columns, NameCol))
      else acc
  }

  /** The codes and names the two methods collect, in order. */
  function Primary(net: Listings): (r: Dict<string>)
    ensures var first := HarvestMethod(Empty(), net.codeName);
      |r.keys| >= |first.keys| && r.keys[..|first.keys|] == first.keys
    ensures forall k :: k in r.entries ==>
      IsDigits(k) && |k| >= 6 && r.entries[k] != "" && Strip(r.entries[k]) == r.entries[k]
    ensures net.spot.ListingFailed? ==> r == HarvestMethod(Empty(), net.codeName)
  {
    HarvestMethod(HarvestMethod(Empty(), net.codeName), Project(net.spot))
  }

  /** `all_stocks` after the listing calls: the two methods in order, then the
      backup only if they collected nothing. Every entry is a code of at least six
      digits with a stripped, non-empty name. */
  function Collect(net: Listings): (r: Dict<string>)
    ensures forall k :: k in r.entries ==>
      IsDigits(k) && |k| >= 6 && r.entries[k] != "" && Strip(r.entries[k]) == r.entries[k]
    ensures |Primary(net).keys| > 0 ==> r == Primary(net)
    ensures |Primary(net).keys| == 0 ==> r == Backup(Empty(), net.spotAgain)
  {
    var first := HarvestMethod(Empty(), net.codeName);
    var both := HarvestMethod(first, Project(net.spot));
    if |both.keys| == 0 then Backup(both, net.spotAgain) else both
  }

  /** The backup call's reply matters only when the first two methods collected nothing. */
  lemma BackupOnlyWhenEmpty(net: Listings, again: ListingReply)
    requires |Primary(net).keys| > 0
    ensures Collect(net.(spotAgain := again)) == Collect(net)
  {
    assert Primary(net.(spotAgain := again)) == Primary(net);
  }

  /** The second method overwrites the first for every code it accepts. */
  lemma SecondMethodOverwrites(net: Listings, code: string)
    requires Project(net.spot).ListingRows?
    requires LastName(Project(net.spot).table.rows, 0, 1, code).Some?
    ensures code in Collect(net).entries
    ensures Collect(net).entries[code] == LastName(Project(net.spot).table.rows, 0, 1, code).value
  {
    var t := Project(net.spot).table;
    assert !t.IsEmpty();
    ProjectedColumns();
    var first := HarvestMethod(Empty(), net.codeName);
    var both := HarvestMethod(first, Project(net.spot));
    assert both == HarvestRows(first, t.rows, 0, 1);
    assert code in both.entries && both.entries[code] == LastName(t.rows, 0, 1, code).value;
    assert |both.keys| > 0 by { assert both.keys != []; }
  }

  /** The projected listing's columns are already standard. */
  lemma ProjectedColumns()
    ensures RenameListing([CodeCol, NameCol]) == [CodeCol, NameCol]
    ensures ColumnIndex([CodeCol, NameCol], CodeCol) == 0 && ColumnIndex([CodeCol, NameCol], NameCol) == 1
  {
    assert "code" !in [CodeCol, NameCol] && "股票代码" !in [CodeCol, NameCol];
  }

  /** The `for code in all_stocks` loop: a code with no industry gets the guess,
      and industries already known are kept. */
  function FillIndustries(ind: map<string, string>, codes: seq<string>): (r: map<string, string>)
    ensures forall k :: k in r <==> k in ind || k in codes
    ensures forall k :: k in ind ==> r[k] == ind[k]
    ensures forall k :: k in codes && k !in ind ==> r[k] == GuessIndustry(k)
    decreases |codes|
  {
    if |codes| == 0 then ind
    else
      var next := if codes[0] in ind then ind else ind[codes[0] := GuessIndustry(codes[0])];
      var r := FillIndustries(next, codes[1..]);
      assert forall k :: k in codes <==> k == codes[0] || k in codes[1..];
      r
  }

  /** The outcome of an operation that may save: the new state and the record written, if any. */
  datatype Saved = Saved(dir: Directory, written: Option<Directory>)

  /** `_fetch_all_stock_names`: merges what the listing calls collect into the
      directory and saves it with the current time, which only the file records. */
  function BulkFetch(d: Directory, now: int, net: Listings): (r: Saved)
    ensures !net.installed || |Collect(net).keys| == 0 ==> r == Saved(d, None)
    ensures net.installed && |Collect(net).keys| > 0 ==>
      && r.dir.names.entries == d.names.entries + Collect(net).entries
      && |r.dir.names.keys| >= |d.names.keys| && r.dir.names.keys[..|d.names.keys|] == d.names.keys
      && (forall k :: k in r.dir.industries <==> k in d.industries || k in Collect(net).entries)
      && (forall k :: k in d.industries ==> r.dir.industries[k] == d.industries[k])
      && (forall k :: k in Collect(net).entries && k !in d.industries ==> r.dir.industries[k] == GuessIndustry(k))
      && r.dir.date == d.date
      && r.written == Some(r.dir.(date := Some(now)))
  {
    if !net.installed then Saved(d, None)
    else
      var got := Collect(net);
      if |got.keys| == 0 then Saved(d, None)
      else
        var merged := Directory(Update(d.names, got), FillIndustries(d.industries, got.keys), d.date);
        Saved(merged, Some(merged.(date := Some(now))))
  }

  /** The merge keeps every code the fetch did not return, with its name. */
  lemma BulkKeepsUnfetched(d: Directory, now: int, net: Listings, k: string)
    requires k in d.names.entries && k !in Collect(net).entries
    ensures k in BulkFetch(d, now, net).dir.names.entries
    ensures BulkFetch(d, now, net).dir.names.entries[k] == d.names.entries[k]
  {
  }

  /** The constructor: load the file, then run the bulk fetch only if the loaded cache has expired. */
  function Open(file: Option<Directory>, now: int, net: Listings): (r: Saved)
    ensures !Expired(Load(file).date, now) ==> r == Saved(Load(file), None)
    ensures Expired(Load(file).date, now) ==> r == BulkFetch(Load(file), now, net)
  {
    var d := Load(file);
    if Expired(d.date, now) then BulkFetch(d, now, net) else Saved(d, None)
  }

  /** A fresh cache is used as loaded, whatever the network would answer. */
  lemma FreshCacheIgnoresNetwork(rec: Directory, now: int, a: Listings, b: Listings)
    requires rec.date.Some? && now <= rec.date.value + ExpireSpan
    ensures Open(Some(rec), now, a) == Open(Some(rec), now, b) == Saved(rec, None)
  {
  }

  /** `refresh_cache`: forgets names, industries and date, then bulk-fetches, so
      afterwards the names are exactly what the fetch collected and the date stays unset. */
  function Refresh(d: Directory, now: int, net: Listings): (r: Saved)
    ensures r.dir.names.entries == if net.installed then Collect(net).entries else map[]
    ensures r.dir.date.None?
    ensures forall k :: k in r.dir.industries <==> k in r.dir.names.entries
    ensures forall k :: k in r.dir.industries ==> r.dir.industries[k] == GuessIndustry(k)
    ensures net.installed && |Collect(net).keys| > 0 ==> r.written == Some(r.dir.(date := Some(now)))
    ensures !net.installed || |Collect(net).keys| == 0 ==> r.written.None?
  {
    RefreshFacts(now, net, Collect(net));
    BulkFetch(EmptyDirectory(), now, net)
  }

  lemma RefreshFacts(now: int, net: Listings, got: Dict<string>)
    requires got == Collect(net)
    ensures var r := BulkFetch(EmptyDirectory(), now, net);
      && r.dir.names.entries == (if net.installed then got.entries else map[])
      && r.dir.date.None?
      && (forall k :: k in r.dir.industries <==> k in r.dir.names.entries)
      && (forall k :: k in r.dir.industries ==> r.dir.industries[k] == GuessIndustry(k))
  {
    if net.installed && |got.keys| > 0 {
      RefreshCollected(now, net, got);
    } else if net.installed {
      assert got.keys == [];
      assert forall k :: k !in got.entries;
      assert got.entries == map[];
    }
  }

  lemma RefreshCollected(now: int, net: Listings, got: Dict<string>)
    requires got == Collect(net) && net.installed && |got.keys| > 0
    ensures var r := BulkFetch(EmptyDirectory(), now, net);
      && r.dir.names.entries == got.entries
      && r.dir.date.None?
      && (forall k :: k in r.dir.industries <==> k in got.entries)
      && (forall k :: k in r.dir.industries ==> r.dir.industries[k] == GuessIndustry(k))
  {
    var e := EmptyDirectory();
    var names := Update(e.names, got);
    EmptyUnion(got.entries);
    assert names.entries == got.entries;
    var ind := FillIndustries(e.industries, got.keys);
    assert forall k :: k in ind <==> k in got.entries;
    assert BulkFetch(e, now, net).dir == Directory(names, ind, None);
  }

  lemma EmptyUnion(m: map<string, string>)
    ensures map[] + m == m
  {
  }

  /** What was held before a refresh has no influence on it. */
  lemma RefreshForgetsPast(d: Directory, e: Directory, now: int, net: Listings)
    ensures Refresh(d, now, net) == Refresh(e, now, net)
  {
  }

  // ---------------------------------------------------------------------------
  // Lookups
  // ---------------------------------------------------------------------------

  /** The result of `get_stock_name`: the name, the new state, and whether the live
      lookup `_fetch_single_stock_name` was consulted. */
  datatype Lookup = Lookup(name: string, dir: Directory, consulted: bool)

  /** A stored name counts only when it is non-empty (`get_stock_name` tests its truthiness). */
  predicate Hit(d: Directory, n: string) {
    n in d.names.entries && d.names.entries[n] != ""
  }

  /** `get_stock_name`: a stored name; else the live name, stored together with the
      board guess as industry; else the placeholder "股票-<code>", stored nowhere.
      `live` answers the single-stock endpoint (None when it fails or akshare is missing). */
  function GetName(d: Directory, ticker: string, live: string -> Option<string>): (r: Lookup)
    ensures r.name != ""
    ensures !r.consulted <==> Hit(d, Normalize(ticker))
    ensures !r.consulted ==> r.name == d.names.entries[Normalize(ticker)] && r.dir == d
    ensures r.consulted && live(Normalize(ticker)).Some? && live(Normalize(ticker)).value != "" ==>
      var n := Normalize(ticker);
      && r.name == live(n).value
      && r.dir.names == Put(d.names, n, r.name)
      && r.dir.industries == d.industries[n := GuessIndustry(n)]
      && r.dir.date == d.date
    ensures r.consulted && !(live(Normalize(ticker)).Some? && live(Normalize(ticker)).value != "") ==>
      r.name == Placeholder + Normalize(ticker) && r.dir == d
  {
    var n := Normalize(ticker);
    if Hit(d, n) then Lookup(d.names.entries[n], d, false)
    else match live(n)
      case Some(x) =>
        if x != "" then Lookup(x, Directory(Put(d.names, n, x), d.industries[n := GuessIndustry(n)], d.date), true)
        else Lookup(Placeholder + n, d, true)
      case None => Lookup(Placeholder + n, d, true)
  }

  /** A name found once, stored or live, is found again with no live lookup. */
  lemma SecondLookupHits(d: Directory, ticker: string, live: string -> Option<string>, live2: string -> Option<string>)
    requires GetName(d, ticker, live).name != Placeholder + Normalize(ticker) || Hit(d, Normalize(ticker))
    ensures var first := GetName(d, ticker, live);
      GetName(first.dir, ticker, live2) == Lookup(first.name, first.dir, false)
  {
  }

  /** A placeholder is not cached: the next call asks the live lookup again. */
  lemma PlaceholderNotCached(d: Directory, ticker: string, live: string -> Option<string>)
    requires !Hit(d, Normalize(ticker)) && (live(Normalize(ticker)).None? || live(Normalize(ticker)).value == "")
    ensures GetName(d, ticker, live) == Lookup(Placeholder + Normalize(ticker), d, true)
    ensures GetName(GetName(d, ticker, live).dir, ticker, live).consulted
  {
  }

  /** `get_stock_industry`: the stored industry, else the board guess; nothing changes. */
  function GetIndustry(d: Directory, ticker: string): (r: string)
    ensures Normalize(ticker) in d.industries ==> r == d.industries[Normalize(ticker)]
    ensures Normalize(ticker) !in d.industries ==> r == GuessIndustry(Normalize(ticker))
  {
    var n := Normalize(ticker);
    if n in d.industries then d.industries[n] else GuessIndustry(n)
  }

  /** Tickers that normalise alike are looked up alike, by both lookups. */
  lemma LookupsShareNormalization(d: Directory, a: string, b: string, live: string -> Option<string>)
    requires Normalize(a) == Normalize(b)
    ensures GetName(d, a, live) == GetName(d, b, live)
    ensures GetIndustry(d, a) == GetIndustry(d, b)
  {
  }

  /** Every stored industry is the board guess for its code; a refresh establishes this. */
  predicate GuessConsistent(d: Directory) {
    forall k :: k in d.industries ==> d.industries[k] == GuessIndustry(k)
  }

  /** Under a guess-consistent directory the industry of any ticker is its board guess. */
  lemma ConsistentIndustry(d: Directory, ticker: string)
    requires GuessConsistent(d)
    ensures GetIndustry(d, ticker) == GuessIndustry(Normalize(ticker))
  {
  }

  /** Name lookups, bulk fetches and refreshes keep the directory guess-consistent. */
  lemma ConsistencyPreserved(d: Directory, ticker: string, live: string -> Option<string>, now: int, net: Listings)
    requires GuessConsistent(d)
    ensures GuessConsistent(GetName(d, ticker, live).dir)
    ensures GuessConsistent(BulkFetch(d, now, net).dir)
    ensures GuessConsistent(Refresh(d, now, net).dir)
  {
    LookupConsistent(d, ticker, live);
    BulkFetchConsistent(d, now, net);
  }

  lemma LookupConsistent(d: Directory, ticker: string, live: string -> Option<string>)
    requires GuessConsistent(d)
    ensures GuessConsistent(GetName(d, ticker, live).dir)
  {
  }

  lemma BulkFetchConsistent(d: Directory, now: int, net: Listings)
    requires GuessConsistent(d)
    ensures GuessConsistent(BulkFetch(d, now, net).dir)
  {
  }

  /** `get_all_stocks_count`: the number of distinct codes with a name. */
  function Count(d: Directory): (n: nat)
    ensures n == |d.names.entries.Keys|
  {
    Size(d.names)
  }

  // ---------------------------------------------------------------------------
  // Search
  // ---------------------------------------------------------------------------

  /** One search result: `{'code', 'name', 'industry'}`. */
  datatype Match = Match(code: string, name: string, industry: string)

  /** `r` lists, in directory order, exactly the entries at positions `i` and later
      whose names contain the keyword, each with its industry. */
  predicate SearchSpec(d: Directory, keyword: string, i: nat, r: seq<Match>)
    requires i <= |d.names.keys|
  {
    SearchSound(d, keyword, i, r) && SearchOrdered(d, r) && SearchComplete(d, keyword, i, r)
  }

  predicate SearchSound(d: Directory, keyword: string, i: nat, r: seq<Match>) {
    forall j :: 0 <= j < |r| ==>
      && r[j].code in d.names.entries
      && i <= IndexOf(d.names.keys, r[j].code)
      && r[j].name == d.names.entries[r[j].code]
      && Contains(r[j].name, keyword)
      && r[j].industry == GetIndustry(d, r[j].code)
  }

  predicate SearchOrdered(d: Directory, r: seq<Match>)
    requires forall j :: 0 <= j < |r| ==> r[j].code in d.names.entries
  {
    forall j, j' :: 0 <= j < j' < |r| ==> IndexOf(d.names.keys, r[j].code) < IndexOf(d.names.keys, r[j'].code)
  }

  predicate SearchComplete(d: Directory, keyword: string, i: nat, r: seq<Match>)
    requires i <= |d.names.keys|
  {
    forall p :: i <= p < |d.names.keys| && Contains(d.names.entries[d.names.keys[p]], keyword) ==>
      exists j :: 0 <= j < |r| && r[j].code == d.names.keys[p]
  }

  /** The matches among the directory's codes at positions `i` and later. */
  function SearchFrom(d: Directory, keyword: string, i: nat): (r: seq<Match>)
    requires i <= |d.names.keys|
    ensures SearchSpec(d, keyword, i, r)
    decreases |d.names.keys| - i
  {
    if i == |d.names.keys| then []
    else
      var rest := SearchFrom(d, keyword, i + 1);
      SearchStep(d, keyword, i, rest);
      var code := d.names.keys[i];
      if Contains(d.names.entries[code], keyword) then [Match(code, d.names.entries[code], GetIndustry(d, code))] + rest
      else rest
  }

  lemma SearchStep(d: Directory, keyword: string, i: nat, rest: seq<Match>)
    requires i < |d.names.keys| && SearchSpec(d, keyword, i + 1, rest)
    ensures var code := d.names.keys[i];
      && (Contains(d.names.entries[code], keyword) ==>
           SearchSpec(d, keyword, i, [Match(code, d.names.entries[code], GetIndustry(d, code))] + rest))
      && (!Contains(d.names.entries[code], keyword) ==> SearchSpec(d, keyword, i, rest))
  {
    if Contains(d.names.entries[d.names.keys[i]], keyword) {
      SearchTake(d, keyword, i, rest);
    } else {
      SearchSkip(d, keyword, i, rest);
    }
  }

  lemma SearchSkip(d: Directory, keyword: string, i: nat, rest: seq<Match>)
    requires i < |d.names.keys| && SearchSpec(d, keyword, i + 1, rest)
    requires !Contains(d.names.entries[d.names.keys[i]], keyword)
    ensures SearchSpec(d, keyword, i, rest)
  {
  }

  lemma SearchTake(d: Directory, keyword: string, i: nat, rest: seq<Match>)
    requires i < |d.names.keys| && SearchSpec(d, keyword, i + 1, rest)
    requires Contains(d.names.entries[d.names.keys[i]], keyword)
    ensures var code := d.names.keys[i];
      SearchSpec(d, keyword, i, [Match(code, d.names.entries[code], GetIndustry(d, code))] + rest)
  {
    var code := d.names.keys[i];
    var r := [Match(code, d.names.entries[code], GetIndustry(d, code))] + rest;
    IndexOfDistinct(d.names.keys, i);
    SearchTakeSound(d, keyword, i, rest, r);
    SearchTakeOrdered(d, keyword, i, rest, r);
    SearchTakeComplete(d, keyword, i, rest, r);
  }

  lemma SearchTakeSound(d: Directory, keyword: string, i: nat, rest: seq<Match>, r: seq<Match>)
    requires i < |d.names.keys| && SearchSound(d, keyword, i + 1, rest)
    requires Contains(d.names.entries[d.names.keys[i]], keyword) && IndexOf(d.names.keys, d.names.keys[i]) == i
    requires r == [Match(d.names.keys[i], d.names.entries[d.names.keys[i]], GetIndustry(d, d.names.keys[i]))] + rest
    ensures SearchSound(d, keyword, i, r)
  {
    forall j | 0 < j < |r| ensures r[j] == rest[j - 1] {
    }
  }

  lemma SearchTakeOrdered(d: Directory, keyword: string, i: nat, rest: seq<Match>, r: seq<Match>)
    requires i < |d.names.keys| && SearchSound(d, keyword, i + 1, rest) && SearchOrdered(d, rest)
    requires IndexOf(d.names.keys, d.names.keys[i]) == i
    requires r == [Match(d.names.keys[i], d.names.entries[d.names.keys[i]], GetIndustry(d, d.names.keys[i]))] + rest
    ensures forall j :: 0 <= j < |r| ==> r[j].code in d.names.entries
    ensures SearchOrdered(d, r)
  {
    forall j | 0 < j < |r| ensures r[j] == rest[j - 1] {
    }
  }

  lemma SearchTakeComplete(d: Directory, keyword: string, i: nat, rest: seq<Match>, r: seq<Match>)
    requires i < |d.names.keys| && SearchComplete(d, keyword, i + 1, rest)
    requires r == [Match(d.names.keys[i], d.names.entries[d.names.keys[i]], GetIndustry(d, d.names.keys[i]))] + rest
    ensures SearchComplete(d, keyword, i, r)
  {
    var keys := d.names.keys;
    forall p | i <= p < |keys| && Contains(d.names.entries[keys[p]], keyword)
      ensures exists j :: 0 <= j < |r| && r[j].code == keys[p]
    {
      if p == i {
        assert r[0].code == keys[p];
      } else {
        var j :| 0 <= j < |rest| && rest[j].code == keys[p];
        assert r[j + 1].code == keys[p];
      }
    }
  }

  /** In a duplicate-free sequence, the position of the element at `p` is `p`. */
  lemma IndexOfDistinct(s: seq<string>, p: nat)
    requires Distinct(s) && p < |s|
    ensures IndexOf(s, s[p]) == p
  {
    var q := IndexOf(s, s[p]);
    assert s[q] == s[p];
  }

  /** `search_stocks_by_name`: every directory entry whose name contains the keyword,
      each once, in directory order, with its industry as `get_stock_industry` gives it. */
  function Search(d: Directory, keyword: string): (r: seq<Match>)
    ensures forall j :: 0 <= j < |r| ==>
      && r[j].code in d.names.entries
      && r[j].name == d.names.entries[r[j].code]
      && Contains(r[j].name, keyword)
      && r[j].industry == GetIndustry(d, r[j].code)
    ensures forall code :: code in d.names.entries && Contains(d.names.entries[code], keyword) ==>
      exists j :: 0 <= j < |r| && r[j].code == code
    ensures forall j, j' :: 0 <= j < j' < |r| ==>
      IndexOf(d.names.keys, r[j].code) < IndexOf(d.names.keys, r[j'].code)
  {
    var r := SearchFrom(d, keyword, 0);
    assert d.names.keys[0..] == d.names.keys;
    forall code | code in d.names.entries && Contains(d.names.entries[code], keyword)
      ensures exists j :: 0 <= j < |r| && r[j].code == code
    {
      var p := IndexOf(d.names.keys, code);
    }
    r
  }

  /** The empty keyword matches every entry, so the search lists the whole directory. */
  lemma SearchEmptyKeyword(d: Directory)
    ensures |Search(d, "")| == Count(d)
  {
    SearchAll(d, 0);
  }

  lemma {:induction false} SearchAll(d: Directory, i: nat)
    requires i <= |d.names.keys|
    ensures |SearchFrom(d, "", i)| == |d.names.keys| - i
    decreases |d.names.keys| - i
  {
    if i < |d.names.keys| {
      SearchAll(d, i + 1);
      ContainsEmpty(d.names.entries[d.names.keys[i]]);
    }
  }
}
