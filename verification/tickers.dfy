/** Ticker translation for the two price providers and the akshare history window
    (Data_Analysis/stocker/data_sources.py). */
module Tickers {
  import opened Results
  import opened Text

  /** Nicknames the akshare converter maps to fixed A-share codes. */
  const AkshareAliases: map<string, string> :=
    map["PING_AN" := "000001", "TENCENT" := "000858", "ALIBABA" := "000001",
        "BAIDU" := "000001", "MOUTAI" := "600519", "WULIANGYE" := "000858",
        "PINGAN" := "000001"]

  /** US tickers the akshare converter replaces by Kweichow Moutai. */
  const UsStandIns: set<string> := {"MSFT", "AAPL", "GOOGL"}
  const StandInCode: string := "600519"

  /** A six-digit A-share code. */
  predicate IsCode(s: string) {
    |s| == 6 && IsDigits(s)
  }

  lemma AliasesAreCodes()
    ensures forall k :: k in AkshareAliases ==> IsCode(AkshareAliases[k])
    ensures IsCode(StandInCode)
  {
    assert IsCode("000001") && IsCode("000858") && IsCode("600519");
  }

  /** `_convert_ticker_to_akshare`. */
  function ToAkshare(ticker: string): (r: Option<string>)
    ensures r.Some? ==> IsCode(r.value)
    ensures var t := Strip(Upper(ticker));
      && (IsCode(t) ==> r == Some(t))
      && (!IsCode(t) && '.' in t && IsCode(BeforeDot(t)) ==> r == Some(BeforeDot(t)))
    ensures var t := Strip(Upper(ticker));
      !IsCode(t) && !('.' in t && IsCode(BeforeDot(t))) ==>
        && (t in AkshareAliases ==> r == Some(AkshareAliases[t]))
        && (t !in AkshareAliases && t in UsStandIns ==> r == Some(StandInCode))
    ensures var t := Strip(Upper(ticker));
      r.None? <==> !IsCode(t) && !('.' in t && IsCode(BeforeDot(t))) && t !in AkshareAliases && t !in UsStandIns
  {
    AliasesAreCodes();
    var t := Strip(Upper(ticker));
    if IsCode(t) then Some(t)
    else if '.' in t && IsCode(BeforeDot(t)) then Some(BeforeDot(t))
    else if t in AkshareAliases then Some(AkshareAliases[t])
    else if t in UsStandIns then Some(StandInCode)
    else None
  }

  /** Upper-casing and stripping leave a code untouched. */
  lemma CodeIsNormal(c: string)
    requires IsCode(c)
    ensures Upper(c) == c && Strip(c) == c
  {
    StripUnchanged(c);
  }

  /** A code converts to itself, so converting a converted symbol is a no-op. */
  lemma ToAkshareIdempotent(ticker: string)
    requires ToAkshare(ticker).Some?
    ensures ToAkshare(ToAkshare(ticker).value) == ToAkshare(ticker)
  {
    var c := ToAkshare(ticker).value;
    CodeIsNormal(c);
  }

  /** A code with any market suffix converts to the bare code. */
  lemma ToAkshareDropsSuffix(code: string, suffix: string)
    requires IsCode(code)
    ensures ToAkshare(code + "." + suffix) == Some(code)
  {
    var u := Upper(code + "." + suffix);
    UpperOfSuffixed(code, suffix);
    assert IsDigit(code[0]);
    assert u == code + ("." + Upper(suffix));
    StripKeepsHead(code, "." + Upper(suffix));
    var t := Strip(u);
    assert !IsCode(t);
    assert t == code + t[6..];
    BeforeDotOfCode(code, t[6..]);
    assert '.' in t by { assert t[6] == '.'; }
  }

  /** Upper-casing "<code>.<suffix>" only touches the suffix. */
  lemma UpperOfSuffixed(code: string, suffix: string)
    requires IsCode(code)
    ensures Upper(code + "." + suffix) == code + ("." + Upper(suffix))
  {
    var u := Upper(code + "." + suffix);
    var w := code + ("." + Upper(suffix));
    forall i | 0 <= i < |u| ensures u[i] == w[i] {
      if i < 6 { assert IsDigit(code[i]); }
    }
  }

  lemma BeforeDotOfCode(code: string, rest: string)
    requires IsCode(code) && |rest| > 0 && rest[0] == '.'
    ensures BeforeDot(code + rest) == code
  {
    assert '.' !in code by {
      forall i | 0 <= i < |code| ensures code[i] != '.' { assert IsDigit(code[i]); }
    }
    BeforeDotOfDotless(code, rest);
  }

  const ShenzhenPrefixes: set<string> := {"000", "001", "002", "003"}
  const ShanghaiPrefixes: set<string> := {"600", "601", "603", "605"}

  /** `_convert_ticker_to_tushare`: Shenzhen main-board codes get ".SZ", Shanghai
      main-board codes ".SH"; ChiNext (300), STAR (688) and anything that is not
      six digits get nothing. */
  function ToTushare(ticker: string): (r: Option<string>)
    ensures r.Some? <==> IsCode(ticker) && (ticker[..3] in ShenzhenPrefixes || ticker[..3] in ShanghaiPrefixes)
    ensures r.Some? ==> |r.value| == 9 && r.value[..6] == ticker
    ensures r.Some? ==> (r.value[6..] == ".SZ" <==> ticker[..3] in ShenzhenPrefixes)
    ensures r.Some? ==> (r.value[6..] == ".SH" <==> ticker[..3] in ShanghaiPrefixes)
  {
    if IsCode(ticker) then
      if ticker[..3] in ShenzhenPrefixes then Some(ticker + ".SZ")
      else if ticker[..3] in ShanghaiPrefixes then Some(ticker + ".SH")
      else None
    else None
  }

  /** A tushare symbol converts back to its code through the akshare converter. */
  lemma TushareToAkshare(ticker: string)
    requires ToTushare(ticker).Some?
    ensures ToAkshare(ToTushare(ticker).value) == Some(ticker)
  {
    var sym := ToTushare(ticker).value;
    assert sym == ticker + "." + sym[7..];
    ToAkshareDropsSuffix(ticker, sym[7..]);
  }

  /** Day number of 2000-01-01, where a "max" history starts. */
  const HistoryStart: int := 10957

  datatype Window = Window(start: int, end: int)

  /** How far back a period reaches; "max" reaches back to 2000 instead. */
  function LookbackDays(period: string): Option<nat> {
    if period == "max" then None
    else if period == "1y" then Some(365)
    else if period == "2y" then Some(730)
    else if period == "5y" then Some(1825)
    else Some(365)
  }

  /** The `start_date`/`end_date` pair `_fetch_akshare_data` requests, with
      `today` standing for `datetime.now()`. */
  function HistoryWindow(period: string, today: int): (w: Window)
    ensures w.end == today
    ensures period == "max" ==> w.start == HistoryStart
    ensures period == "max" <==> LookbackDays(period).None?
    ensures period != "max" ==> today - w.start in {365, 730, 1825}
    ensures period == "1y" ==> w.start == today - 365
    ensures period == "2y" ==> w.start == today - 730
    ensures period == "5y" ==> w.start == today - 1825
    ensures period !in {"max", "2y", "5y"} ==> w.start == today - 365
  {
    match LookbackDays(period)
    case None => Window(HistoryStart, today)
    case Some(days) => Window(today - days, today)
  }

  /** Any period other than "max", "2y" and "5y" asks for one year. */
  lemma UnknownPeriodIsOneYear(period: string, today: int)
    requires period !in {"max", "1y", "2y", "5y"}
    ensures HistoryWindow(period, today) == HistoryWindow("1y", today)
    ensures HistoryWindow(period, today).start == today - 365
  {
  }
}
