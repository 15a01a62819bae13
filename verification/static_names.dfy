/** `StockNameManager`: the older name manager over two built-in tables of
    well-known A-shares. It normalises without zero-padding and caches live
    names, but never industries. */
module StaticNames {
  import opened Results
  import opened Text
  import opened Dicts
  import CompleteNames
  import Tickers

  /** `A_STOCK_NAMES`. The literal repeats some codes, always with the same name;
      as in a Python dict literal, each code appears once. */
  const StockNames: map<string, string> := map[
    "000001" := "平安银行", "000002" := "万科A", "600000" := "浦发银行", "600015" := "华夏银行",
    "600016" := "民生银行", "600036" := "招商银行", "601166" := "兴业银行", "601288" := "农业银行",
    "601328" := "交通银行", "601398" := "工商银行", "601818" := "光大银行", "601939" := "建设银行",
    "002142" := "宁波银行", "600519" := "贵州茅台", "000858" := "五粮液", "000596" := "古井贡酒",
    "002304" := "洋河股份", "000799" := "酒鬼酒", "603369" := "今世缘", "600779" := "水井坊",
    "000568" := "泸州老窖", "600702" := "舍得酒业", "000063" := "中兴通讯", "000725" := "京东方A",
    "002415" := "海康威视", "300750" := "宁德时代", "002594" := "比亚迪", "000538" := "云南白药",
    "002007" := "华兰生物", "002422" := "科伦药业", "600276" := "恒瑞医药", "300015" := "爱尔眼科",
    "000069" := "华侨城A", "600048" := "保利发展", "001979" := "招商蛇口", "600887" := "伊利股份",
    "000895" := "双汇发展", "002460" := "赣锋锂业", "300014" := "亿纬锂能", "600050" := "中国联通",
    "600741" := "华域汽车", "601318" := "中国平安", "600837" := "海通证券", "000776" := "广发证券"
  ]

  /** `INDUSTRY_MAPPING`. */
  const IndustryMapping: map<string, string> := map[
    "000001" := "银行", "600000" := "银行", "600015" := "银行", "600016" := "银行",
    "600036" := "银行", "601166" := "银行", "601288" := "银行", "601328" := "银行",
    "601398" := "银行", "601818" := "银行", "601939" := "银行", "002142" := "银行",
    "600519" := "白酒", "000858" := "白酒", "000596" := "白酒", "002304" := "白酒",
    "000799" := "白酒", "603369" := "白酒", "600779" := "白酒", "000568" := "白酒",
    "600702" := "白酒", "000063" := "通信设备", "000725" := "电子", "002415" := "安防设备",
    "300750" := "新能源", "002594" := "汽车", "000538" := "医药", "002007" := "医药",
    "002422" := "医药", "600276" := "医药", "300015" := "医疗服务", "000002" := "地产",
    "000069" := "地产", "600048" := "地产", "001979" := "地产", "601318" := "保险",
    "600837" := "证券", "000776" := "证券"
  ]

  /** The manager's two caches, initially copies of the tables. */
  datatype Manager = Manager(names: map<string, string>, industries: map<string, string>)

  function Init(): (m: Manager)
    ensures m.names == StockNames && m.industries == IndustryMapping
  {
    Manager(StockNames, IndustryMapping)
  }

  /** `ticker.strip().upper()` cut at the first '.'; unlike the complete manager, no zero-padding. */
  function Normalize(ticker: string): (r: string)
    ensures '.' !in r
    ensures |r| <= |ticker|
  {
    BeforeDot(Upper(Strip(ticker)))
  }

  /** The complete manager's normalisation is this one followed by zero-padding of digit strings. */
  lemma NormalizationsDiffer(ticker: string)
    ensures CompleteNames.Normalize(ticker) ==
      if IsDigits(Normalize(ticker)) then ZFill(Normalize(ticker), 6) else Normalize(ticker)
  {
  }

  /** A bare digit string is its own normal form here, while the complete
      manager pads it: "1" stays "1" here but becomes "000001" there. */
  lemma ShortCodesDiffer(d: string)
    requires IsDigits(d) && |d| < 6
    ensures Normalize(d) == d
    ensures CompleteNames.Normalize(d) == ZFill(d, 6) != d
  {
    CompleteNames.DigitsAreNormal(d);
  }

  /** The result of `get_stock_name`: the name, the new state, and whether the live
      lookup `_fetch_name_from_akshare` was consulted. */
  datatype Lookup = Lookup(name: string, mgr: Manager, consulted: bool)

  /** A stored name counts only when it is non-empty. */
  predicate Hit(m: Manager, n: string) {
    n in m.names && m.names[n] != ""
  }

  /** `get_stock_name`: a stored name; else the live name, cached as a name only;
      else the placeholder "股票-<ticker>", cached nowhere. */
  function GetName(m: Manager, ticker: string, live: string -> Option<string>): (r: Lookup)
    ensures r.name != ""
    ensures !r.consulted <==> Hit(m, Normalize(ticker))
    ensures !r.consulted ==> r.name == m.names[Normalize(ticker)] && r.mgr == m
    ensures r.consulted && live(Normalize(ticker)).Some? && live(Normalize(ticker)).value != "" ==>
      && r.name == live(Normalize(ticker)).value
      && r.mgr.names == m.names[Normalize(ticker) := r.name]
      && r.mgr.industries == m.industries
    ensures r.consulted && !(live(Normalize(ticker)).Some? && live(Normalize(ticker)).value != "") ==>
      r.name == CompleteNames.Placeholder + Normalize(ticker) && r.mgr == m
  {
    var n := Normalize(ticker);
    if Hit(m, n) then Lookup(m.names[n], m, false)
    else match live(n)
      case Some(x) =>
        if x != "" then Lookup(x, m.(names := m.names[n := x]), true)
        else Lookup(CompleteNames.Placeholder + n, m, true)
      case None => Lookup(CompleteNames.Placeholder + n, m, true)
  }

  /** `get_stock_industry`: the stored industry or "其他"; nothing changes. */
  function GetIndustry(m: Manager, ticker: string): (r: string)
    ensures Normalize(ticker) in m.industries ==> r == m.industries[Normalize(ticker)]
    ensures Normalize(ticker) !in m.industries ==> r == CompleteNames.Other
  {
    var n := Normalize(ticker);
    if n in m.industries then m.industries[n] else CompleteNames.Other
  }

  /** A stored code answers for its suffixed spellings too, without the network. */
  lemma SuffixedCodeHits(m: Manager, code: string, suffix: string, live: string -> Option<string>)
    requires Tickers.IsCode(code) && Hit(m, code)
    ensures GetName(m, code + "." + suffix, live) == Lookup(m.names[code], m, false)
  {
    assert '.' !in code by {
      forall i | 0 <= i < |code| ensures code[i] != '.' { assert IsDigit(code[i]); }
    }
    CompleteNames.SuffixedBase(code, suffix);
  }

  /** The built-in table names Kweichow Moutai under "600519.SH" with no live lookup. */
  lemma BuiltInName(live: string -> Option<string>)
    ensures GetName(Init(), "600519.SH", live) == Lookup("贵州茅台", Init(), false)
  {
    MoutaiListed();
    MoutaiSpelling();
    SuffixedCodeHits(Init(), "600519", "SH", live);
  }

  lemma MoutaiSpelling()
    ensures Tickers.IsCode("600519") && "600519.SH" == "600519" + "." + "SH"
  {
  }

  lemma MoutaiListed()
    ensures "600519" in StockNames && StockNames["600519"] == "贵州茅台"
  {
  }

  /** A code is its own normal form here. */
  lemma CodeIsNormal(code: string)
    requires Tickers.IsCode(code)
    ensures Normalize(code) == code
  {
    assert IsDigit(code[0]) && IsDigit(code[5]);
    StripUnchanged(code);
    assert Upper(code) == code;
    assert '.' !in code by {
      forall i | 0 <= i < |code| ensures code[i] != '.' { assert IsDigit(code[i]); }
    }
  }

  /** The industry table gives Moutai's sector. */
  lemma BuiltInIndustry()
    ensures GetIndustry(Init(), "600519") == "白酒"
  {
    MoutaiSpelling();
    CodeIsNormal("600519");
    MoutaiMapped();
  }

  /** A listed name without a table industry falls to "其他". */
  lemma UnmappedIndustry()
    ensures GetIndustry(Init(), "600887") == CompleteNames.Other
  {
    YiliSpelling();
    CodeIsNormal("600887");
    YiliUnmapped();
  }

  lemma YiliSpelling()
    ensures Tickers.IsCode("600887")
  {
  }

  lemma MoutaiMapped()
    ensures "600519" in IndustryMapping && IndustryMapping["600519"] == "白酒"
  {
  }

  lemma YiliUnmapped()
    ensures "600887" in StockNames && "600887" !in IndustryMapping
  {
  }

  /** Two managers give the same name for every ticker. */
  ghost predicate SameNames(m: Manager, m2: Manager, live: string -> Option<string>) {
    forall t :: GetName(m2, t, live).name == GetName(m, t, live).name
  }

  /** A lookup's only change to the manager is to cache the name it returned, so
      every later lookup answers as before. */
  lemma LookupKeepsAnswers(m: Manager, t0: string, live: string -> Option<string>)
    ensures SameNames(m, GetName(m, t0, live).mgr, live)
  {
    forall t ensures GetName(GetName(m, t0, live).mgr, t, live).name == GetName(m, t, live).name {
      LookupKeepsAnswer(m, t0, t, live);
    }
  }

  lemma LookupKeepsAnswer(m: Manager, t0: string, t: string, live: string -> Option<string>)
    ensures GetName(GetName(m, t0, live).mgr, t, live).name == GetName(m, t, live).name
  {
    var m2 := GetName(m, t0, live).mgr;
    if Normalize(t) != Normalize(t0) {
      assert Hit(m2, Normalize(t)) == Hit(m, Normalize(t));
    }
  }

  /** The result of `batch_get_names`: the names by raw ticker, and the manager after the loop. */
  datatype Batch = Batch(names: Dict<string>, mgr: Manager)

  /** `batch_get_names`: each raw ticker, as given, maps to its name; a repeated
      ticker keeps one key. Because lookups only cache what they return, every
      name equals a lookup on the starting manager. */
  function BatchGetNames(m: Manager, tickers: seq<string>, live: string -> Option<string>): (r: Batch)
    ensures forall t :: t in r.names.entries <==> t in tickers
    ensures forall t :: t in r.names.entries ==> r.names.entries[t] == GetName(m, t, live).name
    ensures SameNames(m, r.mgr, live)
    decreases |tickers|
  {
    if |tickers| == 0 then Batch(Empty(), m)
    else
      var prev := BatchGetNames(m, tickers[..|tickers| - 1], live);
      var t := tickers[|tickers| - 1];
      var look := GetName(prev.mgr, t, live);
      LookupKeepsAnswers(prev.mgr, t, live);
      assert forall u :: u in tickers <==> u in tickers[..|tickers| - 1] || u == t;
      Batch(Put(prev.names, t, look.name), look.mgr)
  }

  /** `add_stock_name`: sets the name and industry of the normalised ticker and
      touches no other code. `add_stock_name` defaults the industry to "其他". */
  function AddStockName(m: Manager, ticker: string, name: string, industry: string): (r: Manager)
    ensures Normalize(ticker) in r.names && r.names[Normalize(ticker)] == name
    ensures Normalize(ticker) in r.industries && r.industries[Normalize(ticker)] == industry
    ensures forall k :: k != Normalize(ticker) ==>
      && (k in r.names <==> k in m.names) && (k in m.names ==> r.names[k] == m.names[k])
      && (k in r.industries <==> k in m.industries) && (k in m.industries ==> r.industries[k] == m.industries[k])
  {
    var n := Normalize(ticker);
    Manager(m.names[n := name], m.industries[n := industry])
  }

  /** After adding, the ticker (and any spelling of it) gets the new name without a
      live lookup and the new industry. */
  lemma AddThenGet(m: Manager, ticker: string, name: string, industry: string, other: string,
                   live: string -> Option<string>)
    requires name != "" && Normalize(other) == Normalize(ticker)
    ensures var a := AddStockName(m, ticker, name, industry);
      && GetName(a, other, live) == Lookup(name, a, false)
      && GetIndustry(a, other) == industry
  {
  }

  /** Adding leaves every other ticker's answers as they were. */
  lemma AddLeavesOthers(m: Manager, ticker: string, name: string, industry: string, other: string,
                        live: string -> Option<string>)
    requires Normalize(other) != Normalize(ticker)
    ensures var a := AddStockName(m, ticker, name, industry);
      && GetName(a, other, live).name == GetName(m, other, live).name
      && GetIndustry(a, other) == GetIndustry(m, other)
  {
    var a := AddStockName(m, ticker, name, industry);
    assert Hit(a, Normalize(other)) == Hit(m, Normalize(other));
  }
}
