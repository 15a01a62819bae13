/** The module-level functions of the stock-name package: ask the complete
    directory first and fall back to the static-table manager when it answers
    with a placeholder name or the catch-all industry. */
module NameFacade {
  import opened Results
  import opened Text
  import CompleteNames
  import StaticNames

  /** The two process-wide managers. */
  datatype System = System(complete: CompleteNames.Directory, fallback: StaticNames.Manager)

  datatype Named = Named(name: string, sys: System)

  /** Whether a name is the complete manager's "not found" answer. */
  predicate IsPlaceholder(name: string) {
    StartsWith(name, CompleteNames.Placeholder)
  }

  /** Facade `get_stock_name`: the complete manager's name unless it is empty or a
      placeholder, in which case the static manager answers (and may itself
      consult the live lookup, under its own unpadded spelling of the code). */
  function FacadeName(sys: System, ticker: string, live: string -> Option<string>): (r: Named)
    ensures var c := CompleteNames.GetName(sys.complete, ticker, live);
      !IsPlaceholder(c.name) ==> r == Named(c.name, sys.(complete := c.dir))
    ensures var c := CompleteNames.GetName(sys.complete, ticker, live);
      var f := StaticNames.GetName(sys.fallback, ticker, live);
      IsPlaceholder(c.name) ==> r == Named(f.name, System(c.dir, f.mgr))
  {
    var c := CompleteNames.GetName(sys.complete, ticker, live);
    if c.name != "" && !IsPlaceholder(c.name) then Named(c.name, sys.(complete := c.dir))
    else
      var f := StaticNames.GetName(sys.fallback, ticker, live);
      Named(f.name, System(c.dir, f.mgr))
  }

  /** A name stored in the complete directory wins, and the static manager is not touched. */
  lemma StoredNameWins(sys: System, ticker: string, live: string -> Option<string>)
    requires CompleteNames.Hit(sys.complete, CompleteNames.Normalize(ticker))
    requires !IsPlaceholder(sys.complete.names.entries[CompleteNames.Normalize(ticker)])
    ensures FacadeName(sys, ticker, live) ==
      Named(sys.complete.names.entries[CompleteNames.Normalize(ticker)], sys)
  {
  }

  /** When the complete directory and the network both fail, the built-in table answers. */
  lemma TableAnswersOffline(sys: System, ticker: string, live: string -> Option<string>)
    requires !CompleteNames.Hit(sys.complete, CompleteNames.Normalize(ticker))
    requires live(CompleteNames.Normalize(ticker)).None?
    requires StaticNames.Hit(sys.fallback, StaticNames.Normalize(ticker))
    ensures FacadeName(sys, ticker, live).name == sys.fallback.names[StaticNames.Normalize(ticker)]
    ensures FacadeName(sys, ticker, live).sys == sys
  {
    PlaceholderPrefixed(CompleteNames.Normalize(ticker));
  }

  /** When nothing knows the ticker, the placeholder is the static manager's, built
      from the unpadded code: "1" comes back as "股票-1", not "股票-000001". */
  lemma UnknownTickerPlaceholder(sys: System, ticker: string, live: string -> Option<string>)
    requires !CompleteNames.Hit(sys.complete, CompleteNames.Normalize(ticker))
    requires !StaticNames.Hit(sys.fallback, StaticNames.Normalize(ticker))
    requires live(CompleteNames.Normalize(ticker)).None? && live(StaticNames.Normalize(ticker)).None?
    ensures FacadeName(sys, ticker, live) == Named(CompleteNames.Placeholder + StaticNames.Normalize(ticker), sys)
  {
    PlaceholderPrefixed(CompleteNames.Normalize(ticker));
  }

  lemma PlaceholderPrefixed(n: string)
    ensures IsPlaceholder(CompleteNames.Placeholder + n)
  {
    assert (CompleteNames.Placeholder + n)[..|CompleteNames.Placeholder|] == CompleteNames.Placeholder;
  }

  /** Facade `get_stock_industry`: the complete manager's industry unless it is
      empty or "其他", in which case the static table's. Nothing changes. */
  function FacadeIndustry(sys: System, ticker: string): (r: string)
    ensures var c := CompleteNames.GetIndustry(sys.complete, ticker);
      c != "" && c != CompleteNames.Other ==> r == c
    ensures var c := CompleteNames.GetIndustry(sys.complete, ticker);
      c == "" || c == CompleteNames.Other ==> r == StaticNames.GetIndustry(sys.fallback, ticker)
  {
    var c := CompleteNames.GetIndustry(sys.complete, ticker);
    if c != "" && c != CompleteNames.Other then c else StaticNames.GetIndustry(sys.fallback, ticker)
  }

  /** If every stored industry is the board guess, a code on one of the four boards
      gets its board name and the static industry table is never consulted. */
  lemma BoardCodesNeverFallBack(sys: System, ticker: string, other: StaticNames.Manager)
    requires CompleteNames.GuessConsistent(sys.complete)
    requires var n := CompleteNames.Normalize(ticker);
      StartsWith(n, "60") || StartsWith(n, "00") || StartsWith(n, "30") || StartsWith(n, "68")
    ensures FacadeIndustry(sys, ticker) == CompleteNames.GuessIndustry(CompleteNames.Normalize(ticker))
    ensures FacadeIndustry(sys, ticker) != CompleteNames.Other
    ensures FacadeIndustry(sys, ticker) == FacadeIndustry(sys.(fallback := other), ticker)
  {
    CompleteNames.ConsistentIndustry(sys.complete, ticker);
  }

  /** `get_stock_info`'s result. */
  datatype Info = Info(code: string, name: string, industry: string)

  /** `get_stock_info`: the raw ticker, its facade name, then its facade industry,
      looked up after the name lookup has updated the managers. */
  function GetStockInfo(sys: System, ticker: string, live: string -> Option<string>): (r: (Info, System))
    ensures r.0.code == ticker
    ensures r.0.name == FacadeName(sys, ticker, live).name && r.1 == FacadeName(sys, ticker, live).sys
    ensures r.0.industry == FacadeIndustry(r.1, ticker)
  {
    var named := FacadeName(sys, ticker, live);
    (Info(ticker, named.name, FacadeIndustry(named.sys, ticker)), named.sys)
  }

  /** Because the name is looked up first, a live name found by the complete manager
      replaces a stored industry with the board guess before the industry is read. */
  lemma InfoSeesNameLookup(sys: System, ticker: string, live: string -> Option<string>)
    requires var n := CompleteNames.Normalize(ticker);
      && !CompleteNames.Hit(sys.complete, n)
      && live(n).Some? && live(n).value != "" && !IsPlaceholder(live(n).value)
      && CompleteNames.GuessIndustry(n) != CompleteNames.Other
    ensures GetStockInfo(sys, ticker, live).0 ==
      Info(ticker, live(CompleteNames.Normalize(ticker)).value, CompleteNames.GuessIndustry(CompleteNames.Normalize(ticker)))
  {
  }
}
