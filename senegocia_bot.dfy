/**
 * The Senegocia portal bot: configuration from `load_config`, the
 * first-match rule over the opportunities, and a submission whose errors are
 * caught and printed, so the row is registered even after a failure. Reading
 * `Precio` from a list without that column raises and ends the run.
 */
module SenegociaBot {
  import opened Wrappers
  import opened Portal
  import BotConfig

  const Status := "Postulado en Senegocia"

  /** Errors are caught, `Precio` is read without a fallback, a missing datasheet is silent. */
  function Senegocia(techDir: string): Policy
  {
    Policy(Status, techDir, true, false, false)
  }

  /**
   * `main`: load the configuration, read the price list it names (as
   * `priceLists` gives it) and handle the opportunities with the configured
   * datasheet directory.
   */
  method RunBot(s: Session, env: BotConfig.Env, fileExists: bool, hasTomllib: bool, data: BotConfig.Toml,
              priceLists: string -> seq<PriceRow>, opps: seq<string>) returns (aborted: bool)
    modifies s
    ensures var p := Senegocia(BotConfig.TechSheetDir(BotConfig.Senegocia, env, fileExists, hasTomllib, data));
            var catalog := priceLists(BotConfig.PriceListPath(BotConfig.Senegocia, env, fileExists, hasTomllib, data));
            && s.trace == old(s.trace) + RunFrom(p, 0, opps, catalog, s.site).events
            && aborted == RunFrom(p, 0, opps, catalog, s.site).aborted
  {
    var cfg := BotConfig.LoadConfig(BotConfig.Senegocia, env, fileExists, hasTomllib, data);
    BotConfig.Precedence(BotConfig.Senegocia, env, fileExists, hasTomllib, data);
    var catalog := priceLists(cfg[BotConfig.PriceListKey].value);
    aborted := ProcessOpportunities(s, Senegocia(cfg[BotConfig.TechSheetKey].value), opps, catalog);
  }

  /**
   * A failed submission is still registered: with every row priced the run
   * completes, logs one row per matched opportunity whatever the site does,
   * and the i-th row records the i-th submission with the Senegocia status.
   */
  lemma FailedSubmissionStillLogged(techDir: string, opps: seq<string>, catalog: seq<PriceRow>, site: Site)
    requires forall j :: 0 <= j < |catalog| ==> catalog[j].precio.Some?
    ensures var run := RunFrom(Senegocia(techDir), 0, opps, catalog, site);
            && !run.aborted
            && LoggedRows(run.events) == ExpectedRows(Senegocia(techDir), 0, opps, catalog, site.clock)
            && |LoggedRows(run.events)| == |Attempts(run.events)| == MatchedCount(0, opps, catalog)
            && forall i :: 0 <= i < |LoggedRows(run.events)| ==>
                 |LoggedRows(run.events)[i]| == 5
                 && LoggedRows(run.events)[i][1] == Attempts(run.events)[i].1
                 && LoggedRows(run.events)[i][4] == "Postulado en Senegocia"
  {
    var p := Senegocia(techDir);
    RunCompletes(p, 0, opps, catalog, site);
    RunFacts(p, 0, opps, catalog, site);
    ExpectedCounts(p, 0, opps, catalog, site.clock);
    LoggedRowsAreSelectedRows(p, 0, opps, catalog, site);
  }

  /** The run ends early exactly when a matched opportunity selects a row without a price. */
  lemma StopsAtUnpricedRow(techDir: string, opps: seq<string>, catalog: seq<PriceRow>, site: Site)
    ensures RunFrom(Senegocia(techDir), 0, opps, catalog, site).aborted <==>
              exists i :: 0 <= i < |opps| && FirstMatch(opps[i], catalog).Some?
                          && catalog[FirstMatch(opps[i], catalog).value].precio.None?
  {
    AbortsIffUnpriced(Senegocia(techDir), 0, opps, catalog, site);
  }
}
