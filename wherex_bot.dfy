/**
 * The Wherex portal bot: it checks that the price list exists, then handles
 * every opportunity with the first-match rule, attaching
 * `fichas_tecnicas/<Codigo>.pdf` when that file exists and warning when it
 * does not. A submission error is not caught and ends the run; a missing
 * `Precio` is logged as "".
 */
module WherexBot {
  import opened Wrappers
  import opened Portal
  import BotConfig

  const Status := "Postulado en Wherex"
  const SheetDir := "fichas_tecnicas"

  /** Submission errors escape, a missing price becomes "", a missing datasheet is reported. */
  const Wherex := Policy(Status, SheetDir, false, true, true)

  /** `LISTA_PRECIOS_PATH`: the environment's `PRICE_LIST_PATH`, or the default list. */
  function PriceListPath(env: BotConfig.Env): string
  {
    BotConfig.GetenvOr(env, "PRICE_LIST_PATH", "data/lista_precios.csv")
  }

  datatype Failure = FileNotFound(path: string)

  /**
   * `main`: without a price-list file the run fails with FileNotFoundError
   * before any page is opened; otherwise the run handles the opportunities.
   * `priceList` is what reading that file yields.
   */
  method RunBot(s: Session, env: BotConfig.Env, priceList: seq<PriceRow>, opps: seq<string>) returns (r: Result<bool, Failure>)
    modifies s
    ensures !s.site.fileExists(PriceListPath(env)) ==>
              r == Err(FileNotFound(PriceListPath(env))) && s.trace == old(s.trace)
    ensures s.site.fileExists(PriceListPath(env)) ==>
              r == Ok(RunFrom(Wherex, 0, opps, priceList, s.site).aborted)
              && s.trace == old(s.trace) + RunFrom(Wherex, 0, opps, priceList, s.site).events
  {
    var path := PriceListPath(env);
    if !s.site.fileExists(path) {
      return Err(FileNotFound(path));
    }
    var aborted := ProcessOpportunities(s, Wherex, opps, priceList);
    r := Ok(aborted);
  }

  /**
   * The datasheet of the selected product is `fichas_tecnicas/<Codigo>.pdf`.
   * When it is missing, the warning comes first and the submission is still
   * made without an attachment; when it exists, it is attached.
   */
  lemma DatasheetRule(k: nat, text: string, catalog: seq<PriceRow>, site: Site)
    requires FirstMatch(text, catalog).Some?
    ensures var code := catalog[FirstMatch(text, catalog).value].codigo;
            var path := "fichas_tecnicas/" + code + ".pdf";
            var events := Step(Wherex, k, text, catalog, site).events;
            && (!site.fileExists(path) ==>
                  |events| >= 2 && events[0] == Warned("Advertencia: No se encontró ficha técnica para " + code + ".")
                  && events[1] == Attempted(k, code, None, !site.submitFails(k)))
            && (site.fileExists(path) ==>
                  |events| >= 1 && events[0] == Attempted(k, code, Some(path), !site.submitFails(k)))
  {
    var code := catalog[FirstMatch(text, catalog).value].codigo;
    assert DatasheetPath(SheetDir, code) == "fichas_tecnicas/" + code + ".pdf";
  }

  /**
   * A run stops exactly when a submission fails; a missing price never stops it.
   * Until then, every logged row is `[timestamp, Codigo, Descripcion, Precio or "", "Postulado en Wherex"]`
   * for the product submitted at the same position.
   */
  lemma RunOutcome(opps: seq<string>, catalog: seq<PriceRow>, site: Site)
    ensures RunFrom(Wherex, 0, opps, catalog, site).aborted <==>
              exists i :: 0 <= i < |opps| && FirstMatch(opps[i], catalog).Some? && site.submitFails(i)
    ensures var run := RunFrom(Wherex, 0, opps, catalog, site);
            var rows := LoggedRows(run.events);
            var subs := Attempts(run.events);
            forall i :: 0 <= i < |rows| ==>
              i < |subs| && subs[i].0 < |opps| && FirstMatch(opps[subs[i].0], catalog).Some?
              && var prod := catalog[FirstMatch(opps[subs[i].0], catalog).value];
                 rows[i] == [site.clock(subs[i].0), prod.codigo, prod.descripcion, PriceCell(prod), "Postulado en Wherex"]
  {
    AbortsIffSubmissionFails(Wherex, 0, opps, catalog, site);
    LoggedRowsAreSelectedRows(Wherex, 0, opps, catalog, site);
  }

  /** When every submission goes through, one row is logged per matched opportunity, in order. */
  lemma CompleteRun(opps: seq<string>, catalog: seq<PriceRow>, site: Site)
    requires forall i :: 0 <= i < |opps| ==> !site.submitFails(i)
    ensures !RunFrom(Wherex, 0, opps, catalog, site).aborted
    ensures LoggedRows(RunFrom(Wherex, 0, opps, catalog, site).events) == ExpectedRows(Wherex, 0, opps, catalog, site.clock)
    ensures |LoggedRows(RunFrom(Wherex, 0, opps, catalog, site).events)| == MatchedCount(0, opps, catalog)
  {
    RunCompletes(Wherex, 0, opps, catalog, site);
    RunFacts(Wherex, 0, opps, catalog, site);
    ExpectedCounts(Wherex, 0, opps, catalog, site.clock);
  }
}
