/**
 * The Mercado Público provider-portal bot. It behaves as the Senegocia bot
 * does: configuration from `load_config`, first-match selection, the
 * datasheet `TECH_SHEET_DIR/<Codigo>.pdf` uploaded only when it exists,
 * submission errors caught and printed, and the row registered afterwards.
 */
module MercadoPublicoBot {
  import opened Wrappers
  import opened Portal
  import BotConfig

  const Status := "Postulado en MP"

  /** Errors are caught, `Precio` is read without a fallback, a missing datasheet is silent. */
  function MercadoPublico(techDir: string): Policy
  {
    Policy(Status, techDir, true, false, false)
  }

  /** `main`: load the configuration, read the price list it names and handle the opportunities. */
  method RunBot(s: Session, env: BotConfig.Env, fileExists: bool, hasTomllib: bool, data: BotConfig.Toml,
              priceLists: string -> seq<PriceRow>, opps: seq<string>) returns (aborted: bool)
    modifies s
    ensures var p := MercadoPublico(BotConfig.TechSheetDir(BotConfig.MercadoPublico, env, fileExists, hasTomllib, data));
            var catalog := priceLists(BotConfig.PriceListPath(BotConfig.MercadoPublico, env, fileExists, hasTomllib, data));
            && s.trace == old(s.trace) + RunFrom(p, 0, opps, catalog, s.site).events
            && aborted == RunFrom(p, 0, opps, catalog, s.site).aborted
  {
    var cfg := BotConfig.LoadConfig(BotConfig.MercadoPublico, env, fileExists, hasTomllib, data);
    BotConfig.Precedence(BotConfig.MercadoPublico, env, fileExists, hasTomllib, data);
    var catalog := priceLists(cfg[BotConfig.PriceListKey].value);
    aborted := ProcessOpportunities(s, MercadoPublico(cfg[BotConfig.TechSheetKey].value), opps, catalog);
  }

  /**
   * One matched opportunity with a priced row: the datasheet path comes from
   * the configured directory and is attached only if it exists, nothing is
   * printed before the submission, a failed submission is reported and the
   * row is registered either way.
   */
  lemma OpportunityHandled(env: BotConfig.Env, fileExists: bool, hasTomllib: bool, data: BotConfig.Toml,
                           k: nat, text: string, catalog: seq<PriceRow>, site: Site)
    requires FirstMatch(text, catalog).Some?
    requires catalog[FirstMatch(text, catalog).value].precio.Some?
    ensures var dir := BotConfig.TechSheetDir(BotConfig.MercadoPublico, env, fileExists, hasTomllib, data);
            var prod := catalog[FirstMatch(text, catalog).value];
            var path := JoinPath(dir, prod.codigo + ".pdf");
            var attached := if site.fileExists(path) then Some(path) else None;
            var row := [site.clock(k), prod.codigo, prod.descripcion, prod.precio.value, "Postulado en MP"];
            var st := Step(MercadoPublico(dir), k, text, catalog, site);
            && !st.aborted
            && (site.submitFails(k) ==>
                  st.events == [Attempted(k, prod.codigo, attached, false),
                                Warned("Error postulating product " + prod.codigo), Logged(row)])
            && (!site.submitFails(k) ==> st.events == [Attempted(k, prod.codigo, attached, true), Logged(row)])
  {
  }

  /** A configured `[files].tech_sheet_dir` is where the datasheets are looked for. */
  lemma TechSheetDirFromFile(env: BotConfig.Env, data: BotConfig.Toml)
    requires "files" in data && "tech_sheet_dir" in data["files"]
    ensures BotConfig.TechSheetDir(BotConfig.MercadoPublico, env, true, true, data) == data["files"]["tech_sheet_dir"]
  {
    BotConfig.Precedence(BotConfig.MercadoPublico, env, true, true, data);
  }
}
