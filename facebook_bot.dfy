/**
 * The Facebook Marketplace bot. Its `process_opportunities` does no matching:
 * for every price-list row, in order, it calls a placeholder `postulate`,
 * which does nothing and so never raises, then registers the row. Reading
 * `Precio` from a list without that column raises and ends the run.
 */
module FacebookBot {
  import opened Wrappers
  import opened Portal
  import BotConfig

  const Status := "Postulado en Facebook"

  /**
   * The row format and price rule of this bot. Only `status` and
   * `priceFallback` are consulted: the placeholder never raises and opens
   * no datasheet.
   */
  const Facebook := Policy(Status, BotConfig.DefaultTechSheetDir, true, false, false)

  /** Handling the price-list rows from position `k` on; the timestamp of row `k` is `clock(k)`. */
  function CatalogRun(k: nat, catalog: seq<PriceRow>, clock: nat -> string): Run
    decreases |catalog| - k
  {
    if k >= |catalog| then Run([], false)
    else
      var sub := Attempted(k, catalog[k].codigo, None, true);
      match LogRow(Facebook, clock(k), catalog[k])
      case None => Run([sub], true)
      case Some(row) =>
        var rest := CatalogRun(k + 1, catalog, clock);
        Run([sub, Logged(row)] + rest.events, rest.aborted)
  }

  /** One row of the price list: its submission and row, then the following rows. */
  lemma CatalogRunStep(k: nat, catalog: seq<PriceRow>, clock: nat -> string)
    requires k < |catalog|
    ensures var sub := Attempted(k, catalog[k].codigo, None, true);
            var rest := CatalogRun(k + 1, catalog, clock);
            var row := LogRow(Facebook, clock(k), catalog[k]);
            && (row.None? ==> CatalogRun(k, catalog, clock) == Run([sub], true))
            && (row.Some? ==> CatalogRun(k, catalog, clock) == Run([sub, Logged(row.value)] + rest.events, rest.aborted))
  {
  }

  /** The loop over the price list: a placeholder submission, then the row. */
  method ProcessOpportunities(s: Session, catalog: seq<PriceRow>) returns (aborted: bool)
    modifies s
    ensures s.trace == old(s.trace) + CatalogRun(0, catalog, s.site.clock).events
    ensures aborted == CatalogRun(0, catalog, s.site.clock).aborted
  {
    var i := 0;
    while i < |catalog|
      invariant 0 <= i <= |catalog|
      invariant old(s.trace) + CatalogRun(0, catalog, s.site.clock).events
                == s.trace + CatalogRun(i, catalog, s.site.clock).events
      invariant CatalogRun(0, catalog, s.site.clock).aborted == CatalogRun(i, catalog, s.site.clock).aborted
    {
      var stop := PostulateRow(s, i, catalog);
      if stop {
        return true;
      }
      i := i + 1;
    }
    aborted := false;
  }

  /**
   * One row of the price list: the placeholder submission, then the row;
   * reading a missing `Precio` raises after the submission.
   */
  method PostulateRow(s: Session, k: nat, catalog: seq<PriceRow>) returns (stop: bool)
    requires k < |catalog|
    modifies s
    ensures stop == LogRow(Facebook, s.site.clock(k), catalog[k]).None?
    ensures stop ==> s.trace == old(s.trace) + CatalogRun(k, catalog, s.site.clock).events
                     && CatalogRun(k, catalog, s.site.clock).aborted
    ensures !stop ==> old(s.trace) + CatalogRun(k, catalog, s.site.clock).events
                      == s.trace + CatalogRun(k + 1, catalog, s.site.clock).events
                      && CatalogRun(k, catalog, s.site.clock).aborted == CatalogRun(k + 1, catalog, s.site.clock).aborted
  {
    ghost var before := s.trace;
    CatalogRunStep(k, catalog, s.site.clock);
    s.SubmitPlaceholder(k, catalog[k].codigo);
    var row := LogRow(Facebook, s.site.clock(k), catalog[k]);
    if row.None? {
      return true;
    }
    s.AppendRow(row.value);
    stop := false;
    ghost var rest := CatalogRun(k + 1, catalog, s.site.clock).events;
    assert before + ([Attempted(k, catalog[k].codigo, None, true), Logged(row.value)] + rest)
           == s.trace + rest;
  }

  /** `main`: load the configuration, read the price list it names and register every row. */
  method RunBot(s: Session, env: BotConfig.Env, fileExists: bool, hasTomllib: bool, data: BotConfig.Toml,
              priceLists: string -> seq<PriceRow>) returns (aborted: bool)
    modifies s
    ensures var catalog := priceLists(BotConfig.PriceListPath(BotConfig.Facebook, env, fileExists, hasTomllib, data));
            && s.trace == old(s.trace) + CatalogRun(0, catalog, s.site.clock).events
            && aborted == CatalogRun(0, catalog, s.site.clock).aborted
  {
    var cfg := BotConfig.LoadConfig(BotConfig.Facebook, env, fileExists, hasTomllib, data);
    BotConfig.Precedence(BotConfig.Facebook, env, fileExists, hasTomllib, data);
    aborted := ProcessOpportunities(s, priceLists(cfg[BotConfig.PriceListKey].value));
  }

  /** The rows registered for the price-list rows from `k` on. */
  function Registered(k: nat, catalog: seq<PriceRow>, clock: nat -> string): seq<SheetRow>
    requires k <= |catalog|
  {
    seq(|catalog| - k, i requires 0 <= i < |catalog| - k => RowFor(Facebook, clock(k + i), catalog[k + i]))
  }

  /** The submissions made for the price-list rows from `k` on. */
  function Submitted(k: nat, catalog: seq<PriceRow>): seq<(nat, string)>
    requires k <= |catalog|
  {
    seq(|catalog| - k, i requires 0 <= i < |catalog| - k => SubmissionOf(k + i, catalog))
  }

  /** The submission made for price-list row `j`. */
  function SubmissionOf(j: nat, catalog: seq<PriceRow>): (nat, string)
    requires j < |catalog|
  {
    (j, catalog[j].codigo)
  }

  lemma RegisteredCons(k: nat, catalog: seq<PriceRow>, clock: nat -> string)
    requires k < |catalog|
    ensures Registered(k, catalog, clock) == [RowFor(Facebook, clock(k), catalog[k])] + Registered(k + 1, catalog, clock)
  {
    var r := Registered(k + 1, catalog, clock);
    forall i | 0 < i < |catalog| - k
      ensures Registered(k, catalog, clock)[i] == r[i - 1]
    {
      assert k + 1 + (i - 1) == k + i;
    }
  }

  lemma SubmittedCons(k: nat, catalog: seq<PriceRow>)
    requires k < |catalog|
    ensures Submitted(k, catalog) == [(k, catalog[k].codigo)] + Submitted(k + 1, catalog)
  {
    var r := Submitted(k + 1, catalog);
    assert Submitted(k, catalog)[0] == SubmissionOf(k, catalog);
    forall i | 0 < i < |catalog| - k
      ensures Submitted(k, catalog)[i] == r[i - 1]
    {
      assert k + 1 + (i - 1) == k + i;
    }
  }

  /** The views of a submission followed by its row. */
  lemma HeadViews(k: nat, code: string, row: SheetRow, rest: seq<Event>)
    ensures LoggedRows([Attempted(k, code, None, true), Logged(row)] + rest) == [row] + LoggedRows(rest)
    ensures Attempts([Attempted(k, code, None, true), Logged(row)] + rest) == [(k, code)] + Attempts(rest)
  {
    var head := [Attempted(k, code, None, true), Logged(row)];
    LoggedRowsConcat(head, rest);
    AttemptsConcat(head, rest);
    assert head[1..] == [Logged(row)];
    assert [Logged(row)][1..] == [];
  }

  /** With every row from `k` on priced, the rows are registered one by one, each after its submission. */
  lemma {:induction false} RowsFrom(k: nat, catalog: seq<PriceRow>, clock: nat -> string)
    requires k <= |catalog|
    requires forall j :: k <= j < |catalog| ==> catalog[j].precio.Some?
    ensures var run := CatalogRun(k, catalog, clock);
            && !run.aborted
            && LoggedRows(run.events) == Registered(k, catalog, clock)
            && Attempts(run.events) == Submitted(k, catalog)
    decreases |catalog| - k
  {
    if k < |catalog| {
      var rest := CatalogRun(k + 1, catalog, clock);
      var row := RowFor(Facebook, clock(k), catalog[k]);
      CatalogRunStep(k, catalog, clock);
      RowsFrom(k + 1, catalog, clock);
      HeadViews(k, catalog[k].codigo, row, rest.events);
      RegisteredCons(k, catalog, clock);
      SubmittedCons(k, catalog);
    }
  }

  /**
   * With every row priced, the run completes and the log holds one row per
   * price-list row, in order: `[timestamp, Codigo, Descripcion, Precio,
   * "Postulado en Facebook"]`. Every row was submitted first, successfully.
   */
  lemma EveryRowLogged(catalog: seq<PriceRow>, clock: nat -> string)
    requires forall j :: 0 <= j < |catalog| ==> catalog[j].precio.Some?
    ensures var run := CatalogRun(0, catalog, clock);
            && !run.aborted
            && |LoggedRows(run.events)| == |catalog|
            && (forall i :: 0 <= i < |catalog| ==>
                  LoggedRows(run.events)[i]
                  == [clock(i), catalog[i].codigo, catalog[i].descripcion, catalog[i].precio.value, "Postulado en Facebook"])
            && |Attempts(run.events)| == |catalog|
            && (forall i :: 0 <= i < |catalog| ==> Attempts(run.events)[i] == (i, catalog[i].codigo))
  {
    RowsFrom(0, catalog, clock);
    var rows := Registered(0, catalog, clock);
    forall i | 0 <= i < |catalog|
      ensures rows[i] == [clock(i), catalog[i].codigo, catalog[i].descripcion, catalog[i].precio.value, "Postulado en Facebook"]
    {
      assert rows[i] == RowFor(Facebook, clock(0 + i), catalog[0 + i]);
    }
  }

  /** The run ends early exactly when some row has no price; nothing is ever printed. */
  lemma {:induction false} NeverWarns(k: nat, catalog: seq<PriceRow>, clock: nat -> string)
    ensures CatalogRun(k, catalog, clock).aborted <==> exists j :: k <= j < |catalog| && catalog[j].precio.None?
    ensures forall e :: e in CatalogRun(k, catalog, clock).events ==> !e.Warned?
    decreases |catalog| - k
  {
    if k < |catalog| {
      NeverWarns(k + 1, catalog, clock);
    }
  }
}
