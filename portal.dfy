/**
 * What the Wherex, Senegocia and Mercado Público bots share: the price-list
 * rows they iterate, the first-match rule, the session that records every
 * submission, console warning and sheet append in the order they happen, and
 * the opportunity loop, parameterised by the points where the bots differ.
 */
module Portal {
  import opened Wrappers
  import opened Text

  /**
   * A price-list row with the columns `Codigo`, `Descripcion` and `Precio`.
   * `precio` is None when the list has no `Precio` column.
   */
  datatype PriceRow = PriceRow(codigo: string, descripcion: string, precio: Option<string>)

  /** One row appended to the Google sheet. */
  type SheetRow = seq<string>

  /** Everything a run does that can be observed, in order. */
  datatype Event =
    | Attempted(opportunity: nat, code: string, attachment: Option<string>, succeeded: bool)
    | Warned(message: string)
    | Logged(row: SheetRow)

  /**
   * The site and the machine the bot runs on, as oracles: whether submitting
   * for the opportunity at a given position raises, whether a file exists,
   * and the timestamp taken when the opportunity at a given position is logged.
   */
  datatype Site = Site(submitFails: nat -> bool, fileExists: string -> bool, clock: nat -> string)

  /** Where the bots differ. */
  datatype Policy = Policy(
    status: string,            // last column of every logged row
    sheetDir: string,          // directory holding the `<Codigo>.pdf` datasheets
    swallowErrors: bool,       // a failed submission is caught and printed
    priceFallback: bool,       // a missing `Precio` is logged as "" instead of raising KeyError
    warnMissingSheet: bool)    // a missing datasheet is reported on the console

  /** The effect of processing some opportunities: what happened and whether an exception escaped. */
  datatype Run = Run(events: seq<Event>, aborted: bool)

  // ---------------------------------------------------------------------------
  // Matching

  /** `prod['Descripcion'].lower() in name.lower()` */
  predicate DescriptionMatches(text: string, row: PriceRow)
  {
    Contains(Lower(row.descripcion), Lower(text))
  }

  /** The first row, from position `j` on, whose description occurs in `text`. */
  function FirstMatchFrom(text: string, catalog: seq<PriceRow>, j: nat): (r: Option<nat>)
    requires j <= |catalog|
    ensures r.Some? ==> j <= r.value < |catalog| && DescriptionMatches(text, catalog[r.value])
                        && forall k :: j <= k < r.value ==> !DescriptionMatches(text, catalog[k])
    ensures r.None? ==> forall k :: j <= k < |catalog| ==> !DescriptionMatches(text, catalog[k])
    decreases |catalog| - j
  {
    if j == |catalog| then None
    else if DescriptionMatches(text, catalog[j]) then Some(j)
    else FirstMatchFrom(text, catalog, j + 1)
  }

  /** The product selected for an opportunity: the first match in price-list order, if any. */
  function FirstMatch(text: string, catalog: seq<PriceRow>): (r: Option<nat>)
    ensures r.Some? ==> r.value < |catalog| && DescriptionMatches(text, catalog[r.value])
                        && forall k :: 0 <= k < r.value ==> !DescriptionMatches(text, catalog[k])
    ensures r.None? ==> forall k :: 0 <= k < |catalog| ==> !DescriptionMatches(text, catalog[k])
  {
    FirstMatchFrom(text, catalog, 0)
  }

  /** The inner loop over the price list, stopping at the first hit as `break` does. */
  method FindFirst(text: string, catalog: seq<PriceRow>) returns (r: Option<nat>)
    ensures r == FirstMatch(text, catalog)
  {
    var name := Lower(text);
    var j := 0;
    while j < |catalog|
      invariant 0 <= j <= |catalog|
      invariant FirstMatchFrom(text, catalog, j) == FirstMatch(text, catalog)
    {
      if Contains(Lower(catalog[j].descripcion), name) {
        return Some(j);
      }
      j := j + 1;
    }
    r := None;
  }

  // ---------------------------------------------------------------------------
  // Rows, paths and messages

  /**
   * `Path(dir) / name` as text: an empty directory adds nothing, and a
   * directory already ending in `/` gets no second one.
   */
  function JoinPath(dir: string, name: string): (path: string)
    ensures dir == "" ==> path == name
    ensures dir != "" && dir[|dir| - 1] == '/' ==> path == dir + name
    ensures dir != "" && dir[|dir| - 1] != '/' ==> path == dir + "/" + name
  {
    if dir == "" then name
    else if dir[|dir| - 1] == '/' then dir + name
    else dir + "/" + name
  }

  /** The joined path ends in the name. */
  lemma JoinPathEndsInName(dir: string, name: string)
    ensures var path := JoinPath(dir, name);
            |path| >= |name| && path[|path| - |name|..] == name
  {
  }

  /** Where the datasheet of a product is looked for: `<dir>/<Codigo>.pdf`. */
  function DatasheetPath(dir: string, code: string): string
  {
    JoinPath(dir, code + ".pdf")
  }

  function MissingSheetWarning(code: string): string
  {
    "Advertencia: No se encontró ficha técnica para " + code + "."
  }

  /** The console report of a caught submission error; the exception text itself is not modelled. */
  function ErrorReport(code: string): string
  {
    "Error postulating product " + code
  }

  /** The price cell of a row: the `Precio` value, or "" where the bot falls back. */
  function PriceCell(row: PriceRow): string
  {
    if row.precio.Some? then row.precio.value else ""
  }

  /** `[timestamp, Codigo, Descripcion, Precio, status]` */
  function RowFor(p: Policy, timestamp: string, row: PriceRow): (r: SheetRow)
    ensures |r| == 5 && r[0] == timestamp && r[1] == row.codigo && r[2] == row.descripcion
    ensures r[3] == PriceCell(row) && r[4] == p.status
  {
    [timestamp, row.codigo, row.descripcion, PriceCell(row), p.status]
  }

  /** The row registered for a product, or None when reading `Precio` raises KeyError. */
  function LogRow(p: Policy, timestamp: string, row: PriceRow): (r: Option<SheetRow>)
    ensures r.None? <==> row.precio.None? && !p.priceFallback
    ensures r.Some? ==> r.value == RowFor(p, timestamp, row)
  {
    if row.precio.None? && !p.priceFallback then None else Some(RowFor(p, timestamp, row))
  }

  // ---------------------------------------------------------------------------
  // The specification of one run

  /** The datasheet attached for a product: `<dir>/<Codigo>.pdf`, when that file exists. */
  function Attachment(p: Policy, prod: PriceRow, site: Site): Option<string>
  {
    var path := DatasheetPath(p.sheetDir, prod.codigo);
    if site.fileExists(path) then Some(path) else None
  }

  /** What is printed before anything is sent: the warning about a missing datasheet, where the bot gives one. */
  function SheetWarning(p: Policy, prod: PriceRow, site: Site): seq<Event>
  {
    if p.warnMissingSheet && Attachment(p, prod, site).None? then [Warned(MissingSheetWarning(prod.codigo))] else []
  }

  /** Submitting the selected product, then registering its row. */
  function Outcome(p: Policy, k: nat, prod: PriceRow, attachment: Option<string>, site: Site): Run
  {
    var ok := !site.submitFails(k);
    var submitted := [Attempted(k, prod.codigo, attachment, ok)];
    if !ok && !p.swallowErrors then Run(submitted, true)
    else
      var reported := submitted + (if ok then [] else [Warned(ErrorReport(prod.codigo))]);
      match LogRow(p, site.clock(k), prod)
      case None => Run(reported, true)
      case Some(row) => Run(reported + [Logged(row)], false)
  }

  /** What handling the opportunity at position `k`, described by `text`, does. */
  function Step(p: Policy, k: nat, text: string, catalog: seq<PriceRow>, site: Site): Run
  {
    match FirstMatch(text, catalog)
    case None => Run([], false)
    case Some(j) =>
      var out := Outcome(p, k, catalog[j], Attachment(p, catalog[j], site), site);
      Run(SheetWarning(p, catalog[j], site) + out.events, out.aborted)
  }

  /** Handling the opportunities from position `k` on, stopping when an exception escapes. */
  function RunFrom(p: Policy, k: nat, opps: seq<string>, catalog: seq<PriceRow>, site: Site): Run
    decreases |opps| - k
  {
    if k >= |opps| then Run([], false)
    else
      var st := Step(p, k, opps[k], catalog, site);
      if st.aborted then st
      else
        var rest := RunFrom(p, k + 1, opps, catalog, site);
        Run(st.events + rest.events, rest.aborted)
  }

  // ---------------------------------------------------------------------------
  // Views of a trace

  /** The sheet: the rows appended, in order. */
  function LoggedRows(trace: seq<Event>): seq<SheetRow>
  {
    if trace == [] then []
    else (if trace[0].Logged? then [trace[0].row] else []) + LoggedRows(trace[1..])
  }

  /** The submissions made, as (opportunity position, product code), in order. */
  function Attempts(trace: seq<Event>): seq<(nat, string)>
  {
    if trace == [] then []
    else (if trace[0].Attempted? then [(trace[0].opportunity, trace[0].code)] else []) + Attempts(trace[1..])
  }

  lemma {:induction false} LoggedRowsConcat(a: seq<Event>, b: seq<Event>)
    ensures LoggedRows(a + b) == LoggedRows(a) + LoggedRows(b)
  {
    if a != [] {
      assert (a + b)[0] == a[0];
      assert (a + b)[1..] == a[1..] + b;
      LoggedRowsConcat(a[1..], b);
    } else {
      assert a + b == b;
    }
  }

  lemma {:induction false} AttemptsConcat(a: seq<Event>, b: seq<Event>)
    ensures Attempts(a + b) == Attempts(a) + Attempts(b)
  {
    if a != [] {
      assert (a + b)[0] == a[0];
      assert (a + b)[1..] == a[1..] + b;
      AttemptsConcat(a[1..], b);
    } else {
      assert a + b == b;
    }
  }

  /** At every point of the trace, no more rows have been logged than submissions made. */
  predicate LogNeverAhead(trace: seq<Event>)
  {
    forall n :: 0 <= n <= |trace| ==> |LoggedRows(trace[..n])| <= |Attempts(trace[..n])|
  }

  lemma LogNeverAheadConcat(a: seq<Event>, b: seq<Event>)
    requires LogNeverAhead(a) && LogNeverAhead(b)
    ensures LogNeverAhead(a + b)
  {
    forall n | 0 <= n <= |a + b|
      ensures |LoggedRows((a + b)[..n])| <= |Attempts((a + b)[..n])|
    {
      if n <= |a| {
        assert (a + b)[..n] == a[..n];
      } else {
        assert (a + b)[..n] == a + b[..n - |a|];
        assert a[..|a|] == a;
        LoggedRowsConcat(a, b[..n - |a|]);
        AttemptsConcat(a, b[..n - |a|]);
      }
    }
  }

  /** Warnings alone leave both views empty. */
  predicate OnlyWarnings(ws: seq<Event>)
  {
    forall i :: 0 <= i < |ws| ==> ws[i].Warned?
  }

  lemma {:induction false} WarningsInvisible(ws: seq<Event>)
    requires OnlyWarnings(ws)
    ensures LoggedRows(ws) == [] && Attempts(ws) == [] && LogNeverAhead(ws)
  {
    if ws != [] {
      WarningsInvisible(ws[1..]);
    }
    forall n | 0 <= n <= |ws| ensures LoggedRows(ws[..n]) == [] {
      WarningsOnlyPrefix(ws, n);
    }
  }

  lemma {:induction false} WarningsOnlyPrefix(ws: seq<Event>, n: nat)
    requires OnlyWarnings(ws) && n <= |ws|
    ensures LoggedRows(ws[..n]) == [] && Attempts(ws[..n]) == []
  {
    if n > 0 {
      assert ws[..n][1..] == ws[1..][..n - 1];
      WarningsOnlyPrefix(ws[1..], n - 1);
    }
  }

  /**
   * The shape of one handled opportunity: warnings, one submission, warnings,
   * and possibly its row. Such a trace submits once and logs at most that row,
   * and its log is never ahead of its submissions.
   */
  lemma ShapeViews(w1: seq<Event>, a: Event, w2: seq<Event>, tail: seq<Event>)
    requires OnlyWarnings(w1) && a.Attempted? && OnlyWarnings(w2)
    requires tail == [] || (|tail| == 1 && tail[0].Logged?)
    ensures Attempts(w1 + [a] + w2 + tail) == [(a.opportunity, a.code)]
    ensures LoggedRows(w1 + [a] + w2 + tail) == if tail == [] then [] else [tail[0].row]
    ensures LogNeverAhead(w1 + [a] + w2 + tail)
  {
    var pre := w1 + [a] + w2;
    SubmissionViews(w1, a, w2);
    if tail == [] {
      assert pre + tail == pre;
    } else {
      assert tail == [Logged(tail[0].row)];
      RowAfter(pre, tail[0].row);
    }
  }

  /** Warnings around one submission: that submission and no row. */
  lemma SubmissionViews(w1: seq<Event>, a: Event, w2: seq<Event>)
    requires OnlyWarnings(w1) && a.Attempted? && OnlyWarnings(w2)
    ensures LoggedRows(w1 + [a] + w2) == [] && Attempts(w1 + [a] + w2) == [(a.opportunity, a.code)]
    ensures LogNeverAhead(w1 + [a] + w2)
  {
    WarningsInvisible(w1);
    WarningsInvisible(w2);
    assert Attempts([a]) == [(a.opportunity, a.code)] + Attempts([]);
    assert LoggedRows([a]) == [] + LoggedRows([]);
    assert LogNeverAhead([a]) by {
      assert [a][..0] == [] && [a][..1] == [a];
    }
    LogNeverAheadConcat(w1, [a]);
    LogNeverAheadConcat(w1 + [a], w2);
    LoggedRowsConcat(w1, [a]);
    AttemptsConcat(w1, [a]);
    LoggedRowsConcat(w1 + [a], w2);
    AttemptsConcat(w1 + [a], w2);
  }

  /** A row appended after a single submission keeps the log level with the submissions. */
  lemma RowAfter(pre: seq<Event>, row: SheetRow)
    requires LoggedRows(pre) == [] && |Attempts(pre)| == 1 && LogNeverAhead(pre)
    ensures LoggedRows(pre + [Logged(row)]) == [row]
    ensures Attempts(pre + [Logged(row)]) == Attempts(pre)
    ensures LogNeverAhead(pre + [Logged(row)])
  {
    var tail := [Logged(row)];
    LoggedRowsConcat(pre, tail);
    AttemptsConcat(pre, tail);
    assert LoggedRows(tail) == [row] + LoggedRows([]);
    assert Attempts(tail) == [] + Attempts([]);
    forall n | 0 <= n <= |pre + tail|
      ensures |LoggedRows((pre + tail)[..n])| <= |Attempts((pre + tail)[..n])|
    {
      if n <= |pre| {
        assert (pre + tail)[..n] == pre[..n];
      } else {
        assert (pre + tail)[..n] == pre + tail;
      }
    }
  }

  // ---------------------------------------------------------------------------
  // What a run promises

  /** The rows a run that completes logs: one per opportunity with a match, in opportunity order. */
  function ExpectedRows(p: Policy, k: nat, opps: seq<string>, catalog: seq<PriceRow>, clock: nat -> string): seq<SheetRow>
    decreases |opps| - k
  {
    if k >= |opps| then []
    else
      StepRows(p, k, opps[k], catalog, clock) + ExpectedRows(p, k + 1, opps, catalog, clock)
  }

  /** The row an opportunity contributes when nothing escapes: that of its first match, if any. */
  function StepRows(p: Policy, k: nat, text: string, catalog: seq<PriceRow>, clock: nat -> string): seq<SheetRow>
  {
    match FirstMatch(text, catalog)
    case None => []
    case Some(j) => [RowFor(p, clock(k), catalog[j])]
  }

  /** The submission an opportunity makes: one for its first match, if any. */
  function StepAttempts(k: nat, text: string, catalog: seq<PriceRow>): seq<(nat, string)>
  {
    match FirstMatch(text, catalog)
    case None => []
    case Some(j) => [(k, catalog[j].codigo)]
  }

  /** The submissions a run that completes makes: the first match of each opportunity, in order. */
  function ExpectedAttempts(k: nat, opps: seq<string>, catalog: seq<PriceRow>): seq<(nat, string)>
    decreases |opps| - k
  {
    if k >= |opps| then []
    else
      StepAttempts(k, opps[k], catalog) + ExpectedAttempts(k + 1, opps, catalog)
  }

  /** How many opportunities from position `k` on have a match. */
  function MatchedCount(k: nat, opps: seq<string>, catalog: seq<PriceRow>): nat
    decreases |opps| - k
  {
    if k >= |opps| then 0
    else (if FirstMatch(opps[k], catalog).Some? then 1 else 0) + MatchedCount(k + 1, opps, catalog)
  }

  /** Facts about one step: its shape, and what it logs and submits when nothing escapes. */
  lemma StepFacts(p: Policy, k: nat, text: string, catalog: seq<PriceRow>, site: Site)
    ensures var st := Step(p, k, text, catalog, site);
            && LogNeverAhead(st.events)
            && (FirstMatch(text, catalog).None? ==> st == Run([], false))
            && (!st.aborted ==> LoggedRows(st.events) == StepRows(p, k, text, catalog, site.clock))
            && (!st.aborted ==> Attempts(st.events) == StepAttempts(k, text, catalog))
            && (st.aborted ==> FirstMatch(text, catalog).Some? && LoggedRows(st.events) == []
                               && Attempts(st.events) == StepAttempts(k, text, catalog))
  {
    match FirstMatch(text, catalog)
    case None =>
    case Some(j) =>
      var w1 := SheetWarning(p, catalog[j], site);
      assert OnlyWarnings(w1);
      OutcomeViews(p, k, catalog[j], Attachment(p, catalog[j], site), site, w1);
  }

  /**
   * The views of submitting a product, after some warnings: one submission,
   * and its row exactly when nothing escapes.
   */
  lemma OutcomeViews(p: Policy, k: nat, prod: PriceRow, attachment: Option<string>, site: Site, w1: seq<Event>)
    requires OnlyWarnings(w1)
    ensures var out := Outcome(p, k, prod, attachment, site);
            && LogNeverAhead(w1 + out.events)
            && Attempts(w1 + out.events) == [(k, prod.codigo)]
            && LoggedRows(w1 + out.events) == if out.aborted then [] else [RowFor(p, site.clock(k), prod)]
  {
    var ok := !site.submitFails(k);
    var a := Attempted(k, prod.codigo, attachment, ok);
    var w2 := if ok then [] else [Warned(ErrorReport(prod.codigo))];
    var none: seq<Event> := [];
    var events := w1 + Outcome(p, k, prod, attachment, site).events;
    if !ok && !p.swallowErrors {
      assert events == w1 + [a] + none + none;
      ShapeViews(w1, a, none, none);
    } else {
      match LogRow(p, site.clock(k), prod)
      case None =>
        assert events == w1 + [a] + w2 + none;
        ShapeViews(w1, a, w2, none);
      case Some(row) =>
        assert events == w1 + [a] + w2 + [Logged(row)];
        ShapeViews(w1, a, w2, [Logged(row)]);
    }
  }

  /**
   * A run that completes logs exactly the expected rows and makes exactly the
   * expected submissions; one that aborts has logged a prefix of them. At no
   * point has the log got ahead of the submissions.
   */
  lemma {:induction false} RunFacts(p: Policy, k: nat, opps: seq<string>, catalog: seq<PriceRow>, site: Site)
    ensures var run := RunFrom(p, k, opps, catalog, site);
            && LogNeverAhead(run.events)
            && (!run.aborted ==> LoggedRows(run.events) == ExpectedRows(p, k, opps, catalog, site.clock))
            && (!run.aborted ==> Attempts(run.events) == ExpectedAttempts(k, opps, catalog))
            && LoggedRows(run.events) <= ExpectedRows(p, k, opps, catalog, site.clock)
            && Attempts(run.events) <= ExpectedAttempts(k, opps, catalog)
    decreases |opps| - k
  {
    if k < |opps| {
      var st := Step(p, k, opps[k], catalog, site);
      var rows := StepRows(p, k, opps[k], catalog, site.clock);
      var subs := StepAttempts(k, opps[k], catalog);
      RunFromStep(p, k, opps, catalog, site);
      StepFacts(p, k, opps[k], catalog, site);
      if st.aborted {
        RowsPrefix(LoggedRows(st.events), [], ExpectedRows(p, k + 1, opps, catalog, site.clock));
        AttemptsPrefix(subs, [], ExpectedAttempts(k + 1, opps, catalog));
      } else {
        var rest := RunFrom(p, k + 1, opps, catalog, site);
        RunFacts(p, k + 1, opps, catalog, site);
        LogNeverAheadConcat(st.events, rest.events);
        LoggedRowsConcat(st.events, rest.events);
        AttemptsConcat(st.events, rest.events);
        RowsPrefix(rows, LoggedRows(rest.events), ExpectedRows(p, k + 1, opps, catalog, site.clock));
        AttemptsPrefix(subs, Attempts(rest.events), ExpectedAttempts(k + 1, opps, catalog));
      }
    } else {
      var none: seq<Event> := [];
      assert LogNeverAhead(none) by { assert none[..0] == none; }
    }
  }

  /** Extending a prefix of rows by the same head keeps it a prefix. */
  lemma RowsPrefix(x: seq<SheetRow>, y: seq<SheetRow>, z: seq<SheetRow>)
    requires y <= z
    ensures x + y <= x + z
  {
    assert (x + y) == (x + z)[..|x + y|];
  }

  /** Extending a prefix of submissions by the same head keeps it a prefix. */
  lemma AttemptsPrefix(x: seq<(nat, string)>, y: seq<(nat, string)>, z: seq<(nat, string)>)
    requires y <= z
    ensures x + y <= x + z
  {
    assert (x + y) == (x + z)[..|x + y|];
  }

  /** Each matched opportunity contributes one submission and one row. */
  lemma {:induction false} ExpectedCounts(p: Policy, k: nat, opps: seq<string>, catalog: seq<PriceRow>, clock: nat -> string)
    ensures |ExpectedRows(p, k, opps, catalog, clock)| == MatchedCount(k, opps, catalog)
    ensures |ExpectedAttempts(k, opps, catalog)| == MatchedCount(k, opps, catalog)
    decreases |opps| - k
  {
    if k < |opps| {
      ExpectedCounts(p, k + 1, opps, catalog, clock);
    }
  }

  /** One attempt of opportunity `x.0` at or after `k`, for the code of its first match. */
  predicate AttemptIsFirstMatch(x: (nat, string), k: nat, opps: seq<string>, catalog: seq<PriceRow>)
  {
    k <= x.0 < |opps| && FirstMatch(opps[x.0], catalog).Some?
    && x.1 == catalog[FirstMatch(opps[x.0], catalog).value].codigo
  }

  predicate IncreasingOpportunities(xs: seq<(nat, string)>)
  {
    forall i, l :: 0 <= i < l < |xs| ==> xs[i].0 < xs[l].0
  }

  /**
   * Every expected attempt is an opportunity from `k` on whose text matched,
   * with the code of its first matching row, and opportunities come in order.
   */
  lemma {:induction false} ExpectedAttemptsAreFirstMatches(k: nat, opps: seq<string>, catalog: seq<PriceRow>)
    ensures forall i :: 0 <= i < |ExpectedAttempts(k, opps, catalog)| ==>
              AttemptIsFirstMatch(ExpectedAttempts(k, opps, catalog)[i], k, opps, catalog)
    ensures IncreasingOpportunities(ExpectedAttempts(k, opps, catalog))
    decreases |opps| - k
  {
    if k < |opps| {
      ExpectedAttemptsAreFirstMatches(k + 1, opps, catalog);
      var rest := ExpectedAttempts(k + 1, opps, catalog);
      var fm := FirstMatch(opps[k], catalog);
      var head: seq<(nat, string)> := if fm.Some? then [(k, catalog[fm.value].codigo)] else [];
      var xs := head + rest;
      assert xs == ExpectedAttempts(k, opps, catalog);
      forall i | 0 <= i < |xs|
        ensures AttemptIsFirstMatch(xs[i], k, opps, catalog)
      {
        if i >= |head| {
          assert xs[i] == rest[i - |head|];
          assert AttemptIsFirstMatch(rest[i - |head|], k + 1, opps, catalog);
        }
      }
      forall i, l | 0 <= i < l < |xs|
        ensures xs[i].0 < xs[l].0
      {
        assert xs[l] == rest[l - |head|];
        assert AttemptIsFirstMatch(rest[l - |head|], k + 1, opps, catalog);
        if i >= |head| {
          assert xs[i] == rest[i - |head|];
        }
      }
    }
  }

  /** Each expected row is the row of the product submitted at the same position. */
  lemma RowsMatchAttempts(p: Policy, k: nat, opps: seq<string>, catalog: seq<PriceRow>, clock: nat -> string)
    ensures |ExpectedRows(p, k, opps, catalog, clock)| == |ExpectedAttempts(k, opps, catalog)|
    ensures forall i :: 0 <= i < |ExpectedRows(p, k, opps, catalog, clock)| ==>
              RowOfAttempt(p, ExpectedAttempts(k, opps, catalog)[i], opps, catalog, clock)
              == Some(ExpectedRows(p, k, opps, catalog, clock)[i])
  {
    ExpectedCounts(p, k, opps, catalog, clock);
    forall i | 0 <= i < |ExpectedRows(p, k, opps, catalog, clock)|
      ensures RowOfAttempt(p, ExpectedAttempts(k, opps, catalog)[i], opps, catalog, clock)
              == Some(ExpectedRows(p, k, opps, catalog, clock)[i])
    {
      RowMatchesAttempt(p, k, opps, catalog, clock, i);
    }
  }

  /** The i-th expected row is the row of the i-th expected submission. */
  lemma {:induction false} RowMatchesAttempt(p: Policy, k: nat, opps: seq<string>, catalog: seq<PriceRow>, clock: nat -> string, i: nat)
    requires i < |ExpectedRows(p, k, opps, catalog, clock)|
    ensures i < |ExpectedAttempts(k, opps, catalog)|
    ensures RowOfAttempt(p, ExpectedAttempts(k, opps, catalog)[i], opps, catalog, clock)
            == Some(ExpectedRows(p, k, opps, catalog, clock)[i])
    decreases |opps| - k
  {
    ExpectedCounts(p, k, opps, catalog, clock);
    var rows := ExpectedRows(p, k + 1, opps, catalog, clock);
    var rest := ExpectedAttempts(k + 1, opps, catalog);
    var fm := FirstMatch(opps[k], catalog);
    if fm.Some? {
      assert ExpectedAttempts(k, opps, catalog) == [(k, catalog[fm.value].codigo)] + rest;
      assert ExpectedRows(p, k, opps, catalog, clock) == [RowFor(p, clock(k), catalog[fm.value])] + rows;
      if i > 0 {
        RowMatchesAttempt(p, k + 1, opps, catalog, clock, i - 1);
      }
    } else {
      assert ExpectedAttempts(k, opps, catalog) == rest;
      assert ExpectedRows(p, k, opps, catalog, clock) == rows;
      RowMatchesAttempt(p, k + 1, opps, catalog, clock, i);
    }
  }

  /** The row logged for a submission `(position, code)`: that of the position's first match. */
  function RowOfAttempt(p: Policy, x: (nat, string), opps: seq<string>, catalog: seq<PriceRow>, clock: nat -> string): Option<SheetRow>
  {
    if x.0 < |opps| && FirstMatch(opps[x.0], catalog).Some?
    then Some(RowFor(p, clock(x.0), catalog[FirstMatch(opps[x.0], catalog).value]))
    else None
  }

  /**
   * Handling one opportunity raises exactly when it has a match and either its
   * submission fails and the bot does not catch that, or its row has no price
   * and the bot has no fallback.
   */
  lemma StepAborts(p: Policy, k: nat, text: string, catalog: seq<PriceRow>, site: Site)
    ensures Step(p, k, text, catalog, site).aborted <==>
              FirstMatch(text, catalog).Some?
              && ((site.submitFails(k) && !p.swallowErrors)
                  || (catalog[FirstMatch(text, catalog).value].precio.None? && !p.priceFallback))
  {
  }

  /**
   * A bot that lets submission errors escape, and falls back on a missing
   * price, stops exactly at the first matched opportunity whose submission fails.
   */
  lemma {:induction false} AbortsIffSubmissionFails(p: Policy, k: nat, opps: seq<string>, catalog: seq<PriceRow>, site: Site)
    requires !p.swallowErrors && p.priceFallback
    ensures RunFrom(p, k, opps, catalog, site).aborted <==>
              exists i :: k <= i < |opps| && FirstMatch(opps[i], catalog).Some? && site.submitFails(i)
    decreases |opps| - k
  {
    if k < |opps| {
      StepAborts(p, k, opps[k], catalog, site);
      AbortsIffSubmissionFails(p, k + 1, opps, catalog, site);
    }
  }

  /**
   * A bot that catches submission errors but has no price fallback stops
   * exactly at the first matched opportunity whose selected row has no price.
   */
  lemma {:induction false} AbortsIffUnpriced(p: Policy, k: nat, opps: seq<string>, catalog: seq<PriceRow>, site: Site)
    requires p.swallowErrors && !p.priceFallback
    ensures RunFrom(p, k, opps, catalog, site).aborted <==>
              exists i :: k <= i < |opps| && FirstMatch(opps[i], catalog).Some?
                          && catalog[FirstMatch(opps[i], catalog).value].precio.None?
    decreases |opps| - k
  {
    if k < |opps| {
      StepAborts(p, k, opps[k], catalog, site);
      AbortsIffUnpriced(p, k + 1, opps, catalog, site);
    }
  }

  /**
   * When submission errors are caught, the sheet does not depend on which
   * submissions fail: two sites with the same clock give the same log and the
   * same outcome.
   */
  lemma {:induction false} LogIgnoresFailures(p: Policy, k: nat, opps: seq<string>, catalog: seq<PriceRow>, s1: Site, s2: Site)
    requires p.swallowErrors && s1.clock == s2.clock
    ensures RunFrom(p, k, opps, catalog, s1).aborted == RunFrom(p, k, opps, catalog, s2).aborted
    ensures LoggedRows(RunFrom(p, k, opps, catalog, s1).events) == LoggedRows(RunFrom(p, k, opps, catalog, s2).events)
    decreases |opps| - k
  {
    if k < |opps| {
      var st1 := Step(p, k, opps[k], catalog, s1);
      var st2 := Step(p, k, opps[k], catalog, s2);
      StepAborts(p, k, opps[k], catalog, s1);
      StepAborts(p, k, opps[k], catalog, s2);
      StepFacts(p, k, opps[k], catalog, s1);
      StepFacts(p, k, opps[k], catalog, s2);
      if !st1.aborted {
        LogIgnoresFailures(p, k + 1, opps, catalog, s1, s2);
        LoggedRowsConcat(st1.events, RunFrom(p, k + 1, opps, catalog, s1).events);
        LoggedRowsConcat(st2.events, RunFrom(p, k + 1, opps, catalog, s2).events);
      }
    }
  }

  /**
   * Whatever a run does, completed or not: each submission is the first match
   * of a distinct opportunity, taken in order, no more rows are logged than
   * submissions made, and the i-th row is the row of the i-th submission.
   */
  lemma LoggedRowsAreSelectedRows(p: Policy, k: nat, opps: seq<string>, catalog: seq<PriceRow>, site: Site)
    ensures var run := RunFrom(p, k, opps, catalog, site);
            var rows := LoggedRows(run.events);
            var subs := Attempts(run.events);
            && |rows| <= |subs|
            && (forall i :: 0 <= i < |subs| ==> AttemptIsFirstMatch(subs[i], k, opps, catalog))
            && IncreasingOpportunities(subs)
            && (forall i :: 0 <= i < |rows| ==> RowOfAttempt(p, subs[i], opps, catalog, site.clock) == Some(rows[i]))
  {
    var run := RunFrom(p, k, opps, catalog, site);
    var rows := LoggedRows(run.events);
    var subs := Attempts(run.events);
    var rowsE := ExpectedRows(p, k, opps, catalog, site.clock);
    var subsE := ExpectedAttempts(k, opps, catalog);
    RunFacts(p, k, opps, catalog, site);
    RowsMatchAttempts(p, k, opps, catalog, site.clock);
    ExpectedAttemptsAreFirstMatches(k, opps, catalog);
    assert run.events[..|run.events|] == run.events;
    assert |rows| <= |subs|;
    assert forall i :: 0 <= i < |subs| ==> subs[i] == subsE[i];
    assert forall i :: 0 <= i < |rows| ==> rows[i] == rowsE[i];
  }

  /**
   * A run completes when no exception can escape: submission errors are
   * swallowed or none occurs, and every selected row can be logged.
   */
  lemma {:induction false} RunCompletes(p: Policy, k: nat, opps: seq<string>, catalog: seq<PriceRow>, site: Site)
    requires p.swallowErrors || forall i :: k <= i < |opps| ==> !site.submitFails(i)
    requires p.priceFallback || forall j :: 0 <= j < |catalog| ==> catalog[j].precio.Some?
    ensures !RunFrom(p, k, opps, catalog, site).aborted
    decreases |opps| - k
  {
    if k < |opps| {
      RunCompletes(p, k + 1, opps, catalog, site);
    }
  }

  // ---------------------------------------------------------------------------
  // The session and the loop

  /**
   * One bot run: the browser page, the site behind it and the sheet. The
   * trace records what the run did; the sheet is its view `Log()`.
   */
  class Session {
    var trace: seq<Event>
    const site: Site

    constructor (site: Site)
      ensures trace == [] && this.site == site
    {
      trace := [];
      this.site := site;
    }

    /** The rows appended to the sheet so far. */
    function Log(): seq<SheetRow>
      reads this
    {
      LoggedRows(trace)
    }

    /** Fill in and send the offer form; the site decides whether this raises. */
    method Submit(opportunity: nat, code: string, attachment: Option<string>) returns (ok: bool)
      modifies this
      ensures ok == !site.submitFails(opportunity)
      ensures trace == old(trace) + [Attempted(opportunity, code, attachment, ok)]
    {
      ok := !site.submitFails(opportunity);
      trace := trace + [Attempted(opportunity, code, attachment, ok)];
    }

    /** A placeholder submission whose body does nothing, so it cannot raise. */
    method SubmitPlaceholder(opportunity: nat, code: string)
      modifies this
      ensures trace == old(trace) + [Attempted(opportunity, code, None, true)]
    {
      trace := trace + [Attempted(opportunity, code, None, true)];
    }

    method Print(message: string)
      modifies this
      ensures trace == old(trace) + [Warned(message)]
    {
      trace := trace + [Warned(message)];
    }

    /** `sheet.append_row(row)` */
    method AppendRow(row: SheetRow)
      modifies this
      ensures trace == old(trace) + [Logged(row)]
      ensures Log() == old(Log()) + [row]
    {
      LoggedRowsConcat(trace, [Logged(row)]);
      assert LoggedRows([Logged(row)]) == [row] + LoggedRows([]);
      trace := trace + [Logged(row)];
    }
  }

  /** Handle one opportunity: select, submit, then register the row. */
  method ProcessOne(s: Session, p: Policy, k: nat, text: string, catalog: seq<PriceRow>) returns (aborted: bool)
    modifies s
    ensures s.trace == old(s.trace) + Step(p, k, text, catalog, s.site).events
    ensures aborted == Step(p, k, text, catalog, s.site).aborted
  {
    var m := FindFirst(text, catalog);
    if m.None? {
      return false;
    }
    var prod := catalog[m.value];
    var attachment := CheckDatasheet(s, p, prod);
    aborted := SubmitAndRegister(s, p, k, prod, attachment);
    AppendAssoc(old(s.trace), SheetWarning(p, prod, s.site), Outcome(p, k, prod, attachment, s.site).events);
  }

  /** Look for the datasheet, reporting its absence where the bot does. */
  method CheckDatasheet(s: Session, p: Policy, prod: PriceRow) returns (attachment: Option<string>)
    modifies s
    ensures attachment == Attachment(p, prod, s.site)
    ensures s.trace == old(s.trace) + SheetWarning(p, prod, s.site)
  {
    var path := DatasheetPath(p.sheetDir, prod.codigo);
    attachment := None;
    if s.site.fileExists(path) {
      attachment := Some(path);
    } else if p.warnMissingSheet {
      s.Print(MissingSheetWarning(prod.codigo));
    }
  }

  /** Send the offer, report a caught failure, then register the row. */
  method SubmitAndRegister(s: Session, p: Policy, k: nat, prod: PriceRow, attachment: Option<string>) returns (aborted: bool)
    modifies s
    ensures s.trace == old(s.trace) + Outcome(p, k, prod, attachment, s.site).events
    ensures aborted == Outcome(p, k, prod, attachment, s.site).aborted
  {
    var ok := s.Submit(k, prod.codigo, attachment);
    ghost var ev := [Attempted(k, prod.codigo, attachment, ok)];
    if !ok {
      if !p.swallowErrors {
        return true;
      }
      s.Print(ErrorReport(prod.codigo));
      AppendAssoc(old(s.trace), ev, [Warned(ErrorReport(prod.codigo))]);
      ev := ev + [Warned(ErrorReport(prod.codigo))];
    }
    var row := LogRow(p, s.site.clock(k), prod);
    if row.None? {
      return true;
    }
    s.AppendRow(row.value);
    AppendAssoc(old(s.trace), ev, [Logged(row.value)]);
    aborted := false;
  }

  lemma AppendAssoc(a: seq<Event>, b: seq<Event>, c: seq<Event>)
    ensures (a + b) + c == a + (b + c)
  {
  }

  /** The opportunity loop: every opportunity in order until an exception escapes. */
  method ProcessOpportunities(s: Session, p: Policy, opps: seq<string>, catalog: seq<PriceRow>) returns (aborted: bool)
    modifies s
    ensures s.trace == old(s.trace) + RunFrom(p, 0, opps, catalog, s.site).events
    ensures aborted == RunFrom(p, 0, opps, catalog, s.site).aborted
  {
    var i := 0;
    while i < |opps|
      invariant 0 <= i <= |opps|
      invariant old(s.trace) + RunFrom(p, 0, opps, catalog, s.site).events
                == s.trace + RunFrom(p, i, opps, catalog, s.site).events
      invariant RunFrom(p, 0, opps, catalog, s.site).aborted == RunFrom(p, i, opps, catalog, s.site).aborted
    {
      aborted := HandleOpportunity(s, p, i, opps, catalog);
      if aborted {
        return;
      }
      i := i + 1;
    }
    aborted := false;
  }

  /** The body of the opportunity loop: the step for opportunity `k`, which may end the run. */
  method HandleOpportunity(s: Session, p: Policy, k: nat, opps: seq<string>, catalog: seq<PriceRow>) returns (stop: bool)
    requires k < |opps|
    modifies s
    ensures stop == Step(p, k, opps[k], catalog, s.site).aborted
    ensures stop ==> s.trace == old(s.trace) + RunFrom(p, k, opps, catalog, s.site).events
                     && RunFrom(p, k, opps, catalog, s.site).aborted
    ensures !stop ==> old(s.trace) + RunFrom(p, k, opps, catalog, s.site).events
                      == s.trace + RunFrom(p, k + 1, opps, catalog, s.site).events
                      && RunFrom(p, k, opps, catalog, s.site).aborted == RunFrom(p, k + 1, opps, catalog, s.site).aborted
  {
    ghost var before := s.trace;
    stop := ProcessOne(s, p, k, opps[k], catalog);
    RunFromStep(p, k, opps, catalog, s.site);
    if !stop {
      ghost var st := Step(p, k, opps[k], catalog, s.site);
      ghost var rest := RunFrom(p, k + 1, opps, catalog, s.site);
      assert before + (st.events + rest.events) == (before + st.events) + rest.events;
    }
  }

  /** One step of a run: the step itself, then the rest unless it aborted. */
  lemma RunFromStep(p: Policy, k: nat, opps: seq<string>, catalog: seq<PriceRow>, site: Site)
    requires k < |opps|
    ensures var st := Step(p, k, opps[k], catalog, site);
            var rest := RunFrom(p, k + 1, opps, catalog, site);
            RunFrom(p, k, opps, catalog, site) == if st.aborted then st else Run(st.events + rest.events, rest.aborted)
  {
  }
}
