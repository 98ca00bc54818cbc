/**
 * The proposal generator of the web app: the "item: price" lines typed into
 * the form become an insertion-ordered dictionary of prices, and
 * `generar_propuesta` assembles the seven proposal sections from the
 * supplier's data and that dictionary.
 */
module ProposalApp {
  import opened Wrappers
  import opened Text

  // ---------------------------------------------------------------------------
  // An insertion-ordered dictionary

  /** A Python dict of strings: its entries in insertion order. */
  type Prices = seq<(string, string)>

  function KeysOf(d: Prices): seq<string>
  {
    seq(|d|, i requires 0 <= i < |d| => d[i].0)
  }

  predicate UniqueKeys(d: Prices)
  {
    forall i, j :: 0 <= i < j < |d| ==> d[i].0 != d[j].0
  }

  /** `d.get(k)` */
  function Lookup(d: Prices, k: string): (r: Option<string>)
    ensures r.None? <==> k !in KeysOf(d)
    ensures r.Some? ==> exists i :: 0 <= i < |d| && d[i] == (k, r.value)
  {
    if |d| == 0 then None
    else if d[0].0 == k then
      assert KeysOf(d)[0] == k;
      Some(d[0].1)
    else
      assert KeysOf(d) == [d[0].0] + KeysOf(d[1..]);
      var r := Lookup(d[1..], k);
      assert r.Some? ==> exists i :: 0 <= i < |d[1..]| && d[1..][i] == (k, r.value);
      r
  }

  /**
   * `d[k] = v`: a new key goes at the end; an existing key keeps its place
   * and only its value changes.
   */
  function Put(d: Prices, k: string, v: string): (r: Prices)
    ensures k !in KeysOf(d) ==> r == d + [(k, v)]
    ensures k in KeysOf(d) ==> KeysOf(r) == KeysOf(d)
  {
    if |d| == 0 then [(k, v)]
    else if d[0].0 == k then
      assert KeysOf(d)[0] == k;
      assert KeysOf([(k, v)] + d[1..]) == KeysOf(d);
      [(k, v)] + d[1..]
    else
      var rest := Put(d[1..], k, v);
      assert KeysOf(d) == [d[0].0] + KeysOf(d[1..]);
      assert KeysOf([d[0]] + rest) == [d[0].0] + KeysOf(rest);
      [d[0]] + rest
  }

  /** After `d[k] = v`, `k` maps to `v` and every other key to what it mapped to before. */
  lemma {:induction false} PutLookup(d: Prices, k: string, v: string)
    ensures Lookup(Put(d, k, v), k) == Some(v)
    ensures forall k' :: k' != k ==> Lookup(Put(d, k, v), k') == Lookup(d, k')
  {
    if |d| > 0 && d[0].0 != k {
      PutLookup(d[1..], k, v);
    }
  }

  /** `d[k] = v` keeps the keys distinct, and adds no entry other than `(k, v)`. */
  lemma {:induction false} PutEntries(d: Prices, k: string, v: string)
    ensures UniqueKeys(d) ==> UniqueKeys(Put(d, k, v))
    ensures forall i :: 0 <= i < |Put(d, k, v)| ==> Put(d, k, v)[i] == (k, v) || Put(d, k, v)[i] in d
  {
    if |d| > 0 && d[0].0 != k {
      PutEntries(d[1..], k, v);
      var rest := Put(d[1..], k, v);
      assert Put(d, k, v) == [d[0]] + rest;
      if UniqueKeys(d) {
        assert d[0].0 !in KeysOf(d[1..]);
        forall i | 0 < i < |Put(d, k, v)| ensures Put(d, k, v)[i].0 != d[0].0 {
          assert rest[i - 1] == (k, v) || rest[i - 1] in d[1..];
          if rest[i - 1] in d[1..] {
            var t :| 0 <= t < |d[1..]| && d[1..][t] == rest[i - 1];
            assert KeysOf(d[1..])[t] == rest[i - 1].0;
          }
        }
      }
      forall i | 0 < i < |Put(d, k, v)| ensures Put(d, k, v)[i] == (k, v) || Put(d, k, v)[i] in d {
        assert rest[i - 1] == (k, v) || rest[i - 1] in d[1..];
      }
    }
  }

  // ---------------------------------------------------------------------------
  // The price lines

  /** The ValueError raised when `split(":")` of a line yields more than two parts. */
  datatype ParseError = TooManyValues(line: nat)

  /** One iteration of the loop over the lines, for the line at position `index`. */
  function ParseLine(d: Prices, line: string, index: nat): Result<Prices, ParseError>
  {
    if ':' !in line then Ok(d)
    else
      var parts := Split(line, ':');
      if |parts| != 2 then Err(TooManyValues(index))
      else Ok(Put(d, Strip(parts[0]), Strip(parts[1])))
  }

  /** The dictionary after the lines, or the error of the first line that raises. */
  function Parse(lines: seq<string>): Result<Prices, ParseError>
  {
    if |lines| == 0 then Ok([])
    else
      match Parse(lines[..|lines| - 1])
      case Err(e) => Err(e)
      case Ok(d) => ParseLine(d, lines[|lines| - 1], |lines| - 1)
  }

  lemma {:induction false} ParseErrorPersists(lines: seq<string>, i: nat, e: ParseError)
    requires i <= |lines| && Parse(lines[..i]) == Err(e)
    ensures Parse(lines) == Err(e)
    decreases |lines| - i
  {
    if i < |lines| {
      assert lines[..i + 1][..i] == lines[..i];
      ParseErrorPersists(lines, i + 1, e);
    } else {
      assert lines[..i] == lines;
    }
  }

  /** The loop of the form handler: each line with a colon stores its stripped item and price. */
  method ParsePrices(input: string) returns (r: Result<Prices, ParseError>)
    ensures r == Parse(SplitLines(input))
  {
    var lines := SplitLines(input);
    var precios: Prices := [];
    for i := 0 to |lines|
      invariant Parse(lines[..i]) == Ok(precios)
    {
      assert lines[..i + 1][..i] == lines[..i];
      var linea := lines[i];
      if ':' in linea {
        var parts := Split(linea, ':');
        if |parts| != 2 {
          ParseErrorPersists(lines, i + 1, TooManyValues(i));
          return Err(TooManyValues(i));
        }
        precios := Put(precios, Strip(parts[0]), Strip(parts[1]));
      }
    }
    assert lines[..|lines|] == lines;
    r := Ok(precios);
  }

  /** The number of colons in a line. */
  function Colons(line: string): nat
  {
    multiset(line)[':']
  }

  /** The (item, price) pair a line with exactly one colon contributes. */
  function Entry(line: string): Option<(string, string)>
  {
    if Colons(line) != 1 then None
    else
      assert ':' in multiset(line);
      var i := IndexOf(line, ':');
      Some((Strip(line[..i]), Strip(line[i + 1..])))
  }

  /** The price of `k` given by the last line whose item is `k`. */
  function LastPrice(lines: seq<string>, k: string): Option<string>
  {
    if |lines| == 0 then None
    else
      var e := Entry(lines[|lines| - 1]);
      if e.Some? && e.value.0 == k then Some(e.value.1) else LastPrice(lines[..|lines| - 1], k)
  }

  /** What one line does, in terms of its colons. */
  lemma ParseLineByColons(d: Prices, line: string, index: nat)
    ensures Colons(line) == 0 ==> ParseLine(d, line, index) == Ok(d)
    ensures Colons(line) == 1 ==> ParseLine(d, line, index) == Ok(Put(d, Entry(line).value.0, Entry(line).value.1))
    ensures Colons(line) >= 2 ==> ParseLine(d, line, index) == Err(TooManyValues(index))
  {
    SplitCount(line, ':');
    if Colons(line) == 1 {
      SplitOnce(line, ':');
    }
  }

  /**
   * Parsing fails exactly when some line has two or more colons, and it
   * reports the first such line.
   */
  lemma {:induction false} ParseFailsIff(lines: seq<string>)
    ensures Parse(lines).Err? <==> exists i :: 0 <= i < |lines| && Colons(lines[i]) >= 2
    ensures Parse(lines).Err? ==>
              var i := Parse(lines).error.line;
              i < |lines| && Colons(lines[i]) >= 2 && forall j :: 0 <= j < i ==> Colons(lines[j]) <= 1
  {
    if |lines| > 0 {
      var pre := lines[..|lines| - 1];
      ParseFailsIff(pre);
      assert forall j :: 0 <= j < |pre| ==> pre[j] == lines[j];
      if Parse(pre).Ok? {
        ParseLineByColons(Parse(pre).value, lines[|lines| - 1], |lines| - 1);
      }
    }
  }

  /**
   * A successful parse holds each item once, and its price is the one of the
   * last line naming that item: a later line overwrites an earlier one.
   */
  lemma {:induction false} ParseLastWins(lines: seq<string>)
    requires Parse(lines).Ok?
    ensures UniqueKeys(Parse(lines).value)
    ensures forall k :: Lookup(Parse(lines).value, k) == LastPrice(lines, k)
  {
    if |lines| > 0 {
      var pre := lines[..|lines| - 1];
      var last := lines[|lines| - 1];
      ParseLastWins(pre);
      ParseLineByColons(Parse(pre).value, last, |lines| - 1);
      if Colons(last) == 1 {
        PutLookup(Parse(pre).value, Entry(last).value.0, Entry(last).value.1);
        PutEntries(Parse(pre).value, Entry(last).value.0, Entry(last).value.1);
      }
    }
  }

  /** The lines of the form hold no newline, so neither does any parsed item or price. */
  lemma {:induction false} ParsedSingleLine(lines: seq<string>)
    requires forall l :: 0 <= l < |lines| ==> '\n' !in lines[l]
    requires Parse(lines).Ok?
    ensures forall e :: e in Parse(lines).value ==> '\n' !in e.0 && '\n' !in e.1
  {
    if |lines| > 0 {
      var pre := lines[..|lines| - 1];
      var last := lines[|lines| - 1];
      assert forall l :: 0 <= l < |pre| ==> pre[l] == lines[l];
      ParsedSingleLine(pre);
      var d := Parse(pre).value;
      ParseLineByColons(d, last, |lines| - 1);
      if Colons(last) == 1 {
        EntrySingleLine(last);
        PutEntries(d, Entry(last).value.0, Entry(last).value.1);
      }
    }
  }

  /** The item and price of a line without a newline hold none. */
  lemma EntrySingleLine(line: string)
    requires '\n' !in line && Colons(line) == 1
    ensures '\n' !in Entry(line).value.0 && '\n' !in Entry(line).value.1
  {
    assert ':' in multiset(line);
    var c := IndexOf(line, ':');
    assert '\n' !in line[..c] && '\n' !in line[c + 1..] by {
      assert forall x :: x in line[..c] ==> x in line;
      assert forall x :: x in line[c + 1..] ==> x in line;
    }
    StripKeepsOut(line[..c], '\n');
    StripKeepsOut(line[c + 1..], '\n');
  }

  // ---------------------------------------------------------------------------
  // The proposal

  /** `f"{item}: ${precio}"` */
  function OfferLine(item: string, price: string): string
  {
    item + ": $" + price
  }

  function OfferLines(d: Prices): seq<string>
  {
    seq(|d|, i requires 0 <= i < |d| => OfferLine(d[i].0, d[i].1))
  }

  /** The economic offer: one line per dictionary entry, in insertion order, joined by newlines. */
  function Economica(d: Prices): string
  {
    Join(OfferLines(d), '\n')
  }

  /**
   * For prices parsed from the form, the economic offer splits back, at its
   * newlines, into exactly one `item: $price` line per entry, in order.
   */
  lemma EconomicaLines(input: string)
    requires Parse(SplitLines(input)).Ok? && |Parse(SplitLines(input)).value| >= 1
    ensures Split(Economica(Parse(SplitLines(input)).value), '\n') == OfferLines(Parse(SplitLines(input)).value)
  {
    var lines := SplitLines(input);
    var d := Parse(lines).value;
    forall l | 0 <= l < |lines| ensures '\n' !in lines[l] {
      assert NoLineBreak(lines[l]);
      assert IsLineBreak('\n');
    }
    ParsedSingleLine(lines);
    forall i | 0 <= i < |d| ensures '\n' !in OfferLine(d[i].0, d[i].1) {
      assert d[i] in d;
      assert OfferLine(d[i].0, d[i].1) == d[i].0 + ": $" + d[i].1;
    }
    SplitJoin(OfferLines(d), '\n');
  }

  /** A section of the proposal: a text, or a list rendered as bullets. */
  datatype Content = Text(text: string) | Items(items: seq<string>)

  const Checklist := [
    "Bases leídas",
    "Oferta técnica redactada",
    "Oferta económica generada",
    "Documentos legales adjuntos (Registro de Proveedores, Certificados)",
    "Carta de presentación firmada",
    "Declaraciones juradas completadas en plataforma",
    "Revisión de INAPI/ISP para productos ofertados"]

  const Titles := [
    "Resumen Ejecutivo", "Oferta Técnica", "Oferta Económica", "Carta de Presentación",
    "Checklist", "Análisis Estratégico", "Documentos Adjuntos"]

  // The fixed passages of the proposal texts.
  const ResumenIntro := "Propuesta para la licitación pública Convenio Marco ID 2239-8-LR25 para artículos de aseo e higiene, presentada por "
  const TecnicaIntro := "Nuestra empresa, "
  const TecnicaCuenta := ", cuenta con "
  const TecnicaEspecialidad := "." + " Nos especializamos en "
  const TecnicaRequisitos := ", cumpliendo con los requisitos exigidos en las bases, como inscripción vigente en el Registro de Proveedores,"
    + " declaración jurada, uso de productos con registro INAPI/ISP, y condiciones técnicas y logísticas conforme a las normativas de ChileCompra."
  const CartaSaludo := "Sres. Comisión Evaluadora,\n\n"
  const CartaPresente := "Por medio de la presente, "
  const CartaCuerpo := " presenta su postulación a la licitación pública ID 2239-8-LR25 para el Convenio Marco de Artículos de Aseo e Higiene,"
    + " de acuerdo a lo establecido en las Bases Administrativas y Técnicas aprobadas por Resolución Exenta."
    + " Nos comprometemos a cumplir con los estándares técnicos, normativos y contractuales exigidos."
  const Analisis := "La oferta técnica fue desarrollada en base a los criterios establecidos en las bases del Convenio Marco,"
    + " priorizando cumplimiento normativo, experiencia comprobable, condiciones logísticas a nivel nacional y registro de productos."
    + " La estrategia económica se enfoca en mantener precios competitivos dentro del rango evaluable según metodología boxplot usada por la DCCP."

  /** The technical offer. */
  function Tecnica(razonSocial: string, experiencia: string, capacidades: string): string
  {
    TecnicaIntro + razonSocial + TecnicaCuenta + experiencia + TecnicaEspecialidad + capacidades + TecnicaRequisitos
  }

  /** The cover letter. */
  function Carta(razonSocial: string): string
  {
    CartaSaludo + CartaPresente + razonSocial + CartaCuerpo
  }

  /**
   * `generar_propuesta`: the seven sections in their fixed order. The texts
   * name the supplier, the economic offer lists the prices, the attached
   * documents are the given list, and `bases` is not used.
   */
  function GenerarPropuesta(razonSocial: string, experiencia: string, capacidades: string,
                            precios: Prices, documentos: seq<string>, bases: string): (r: seq<(string, Content)>)
    ensures |r| == 7 && forall i :: 0 <= i < 7 ==> r[i].0 == Titles[i]
    ensures r[0].1 == Text(ResumenIntro + razonSocial + ".")
    ensures r[2].1 == Text(Economica(precios))
    ensures r[4].1 == Items(Checklist) && |Checklist| == 7
    ensures r[6].1 == Items(documentos)
    ensures r[5].1 == Text(Analisis)
    ensures r[1].1 == Text(Tecnica(razonSocial, experiencia, capacidades))
    ensures r[3].1 == Text(Carta(razonSocial))
  {
    [(Titles[0], Text(ResumenIntro + razonSocial + ".")),
     (Titles[1], Text(Tecnica(razonSocial, experiencia, capacidades))),
     (Titles[2], Text(Economica(precios))),
     (Titles[3], Text(Carta(razonSocial))),
     (Titles[4], Items(Checklist)),
     (Titles[5], Text(Analisis)),
     (Titles[6], Items(documentos))]
  }

  /**
   * The summary, the technical offer and the cover letter name the supplier;
   * the technical offer also states its experience and its capabilities.
   */
  lemma ProposalNamesSupplier(razonSocial: string, experiencia: string, capacidades: string,
                              precios: Prices, documentos: seq<string>, bases: string)
    ensures var r := GenerarPropuesta(razonSocial, experiencia, capacidades, precios, documentos, bases);
            && Contains(razonSocial, r[0].1.text)
            && Contains(razonSocial, r[1].1.text) && Contains(experiencia, r[1].1.text)
            && Contains(capacidades, r[1].1.text)
            && Contains(razonSocial, r[3].1.text)
  {
    ContainsSelf(razonSocial);
    ContainsRight(razonSocial, ResumenIntro, razonSocial);
    ContainsLeft(razonSocial, ResumenIntro + razonSocial, ".");
    TecnicaNames(razonSocial, experiencia, capacidades);
    ContainsRight(razonSocial, CartaSaludo + CartaPresente, razonSocial);
    ContainsLeft(razonSocial, CartaSaludo + CartaPresente + razonSocial, CartaCuerpo);
  }

  lemma TecnicaNames(razonSocial: string, experiencia: string, capacidades: string)
    ensures Contains(razonSocial, Tecnica(razonSocial, experiencia, capacidades))
    ensures Contains(experiencia, Tecnica(razonSocial, experiencia, capacidades))
    ensures Contains(capacidades, Tecnica(razonSocial, experiencia, capacidades))
  {
    var s1 := TecnicaIntro + razonSocial;
    var s2 := s1 + TecnicaCuenta;
    var s3 := s2 + experiencia;
    var s4 := s3 + TecnicaEspecialidad;
    var s5 := s4 + capacidades;
    // razonSocial
    ContainsSelf(razonSocial);
    ContainsRight(razonSocial, TecnicaIntro, razonSocial);
    ContainsLeft(razonSocial, s1, TecnicaCuenta);
    ContainsLeft(razonSocial, s2, experiencia);
    ContainsLeft(razonSocial, s3, TecnicaEspecialidad);
    ContainsLeft(razonSocial, s4, capacidades);
    ContainsLeft(razonSocial, s5, TecnicaRequisitos);
    // experiencia
    ContainsSelf(experiencia);
    ContainsRight(experiencia, s2, experiencia);
    ContainsLeft(experiencia, s3, TecnicaEspecialidad);
    ContainsLeft(experiencia, s4, capacidades);
    ContainsLeft(experiencia, s5, TecnicaRequisitos);
    // capacidades
    ContainsSelf(capacidades);
    ContainsRight(capacidades, s4, capacidades);
    ContainsLeft(capacidades, s5, TecnicaRequisitos);
  }

  /** `bases` does not affect the proposal. */
  lemma BasesIgnored(razonSocial: string, experiencia: string, capacidades: string,
                     precios: Prices, documentos: seq<string>, b1: string, b2: string)
    ensures GenerarPropuesta(razonSocial, experiencia, capacidades, precios, documentos, b1)
            == GenerarPropuesta(razonSocial, experiencia, capacidades, precios, documentos, b2)
  {
  }

  /** The section titles are distinct, as the keys of the returned dict are. */
  lemma TitlesDistinct()
    ensures forall i, j :: 0 <= i < j < |Titles| ==> Titles[i] != Titles[j]
  {
  }
}
