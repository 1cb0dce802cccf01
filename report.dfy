/** The normalised report: the exploded rows, resolved and projected onto
    the nine output columns, and the whole run from the candidate files to
    those rows. */
module Report {
  import opened Wrappers
  import opened Records
  import Discovery
  import Explode
  import Codes
  import Separators

  /** One row of the output sheet. Its fields are the columns 'N° OC',
      'Nft', 'Origem', 'CNPJ ORIGEM', 'Destino', 'CNPJ DESTINO', 'Data
      inclusão', 'Data expedida' and 'Data chegada', in that order. The
      tax-id columns hold the canonical text, "<NA>" when missing; a
      missing site code is an absent value. */
  datatype OutputRow = OutputRow(
    oc: Cell,
    nft: string,
    origem: Option<string>,
    cnpjOrigem: string,
    destino: Option<string>,
    cnpjDestino: string,
    dataInclusao: Option<Timestamp>,
    dataExpedida: Option<Timestamp>,
    dataChegada: Option<Timestamp>)

  /** The output row built from one exploded row: origin and destination
      resolved by the same rule, and 'Data expedida' a copy of 'Data
      inclusão', both taken from 'Data Frete'. */
  function Project(e: SourceRow): (r: OutputRow)
    ensures r.dataExpedida == r.dataInclusao
  {
    OutputRow(
      e.cte,
      Render(e.invoices),
      Codes.ResolveCode(e.originTaxId, e.originCity),
      Codes.TaxIdKey(e.originTaxId),
      Codes.ResolveCode(e.destTaxId, e.destCity),
      Codes.TaxIdKey(e.destTaxId),
      e.shipDate,
      e.shipDate,
      e.deliveryDate)
  }

  /** The whole normalisation: explode, then resolve and project each row. */
  function Normalize(rows: seq<SourceRow>): (out: seq<OutputRow>)
    ensures |out| == Explode.TotalTokens(rows)
  {
    var ex := Explode.Exploded(rows);
    seq(|ex|, k requires 0 <= k < |ex| => Project(ex[k]))
  }

  /** The output row of one row, column by column. */
  lemma ProjectColumns(row: SourceRow)
    ensures var o := Project(row);
            && o.oc == row.cte
            && o.nft == Render(row.invoices)
            && o.origem == Codes.ResolveCode(row.originTaxId, row.originCity)
            && o.cnpjOrigem == Codes.TaxIdKey(row.originTaxId)
            && o.destino == Codes.ResolveCode(row.destTaxId, row.destCity)
            && o.cnpjDestino == Codes.TaxIdKey(row.destTaxId)
            && o.dataInclusao == row.shipDate
            && o.dataExpedida == row.shipDate
            && o.dataChegada == row.deliveryDate
  {
  }

  /** A copy carrying invoice number `nota` projects like the row itself,
      except for the 'Nft' column, which holds `nota`. */
  lemma ProjectCopy(row: SourceRow, nota: string)
    ensures Project(Explode.WithInvoice(row, nota)) == Project(row).(nft := nota)
  {
  }

  lemma NormalizeIndex(rows: seq<SourceRow>, k: nat)
    requires k < |Explode.Exploded(rows)|
    ensures k < |Normalize(rows)| && Normalize(rows)[k] == Project(Explode.Exploded(rows)[k])
  {
  }

  /** The output row for token `j` of source row `i`: the projection of
      that row with 'Nft' set to the token. */
  lemma NormalizeAt(rows: seq<SourceRow>, i: nat, j: nat)
    requires i < |rows| && j < |Explode.Tokens(rows[i])|
    ensures Explode.Offset(rows, i) + j < |Normalize(rows)|
    ensures Normalize(rows)[Explode.Offset(rows, i) + j] ==
      Project(rows[i]).(nft := Explode.Tokens(rows[i])[j])
  {
    Explode.ExplodedAt(rows, i, j);
    var k := Explode.Offset(rows, i) + j;
    var t := Explode.Tokens(rows[i])[j];
    NormalizeIndex(rows, k);
    ProjectCopy(rows[i], t);
    assert Normalize(rows)[k] == Project(Explode.WithInvoice(rows[i], t));
  }

  /** The origin columns depend on the origin fields only. */
  lemma OriginIndependent(a: SourceRow, b: SourceRow)
    requires a.originTaxId == b.originTaxId && a.originCity == b.originCity
    ensures Project(a).origem == Project(b).origem
    ensures Project(a).cnpjOrigem == Project(b).cnpjOrigem
  {
  }

  /** The destination columns depend on the destination fields only. */
  lemma DestinationIndependent(a: SourceRow, b: SourceRow)
    requires a.destTaxId == b.destTaxId && a.destCity == b.destCity
    ensures Project(a).destino == Project(b).destino
    ensures Project(a).cnpjDestino == Project(b).cnpjDestino
  {
  }

  /** Why a run writes no output file. */
  datatype RunError =
    | NoReport      // no 'Relatório*.xlsx' in the listing
    | EmptyReport   // the report has no rows, so the rebuilt table has no columns
    | NoCityText    // a city column holds no text at all, so `.str` is refused

  /** Some row's origin city is a text cell. */
  predicate OriginCityText(rows: seq<SourceRow>) {
    exists i :: 0 <= i < |rows| && rows[i].originCity.Text?
  }

  /** Some row's destination city is a text cell. */
  predicate DestCityText(rows: seq<SourceRow>) {
    exists i :: 0 <= i < |rows| && rows[i].destCity.Text?
  }

  /** The processing of the rows read from the report. With no rows the
      rebuilt table has no columns and reading a tax-id column aborts the
      run; a city column that holds no text cell is read by pandas as a
      numeric column, and its `.str` accessor aborts the run. Every copy
      keeps its row's cities, so the exploded columns hold text exactly when
      the read ones do. */
  function Process(rows: seq<SourceRow>): (r: Result<seq<OutputRow>, RunError>)
    ensures r.Failure? <==> rows == [] || !OriginCityText(rows) || !DestCityText(rows)
    ensures r.Failure? ==> r.error == if rows == [] then EmptyReport else NoCityText
    ensures r.Success? ==> r.value == Normalize(rows) && |r.value| >= |rows|
  {
    if rows == [] then Failure(EmptyReport)
    else if !OriginCityText(rows) || !DestCityText(rows) then Failure(NoCityText)
    else Success(Normalize(rows))
  }

  /** One run: pick the newest report, read it with `load`, process it.
      With no candidate the run fails with NoReport and produces nothing. */
  function Run(candidates: seq<Discovery.Candidate>, load: string -> seq<SourceRow>)
    : (r: Result<seq<OutputRow>, RunError>)
    ensures |candidates| == 0 ==> r == Failure(NoReport)
    ensures |candidates| > 0 ==>
      r == Process(load(candidates[Discovery.NewestIndex(candidates)].path))
  {
    match Discovery.FindNewest(candidates)
    case Failure(_) => Failure(NoReport)
    case Success(path) => Process(load(path))
  }

  /** The worked example: a row with invoices "111, 222", origin tax id
      2012862022996 and destination "recife " without a tax id, whatever
      its order number, origin city and dates, gives two output rows with
      invoices "111" and "222", origin CML from the tax id (even when the
      origin city would be coded otherwise), destination REC from the city,
      and the row's own dates. */
  lemma WorkedExample(row: SourceRow)
    requires row.invoices == Text("111, 222")
    requires row.originTaxId == Text("2012862022996")
    requires row.destTaxId == Empty && row.destCity == Text("recife ")
    ensures var out := Normalize([row]);
            && |out| == 2
            && out[0].nft == "111" && out[1].nft == "222"
            && out[0].origem == Some("CML") && out[1].origem == Some("CML")
            && out[0].cnpjOrigem == "2012862022996" && out[1].cnpjOrigem == "2012862022996"
            && out[0].destino == Some("REC") && out[1].destino == Some("REC")
            && out[0].cnpjDestino == "<NA>" && out[1].cnpjDestino == "<NA>"
            && out[0].oc == row.cte && out[1].oc == row.cte
            && out[0].dataInclusao == out[0].dataExpedida == row.shipDate
            && out[1].dataInclusao == out[1].dataExpedida == row.shipDate
            && out[0].dataChegada == out[1].dataChegada == row.deliveryDate
  {
    ExampleTokens(row);
    assert Explode.Offset([row], 0) == 0 by { assert [row][..0] == []; }
    NormalizeAt([row], 0, 0);
    NormalizeAt([row], 0, 1);
    ExampleProjection(row);
  }

  lemma ExampleTokens(row: SourceRow)
    requires row.invoices == Text("111, 222")
    ensures Explode.Tokens(row) == ["111", "222"]
  {
    assert Render(row.invoices) == "111" + ", " + "222";
    assert !Separators.HasSep("111");
    assert !Separators.HasSep("222");
    Separators.SplitAfterToken("111", "222");
    Separators.SplitSingleton("222");
  }

  lemma ExampleProjection(row: SourceRow)
    requires row.originTaxId == Text("2012862022996")
    requires row.destTaxId == Empty && row.destCity == Text("recife ")
    ensures var o := Project(row);
            && o.origem == Some("CML") && o.cnpjOrigem == "2012862022996"
            && o.destino == Some("REC") && o.cnpjDestino == "<NA>"
            && o.oc == row.cte && o.dataInclusao == o.dataExpedida == row.shipDate
            && o.dataChegada == row.deliveryDate
  {
    ProjectColumns(row);
    Codes.TaxIdExampleCml(row.originTaxId, row.originCity);
    Codes.CityExampleRecife(row.destTaxId, row.destCity);
  }
}
