/** The rows of the freight report as read from the spreadsheet. */
module Records {
  import opened Wrappers
  import Decimal

  /** One spreadsheet cell as pandas holds it: text, a whole number, or
      missing (NaN). */
  datatype Cell = Text(s: string) | Integer(n: int) | Empty

  /** A parsed date-time; its parsing is not modelled, it is carried
      through unchanged. */
  datatype Timestamp = Timestamp(ticks: int)

  /** The eight columns read from the report: 'N° CT-e', 'Notas Fiscais',
      'Cidade origem', 'CPF/CNPJ Remetente', 'Cidade destino',
      'CPF/CNPJ Destinatário', 'Data Frete' and 'Data Entrega'. A missing
      date is NaT. */
  datatype SourceRow = SourceRow(
    cte: Cell,
    invoices: Cell,
    originCity: Cell,
    originTaxId: Cell,
    destCity: Cell,
    destTaxId: Cell,
    shipDate: Option<Timestamp>,
    deliveryDate: Option<Timestamp>)

  /** Python's `str(value)` of a cell: the text itself, the decimal digits
      of a whole number, and "nan" for a missing value. */
  function Render(c: Cell): (r: string)
    ensures c.Text? ==> r == c.s
    ensures c.Integer? ==> r == Decimal.Format(c.n)
    ensures c.Empty? ==> r == "nan"
  {
    match c
    case Text(s) => s
    case Integer(n) => Decimal.Format(n)
    case Empty => "nan"
  }

  /** The text of a whole-number cell reads back as that number, and the
      "nan" of a missing cell reads as no number. */
  lemma RenderReadsBack(c: Cell)
    ensures c.Integer? ==> Decimal.Parse(Render(c)) == Some(c.n)
    ensures c.Empty? ==> Decimal.Parse(Render(c)).None?
  {
    if c.Integer? {
      Decimal.ParseFormat(c.n);
    }
  }
}
