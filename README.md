# Freight report normaliser — a Dafny model

This project models the report normaliser of `JWM.py`. The script takes the
newest `Relatório*.xlsx` freight report and turns it into `Relatório
Tratado.xlsx` in four steps:

1. It picks the newest candidate file by modification time. With no
   candidate it fails with "not found". A report with no rows, or one whose
   origin or destination city column holds no text cell, also ends the run
   without output.
2. It explodes each freight row into one row per invoice number. The
   'Notas Fiscais' field is rendered as text and split on `", "`.
3. It resolves origin and destination to a site code. The tax id (CNPJ),
   coerced to an integer and written back as decimal text, is looked up in
   `map_cnpj`. When that misses, the stripped, upper-cased city name is
   passed through `map_cidades` with `Series.replace`.
4. It projects every row onto nine output columns. 'Data expedida' is a
   copy of 'Data inclusão'.

Modules, one per step of the pipeline and one per string primitive it uses:

- `Wrappers`: `Option` and `Result`.
- `Text`: `str.strip()` and `str.upper()`.
- `Separators`: `str.split(", ")` and `", ".join`.
- `Decimal`: `str(int)` and the reading of numeric text.
- `Records`: the spreadsheet cell and the source row.
- `Discovery`: the choice of the newest file.
- `Explode`: the explosion, with a method for the loop that builds
  `new_rows` and the flat-map function it is proved against.
- `Codes`: the two tables and the resolution rule. Each dictionary display
  is kept as its list of entries in written order. `Lookup` is `d.get(k)` on
  the dictionary the display builds, where a later entry overrides an
  earlier one.
- `Report`: the output row, the whole normalisation and the run.

A spreadsheet cell is `Text`, `Integer` or `Empty` (pandas' NaN).
`str()` of an empty cell is `"nan"`. A tax id that is not a number becomes
missing and is written `"<NA>"`, which is never a key of `map_cnpj`.

Three behaviours of the code worth noting:

- A city found in neither table is not left missing. `Series.replace`
  leaves unmatched values as they are, so the resolved code is the
  stripped, upper-cased city name itself (`Codes.CityExamplePassThrough`).
  The code is missing only when the tax id misses and the city cell is
  not text.
- Ties between files with the same modification time are not arbitrary.
  Python's `max` keeps the first maximal element, so the earliest
  candidate in listing order wins.
- The 'CNPJ ORIGEM' and 'CNPJ DESTINO' output columns hold text, the
  result of `.astype('Int64').astype(str)`, and `"<NA>"` when missing.
  They do not hold numbers.

## Model

| member | source | states |
|---|---|---|
| `Discovery.NewestIndex` | JWM.py:17 | the chosen index holds the latest modification time, and every earlier candidate is strictly older (first maximal element wins ties) |
| `Discovery.FindNewest` | JWM.py:12-18 | fails with NotFound exactly when there is no candidate; otherwise returns the path of a candidate with the latest time and no earlier candidate as recent |
| `Discovery.NewestIsFirstLatest` | JWM.py:17 | the latest time plus the first-wins tie-break determine the chosen candidate uniquely |
| `Separators.Split` | JWM.py:36 | `str.split(", ")` always yields at least one token |
| `Separators.JoinSplit` | JWM.py:36 | joining the tokens with `", "` gives back the original text |
| `Separators.SplitTokensSepFree` | JWM.py:36 | no token contains the separator `", "` |
| `Separators.SplitSingleton` | JWM.py:36 | a text splits into the single token itself if and only if it holds no separator |
| `Separators.SplitAfterToken` | JWM.py:36 | a separator-free token followed by `", "` splits off as the first token, ahead of the tokens of the rest |
| `Decimal.Digits` | JWM.py:73-74 | the decimal text of a non-negative number is non-empty, all digits, and starts with `0` only for zero (no leading zeros) |
| `Decimal.Format` | JWM.py:73-74 | `str(n)` is non-empty and starts with `-` exactly for a negative number; `Decimal.ParseFormat` reads it back as `n` |
| `Decimal.Parse` | JWM.py:44-45 | numeric text (optional sign, then digits) reads as a number; any other text reads as missing |
| `Decimal.ParseFormat` | JWM.py:44-45 | reading back `str(n)` gives `n` |
| `Decimal.ValueLeadingZero` | JWM.py:73 | a leading zero does not change the number a digit string denotes |
| `Decimal.DigitsValue` | JWM.py:73-74 | a digit string without leading zeros is the decimal text of the number it denotes |
| `Text.Upper` | JWM.py:79-80 | upper-casing keeps the length, turns each lower-case letter into its capital 0x20 code points below, leaves no lower-case letter and changes no other character |
| `Text.Strip` | JWM.py:79-80 | the stripped name has no white space at either end |
| `Text.StripPadded` | JWM.py:79-80 | stripping removes exactly the white space around a trimmed core |
| `Text.StripIdempotent` | JWM.py:79-80 | stripping twice is stripping once |
| `Text.UpperIdempotent` | JWM.py:79-80 | upper-casing twice is upper-casing once |
| `Records.Render` | JWM.py:36 | `str()` of a cell: a text cell is its own text, a whole number its decimal text, a missing value `"nan"` |
| `Records.RenderReadsBack` | JWM.py:36-45 | the text of a whole-number cell reads back as that number, and `"nan"` reads as no number |
| `Explode.Tokens` | JWM.py:36 | every source row has at least one invoice token |
| `Explode.WithInvoice` | JWM.py:38-39 | the copy holds the given invoice number, and putting the row's own invoice field back gives the row unchanged, so nothing else differs |
| `Explode.TotalTokens` | JWM.py:35-37 | every source row yields at least one token, so there are never fewer tokens than rows |
| `Explode.Exploded` | JWM.py:34-42 | the exploded table has exactly one row per invoice token, summed over the source rows, so never fewer rows than the source |
| `Explode.ExplodeRows` | JWM.py:34-40 | the nested loop appending copies to `new_rows` builds exactly the exploded table |
| `Explode.OffsetStep` | JWM.py:35-40 | the rows of source row `i + 1` start right after the tokens of row `i` |
| `Explode.FlattenAt` | JWM.py:34-40 | element `j` of part `i` of a concatenation sits right after all earlier parts, which is how appending to `new_rows` orders them |
| `Explode.ExplodedIsFlatten` | JWM.py:34-42 | the exploded table is the concatenation of the per-row parts, in source order |
| `Explode.ExplodedAt` | JWM.py:35-40 | token `j` of source row `i` is emitted at position offset(i) + j as the source row with only the invoice field replaced: source order, then token order |
| `Explode.SourceOf` | JWM.py:35-40 | every exploded position belongs to a source row and one of its tokens |
| `Explode.SourceOfUnique` | JWM.py:35-40 | that row and token are the only ones emitted at the position |
| `Explode.ExplodedFrom` | JWM.py:37-40 | every exploded row equals its source row in every field except the invoice, which is one of that row's tokens |
| `Explode.FanRejoins` | JWM.py:36-39 | the invoice numbers emitted for a row, joined with `", "`, give back its invoice text, and none holds the separator |
| `Explode.SingleInvoiceUnchanged` | JWM.py:36-40 | a row whose invoice text holds no separator is emitted once, unchanged |
| `Codes.ToNumeric` | JWM.py:44-45 | `to_numeric(errors='coerce')` gives no number exactly for a missing cell or a text that does not read as a number, and keeps a whole number as it is |
| `Codes.TaxIdKey` | JWM.py:73-74 | the canonical tax-id text is `"<NA>"` exactly when the tax id is not a number |
| `Codes.CityKey` | JWM.py:79-80 | a city key exists exactly for a text cell and is stripped |
| `Codes.Lookup` | JWM.py:52-80 | a value found for a key comes from an entry of the display with that key; `Codes.LookupLast` pins which entry |
| `Codes.LookupLast` | JWM.py:52-69 | looking up a dictionary display finds nothing exactly when no entry has the key, and otherwise finds the value of the last entry with that key |
| `Codes.LookupAbsent` | JWM.py:52-69 | a key no entry has finds nothing |
| `Codes.LookupAt` | JWM.py:52-69 | a key whose last entry is at a given position finds that entry's value |
| `Codes.LookupAppend` | JWM.py:56-69 | in a display written in two parts, an entry of the later part overrides the earlier part |
| `Codes.LookupSiteCode` | JWM.py:52-69 | looking up a table that holds only site codes yields a site code |
| `Codes.CityCode` | JWM.py:79-80 | `replace(map_cidades)` gives a value exactly when the city key exists |
| `Codes.ResolveCode` | JWM.py:76-83 | the resolved code is missing exactly when the tax id misses `map_cnpj` and the city is missing |
| `Codes.TaxIdPrecedence` | JWM.py:76-83 | a tax id found in `map_cnpj` decides the code, whatever the city |
| `Codes.CityFallback` | JWM.py:79-83 | when the tax id misses, the code is `map_cidades[upper(strip(city))]` if present, else `upper(strip(city))` itself |
| `Codes.MissingTaxIdUsesCity` | JWM.py:44-45 | a non-numeric tax id, coerced to missing, never matches, so the city decides |
| `Codes.TextTaxIdAsNumber` | JWM.py:44-45 | a tax id written as text resolves exactly like the same whole number |
| `Codes.TaxIdDropsLeadingZero` | JWM.py:73-74 | a leading zero in a tax id is dropped by the integer coercion and does not change the resolved code |
| `Codes.CanonicalTaxIdText` | JWM.py:73-74 | a digit string without leading zeros is its own canonical tax-id text |
| `Codes.NoMissingKey` | JWM.py:52-55 | `"<NA>"` finds nothing in `map_cnpj` |
| `Codes.CmlEntry` | JWM.py:53 | `map_cnpj` maps 2012862022996 to CML |
| `Codes.TaxIdExampleCml` | JWM.py:52-55 | 2012862022996, and the 14-digit 02012862022996, both resolve to CML |
| `Codes.TableCodesAreSiteCodes` | JWM.py:52-69 | every value of both tables is a three-letter upper-case site code |
| `Codes.ResolvedCodeShape` | JWM.py:76-83 | a resolved code is a table site code, or else the stripped, upper-cased city name that missed both tables |
| `Codes.CityKeyIgnoresPadding` | JWM.py:79 | white space around a city name does not change its key |
| `Codes.CityExampleRecife` | JWM.py:62 | with no usable tax id, "recife " resolves to REC |
| `Codes.CityExampleSaoPaulo` | JWM.py:68 | with no usable tax id, " são paulo" resolves to CGH (accented letters upper-case too) |
| `Codes.CityExamplePassThrough` | JWM.py:79-83 | with no usable tax id, "natal" (in neither table) resolves to "NATAL" and not to a missing value |
| `Report.Project` | JWM.py:92-100 | 'Data expedida' equals 'Data inclusão' |
| `Report.ProjectCopy` | JWM.py:38-39 | a copy carrying one invoice number projects like its row, except that 'Nft' holds that number |
| `Report.Normalize` | JWM.py:34-100 | the output has one row per invoice token of the input |
| `Report.NormalizeAt` | JWM.py:34-100 | the output row for token `j` of row `i` sits at position offset(i) + j and is the projection of row `i` with 'Nft' set to the token |
| `Report.OriginIndependent` | JWM.py:76-82 | the origin columns depend only on the origin tax id and city |
| `Report.DestinationIndependent` | JWM.py:77-83 | the destination columns depend only on the destination tax id and city |
| `Report.Process` | JWM.py:42-80 | the rows read fail with EmptyReport exactly when there are none, and otherwise with NoCityText exactly when the origin or the destination city column holds no text cell; else the output is the normalisation, with at least one row per row read |
| `Report.Run` | JWM.py:14-29 | the run fails with NoReport when there is no candidate; otherwise it processes the rows read from the newest candidate |
| `Report.ExampleTokens` | JWM.py:36 | the invoice text "111, 222" splits into "111" and "222" |
| `Report.ExampleProjection` | JWM.py:73-100 | origin tax id 2012862022996 and destination "recife " without a tax id project to origin CML and destination REC |
| `Report.WorkedExample` | JWM.py:34-100 | invoices "111, 222", origin tax id 2012862022996, destination "recife " give two rows, "111" and "222", both with origin CML, destination REC and the row's dates |

## Left out

- APP.py is not part of this model. It drives an ERP desktop client
  through its GUI scripting interface (login, screen navigation, exports,
  waits). That is vendor I/O with no logic of its own to verify.
- The file system is not modelled: the glob over the Downloads folder and
  `os.path.getmtime`. `Discovery` takes the listing as a sequence of
  (path, time) pairs in the order the listing returns them.
- Reading the spreadsheet is not modelled. `Report.Run` takes it as a
  function from path to rows.
- Writing the output is not modelled: the workbook, sheet name, number and
  date formats, column widths and overwriting the file.
- Date parsing is not modelled (`pd.to_datetime` with `dayfirst=True`, and
  `errors='coerce'` for the delivery date). Dates are opaque optional
  timestamps carried through unchanged. The abort on an unparseable
  freight date is not modelled.
- Printing and the unused processing timestamp are not modelled. The two
  top-level exception handlers are: each abort is a `Failure` of
  `Report.RunError`.
- Report.Process: it aborts on a city column without text cells, which is
  how pandas infers a numeric or all-blank column for `.str` to refuse.
  Other column-type inference is not modelled. Neither is a failure of
  `.str` on a column of some other kind, such as booleans or floats, which
  the `Cell` type cannot hold.
- Records.Render: a cell has no floating-point case. A whole-number column
  that pandas widens to float because of blanks would render as "123.0";
  the model renders "123".
- Decimal.Parse: only an optional sign followed by digits is numeric text.
  `pd.to_numeric` also accepts decimals, exponents and surrounding blanks.
  A fractional tax id, which makes `astype('Int64')` raise, is not modelled.
- Decimal.Format: integers are unbounded. 64-bit overflow in `to_numeric`
  and `Int64` is not modelled. Nor is the rounding of a tax-id column that
  `to_numeric` turns into float64 because it holds a blank or a non-number.
  There a text tax id above 2^53 is rounded, and `astype('Int64')` accepts
  the rounded value: "12345678901234567" comes out as "12345678901234568",
  while `Codes.TaxIdKey` keeps it exact. Tax ids of 14 digits or fewer stay
  exact.
- Text.Upper: only ASCII and the Latin-1 letters U+00E0 to U+00FE
  (except U+00F7) are upper-cased. The special cases ß, ÿ and µ, and all
  letters beyond Latin-1, are left unchanged.
- Codes.CityTable: every key of `map_cidades` is already stripped and
  upper-case, so every entry can be reached. This is proved only for the
  keys used in the examples.
