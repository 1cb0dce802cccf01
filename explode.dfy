/** Row explosion: every source row becomes one row per invoice number in
    its 'Notas Fiscais' field, all other fields copied. */
module Explode {
  import opened Records
  import Separators

  /** `str(row['Notas Fiscais']).split(', ')`. */
  function Tokens(row: SourceRow): (ts: seq<string>)
    ensures |ts| >= 1
  {
    Separators.Split(Render(row.invoices))
  }

  /** `new_row = row.copy(); new_row['Notas Fiscais'] = nota`. */
  function WithInvoice(row: SourceRow, nota: string): (r: SourceRow)
    ensures r.invoices == Text(nota)
    ensures r.(invoices := row.invoices) == row
  {
    row.(invoices := Text(nota))
  }

  /** The copies of `row` made for the given tokens, in token order, each
      with its invoice field set to that token. */
  function FanOut(row: SourceRow, toks: seq<string>): seq<SourceRow> {
    seq(|toks|, k requires 0 <= k < |toks| => WithInvoice(row, toks[k]))
  }

  /** The rows emitted for one source row. */
  function Fan(row: SourceRow): seq<SourceRow> {
    FanOut(row, Tokens(row))
  }

  /** The number of invoice tokens over all rows: every row yields at
      least one, so the table never shrinks. */
  function TotalTokens(rows: seq<SourceRow>): (n: nat)
    ensures n >= |rows|
    decreases |rows|
  {
    if rows == [] then 0 else TotalTokens(rows[..|rows| - 1]) + |Tokens(rows[|rows| - 1])|
  }

  /** The position of the first row emitted for `rows[i]`. */
  function Offset(rows: seq<SourceRow>, i: nat): nat
    requires i <= |rows|
  {
    TotalTokens(rows[..i])
  }

  /** The whole exploded table: the rows of each source row in source order. */
  function Exploded(rows: seq<SourceRow>): (r: seq<SourceRow>)
    ensures |r| == TotalTokens(rows)
    ensures |r| >= |rows|
    decreases |rows|
  {
    if rows == [] then [] else Exploded(rows[..|rows| - 1]) + Fan(rows[|rows| - 1])
  }

  /** The loop that builds `new_rows`: for each source row, for each token
      of its invoice field, append a copy of the row carrying that token. */
  method ExplodeRows(rows: seq<SourceRow>) returns (newRows: seq<SourceRow>)
    ensures newRows == Exploded(rows)
  {
    newRows := [];
    for i := 0 to |rows|
      invariant newRows == Exploded(rows[..i])
    {
      var row := rows[i];
      var notas := Separators.Split(Render(row.invoices));
      for k := 0 to |notas|
        invariant newRows == Exploded(rows[..i]) + FanOut(row, notas[..k])
      {
        var newRow := WithInvoice(row, notas[k]);
        assert FanOut(row, notas[..k + 1]) == FanOut(row, notas[..k]) + [newRow];
        newRows := newRows + [newRow];
      }
      assert notas[..|notas|] == notas;
      assert rows[..i + 1][..i] == rows[..i];
    }
    assert rows[..|rows|] == rows;
  }

  lemma OffsetStep(rows: seq<SourceRow>, i: nat)
    requires i < |rows|
    ensures Offset(rows, i + 1) == Offset(rows, i) + |Tokens(rows[i])|
  {
    assert rows[..i + 1][..i] == rows[..i];
  }

  lemma OffsetOfPrefix(rows: seq<SourceRow>, n: nat, i: nat)
    requires i <= n <= |rows|
    ensures Offset(rows[..n], i) == Offset(rows, i)
  {
    assert rows[..n][..i] == rows[..i];
  }

  /** The concatenation of a sequence of sequences, in order. */
  function Flatten<T>(xss: seq<seq<T>>): seq<T>
    decreases |xss|
  {
    if xss == [] then [] else Flatten(xss[..|xss| - 1]) + xss[|xss| - 1]
  }

  /** Element `j` of part `i` sits in the concatenation right after the
      parts before `i`. */
  lemma {:induction false} FlattenAt<T>(xss: seq<seq<T>>, i: nat, j: nat)
    requires i < |xss| && j < |xss[i]|
    ensures |Flatten(xss[..i])| + j < |Flatten(xss)|
    ensures Flatten(xss)[|Flatten(xss[..i])| + j] == xss[i][j]
    decreases |xss|
  {
    var n := |xss|;
    var init := xss[..n - 1];
    var a := Flatten(init);
    assert Flatten(xss) == a + xss[n - 1];
    if i == n - 1 {
      assert xss[..i] == init;
    } else {
      assert init[i] == xss[i];
      assert init[..i] == xss[..i];
      FlattenAt(init, i, j);
      assert (a + xss[n - 1])[|Flatten(xss[..i])| + j] == a[|Flatten(xss[..i])| + j];
    }
  }

  /** The rows emitted for each source row, one part per source row. */
  function Fans(rows: seq<SourceRow>): (fs: seq<seq<SourceRow>>)
    ensures |fs| == |rows|
  {
    seq(|rows|, k requires 0 <= k < |rows| => Fan(rows[k]))
  }

  lemma FansPrefix(rows: seq<SourceRow>, i: nat)
    requires i <= |rows|
    ensures Fans(rows[..i]) == Fans(rows)[..i]
  {
  }

  lemma {:induction false} ExplodedIsFlatten(rows: seq<SourceRow>)
    ensures Exploded(rows) == Flatten(Fans(rows))
    decreases |rows|
  {
    if rows != [] {
      var n := |rows|;
      var prefix := rows[..n - 1];
      ExplodedIsFlatten(prefix);
      var fs := Fans(rows);
      assert fs[..n - 1] == Fans(prefix);
      assert fs[n - 1] == Fan(rows[n - 1]);
    }
  }

  /** Element `j` of the part for `rows[i]` sits right after the rows
      emitted for the rows before it. */
  lemma ExplodedAtPart(rows: seq<SourceRow>, i: nat, j: nat)
    requires i < |rows| && j < |Fans(rows)[i]|
    ensures Offset(rows, i) + j < |Exploded(rows)|
    ensures Exploded(rows)[Offset(rows, i) + j] == Fans(rows)[i][j]
  {
    ExplodedIsFlatten(rows);
    ExplodedIsFlatten(rows[..i]);
    FansPrefix(rows, i);
    FlattenAt(Fans(rows), i, j);
    assert |Exploded(rows[..i])| == Offset(rows, i);
  }

  /** Token `j` of source row `i` is emitted at position `Offset(rows, i) + j`
      as a copy of the row with only the invoice field replaced: source order
      first, then token order. */
  lemma ExplodedAt(rows: seq<SourceRow>, i: nat, j: nat)
    requires i < |rows| && j < |Tokens(rows[i])|
    ensures Offset(rows, i) + j < |Exploded(rows)|
    ensures Exploded(rows)[Offset(rows, i) + j] == WithInvoice(rows[i], Tokens(rows[i])[j])
  {
    ExplodedAtPart(rows, i, j);
    assert Fans(rows)[i] == Fan(rows[i]);
    FanAt(rows[i], j);
  }

  lemma FanAt(row: SourceRow, j: nat)
    requires j < |Tokens(row)|
    ensures j < |Fan(row)| && Fan(row)[j] == WithInvoice(row, Tokens(row)[j])
  {
  }

  /** The source row and token an exploded position comes from. */
  function SourceOf(rows: seq<SourceRow>, k: nat): (ij: (nat, nat))
    requires k < TotalTokens(rows)
    ensures ij.0 < |rows| && ij.1 < |Tokens(rows[ij.0])|
    ensures k == Offset(rows, ij.0) + ij.1
    decreases |rows|
  {
    var n := |rows|;
    var prefix := rows[..n - 1];
    assert TotalTokens(rows) == TotalTokens(prefix) + |Tokens(rows[n - 1])|;
    if k < TotalTokens(prefix) then
      var ij := SourceOf(prefix, k);
      OffsetOfPrefix(rows, n - 1, ij.0);
      assert prefix[ij.0] == rows[ij.0];
      ij
    else
      assert Offset(rows, n - 1) == TotalTokens(prefix);
      (n - 1, k - TotalTokens(prefix))
  }

  /** The rows of an earlier source row all come before those of a later
      one. */
  lemma {:induction false} OffsetBefore(rows: seq<SourceRow>, a: nat, b: nat)
    requires a < b <= |rows|
    ensures Offset(rows, a) + |Tokens(rows[a])| <= Offset(rows, b)
    decreases b - a
  {
    OffsetStep(rows, a);
    if a + 1 < b {
      OffsetBefore(rows, a + 1, b);
    }
  }

  /** No other row and token is emitted at the position `SourceOf` names. */
  lemma SourceOfUnique(rows: seq<SourceRow>, k: nat, i: nat, j: nat)
    requires i < |rows| && j < |Tokens(rows[i])| && Offset(rows, i) + j == k
    ensures k < TotalTokens(rows) && SourceOf(rows, k) == (i, j)
  {
    OffsetBefore(rows, i, |rows|);
    assert rows[..|rows|] == rows;
    var ij := SourceOf(rows, k);
    if ij.0 < i {
      OffsetBefore(rows, ij.0, i);
    } else if i < ij.0 {
      OffsetBefore(rows, i, ij.0);
    }
  }

  /** Every exploded row is its source row with only the invoice field
      replaced by one of that row's tokens. */
  lemma ExplodedFrom(rows: seq<SourceRow>, k: nat)
    requires k < |Exploded(rows)|
    ensures SourceOf(rows, k).0 < |rows| && SourceOf(rows, k).1 < |Tokens(rows[SourceOf(rows, k).0])|
    ensures Exploded(rows)[k] ==
      WithInvoice(rows[SourceOf(rows, k).0], Tokens(rows[SourceOf(rows, k).0])[SourceOf(rows, k).1])
  {
    var ij := SourceOf(rows, k);
    ExplodedAt(rows, ij.0, ij.1);
  }

  /** The invoice texts of a sequence of rows. */
  function InvoiceTexts(es: seq<SourceRow>): seq<string> {
    seq(|es|, k requires 0 <= k < |es| => Render(es[k].invoices))
  }

  /** The invoice numbers emitted for a row, joined back with ", ", give the
      row's original invoice text, and none of them holds the separator. */
  lemma FanRejoins(row: SourceRow)
    ensures Separators.Join(InvoiceTexts(Fan(row))) == Render(row.invoices)
    ensures forall k :: 0 <= k < |Fan(row)| ==> !Separators.HasSep(Render(Fan(row)[k].invoices))
  {
    assert InvoiceTexts(Fan(row)) == Tokens(row);
    Separators.JoinSplit(Render(row.invoices));
    Separators.SplitTokensSepFree(Render(row.invoices));
  }

  /** A row whose invoice field holds no separator is emitted once, unchanged. */
  lemma SingleInvoiceUnchanged(row: SourceRow, s: string)
    requires row.invoices == Text(s) && !Separators.HasSep(s)
    ensures Fan(row) == [row]
  {
    Separators.SplitSingleton(s);
  }
}
