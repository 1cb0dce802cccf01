/** Site-code resolution: the tax id (CNPJ) table first, the city table as
    the fallback, applied in the same way to origin and destination. */
module Codes {
  import opened Wrappers
  import opened Records
  import Decimal
  import Text

  /** A dictionary written as a display: its key-value entries in the
      order they are written. */
  type Entries = seq<(string, string)>

  /** `d.get(k)` for the dictionary a display builds: the value of the last
      entry with key `k`, since a later entry overrides an earlier one. */
  function Lookup(entries: Entries, k: string): (r: Option<string>)
    ensures r.Some? ==> (k, r.value) in entries
    decreases |entries|
  {
    if entries == [] then None
    else if entries[|entries| - 1].0 == k then Some(entries[|entries| - 1].1)
    else Lookup(entries[..|entries| - 1], k)
  }

  /** `map_cnpj`: canonical tax-id text to site code. */
  const CnpjTable: Entries := [
    ("2012862022996", "CML"), ("2012862002294", "GRU"), ("2012862001050", "SDU"),
    ("2012862002456", "GIG"), ("2012862006109", "MRO"), ("2012862000917", "CGH")]

  /** `map_cidades`: stripped, upper-cased city name to site code. The
      display is written in two parts joined with `+`, which keeps each part
      small enough for the verifier to read entry by entry. */
  const CityTable: Entries := CityTableHead + CityTableTail

  const CityTableHead: Entries := [
    ("ARACAJU", "AJU"), ("BELÉM", "BEL"), ("BOA VISTA", "BVB"), ("BRASÍLIA", "BSB"),
    ("CAMPO GRANDE", "CGR"), ("CONFINS", "CNF"), ("CURITIBA", "CWB"),
    ("FLORIANÓPOLIS", "FLN"), ("FORTALEZA", "FOR"), ("FOZ DO IGUACU", "IGU"),
    ("GOIANIA", "GYN"), ("ILHEUS", "IOS"), ("IMPERATRIZ", "IMP"), ("JAGUARUNA", "JJG"),
    ("BAYEUX", "JPA"), ("JOINVILLE", "JOI"), ("LONDRINA", "LDB"), ("MACAPA", "MCP"),
    ("MANAUS", "MAO"), ("MARABA", "MAB"), ("MARINGA", "MGF"), ("NAVEGANTES", "NVT"),
    ("PALMAS", "PMW"), ("PORTO ALEGRE", "POA")]

  const CityTableTail: Entries := [
    ("PORTO SEGURO", "BPS"), ("PORTO VELHO", "PVH"), ("RECIFE", "REC"),
    ("RIBEIRAO PRETO", "RAO"), ("RIO BRANCO", "RBR"), ("RIO LARGO", "MCZ"),
    ("SAO JOSE DO RIO PRETO", "SJP"), ("SALVADOR", "SSA"), ("SANTAREM", "STM"),
    ("SAO LUIS", "SLZ"), ("TERESINA", "THE"), ("UBERLANDIA", "UDI"),
    ("VARZEA GRANDE", "CGB"), ("CAMPINAS", "VCP"), ("VITORIA", "VIX"), ("CHAPECO", "XAP"),
    ("SINOP", "OPS"), ("AGUA VERMELHA (SAO CARLOS)", "MRO"),
    ("SÃO GONÇALO DO AMARANTE", "NAT"), ("SÃO JOSÉ DOS PINHAIS", "CWB"),
    ("GUARULHOS", "CML"), ("SÃO PAULO", "CGH"), ("SÃO CARLOS", "MRO")]

  /** What pandas shows for a missing value of an `Int64` column. */
  const MissingText: string := "<NA>"

  /** Three upper-case ASCII letters. */
  predicate IsSiteCode(c: string) {
    |c| == 3 && forall i :: 0 <= i < 3 ==> 'A' <= c[i] <= 'Z'
  }

  /** `pd.to_numeric(..., errors='coerce')`: whole numbers stay, numeric
      text is read, anything else becomes missing. */
  function ToNumeric(c: Cell): (r: Option<int>)
    ensures r.None? <==> c.Empty? || (c.Text? && Decimal.Parse(c.s).None?)
    ensures c.Integer? ==> r == Some(c.n)
  {
    match c
    case Integer(n) => Some(n)
    case Text(s) => Decimal.Parse(s)
    case Empty => None
  }

  /** `.astype('Int64').astype(str)`: the canonical decimal text of the tax
      id, or "<NA>" when it is missing. */
  function TaxIdKey(c: Cell): (k: string)
    ensures k == MissingText <==> ToNumeric(c).None?
  {
    match ToNumeric(c)
    case Some(n) => Decimal.Format(n)
    case None => MissingText
  }

  /** `.str.strip().str.upper()`: missing for a cell that is not text. */
  function CityKey(c: Cell): (r: Option<string>)
    ensures r.Some? <==> c.Text?
    ensures r.Some? ==> Text.Trimmed(r.value)
  {
    match c
    case Text(s) => Some(Text.Upper(Text.Strip(s)))
    case _ => None
  }

  /** `.replace(map_cidades)` on the city key: a key of the table becomes
      its code, every other value is left as it is. */
  function CityCode(c: Cell): (r: Option<string>)
    ensures r.None? <==> CityKey(c).None?
  {
    match CityKey(c)
    case None => None
    case Some(k) =>
      match Lookup(CityTable, k)
      case Some(code) => Some(code)
      case None => Some(k)
  }

  /** `.map(map_cnpj)` on the tax-id key, then `.fillna(...)` with the city
      code: the code is missing only when the tax id misses the table and
      the city is missing as well. */
  function ResolveCode(taxId: Cell, city: Cell): (r: Option<string>)
    ensures r.None? <==> Lookup(CnpjTable, TaxIdKey(taxId)).None? && CityKey(city).None?
  {
    match Lookup(CnpjTable, TaxIdKey(taxId))
    case Some(code) => Some(code)
    case None => CityCode(city)
  }

  /** A tax id found in the table decides the code, whatever the city. */
  lemma TaxIdPrecedence(taxId: Cell, city: Cell)
    requires Lookup(CnpjTable, TaxIdKey(taxId)).Some?
    ensures ResolveCode(taxId, city) == Lookup(CnpjTable, TaxIdKey(taxId))
  {
  }

  /** A tax id that misses the table, a missing one included, leaves the
      decision to the city: its table code if the key is in the table, the
      stripped, upper-cased name itself otherwise. */
  lemma CityFallback(taxId: Cell, city: string)
    requires Lookup(CnpjTable, TaxIdKey(taxId)).None?
    ensures var k := Text.Upper(Text.Strip(city));
            ResolveCode(taxId, Text(city)) ==
              if Lookup(CityTable, k).Some? then Lookup(CityTable, k) else Some(k)
  {
  }

  /** A tax id that is not a number never matches, so the city decides. */
  lemma MissingTaxIdUsesCity(taxId: Cell, city: Cell)
    requires ToNumeric(taxId).None?
    ensures ResolveCode(taxId, city) == CityCode(city)
  {
    NoMissingKey();
  }

  /** A tax id written as text resolves like the same whole number. */
  lemma TextTaxIdAsNumber(n: int, city: Cell)
    ensures TaxIdKey(Text(Decimal.Format(n))) == TaxIdKey(Integer(n))
    ensures ResolveCode(Text(Decimal.Format(n)), city) == ResolveCode(Integer(n), city)
  {
    Decimal.ParseFormat(n);
  }

  /** Coercion to an integer drops leading zeros, so a 14-digit tax id
      written with its leading zero finds the 13-digit key. */
  lemma TaxIdDropsLeadingZero(s: string, city: Cell)
    requires |s| >= 1 && Decimal.AllDigits(s)
    ensures TaxIdKey(Text("0" + s)) == TaxIdKey(Text(s))
    ensures ResolveCode(Text("0" + s), city) == ResolveCode(Text(s), city)
  {
    Decimal.ValueLeadingZero(s);
  }

  /** A digit string without a leading zero is its own canonical text. */
  lemma CanonicalTaxIdText(s: string)
    requires |s| >= 1 && Decimal.AllDigits(s) && (s[0] != '0' || |s| == 1)
    ensures TaxIdKey(Text(s)) == s
  {
    assert s[0] != '-' && s[0] != '+';
    Decimal.DigitsValue(s);
  }

  /** The tax id of CML, written as 2012862022996 or, as a 14-digit CNPJ,
      with its leading zero, finds the 13-digit key of CML. */
  lemma TaxIdExampleCml(taxId: Cell, city: Cell)
    requires taxId == Text("2012862022996") || taxId == Text("02012862022996")
    ensures TaxIdKey(taxId) == "2012862022996"
    ensures ResolveCode(taxId, city) == Some("CML")
  {
    var s := "2012862022996";
    CmlKeyDigits(s);
    TaxIdDropsLeadingZero(s, city);
    CanonicalTaxIdText(s);
    CmlEntry();
  }

  lemma CmlKeyDigits(s: string)
    requires s == "2012862022996"
    ensures |s| >= 1 && Decimal.AllDigits(s) && s[0] != '0'
    ensures "0" + s == "02012862022996"
  {
  }

  lemma NoMissingKey()
    ensures Lookup(CnpjTable, MissingText) == None
  {
    assert forall i :: 0 <= i < |CnpjTable| ==> CnpjTable[i].0[0] != '<';
    LookupAbsent(CnpjTable, MissingText);
  }

  /** The tax id of CML is a key of the tax-id table. */
  lemma CmlEntry()
    ensures Lookup(CnpjTable, "2012862022996") == Some("CML")
  {
    assert CnpjTable[0] == ("2012862022996", "CML");
    assert forall j :: 0 < j < |CnpjTable| ==> CnpjTable[j].0[8] == '0';
    LookupAt(CnpjTable, 0, "2012862022996");
  }

  /** Every entry of the table holds a site code. */
  predicate SiteCodesOnly(entries: Entries) {
    forall i :: 0 <= i < |entries| ==> IsSiteCode(entries[i].1)
  }

  /** No entry after position `i` has key `k`. */
  predicate LastWith(entries: Entries, i: nat, k: string) {
    forall j :: i < j < |entries| ==> entries[j].0 != k
  }

  /** Lookup finds nothing exactly when no entry has the key, and finds
      the value of an entry with the key that no later entry overrides. */
  lemma {:induction false} LookupLast(entries: Entries, k: string)
    ensures Lookup(entries, k).None? <==> forall i :: 0 <= i < |entries| ==> entries[i].0 != k
    ensures forall i :: 0 <= i < |entries| && entries[i].0 == k && LastWith(entries, i, k) ==>
              Lookup(entries, k) == Some(entries[i].1)
    decreases |entries|
  {
    if entries != [] {
      var n := |entries|;
      var init := entries[..n - 1];
      LookupLast(init, k);
      assert forall i :: 0 <= i < n - 1 ==> entries[i] == init[i];
    }
  }

  /** A key no entry has finds nothing. */
  lemma LookupAbsent(entries: Entries, k: string)
    requires forall i :: 0 <= i < |entries| ==> entries[i].0 != k
    ensures Lookup(entries, k) == None
  {
    LookupLast(entries, k);
  }

  /** A key whose last entry is at position `i` finds that entry's value. */
  lemma LookupAt(entries: Entries, i: nat, k: string)
    requires i < |entries| && entries[i].0 == k && LastWith(entries, i, k)
    ensures Lookup(entries, k) == Some(entries[i].1)
  {
    LookupLast(entries, k);
  }

  /** Joining two displays: the later one overrides the earlier one. */
  lemma {:induction false} LookupAppend(a: Entries, b: Entries, k: string)
    ensures Lookup(a + b, k) == if Lookup(b, k).Some? then Lookup(b, k) else Lookup(a, k)
    decreases |b|
  {
    if b == [] {
      assert a + b == a;
    } else {
      var n := |b|;
      assert (a + b)[..|a + b| - 1] == a + b[..n - 1];
      LookupAppend(a, b[..n - 1], k);
    }
  }

  /** Looking up a table of site codes yields a site code. */
  lemma {:induction false} LookupSiteCode(entries: Entries, k: string)
    requires SiteCodesOnly(entries)
    ensures Lookup(entries, k).Some? ==> IsSiteCode(Lookup(entries, k).value)
    decreases |entries|
  {
    if entries != [] && entries[|entries| - 1].0 != k {
      var init := entries[..|entries| - 1];
      assert forall i :: 0 <= i < |init| ==> init[i] == entries[i];
      LookupSiteCode(init, k);
    }
  }

  /** Every code either table holds is a three-letter site code. */
  lemma TableCodesAreSiteCodes()
    ensures SiteCodesOnly(CnpjTable)
    ensures SiteCodesOnly(CityTable)
  {
    HeadCodesAreSiteCodes();
    TailCodesAreSiteCodes();
    forall i | 0 <= i < |CityTable| ensures IsSiteCode(CityTable[i].1) {
      if i >= |CityTableHead| {
        assert CityTable[i] == CityTableTail[i - |CityTableHead|];
      }
    }
  }

  lemma HeadCodesAreSiteCodes()
    ensures SiteCodesOnly(CityTableHead)
  {
  }

  lemma TailCodesAreSiteCodes()
    ensures SiteCodesOnly(CityTableTail)
  {
  }

  /** A resolved code is a site code from one of the tables, or else the
      stripped, upper-cased city name that no table entry matched. */
  lemma ResolvedCodeShape(taxId: Cell, city: Cell)
    requires ResolveCode(taxId, city).Some?
    ensures var r := ResolveCode(taxId, city).value;
            IsSiteCode(r) ||
            (Lookup(CnpjTable, TaxIdKey(taxId)).None? && CityKey(city) == Some(r) &&
             Lookup(CityTable, r).None?)
  {
    TableCodesAreSiteCodes();
    LookupSiteCode(CnpjTable, TaxIdKey(taxId));
    if CityKey(city).Some? {
      LookupSiteCode(CityTable, CityKey(city).value);
    }
  }

  /** White space around a city name does not change its key. */
  lemma CityKeyIgnoresPadding(p: string, t: string, q: string)
    requires Text.AllSpace(p) && Text.AllSpace(q) && Text.Trimmed(t)
    ensures CityKey(Text(p + t + q)) == Some(Text.Upper(t))
  {
    Text.StripPadded(p, t, q);
  }

  /** The facts about particular names and entries the examples use, one
      lemma each to keep every proof small. */
  lemma RecifeKey()
    ensures CityKey(Text("recife ")) == Some("RECIFE")
  {
    assert "" + "recife" + " " == "recife ";
    CityKeyIgnoresPadding("", "recife", " ");
    Text.UpperExampleRecife();
  }

  lemma RecifeEntry()
    ensures Lookup(CityTable, "RECIFE") == Some("REC")
  {
    RecifeLast();
    LookupAt(CityTableTail, 2, "RECIFE");
    LookupAppend(CityTableHead, CityTableTail, "RECIFE");
  }

  lemma SaoPauloKey()
    ensures CityKey(Text(" são paulo")) == Some("SÃO PAULO")
  {
    assert " " + "são paulo" + "" == " são paulo";
    CityKeyIgnoresPadding(" ", "são paulo", "");
    Text.UpperExampleSaoPaulo();
  }

  lemma SaoPauloEntry()
    ensures Lookup(CityTable, "SÃO PAULO") == Some("CGH")
  {
    assert CityTableTail[21] == ("SÃO PAULO", "CGH");
    assert CityTableTail[22].0 != "SÃO PAULO";
    LookupAt(CityTableTail, 21, "SÃO PAULO");
    LookupAppend(CityTableHead, CityTableTail, "SÃO PAULO");
  }

  lemma NatalKey()
    ensures CityKey(Text("natal")) == Some("NATAL")
  {
    assert "" + "natal" + "" == "natal";
    CityKeyIgnoresPadding("", "natal", "");
    Text.UpperExampleNatal();
  }

  lemma NatalMissing()
    ensures Lookup(CityTable, "NATAL") == None
  {
    NatalNotInHead();
    NatalNotInTail();
    LookupAppend(CityTableHead, CityTableTail, "NATAL");
  }

  lemma NatalNotInHead()
    ensures Lookup(CityTableHead, "NATAL") == None
  {
    NatalNoHeadKey();
    LookupAbsent(CityTableHead, "NATAL");
  }

  lemma NatalNotInTail()
    ensures Lookup(CityTableTail, "NATAL") == None
  {
    NatalNoTailKey();
    LookupAbsent(CityTableTail, "NATAL");
  }

  lemma NatalNoHeadKey()
    ensures forall i :: 0 <= i < |CityTableHead| ==> CityTableHead[i].0 != "NATAL"
  {
  }

  lemma NatalNoTailKey()
    ensures forall i :: 0 <= i < |CityTableTail| ==> CityTableTail[i].0 != "NATAL"
  {
  }

  lemma RecifeLast()
    ensures CityTableTail[2] == ("RECIFE", "REC") && LastWith(CityTableTail, 2, "RECIFE")
  {
  }

  /** With a missing or non-numeric tax id the city decides, and padding
      and case do not matter: "recife " finds RECIFE. */
  lemma CityExampleRecife(taxId: Cell, city: Cell)
    requires ToNumeric(taxId).None? && city == Text("recife ")
    ensures ResolveCode(taxId, city) == Some("REC")
  {
    RecifeKey();
    RecifeEntry();
    MissingTaxIdUsesCity(taxId, city);
  }

  /** Accented Latin-1 letters upper-case as well: " são paulo" finds
      SÃO PAULO. */
  lemma CityExampleSaoPaulo(taxId: Cell, city: Cell)
    requires ToNumeric(taxId).None? && city == Text(" são paulo")
    ensures ResolveCode(taxId, city) == Some("CGH")
  {
    SaoPauloKey();
    SaoPauloEntry();
    MissingTaxIdUsesCity(taxId, city);
  }

  /** A city in neither table passes through as its own key: "natal" is
      resolved to "NATAL", not to the code NAT that the table gives to São
      Gonçalo do Amarante. */
  lemma CityExamplePassThrough(taxId: Cell, city: Cell)
    requires ToNumeric(taxId).None? && city == Text("natal")
    ensures ResolveCode(taxId, city) == Some("NATAL")
  {
    NatalKey();
    NatalMissing();
    MissingTaxIdUsesCity(taxId, city);
  }
}
