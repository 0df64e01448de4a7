/**
 * The entity resolver of ScreenerScraper: the search-term index built from the rows of
 * the company table (_load_stock_mapping) and the lookup of a free-text query in it
 * (search_stock).
 */
module StockIndex {
  import opened Wrappers
  import opened Text
  import opened OrderedMaps

  /** One row of the company table that survived the non-empty Company Name / NSE Symbol
      filter, with its three cells as read (not yet stripped). */
  datatype Row = Row(companyName: string, nseSymbol: string, screenerLink: string)

  /** The record every search term of a company maps to. */
  datatype StockInfo = StockInfo(slug: string, name: string, symbol: string)

  /** Search term -> record, in the order the terms were first inserted. */
  type Index = OrderedMap<StockInfo>

  /** What one row contributes: its record and the keys written for it, in writing order. */
  datatype RowIndexing = RowIndexing(info: StockInfo, keys: seq<string>)

  const CompanyMarker := "company/"

  /** The identifier for the company page: the text after the last "company/" of the link
      with trailing '/' removed, or else the symbol; None when there is neither. */
  function DeriveSlug(symbol: string, link: string): Option<string>
  {
    if link != "" && Contains(link, CompanyMarker) then
      Some(TrimEndChar(LastPiece(link, CompanyMarker), '/'))
    else if symbol != "" then Some(symbol)
    else None
  }

  /** A link holding "company/" yields the segment right after its last occurrence: that
      occurrence is followed by the slug and then only '/' characters, with no further
      "company/" in between; the slug does not end in '/'. Otherwise the symbol is used, when there is one. */
  lemma DeriveSlugFromLink(symbol: string, link: string)
    ensures var slug := DeriveSlug(symbol, link);
      && (Contains(link, CompanyMarker) ==>
            && slug.Some?
            && !Contains(slug.value, CompanyMarker)
            && (exists tail :: EndsWith(link, CompanyMarker + slug.value + tail)
                               && !Contains(slug.value + tail, CompanyMarker)
                               && (forall i :: 0 <= i < |tail| ==> tail[i] == '/'))
            && (slug.value == [] || slug.value[|slug.value| - 1] != '/'))
      && (!Contains(link, CompanyMarker) ==> slug == if symbol != "" then Some(symbol) else None)
  {
    if Contains(link, CompanyMarker) {
      assert link != "";
      var piece := LastPiece(link, CompanyMarker);
      var slug := TrimEndChar(piece, '/');
      var tail := piece[|slug|..];
      SlugAfterLastMarker(link);
      assert DeriveSlug(symbol, link) == Some(slug);
      assert EndsWith(link, CompanyMarker + slug + tail)
             && !Contains(slug + tail, CompanyMarker)
             && (forall i :: 0 <= i < |tail| ==> tail[i] == '/');
    }
  }

  lemma SlugAfterLastMarker(link: string)
    requires Contains(link, CompanyMarker)
    ensures var piece := LastPiece(link, CompanyMarker);
      var slug := TrimEndChar(piece, '/');
      var tail := piece[|slug|..];
      && slug + tail == piece
      && EndsWith(link, CompanyMarker + slug + tail)
      && !Contains(slug + tail, CompanyMarker)
      && !Contains(slug, CompanyMarker)
      && (forall i :: 0 <= i < |tail| ==> tail[i] == '/')
      && (slug == [] || slug[|slug| - 1] != '/')
  {
    var piece := LastPiece(link, CompanyMarker);
    LastPieceFollowsLastSeparator(link, CompanyMarker);
    var slug := TrimEndChar(piece, '/');
    TrimEndCharSpec(piece, '/');
    assert piece == slug + piece[|slug|..];
    NoMarkerInPrefix(piece, |slug|);
    assert CompanyMarker + piece == CompanyMarker + slug + piece[|slug|..];
  }

  lemma {:induction false} NoMarkerInPrefix(s: string, n: nat)
    requires n <= |s| && !Contains(s, CompanyMarker)
    ensures !Contains(s[..n], CompanyMarker)
    decreases n
  {
    if n > 0 {
      if |CompanyMarker| <= n {
        assert s[..n][..|CompanyMarker|] == s[..|CompanyMarker|];
      }
      NoMarkerInPrefix(s[1..], n - 1);
      assert s[..n][1..] == s[1..][..n - 1];
    }
  }

  /** The search terms of a company, lower-cased: full name, symbol and the first word of
      the name; "" stands for a term the code leaves out (None or empty). */
  function SearchTerms(name: string, symbol: string): seq<string>
  {
    [Lower(name), Lower(symbol), if name != "" then Lower(FirstWord(name)) else ""]
  }

  /** The keys one search term is stored under: the term itself, the term with " ltd." and
      " ltd" removed when it ends with either, and the term with " limited" removed when it
      ends with that. An empty term is skipped. */
  function TermKeys(term: string): seq<string>
  {
    if term == "" then []
    else [term] + (if HasLtd(term) then [LtdStripped(term)] else [])
         + (if HasLimited(term) then [LimitedStripped(term)] else [])
  }

  predicate HasLtd(term: string)
  {
    EndsWith(term, " ltd.") || EndsWith(term, " ltd")
  }

  /** term.replace(' ltd.', '').replace(' ltd', '') */
  function LtdStripped(term: string): string
  {
    Replace(Replace(term, " ltd.", ""), " ltd", "")
  }

  predicate HasLimited(term: string)
  {
    EndsWith(term, " limited")
  }

  /** term.replace(' limited', '') */
  function LimitedStripped(term: string): string
  {
    Replace(term, " limited", "")
  }

  /** The keys written for a list of search terms, in writing order. */
  function KeysOfTerms(terms: seq<string>): seq<string>
  {
    if terms == [] then []
    else KeysOfTerms(terms[..|terms| - 1]) + TermKeys(terms[|terms| - 1])
  }

  /** How the loop body of _load_stock_mapping treats one row: None when the row is
      skipped because its slug is missing or empty. */
  function IndexRow(row: Row): Option<RowIndexing>
  {
    var name := Strip(row.companyName);
    var symbol := Strip(row.nseSymbol);
    var link := Strip(row.screenerLink);
    match DeriveSlug(symbol, link)
    case None => None
    case Some(slug) =>
      if slug == "" then None
      else Some(RowIndexing(StockInfo(slug, name, symbol), KeysOfTerms(SearchTerms(name, symbol))))
  }

  /** What each row contributes, in table order. */
  function Indexings(rows: seq<Row>): (ris: seq<Option<RowIndexing>>)
    ensures |ris| == |rows|
  {
    if rows == [] then [] else Indexings(rows[..|rows| - 1]) + [IndexRow(rows[|rows| - 1])]
  }

  /** The index after the contributions have been written in order. */
  function Assemble(ris: seq<Option<RowIndexing>>): Index
  {
    if ris == [] then []
    else
      var before := Assemble(ris[..|ris| - 1]);
      match ris[|ris| - 1]
      case None => before
      case Some(ri) => PutAll(before, ri.keys, ri.info)
  }

  /** The index _load_stock_mapping builds from the rows. */
  function BuildIndex(rows: seq<Row>): Index
  {
    Assemble(Indexings(rows))
  }

  /** All keys written, in writing order. */
  function WrittenKeys(ris: seq<Option<RowIndexing>>): seq<string>
  {
    if ris == [] then []
    else
      WrittenKeys(ris[..|ris| - 1])
      + match ris[|ris| - 1] case None => [] case Some(ri) => ri.keys
  }

  /** Does this contribution write key k? */
  predicate Stores(ri: Option<RowIndexing>, k: string)
  {
    ri.Some? && k in ri.value.keys
  }

  /** _load_stock_mapping: one pass over the rows, writing each row's keys in turn. */
  method LoadStockMapping(rows: seq<Row>) returns (mapping: Index)
    ensures mapping == BuildIndex(rows)
    ensures Valid(mapping)
  {
    mapping := [];
    for r := 0 to |rows|
      invariant mapping == Assemble(Indexings(rows[..r]))
    {
      ghost var done := Indexings(rows[..r]);
      ghost var ri := IndexRow(rows[r]);
      assert rows[..r + 1][..r] == rows[..r];
      assert Indexings(rows[..r + 1]) == done + [ri];
      assert (done + [ri])[..r] == done;
      var name := Strip(rows[r].companyName);
      var symbol := Strip(rows[r].nseSymbol);
      var link := Strip(rows[r].screenerLink);
      var slug := DeriveSlug(symbol, link);
      if slug.None? || slug.value == "" {
        assert ri.None?;
        continue;
      }
      var info := StockInfo(slug.value, name, symbol);
      assert ri == Some(RowIndexing(info, KeysOfTerms(SearchTerms(name, symbol))));
      mapping := StoreTerms(mapping, SearchTerms(name, symbol), info);
    }
    assert rows[..|rows|] == rows;
    KeysInFirstWriteOrder(Indexings(rows));
  }

  /** The inner loop of _load_stock_mapping: each non-empty term is stored, followed by its
      suffix-stripped forms. */
  method StoreTerms(mapping0: Index, terms: seq<string>, info: StockInfo) returns (mapping: Index)
    ensures mapping == PutAll(mapping0, KeysOfTerms(terms), info)
  {
    mapping := mapping0;
    for t := 0 to |terms|
      invariant mapping == PutAll(mapping0, KeysOfTerms(terms[..t]), info)
    {
      assert terms[..t + 1][..t] == terms[..t];
      ghost var written := KeysOfTerms(terms[..t]);
      mapping := StoreTerm(mapping, terms[t], info);
      PutAllConcat(mapping0, written, TermKeys(terms[t]), info);
    }
    assert terms[..|terms|] == terms;
  }

  /** One pass of that loop: the term, then its stripped forms when it has the suffixes. */
  method StoreTerm(mapping0: Index, term: string, info: StockInfo) returns (mapping: Index)
    ensures mapping == PutAll(mapping0, TermKeys(term), info)
  {
    mapping := mapping0;
    ghost var keys: seq<string> := [];
    if term != "" {
      mapping := Put(mapping, term, info);
      PutAllSnoc(mapping0, keys, term, info);
      keys := keys + [term];
      if HasLtd(term) {
        var stripped := LtdStripped(term);
        mapping := Put(mapping, stripped, info);
        PutAllSnoc(mapping0, keys, stripped, info);
        keys := keys + [stripped];
      }
      if HasLimited(term) {
        var stripped := LimitedStripped(term);
        mapping := Put(mapping, stripped, info);
        PutAllSnoc(mapping0, keys, stripped, info);
        keys := keys + [stripped];
      }
    }
    assert keys == TermKeys(term);
  }

  lemma {:induction false} IndexingsAt(rows: seq<Row>, i: nat)
    requires i < |rows|
    ensures Indexings(rows)[i] == IndexRow(rows[i])
  {
    if i < |rows| - 1 {
      IndexingsAt(rows[..|rows| - 1], i);
    }
  }

  /** Every key maps to the record of the last contribution that writes it. */
  lemma {:induction false} LastWriterWins(ris: seq<Option<RowIndexing>>, i: nat, k: string)
    requires i < |ris| && Stores(ris[i], k)
    requires forall j :: i < j < |ris| ==> !Stores(ris[j], k)
    ensures Get(Assemble(ris), k) == Some(ris[i].value.info)
  {
    var init := ris[..|ris| - 1];
    var last := ris[|ris| - 1];
    if last.Some? {
      PutAllGet(Assemble(init), last.value.keys, last.value.info, k);
    }
    if i < |ris| - 1 {
      LastWriterWins(init, i, k);
    }
  }

  /** A key nothing writes is not in the index. */
  lemma {:induction false} UnwrittenKeyAbsent(ris: seq<Option<RowIndexing>>, k: string)
    requires forall j :: 0 <= j < |ris| ==> !Stores(ris[j], k)
    ensures k !in Keys(Assemble(ris))
  {
    if ris != [] {
      var init := ris[..|ris| - 1];
      UnwrittenKeyAbsent(init, k);
      var last := ris[|ris| - 1];
      if last.Some? {
        PutAllKeys(Assemble(init), last.value.keys, last.value.info);
        PutAllGet(Assemble(init), last.value.keys, last.value.info, k);
      }
    }
  }

  /** The iteration order of the index is the order in which keys were first written:
      rewriting a key later changes its record but not its position. */
  lemma {:induction false} KeysInFirstWriteOrder(ris: seq<Option<RowIndexing>>)
    ensures Keys(Assemble(ris)) == AppendNew([], WrittenKeys(ris))
    ensures Valid(Assemble(ris))
  {
    if ris != [] {
      var init := ris[..|ris| - 1];
      KeysInFirstWriteOrder(init);
      var before := Assemble(init);
      match ris[|ris| - 1]
      case None =>
        assert Assemble(ris) == before;
        assert WrittenKeys(ris) == WrittenKeys(init) + [];
        assert WrittenKeys(init) + [] == WrittenKeys(init);
      case Some(ri) =>
        assert Assemble(ris) == PutAll(before, ri.keys, ri.info);
        assert WrittenKeys(ris) == WrittenKeys(init) + ri.keys;
        PutAllKeys(before, ri.keys, ri.info);
        AppendNewConcat([], WrittenKeys(init), ri.keys);
    }
  }

  /** In the index built from the table, a search term maps to the record of the last row
      storing it, a term no row stores is absent, and keys keep their first-write order. */
  lemma IndexOfRows(rows: seq<Row>, k: string)
    ensures forall i :: 0 <= i < |rows| && Stores(IndexRow(rows[i]), k)
                        && (forall j :: i < j < |rows| ==> !Stores(IndexRow(rows[j]), k))
                        ==> Get(BuildIndex(rows), k) == Some(IndexRow(rows[i]).value.info)
    ensures (forall j :: 0 <= j < |rows| ==> !Stores(IndexRow(rows[j]), k))
            ==> k !in Keys(BuildIndex(rows))
    ensures Keys(BuildIndex(rows)) == AppendNew([], WrittenKeys(Indexings(rows)))
  {
    var ris := Indexings(rows);
    forall i | 0 <= i < |rows| { IndexingsAt(rows, i); }
    forall i | 0 <= i < |rows| && Stores(IndexRow(rows[i]), k)
                 && (forall j :: i < j < |rows| ==> !Stores(IndexRow(rows[j]), k))
      ensures Get(BuildIndex(rows), k) == Some(IndexRow(rows[i]).value.info)
    {
      LastWriterWins(ris, i, k);
    }
    if forall j :: 0 <= j < |rows| ==> !Stores(IndexRow(rows[j]), k) {
      UnwrittenKeyAbsent(ris, k);
    }
    KeysInFirstWriteOrder(ris);
  }

  /** The keys a row stores, in writing order: those of its lower-cased name, of its
      lower-cased symbol and of the lower-cased first word of its name. */
  lemma RowKeysFollowSearchTerms(row: Row)
    requires IndexRow(row).Some?
    ensures var name := Strip(row.companyName);
            var symbol := Strip(row.nseSymbol);
            IndexRow(row).value.keys
            == TermKeys(Lower(name)) + TermKeys(Lower(symbol))
               + TermKeys(if name != "" then Lower(FirstWord(name)) else "")
  {
    var name := Strip(row.companyName);
    var symbol := Strip(row.nseSymbol);
    assert IndexRow(row).value.keys == KeysOfTerms(SearchTerms(name, symbol));
    KeysOfThreeTerms(SearchTerms(name, symbol));
  }

  lemma KeysOfThreeTerms(terms: seq<string>)
    requires |terms| == 3
    ensures KeysOfTerms(terms) == TermKeys(terms[0]) + TermKeys(terms[1]) + TermKeys(terms[2])
  {
    assert terms[..2] == [terms[0], terms[1]];
    assert terms[..2][..1] == [terms[0]];
    assert KeysOfTerms([terms[0]]) == TermKeys(terms[0]) by {
      assert [terms[0]][..0] == [];
    }
  }

  /** The query as search_stock normalises it: lower-cased, then stripped. */
  function Normalize(query: string): string
  {
    Strip(Lower(query))
  }

  /** The five containment checks of the fallback scan, for one entry of the index. */
  predicate Matches(q: string, term: string, info: StockInfo)
  {
    || Contains(term, q)
    || Contains(q, term)
    || Contains(Lower(info.name), q)
    || Contains(Lower(info.symbol), q)
    || Contains(q, Lower(info.symbol))
  }

  /** Position of the first entry, in iteration order, that passes the checks. */
  function FirstMatch(index: Index, q: string): (r: Option<nat>)
    ensures r.None? <==> forall i :: 0 <= i < |index| ==> !Matches(q, index[i].0, index[i].1)
    ensures r.Some? ==> r.value < |index| && Matches(q, index[r.value].0, index[r.value].1)
                        && forall j :: 0 <= j < r.value ==> !Matches(q, index[j].0, index[j].1)
  {
    if index == [] then None
    else if Matches(q, index[0].0, index[0].1) then Some(0)
    else match FirstMatch(index[1..], q)
         case None => None
         case Some(p) => Some(p + 1)
  }

  /** search_stock: an exact key hit on the normalised query wins; otherwise the first
      entry in iteration order that passes any containment check; otherwise None. */
  function SearchStock(index: Index, query: string): (r: Option<StockInfo>)
    ensures Normalize(query) in Keys(index) ==>
              r.Some? && r == Get(index, Normalize(query)) && (Normalize(query), r.value) in index
    ensures Normalize(query) !in Keys(index) ==>
              (r.None? <==> forall i :: 0 <= i < |index| ==> !Matches(Normalize(query), index[i].0, index[i].1))
    ensures Normalize(query) !in Keys(index) && r.Some? ==>
              exists i :: 0 <= i < |index| && r.value == index[i].1
                          && Matches(Normalize(query), index[i].0, index[i].1)
                          && forall j :: 0 <= j < i ==> !Matches(Normalize(query), index[j].0, index[j].1)
  {
    var q := Normalize(query);
    if q in Keys(index) then
      GetIsEntry(index, q);
      Get(index, q)
    else
      match FirstMatch(index, q)
      case None => None
      case Some(p) => Some(index[p].1)
  }

  lemma {:induction false} GetIsEntry(index: Index, k: string)
    requires k in Keys(index)
    ensures Get(index, k).Some? && (k, Get(index, k).value) in index
  {
    if index[0].0 != k {
      GetIsEntry(index[1..], k);
    }
  }

  /** A query that normalises to a key some row stores resolves to the last such row. */
  lemma QueryOfStoredTermFindsLastRow(rows: seq<Row>, i: nat, query: string)
    requires i < |rows| && Stores(IndexRow(rows[i]), Normalize(query))
    requires forall j :: i < j < |rows| ==> !Stores(IndexRow(rows[j]), Normalize(query))
    ensures SearchStock(BuildIndex(rows), query) == Some(IndexRow(rows[i]).value.info)
  {
    forall j | 0 <= j < |rows| { IndexingsAt(rows, j); }
    LastWriterWins(Indexings(rows), i, Normalize(query));
    KeysInFirstWriteOrder(Indexings(rows));
    GetIsEntry(BuildIndex(rows), Normalize(query));
  }

  /** A blank query matches every term by containment, so without an exact hit it picks
      the first entry of the index. */
  lemma BlankQueryPicksFirstEntry(index: Index, query: string)
    requires index != [] && Normalize(query) == "" && "" !in Keys(index)
    ensures SearchStock(index, query) == Some(index[0].1)
  {
    assert StartsWith(index[0].0, "");
  }
}
