/** The three scraping drivers: fetch a page, extract its items, append them,
    decide whether to go on; then sort the records and name the CSV file. */
module Pagination {
  import opened Wrappers
  import opened Urls
  import opened Extraction
  import opened Ranking

  /** What the browser yields for one URL: a timeout while waiting for item nodes,
      or the item nodes and whether the page shows a "Next Page" link. */
  datatype PageResult = Timeout | Items(nodes: seq<ItemNode>, hasNextLink: bool)

  datatype Mode = BlackFriday | Search(query: string) | FlashSale

  /** The CSV file each mode writes its sorted records to; every name ends in
      `_sorted_products.csv`. */
  function CsvName(mode: Mode): (name: string)
    ensures |SortedCsvSuffix| <= |name| && name[|name| - |SortedCsvSuffix|..] == SortedCsvSuffix
  {
    match mode
    case BlackFriday => "black_friday" + SortedCsvSuffix
    case Search(query) => SearchCsvName(query)
    case FlashSale => "flash_sales" + SortedCsvSuffix
  }

  /** Whether a mode goes on to the next page after this one: the catalog walk
      until a timeout, the search also only while a "Next Page" link is shown,
      the flash sale never. */
  predicate Proceeds(mode: Mode, result: PageResult): (goesOn: bool)
    ensures goesOn ==> result.Items?
    ensures mode.FlashSale? ==> !goesOn
    ensures mode.BlackFriday? && result.Items? ==> goesOn
  {
    match mode
    case BlackFriday => result.Items?
    case Search(_) => result.Items? && result.hasNextLink
    case FlashSale => false
  }

  /** The records of the items of one page, in page order. */
  function ExtractAll(nodes: seq<ItemNode>): (records: seq<Product>)
    ensures |records| == |nodes|
  {
    seq(|nodes|, i requires 0 <= i < |nodes| => ExtractProductDetails(nodes[i]))
  }

  /** One record per item node, each extracted from the node at its position. */
  lemma ExtractAllPointwise(nodes: seq<ItemNode>)
    ensures forall i :: 0 <= i < |nodes| ==> ExtractAll(nodes)[i] == ExtractProductDetails(nodes[i])
  {
  }

  function PageRecords(result: PageResult): seq<Product> {
    if result.Items? then ExtractAll(result.nodes) else []
  }

  /** The records of pages 1 to `k`, page after page, each in position order. */
  function Collected(fetch: nat -> PageResult, k: nat): seq<Product> {
    if k == 0 then []
    else Collected(fetch, k - 1)
         + PageRecords(fetch(k))
  }

  predicate StopsAt(fetch: nat -> PageResult, mode: Mode, n: nat) {
    n >= 1 && !Proceeds(mode, fetch(n))
  }

  /** Page `n` is where the mode stops: it goes on at every page before it. */
  predicate FirstStop(fetch: nat -> PageResult, mode: Mode, n: nat) {
    && StopsAt(fetch, mode, n)
    && forall p :: 1 <= p < n ==> Proceeds(mode, fetch(p))
  }

  /** The URLs of pages 1 to `n` of `basePath`, in that order; no URL is
      requested twice. */
  function Requests(basePath: string, express: bool, shippedFromLocal: bool, n: nat): (urls: seq<string>)
    ensures |urls| == n
    ensures forall i, j :: 0 <= i < j < n ==> urls[i] != urls[j]
  {
    PagesDistinct(basePath, express, shippedFromLocal);
    seq(n, i requires 0 <= i < n => CreateUrl(basePath, express, shippedFromLocal, i + 1))
  }

  /** Different pages of the same path and toggles have different URLs. */
  lemma PagesDistinct(basePath: string, express: bool, shippedFromLocal: bool)
    ensures forall p: nat, q: nat :: p != q ==>
      CreateUrl(basePath, express, shippedFromLocal, p) != CreateUrl(basePath, express, shippedFromLocal, q)
  {
    forall p: nat, q: nat | CreateUrl(basePath, express, shippedFromLocal, p) == CreateUrl(basePath, express, shippedFromLocal, q)
      ensures p == q
    {
      CreateUrlPageInjective(basePath, express, shippedFromLocal, p, q);
    }
  }

  /** One more page adds its URL at the end. */
  lemma RequestsStep(basePath: string, express: bool, shippedFromLocal: bool, n: nat)
    ensures Requests(basePath, express, shippedFromLocal, n + 1)
         == Requests(basePath, express, shippedFromLocal, n) + [CreateUrl(basePath, express, shippedFromLocal, n + 1)]
  {
  }

  /** What a finished run hands to the CSV writer and the charts. */
  datatype Export = Export(records: seq<Product>, csvName: string)

  /** The end of a run if the sort accepted a table with no records: the
      records sorted by current price under the mode's file name, an empty
      run included. */
  function SortedExport(all: seq<Product>, csvName: string): (e: Export)
    ensures IsRanking(e.records, all)
    ensures e.csvName == csvName
    ensures all == [] ==> e.records == []
  {
    Export(SortByCurrentPrice(all), csvName)
  }

  /** The end of a run as `sort_values(by="Current_price")` has it: a frame
      built from no records has no such column, the sort raises, and nothing
      reaches the CSV writer or the charts. */
  function FinishRun(all: seq<Product>, csvName: string): (e: Option<Export>)
    ensures e.None? <==> all == []
    ensures e.Some? ==> IsRanking(e.value.records, all) && e.value.csvName == csvName
  {
    if all == [] then None else Some(SortedExport(all, csvName))
  }

  /** The inner loop of every driver: one record per item node, appended in node order. */
  method AppendProducts(all: seq<Product>, nodes: seq<ItemNode>) returns (extended: seq<Product>)
    ensures extended == all + ExtractAll(nodes)
  {
    extended := all;
    for i := 0 to |nodes|
      invariant extended == all + ExtractAll(nodes[..i])
    {
      assert nodes[..i + 1][..i] == nodes[..i];
      extended := extended + [ExtractProductDetails(nodes[i])];
    }
    assert nodes[..|nodes|] == nodes;
  }

  /** One turn of the page loop: request and fetch page `page` of `basePath`,
      and append its records unless it timed out. `done` says whether the mode
      stops at this page. */
  method VisitPage(fetch: nat -> PageResult, mode: Mode, basePath: string, express: bool, shippedFromLocal: bool,
                   page: nat, all: seq<Product>, requested: seq<string>)
    returns (all': seq<Product>, requested': seq<string>, done: bool)
    requires 1 <= page
    requires requested == Requests(basePath, express, shippedFromLocal, page - 1)
    requires all == Collected(fetch, page - 1)
    ensures requested' == Requests(basePath, express, shippedFromLocal, page)
    ensures all' == Collected(fetch, page)
    ensures done == !Proceeds(mode, fetch(page))
  {
    var url := CreateUrl(basePath, express, shippedFromLocal, page);
    RequestsStep(basePath, express, shippedFromLocal, page - 1);
    requested' := requested + [url];
    var result := fetch(page);
    if result.Timeout? {
      return all, requested', true;
    }
    assert PageRecords(result) == ExtractAll(result.nodes);
    all' := AppendProducts(all, result.nodes);
    done := !Proceeds(mode, result);
  }

  /** The page loop shared by the catalog walk and the search: pages 1, 2, ...
      until the first page at which the mode stops.
      It terminates when some page makes the mode stop, which `stop` witnesses. */
  method WalkPages(fetch: nat -> PageResult, mode: Mode, basePath: string, express: bool, shippedFromLocal: bool, ghost stop: nat)
    returns (all: seq<Product>, requested: seq<string>)
    requires StopsAt(fetch, mode, stop)
    ensures 1 <= |requested| <= stop
    ensures FirstStop(fetch, mode, |requested|)
    ensures requested == Requests(basePath, express, shippedFromLocal, |requested|)
    ensures all == Collected(fetch, |requested|)
  {
    all := [];
    var page: nat := 1;
    requested := [];
    while true
      invariant 1 <= page <= stop
      invariant requested == Requests(basePath, express, shippedFromLocal, page - 1)
      invariant forall p :: 1 <= p < page ==> Proceeds(mode, fetch(p))
      invariant all == Collected(fetch, page - 1)
      decreases stop - page
    {
      var done;
      all, requested, done := VisitPage(fetch, mode, basePath, express, shippedFromLocal, page, all, requested);
      if done {
        break;
      }
      page := page + 1;
    }
  }

  /** `scrape_black_friday_products`: pages 1, 2, ... of the Black Friday
      listing until the first timeout, then the records sorted by current price.
      It terminates when some page times out, which `stop` witnesses. */
  method ScrapeBlackFridayProducts(fetch: nat -> PageResult, express: bool, shippedFromLocal: bool, ghost stop: nat)
    returns (exported: Option<Export>, requested: seq<string>)
    requires StopsAt(fetch, BlackFriday, stop)
    ensures 1 <= |requested| <= stop
    ensures FirstStop(fetch, BlackFriday, |requested|)
    ensures requested == Requests(BlackFridayPath, express, shippedFromLocal, |requested|)
    ensures exported.None? <==> Collected(fetch, |requested|) == []
    ensures exported.Some? ==> IsRanking(exported.value.records, Collected(fetch, |requested|))
    ensures exported.Some? ==> exported.value.csvName == CsvName(BlackFriday)
  {
    var all;
    all, requested := WalkPages(fetch, BlackFriday, BlackFridayPath, express, shippedFromLocal, stop);
    exported := FinishRun(all, CsvName(BlackFriday));
  }

  /** `search_products`: pages 1, 2, ... of the catalog search for `query`,
      stopping at a timeout or after the first page without a "Next Page" link,
      then the records sorted by current price.
      It terminates when some page makes it stop, which `stop` witnesses. */
  method SearchProducts(fetch: nat -> PageResult, query: string, express: bool, shippedFromLocal: bool, ghost stop: nat)
    returns (exported: Option<Export>, requested: seq<string>)
    requires StopsAt(fetch, Search(query), stop)
    ensures 1 <= |requested| <= stop
    ensures FirstStop(fetch, Search(query), |requested|)
    ensures requested == Requests(SearchPath(query), express, shippedFromLocal, |requested|)
    ensures exported.None? <==> Collected(fetch, |requested|) == []
    ensures exported.Some? ==> IsRanking(exported.value.records, Collected(fetch, |requested|))
    ensures exported.Some? ==> exported.value.csvName == CsvName(Search(query))
  {
    var all;
    all, requested := WalkPages(fetch, Search(query), SearchPath(query), express, shippedFromLocal, stop);
    exported := FinishRun(all, CsvName(Search(query)));
  }

  /** `scrape_flash_sales`: exactly one fetch, of page 1. A timeout there ends
      the run before anything is sorted, and a page without items ends it at
      the sort; either way nothing is exported (None). */
  method ScrapeFlashSales(fetch: nat -> PageResult, express: bool, shippedFromLocal: bool)
    returns (exported: Option<Export>, requested: seq<string>)
    ensures requested == Requests(FlashSalesPath, express, shippedFromLocal, 1)
    ensures exported.None? <==> fetch(1).Timeout? || fetch(1).nodes == []
    ensures exported.Some? ==> IsRanking(exported.value.records, ExtractAll(fetch(1).nodes))
    ensures exported.Some? ==> exported.value.csvName == CsvName(FlashSale)
  {
    var url := CreateUrl(FlashSalesPath, express, shippedFromLocal, 1);
    requested := [url];
    var result := fetch(1);
    if result.Timeout? {
      return None, requested;
    }
    var all := AppendProducts([], result.nodes);
    exported := FinishRun(all, CsvName(FlashSale));
  }

  /** The page a mode stops at is unique. */
  lemma FirstStopUnique(fetch: nat -> PageResult, mode: Mode, m: nat, n: nat)
    requires FirstStop(fetch, mode, m)
    requires FirstStop(fetch, mode, n)
    ensures m == n
  {
  }

  /** Records are kept in page order: those of the first `p` pages are a prefix
      of those of the first `k`. */
  lemma {:induction false} CollectedPrefix(fetch: nat -> PageResult, p: nat, k: nat)
    requires p <= k
    ensures Collected(fetch, p) <= Collected(fetch, k)
    decreases k
  {
    if p < k {
      CollectedPrefix(fetch, p, k - 1);
    }
  }

  /** A fetcher that times out at once makes every mode stop at page 1 with no
      records, so the run exports nothing, where a sort that accepted an empty
      table would export an empty file. */
  lemma TimeoutOnFirstPage(fetch: nat -> PageResult, mode: Mode, csvName: string)
    requires fetch(1).Timeout?
    ensures FirstStop(fetch, mode, 1)
    ensures Collected(fetch, 1) == []
    ensures FinishRun(Collected(fetch, 1), csvName) == None
    ensures SortedExport(Collected(fetch, 1), csvName) == Export([], csvName)
  {
  }

  /** The records of the last page visited close the collection. */
  lemma CollectedEndsWithPage(fetch: nat -> PageResult, k: nat)
    requires k > 0
    ensures var last := PageRecords(fetch(k));
      |last| <= |Collected(fetch, k)| && Collected(fetch, k)[|Collected(fetch, k)| - |last|..] == last
  {
    var before, last := Collected(fetch, k - 1), PageRecords(fetch(k));
    assert Collected(fetch, k) == before + last;
    assert (before + last)[|before|..] == last;
  }

  /** Nothing is collected exactly when every page visited yielded no record. */
  lemma {:induction false} CollectedEmpty(fetch: nat -> PageResult, k: nat)
    ensures Collected(fetch, k) == [] <==> forall p :: 1 <= p <= k ==> PageRecords(fetch(p)) == []
    decreases k
  {
    if k > 0 {
      CollectedEmpty(fetch, k - 1);
      assert Collected(fetch, k) == Collected(fetch, k - 1) + PageRecords(fetch(k));
    }
  }

  /** On a site where every page shows items and a "Next Page" link, neither the
      catalog walk nor the search stops at any page: no page cap ends them. */
  lemma EndlessCatalog(fetch: nat -> PageResult, mode: Mode, n: nat)
    requires mode.BlackFriday? || mode.Search?
    requires forall p :: fetch(p).Items? && fetch(p).hasNextLink
    ensures !StopsAt(fetch, mode, n)
  {
  }

  /** A search whose first page has two items and a "Next Page" link and whose
      second page has two items and none stops after two pages with four records. */
  lemma SearchTwoPages(fetch: nat -> PageResult, query: string, a: ItemNode, b: ItemNode, c: ItemNode, d: ItemNode)
    requires fetch(1) == Items([a, b], true)
    requires fetch(2) == Items([c, d], false)
    ensures FirstStop(fetch, Search(query), 2)
    ensures Collected(fetch, 2)
         == [ExtractProductDetails(a), ExtractProductDetails(b), ExtractProductDetails(c), ExtractProductDetails(d)]
  {
    StopsAtTwo(fetch, Search(query));
    var first, second := ExtractAll([a, b]), ExtractAll([c, d]);
    assert Collected(fetch, 2) == first + second;
    ExtractAllPointwise([a, b]);
    ExtractAllPointwise([c, d]);
    assert first == [ExtractProductDetails(a), ExtractProductDetails(b)];
    assert second == [ExtractProductDetails(c), ExtractProductDetails(d)];
  }

  /** A mode that goes on after page 1 and not after page 2 stops at page 2. */
  lemma StopsAtTwo(fetch: nat -> PageResult, mode: Mode)
    requires Proceeds(mode, fetch(1)) && !Proceeds(mode, fetch(2))
    ensures FirstStop(fetch, mode, 2)
  {
    forall p | 1 <= p < 2 ensures Proceeds(mode, fetch(p)) {
      assert p == 1;
    }
  }

  /** A walk that times out on page 2 collects the records of page 1. */
  lemma OnePageCollected(fetch: nat -> PageResult)
    requires fetch(1).Items? && fetch(2).Timeout?
    ensures Collected(fetch, 2) == ExtractAll(fetch(1).nodes)
  {
    var page1 := ExtractAll(fetch(1).nodes);
    assert Collected(fetch, 1) == [] + page1 == page1;
    assert Collected(fetch, 2) == page1 + [];
  }

  /** The catalog whose first page holds the items `GH₵ 50`, one without
      elements and `GH₵ 30`, and whose later pages time out. */
  function ThreeItemCatalog(hasNext: bool): nat -> PageResult {
    p => if p == 1 then Items([PricedNode(50), ItemNode(map[], None), PricedNode(30)], hasNext) else Timeout
  }

  /** A catalog walk over `ThreeItemCatalog` stops at page 2, and any ranking of
      its records prices them 30, 50, unpriced. */
  lemma BlackFridayRanksThreeItems(hasNext: bool)
    ensures FirstStop(ThreeItemCatalog(hasNext), BlackFriday, 2)
    ensures forall r :: IsRanking(r, Collected(ThreeItemCatalog(hasNext), 2)) ==> Prices(r) == [Some(30.0), Some(50.0), None]
  {
    var fetch := ThreeItemCatalog(hasNext);
    StopsAtTwo(fetch, BlackFriday);
    ThreeRecords(PricedNode(50), ItemNode(map[], None), PricedNode(30));
    PricedNodePrice(50);
    PricedNodePrice(30);
    EmptyNodeUnpriced();
    OnePageCollected(fetch);
    forall r | IsRanking(r, Collected(fetch, 2)) ensures Prices(r) == [Some(30.0), Some(50.0), None] {
      RankThree(r, Collected(fetch, 2));
    }
  }

  /** The records of three item nodes are theirs, in their order. */
  lemma ThreeRecords(a: ItemNode, b: ItemNode, c: ItemNode)
    ensures var recs := ExtractAll([a, b, c]);
      recs == [ExtractProductDetails(a), ExtractProductDetails(b), ExtractProductDetails(c)]
  {
    ExtractAllPointwise([a, b, c]);
  }

  /** An item whose only element is a current price written as `GH₵ n`. */
  function PricedNode(n: nat): (node: ItemNode)
    ensures node.anchor.None? && node.texts.Keys == {CurrentPriceSelector}
  {
    ItemNode(map[CurrentPriceSelector := CurrencySymbol + " " + Numbers.Decimal(n)], None)
  }

  lemma EmptyNodeUnpriced()
    ensures ExtractProductDetails(ItemNode(map[], None)).currentPrice == None
  {
  }

  lemma PricedNodePrice(n: nat)
    ensures ExtractProductDetails(PricedNode(n)).currentPrice == Some(n as real)
  {
    PlainPrice(n);
  }
}
