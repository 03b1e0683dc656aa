# Jumia product scraper — a verified Dafny model

The scraper builds Jumia Ghana listing URLs from a base path, two shipping
toggles and a page number. It loads them one page after another and turns
every rendered product tile into a seven-field record: name, current price,
initial price, discount, reviews, stars and URL. It then sorts the records by
current price, with missing prices last, and hands them to a CSV writer and two
charts.

There are three modes:

- **Black Friday** walks pages 1, 2, … until a page times out.
- **Search** does the same walk over the catalog search for a query. It also
  stops after the first page that shows no "Next Page" link.
- **Flash sale** loads page 1 only. A timeout there ends the run before
  anything is sorted or written.

A run that collects no record writes nothing either: the sort by the
`Current_price` column fails on a table built from no records (see
"## Findings").

The model has seven modules:

- `Wrappers`: `Option`.
- `Text`: character replacement and substring removal as Python's
  `str.replace` does them, and the trimming of the ASCII whitespace that
  `float()` ignores around a number.
- `Numbers`: rendering a page number and parsing decimal text, as `float` does.
- `Urls`: `create_url`, the search path and the CSV file names.
- `Extraction`: `extract_product_details` over an abstract item node.
- `Ranking`: the sort by current price.
- `Pagination`: the three drivers, as methods over an abstract page fetcher.

The browser is a parameter: `fetch: nat -> PageResult`. It gives, for each page
number, either a timeout or the page's item nodes together with whether the page
shows a "Next Page" link.

An item node maps class selectors to the text of the first element that
matches them, and holds the item's first link, if it has one. Each driver
returns two things: the URLs it requested, in order, and what it exports:
None when nothing reaches the CSV writer, otherwise the records in sorted order
and the CSV file name.

A driver loop does not end on its own when pages never time out. The
`ghost stop` parameter is a page at which the mode stops, and it is what makes
termination provable. `EndlessCatalog` shows a fetcher for which no such page
exists.

## Model

| member | source | states |
|---|---|---|
| Urls.CreateUrl | main.py:106-112 | The URL starts with the base URL, the path, `?page=` and the page number. Its length is that prefix's plus the length of each marker whose toggle is set. |
| Urls.CreateUrlShape | main.py:106-112 | A URL is the base URL, the path, `?page=` and the page number, followed by exactly the markers whose toggles are set. Each marker is present if and only if its toggle is set. When both are set, the express marker comes first. |
| Urls.MarkersPresence | main.py:108-111 | Each query marker occurs in the appended tail exactly when its toggle is on. |
| Urls.LocalNotInExpress | main.py:109-111 | The local-shipping marker does not occur inside the express marker, so the express toggle alone never makes the local marker appear. |
| Urls.CreateUrlPageInjective | main.py:107 | URLs with the same path and toggles but different page numbers are different. |
| Urls.SearchPath | main.py:160 | The search path is `/catalog/?q=` followed by the query, position by position: a space becomes '+' and every other character is kept. No space follows the prefix. |
| Urls.SearchUrlHasTwoQuestionMarks | main.py:160 | Because the search path already holds `?q=`, a search URL carries a second '?' right after the query, in front of `page=`. |
| Urls.SearchCsvName | main.py:192 | The search CSV name is the query, position by position with each space turned into '_' and every other character kept, followed by `_sorted_products.csv`. It contains no space. |
| Numbers.Decimal | main.py:107 | The page number is rendered as a non-empty string of digits with no leading zero, except for 0 itself. |
| Numbers.DecimalValue | main.py:107 | The rendered digits denote the page number. |
| Numbers.DecimalInjective | main.py:107 | Different page numbers render differently. |
| Numbers.ParseDecimal | main.py:69 | `float` on price text gives a value only when the text holds a digit. |
| Numbers.ParseDecimalOfDecimal | main.py:69 | A rendered whole number parses back to itself. |
| Numbers.NegativeDecimal | main.py:69 | A leading minus sign negates the parsed value. |
| Numbers.LeadingSpace | main.py:69 | A whitespace character in front of the number is ignored. |
| Numbers.UnsignedDigits | main.py:69 | Plain digits parse to the number they denote. |
| Numbers.ParseDigits | main.py:69 | Digit text without a sign or surrounding whitespace parses, through `float`, to the number it denotes. |
| Numbers.FractionValue | main.py:69 | The digits after a decimal point denote a value in [0, 1) which, multiplied by 10 to the number of digits, gives the number the digits denote: "56" is 56/100. |
| Numbers.ParseWithFraction | main.py:69 | Digits, a point and digits, with at least one digit in all, read as an unsigned decimal give the whole part plus the fraction. |
| Numbers.ParseDecimalWithFraction | main.py:69 | The same text through `float` gives the same value: "1234.56" is 1234 + 56/100. |
| Text.ReplaceChar | main.py:160 | Replacing a character keeps the length and changes exactly the positions holding that character. |
| Text.RemoveAll | main.py:69 | Removing every occurrence of a substring only deletes characters and keeps the others in their order: the result is a subsequence of the input. It keeps the count of every character outside the pattern. A one-character pattern leaves no occurrence behind. |
| Text.RemoveAllSubsequence | main.py:69 | What removal leaves is the input with some characters deleted and the rest in their original order. |
| Text.RemoveSingleOccurrence | main.py:69 | Text holding one thousands separator loses exactly it: the text before it followed by the text after it. |
| Text.RemoveAllAbsent | main.py:69 | Text whose characters never start the pattern is left unchanged. |
| Text.RemoveAllLeading | main.py:69 | A leading occurrence of the pattern is dropped. |
| Text.TrimStart | main.py:69 | `float` drops leading whitespace: the result is a suffix of the input. Everything dropped is whitespace, and the result does not start with whitespace. |
| Text.TrimEnd | main.py:69 | `float` drops trailing whitespace in the same way. |
| Text.Trim | main.py:69 | Trimming removes only whitespace at the two ends: the result is a contiguous piece of the input with nothing but whitespace before and after it, and it neither starts nor ends with whitespace. |
| Text.TrimUntrimmed | main.py:69 | Text without whitespace at either end is unchanged by trimming. |
| Extraction.StripPrice | main.py:68-69 | Price text with every "GH₵" and then every "," removed holds no ','. It is a subsequence of the text: characters are only deleted, and those kept stay in order. |
| Extraction.StripKeepsDigits | main.py:68-69 | A digit left after stripping was a digit of the price text. |
| Extraction.PriceOf | main.py:67-77 | A missing price element gives a missing price. A price is present only when its element exists and its text holds a digit. |
| Extraction.LinkOf | main.py:97-101 | An item without a link gives "". An item with one gives its `href` attribute, which is missing when the link has none. |
| Extraction.ExtractProductDetails | main.py:60-103 | Each price is present only when its element exists and holds a digit. The URL is missing exactly when the item's link has no `href`. |
| Extraction.FieldIsolation | main.py:60-103 | Removing the element behind one field sets that field, and only that field, to its fallback: "", a missing price, or "" for the URL. |
| Extraction.FieldsIsolation | main.py:60-103 | The same holds for any set of missing elements at once. |
| Extraction.ExtractionReadsOnlyItsSelectors | main.py:60-103 | The record depends only on the six class selectors and the item's link. |
| Extraction.UnparsablePrice | main.py:67-71 | Price text that contains no digit gives a missing price. |
| Extraction.PlainPrice | main.py:67-71 | `GH₵ n` parses to n. |
| Extraction.SeparatedPrice | main.py:67-71 | `GH₵ a,b.f` parses to the number the digits of a and b denote together plus the fraction f. |
| Extraction.ThousandsPrice | main.py:67-71 | `GH₵ 1,234.56` parses to 1234.56. |
| Extraction.NameAndPriceOnly | main.py:60-103 | A node with only a name and a current price gives the record with every other field at its fallback. |
| Ranking.SortedByPriceMeans | main.py:142 | The pairwise price order is the same as "missing prices last" together with "present prices ascending". |
| Ranking.Insert | main.py:142 | Insertion adds exactly one record to the multiset. |
| Ranking.InsertSorted | main.py:142 | Insertion keeps a sorted sequence sorted. |
| Ranking.SortByCurrentPrice | main.py:142 | The sorted records are a permutation of the input, with missing prices last and present prices ascending. |
| Ranking.RankingPricesUnique | main.py:142 | Any two sorted permutations of the same records have the same price column. Only the order among equal prices can differ. |
| Ranking.SortedPricesUnique | main.py:142 | Two sorted sequences holding the same records have the same price column. |
| Ranking.RankThree | main.py:142 | Records priced 50, missing and 30 sort as 30, 50, missing. |
| Pagination.CsvName | main.py:146-225 | Each mode's CSV file name ends in `_sorted_products.csv`. |
| Pagination.Proceeds | main.py:120-184 | A mode goes on past a page only when the page showed items. Black Friday goes on after every such page. The flash sale never goes on. |
| Pagination.Requests | main.py:119-138 | The URLs of pages 1 to n, one per page, no two alike. |
| Pagination.PagesDistinct | main.py:106-112 | Different pages of the same path and toggles have different URLs. |
| Pagination.ExtractAll | main.py:133-136 | One record per item node. |
| Pagination.ExtractAllPointwise | main.py:133-136 | The record at each position is extracted from the node at that position. |
| Pagination.AppendProducts | main.py:133-136 | The records so far, followed by one record per node, in node order. |
| Pagination.VisitPage | main.py:120-138 | One turn of the page loop. It requests the URL of the next page number, appending it to the log of pages 1, 2, … requested so far. It appends that page's records, or none on a timeout. It reports the loop done exactly when the mode stops at that page. |
| Pagination.WalkPages | main.py:159-184 | The loop shared by both walks. It requests the URLs of pages 1 to n of the path, in that order, and stops at n, the first page at which the mode stops. It collects the records of exactly those pages, in page order. |
| Pagination.SortedExport | main.py:141-146 | The run's records sorted by current price under the given file name; an empty run gives an empty export. |
| Pagination.FinishRun | main.py:141-142 | Nothing is exported exactly when no record was collected. Otherwise the export is a sorted permutation of the records under the given file name. |
| Pagination.ScrapeBlackFridayProducts | main.py:114-151 | Requests pages 1, 2, … of `/mlp-black-friday/` and stops at the first timeout. Nothing is exported exactly when those pages gave no record. Otherwise it exports a sorted permutation of every record of the pages before the timeout, as `black_friday_sorted_products.csv`. |
| Pagination.SearchProducts | main.py:154-197 | Requests pages 1, 2, … of the search path. It stops at a timeout, or after the first page without a "Next Page" link, whose records are still kept. Nothing is exported exactly when no record was collected. Otherwise it exports a sorted permutation of the records under the query's CSV name. |
| Pagination.ScrapeFlashSales | main.py:200-232 | Requests page 1 of `/flash-sales/` once. Nothing is exported exactly when that page times out or holds no item. Otherwise it exports a sorted permutation of that page's records as `flash_sales_sorted_products.csv`. |
| Pagination.FirstStopUnique | main.py:120-129 | The page a walk stops at is unique. |
| Pagination.CollectedPrefix | main.py:134-136 | Records are appended and never reordered: the records of the first p pages are a prefix of those of any later page count. |
| Pagination.CollectedEndsWithPage | main.py:133-136 | The records of the last page visited close the collection. |
| Pagination.CollectedEmpty | main.py:133-142 | Nothing is collected exactly when every page visited gave no record. |
| Pagination.TimeoutOnFirstPage | main.py:123-142 | A timeout on page 1 stops every mode there with no records, so the run exports nothing, where a sort that accepted an empty table would export an empty file. |
| Pagination.EndlessCatalog | main.py:120-138 | If every page shows items and a "Next Page" link, neither walk stops at any page. |
| Pagination.SearchTwoPages | main.py:172-182 | A search whose first page has a "Next Page" link and whose second has none stops after page 2, with the records of both pages in order. |
| Pagination.StopsAtTwo | main.py:120-129 | A mode that goes on after page 1 and not after page 2 stops at page 2. |
| Pagination.OnePageCollected | main.py:123-136 | A walk that times out on page 2 has collected exactly the records of page 1. |
| Pagination.BlackFridayRanksThreeItems | main.py:60-142 | A Black Friday walk whose first page holds the items `GH₵ 50`, one without elements and `GH₵ 30`, and whose second page times out, stops at page 2. Any sort of its records prices them 30, 50, missing. |
| Pagination.ThreeRecords | main.py:133-136 | The records of three item nodes are theirs, in their order. |
| Pagination.PricedNodePrice | main.py:67-71 | An item whose only element is the current price `GH₵ n` is priced n. |
| Pagination.EmptyNodeUnpriced | main.py:67-71 | An item without elements has no current price. |
| Ranking.RotatedRanking | main.py:142 | Records priced 50, missing and 30, reordered as the third, the first and then the second, are a sorted permutation of them. |

## Left out

- WebDriver selection and set-up (main.py:20-57), `driver.quit`, the waits and the random delays: browser I/O. The fetcher parameter stands for the browser, and the only thing it yields is a page's items or a timeout.
- The fetcher is keyed by page number, not by URL. Every driver requests the URL of the page it fetches, and the `requested` out-parameter records that URL.
- A loading page, a driver error or any other exception besides a timeout and the failed sort of an empty run is not modelled. The search's catch-all handler (main.py:196-197) and the flash sale's (main.py:229-230) are modelled only for those two.
- How an empty run ends: the Black Friday error escapes the function through `try`/`finally` (main.py:150-151), while the search and the flash sale log it. The model has None for all three.
- The browser's wait succeeds only once an item is present, so a real page never gives `Items` with no node. The fetcher may, and the drivers treat it as the code would.
- The "Next Page" lookup: `find_element` returns an element or raises, so `if not next_page` never fires. The model has one boolean, whether the link is present.
- `pandas` DataFrame construction, `print`, `to_csv`, logging and `visualize_data`: output. The model stops at the sorted records and the file name.
- The console menu `main_panel` (main.py:256-273): console input. Its menu choices map to the driver methods' parameters.
- Numbers.ParseDecimal: weaker than Python's `float`, because it accepts only plain decimal text. It refuses exponents, `inf`, `nan`, underscores between digits, non-ASCII whitespace and non-ASCII decimal digits (such as the full-width `"１２"`), which `float` accepts. A price in plain decimal form parses to the same value it has under `float`.
- Prices are exact reals, not IEEE doubles. NaN is modelled as a missing price, so a `nan` text that `float` would accept is a missing price either way.
- Pagination.ScrapeBlackFridayProducts and Pagination.SearchProducts: proved for fetchers under which the walk stops at some page (`stop`). The source has no page cap and loops forever otherwise, as `EndlessCatalog` shows.
- Ranking.SortByCurrentPrice: the order of equal prices is not claimed. The source's sort is not promised to be stable, and the lemmas show that the price column of the result does not depend on it.
- The text of a node is taken as given. How Selenium computes `.text` and how it matches a class selector with a space in it (`"rev "`, `"bdg._dsct._sm"`) is not part of this model.
- A link without an `href` gives Python's `None` in the source, not `""`. `Product.url` is `None` there and `Some("")` when the item has no link at all.

## Findings

| source | as written | input that shows it | evidently intended | confidence | as-written member | corrected member |
|---|---|---|---|---|---|---|
| main.py:141-142 | `sort_values(by="Current_price")` on a table built from no records, which has no `Current_price` column, raises, so an empty run writes no CSV and draws no chart (the same at main.py:187-188 and 220-221) | a fetcher whose page 1 times out | every run, an empty one included, hands its sorted records, possibly none, to the CSV writer and the charts | not executed; inferred from how the sort looks up its column | Pagination.FinishRun, with Pagination.TimeoutOnFirstPage | Pagination.SortedExport |
