/** `create_url` and the two path and file-name transforms of the search mode. */
module Urls {
  import opened Text
  import opened Numbers

  const BaseUrl := "https://www.jumia.com.gh"
  const PageQuery := "?page="
  /** Appended when only express-shipped listings are wanted. */
  const ExpressMarker := "&shop_premium_services=shop_express"
  /** Appended when only listings shipped from within the country are wanted. */
  const LocalMarker := "&shipped_from=country_local"

  const BlackFridayPath := "/mlp-black-friday/"
  const FlashSalesPath := "/flash-sales/"
  const CatalogSearchPath := "/catalog/?q="
  const SortedCsvSuffix := "_sorted_products.csv"

  /** The part of every URL built for `basePath` and `page` that precedes the markers. */
  function PagePrefix(basePath: string, page: nat): string {
    BaseUrl + basePath + PageQuery + Decimal(page)
  }

  /** `create_url(base_path, express, shipped_from_local, page)`. */
  function CreateUrl(basePath: string, express: bool, shippedFromLocal: bool, page: nat): (url: string)
    ensures PagePrefix(basePath, page) <= url
    ensures |url| == |PagePrefix(basePath, page)| + (if express then |ExpressMarker| else 0) + (if shippedFromLocal then |LocalMarker| else 0)
  {
    var url := PagePrefix(basePath, page);
    var url := if express then url + ExpressMarker else url;
    if shippedFromLocal then url + LocalMarker else url
  }

  /** Every URL starts with the base URL, the path and `?page=` with the page
      number; after that come exactly the markers whose toggles are set, the
      express marker first. */
  lemma CreateUrlShape(basePath: string, express: bool, shippedFromLocal: bool, page: nat)
    ensures var url := CreateUrl(basePath, express, shippedFromLocal, page);
      var prefix := PagePrefix(basePath, page);
      && |prefix| <= |url| && url[..|prefix|] == prefix
      && |url| == |prefix| + (if express then |ExpressMarker| else 0) + (if shippedFromLocal then |LocalMarker| else 0)
      && (Occurs(ExpressMarker, url[|prefix|..]) <==> express)
      && (Occurs(LocalMarker, url[|prefix|..]) <==> shippedFromLocal)
      && (express && shippedFromLocal ==> url[|prefix|..] == ExpressMarker + LocalMarker)
  {
    var url := CreateUrl(basePath, express, shippedFromLocal, page);
    var prefix := PagePrefix(basePath, page);
    assert url == prefix + Markers(express, shippedFromLocal);
    assert url[|prefix|..] == Markers(express, shippedFromLocal);
    MarkersPresence(express, shippedFromLocal);
  }

  /** The query markers as `create_url` appends them. */
  function Markers(express: bool, shippedFromLocal: bool): string {
    (if express then ExpressMarker else "") + (if shippedFromLocal then LocalMarker else "")
  }

  /** Each marker is present exactly when its toggle is set. */
  lemma MarkersPresence(express: bool, shippedFromLocal: bool)
    ensures Occurs(ExpressMarker, Markers(express, shippedFromLocal)) <==> express
    ensures Occurs(LocalMarker, Markers(express, shippedFromLocal)) <==> shippedFromLocal
  {
    var m := Markers(express, shippedFromLocal);
    if express {
      assert OccursAt(ExpressMarker, m, 0);
    }
    if shippedFromLocal {
      assert OccursAt(LocalMarker, m, if express then |ExpressMarker| else 0);
    }
    if !express {
      assert !Occurs(ExpressMarker, m);
    }
    if !shippedFromLocal && express {
      assert m == ExpressMarker;
      LocalNotInExpress();
    }
  }

  /** The local marker is not a part of the express marker. */
  lemma LocalNotInExpress()
    ensures !Occurs(LocalMarker, ExpressMarker)
  {
    forall i: nat | i <= |ExpressMarker|
      ensures !OccursAt(LocalMarker, ExpressMarker, i)
    {
      if i + |LocalMarker| <= |ExpressMarker| {
        var window := ExpressMarker[i..i + |LocalMarker|];
        if i == 0 {
          assert window[3] == 'o' != LocalMarker[3];
        } else {
          assert window[0] == ExpressMarker[i] != '&';
        }
      }
    }
  }

  /** Two URLs built with the same path and toggles differ when their pages differ. */
  lemma CreateUrlPageInjective(basePath: string, express: bool, shippedFromLocal: bool, p: nat, q: nat)
    requires CreateUrl(basePath, express, shippedFromLocal, p) == CreateUrl(basePath, express, shippedFromLocal, q)
    ensures p == q
  {
    var u := CreateUrl(basePath, express, shippedFromLocal, p);
    CreateUrlShape(basePath, express, shippedFromLocal, p);
    CreateUrlShape(basePath, express, shippedFromLocal, q);
    var head := BaseUrl + basePath + PageQuery;
    var pp, pq := PagePrefix(basePath, p), PagePrefix(basePath, q);
    assert |pp| == |pq|;
    assert pp == u[..|pp|] == pq;
    assert Decimal(p) == pp[|head|..];
    assert Decimal(q) == pq[|head|..];
    DecimalInjective(p, q);
  }

  /** The search path: the query with every space turned into '+', after `/catalog/?q=`. */
  function SearchPath(query: string): (path: string)
    ensures |path| == |CatalogSearchPath| + |query|
    ensures path[..|CatalogSearchPath|] == CatalogSearchPath
    ensures forall i :: |CatalogSearchPath| <= i < |path| ==> path[i] != ' '
    ensures forall i :: 0 <= i < |query| ==> path[|CatalogSearchPath| + i] == (if query[i] == ' ' then '+' else query[i])
  {
    CatalogSearchPath + ReplaceChar(query, ' ', '+')
  }

  /** Because the search path already holds `?q=`, a search URL carries a second
      '?' right after the query, in front of `page=`. */
  lemma SearchUrlHasTwoQuestionMarks(query: string, express: bool, shippedFromLocal: bool, page: nat)
    ensures var url := CreateUrl(SearchPath(query), express, shippedFromLocal, page);
      var first := |BaseUrl| + |"/catalog/"|;
      var second := |BaseUrl| + |CatalogSearchPath| + |query|;
      && second + |PageQuery| <= |url|
      && url[first] == '?' && url[second] == '?'
      && url[second..second + |PageQuery|] == PageQuery
  {
    var url := CreateUrl(SearchPath(query), express, shippedFromLocal, page);
    var path := SearchPath(query);
    var prefix := PagePrefix(path, page);
    var head := BaseUrl + path;
    var second := |head|;
    ConcatAssoc(head, PageQuery, Decimal(page));
    assert prefix == head + (PageQuery + Decimal(page));
    assert url[|BaseUrl| + |"/catalog/"|] == '?' by {
      assert path[|"/catalog/"|] == CatalogSearchPath[|"/catalog/"|] == '?';
      assert prefix[|BaseUrl| + |"/catalog/"|] == head[|BaseUrl| + |"/catalog/"|] == path[|"/catalog/"|];
    }
    assert url[second..second + |PageQuery|] == PageQuery by {
      assert prefix[second..second + |PageQuery|] == PageQuery;
    }
  }

  /** The CSV file the search mode writes: the query with spaces turned into '_'. */
  function SearchCsvName(query: string): (name: string)
    ensures |name| == |query| + |SortedCsvSuffix|
    ensures name[|query|..] == SortedCsvSuffix
    ensures forall i :: 0 <= i < |name| ==> name[i] != ' '
    ensures forall i :: 0 <= i < |query| ==> name[i] == (if query[i] == ' ' then '_' else query[i])
  {
    var stem := ReplaceChar(query, ' ', '_');
    assert forall i :: 0 <= i < |SortedCsvSuffix| ==> SortedCsvSuffix[i] != ' ';
    var name := stem + SortedCsvSuffix;
    assert name[|query|..] == SortedCsvSuffix;
    name
  }
}
