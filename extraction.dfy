/** `extract_product_details`: one listed item node becomes one seven-field
    record, each field falling back to its own sentinel on its own. */
module Extraction {
  import opened Wrappers
  import opened Text
  import opened Numbers

  /** The class names looked up inside an item node. */
  const NameSelector := "name"
  const CurrentPriceSelector := "prc"
  const InitialPriceSelector := "old"
  const DiscountSelector := "bdg._dsct._sm"
  const ReviewsSelector := "rev "
  const StarsSelector := "stars._s"

  const CurrencySymbol := "GH₵"
  const ThousandsSeparator := ","

  /** The first `a` element of an item; `href` is None when it has no such attribute. */
  datatype Anchor = Anchor(href: Option<string>)

  /** A rendered item node: the text of the first element matching each selector
      that matches one, and the item's first link, if any. */
  datatype ItemNode = ItemNode(texts: map<string, string>, anchor: Option<Anchor>)

  /** One scraped listing. A price is None where the source stores NaN; `url` is
      None where the source stores the None that `get_attribute` gives for a link
      without `href`, and Some("") where the item has no link at all. */
  datatype Product = Product(
    name: string,
    currentPrice: Option<real>,
    initialPrice: Option<real>,
    discount: string,
    reviews: string,
    stars: string,
    url: Option<string>)

  /** The text under `selector`, or "" when nothing matches it. */
  function TextOr(node: ItemNode, selector: string): string {
    if selector in node.texts then node.texts[selector] else ""
  }

  /** Price text with every currency symbol and then every thousands separator
      removed: the characters left are those of the text, in their order. */
  function StripPrice(text: string): (r: string)
    ensures forall i :: 0 <= i < |r| ==> r[i] != ','
    ensures IsSubsequence(r, text)
    ensures multiset(r) <= multiset(text)
    ensures forall c :: c !in CurrencySymbol && c != ',' ==> multiset(r)[c] == multiset(text)[c]
  {
    var unmarked := RemoveAll(text, CurrencySymbol);
    var r := RemoveAll(unmarked, ThousandsSeparator);
    RemoveAllSubsequence(text, CurrencySymbol);
    RemoveAllSubsequence(unmarked, ThousandsSeparator);
    SubsequenceTransitive(r, unmarked, text);
    r
  }

  predicate HasDigit(s: string) {
    exists i :: 0 <= i < |s| && IsDigit(s[i])
  }

  /** A digit left after stripping was a digit of the price text. */
  lemma StripKeepsDigits(text: string)
    ensures HasDigit(StripPrice(text)) ==> HasDigit(text)
  {
    var r := StripPrice(text);
    if HasDigit(r) {
      var i :| 0 <= i < |r| && IsDigit(r[i]);
      assert r[i] in multiset(text);
    }
  }

  /** The price under `selector`: None when nothing matches or when the stripped
      text is not a number. */
  function PriceOf(node: ItemNode, selector: string): (price: Option<real>)
    ensures selector !in node.texts ==> price.None?
    ensures price.Some? ==> selector in node.texts && HasDigit(node.texts[selector])
  {
    if selector in node.texts then
      var text := node.texts[selector];
      StripKeepsDigits(text);
      ParseDecimal(StripPrice(text))
    else
      None
  }

  /** The item's link target: "" without a link, the `href` attribute otherwise. */
  function LinkOf(node: ItemNode): (link: Option<string>)
    ensures node.anchor.None? ==> link == Some("")
    ensures node.anchor.Some? ==> link == node.anchor.value.href
  {
    match node.anchor
    case None => Some("")
    case Some(a) => a.href
  }

  /** `extract_product_details(product)`: total, it never fails. A price is
      present only when its element is there and holds a digit; the URL is
      missing only when the item's link has no `href`. */
  function ExtractProductDetails(node: ItemNode): (p: Product)
    ensures p.currentPrice.Some? ==> CurrentPriceSelector in node.texts && HasDigit(node.texts[CurrentPriceSelector])
    ensures p.initialPrice.Some? ==> InitialPriceSelector in node.texts && HasDigit(node.texts[InitialPriceSelector])
    ensures p.url.None? <==> node.anchor.Some? && node.anchor.value.href.None?
  {
    Product(
      TextOr(node, NameSelector),
      PriceOf(node, CurrentPriceSelector),
      PriceOf(node, InitialPriceSelector),
      TextOr(node, DiscountSelector),
      TextOr(node, ReviewsSelector),
      TextOr(node, StarsSelector),
      LinkOf(node))
  }

  /** The seven fields of a record. */
  datatype Field = Name | CurrentPrice | InitialPrice | Discount | Reviews | Stars | Url

  /** The node with the element behind `f` absent. */
  function Without(node: ItemNode, f: Field): ItemNode {
    match f
    case Name => node.(texts := node.texts - {NameSelector})
    case CurrentPrice => node.(texts := node.texts - {CurrentPriceSelector})
    case InitialPrice => node.(texts := node.texts - {InitialPriceSelector})
    case Discount => node.(texts := node.texts - {DiscountSelector})
    case Reviews => node.(texts := node.texts - {ReviewsSelector})
    case Stars => node.(texts := node.texts - {StarsSelector})
    case Url => node.(anchor := None)
  }

  /** The record with field `f` set to its sentinel. */
  function WithSentinel(p: Product, f: Field): Product {
    match f
    case Name => p.(name := "")
    case CurrentPrice => p.(currentPrice := None)
    case InitialPrice => p.(initialPrice := None)
    case Discount => p.(discount := "")
    case Reviews => p.(reviews := "")
    case Stars => p.(stars := "")
    case Url => p.(url := Some(""))
  }

  /** Field isolation: removing the element behind one field from a node sets
      that field, and only that field, to its sentinel. */
  lemma FieldIsolation(node: ItemNode, f: Field)
    ensures ExtractProductDetails(Without(node, f)) == WithSentinel(ExtractProductDetails(node), f)
  {
    var n := Without(node, f);
    if f != CurrentPrice {
      KeptElement(node, f, CurrentPriceSelector);
      PriceAgrees(n, node, CurrentPriceSelector);
    }
    if f != InitialPrice {
      KeptElement(node, f, InitialPriceSelector);
      PriceAgrees(n, node, InitialPriceSelector);
    }
  }

  /** The selector behind field `f`; "" for the link, which has none. */
  function SelectorOf(f: Field): string {
    match f
    case Name => NameSelector
    case CurrentPrice => CurrentPriceSelector
    case InitialPrice => InitialPriceSelector
    case Discount => DiscountSelector
    case Reviews => ReviewsSelector
    case Stars => StarsSelector
    case Url => ""
  }

  /** Removing the element behind `f` keeps the element of every other price selector. */
  lemma KeptElement(node: ItemNode, f: Field, selector: string)
    requires selector == CurrentPriceSelector || selector == InitialPriceSelector
    requires selector != SelectorOf(f)
    ensures selector in Without(node, f).texts <==> selector in node.texts
    ensures selector in node.texts ==> Without(node, f).texts[selector] == node.texts[selector]
  {
  }

  /** Nodes holding the same text, or none, under `selector` give the same price. */
  lemma PriceAgrees(n1: ItemNode, n2: ItemNode, selector: string)
    requires selector in n1.texts <==> selector in n2.texts
    requires selector in n1.texts ==> n1.texts[selector] == n2.texts[selector]
    ensures PriceOf(n1, selector) == PriceOf(n2, selector)
  {
  }

  /** Field isolation for any set of missing elements: removing several leaves
      every other field as it was. */
  lemma {:induction false} FieldsIsolation(node: ItemNode, missing: seq<Field>)
    ensures ExtractProductDetails(WithoutAll(node, missing))
         == WithSentinels(ExtractProductDetails(node), missing)
  {
    if missing != [] {
      FieldsIsolation(node, missing[..|missing| - 1]);
      FieldIsolation(WithoutAll(node, missing[..|missing| - 1]), missing[|missing| - 1]);
    }
  }

  function WithoutAll(node: ItemNode, fs: seq<Field>): ItemNode {
    if fs == [] then node else Without(WithoutAll(node, fs[..|fs| - 1]), fs[|fs| - 1])
  }

  function WithSentinels(p: Product, fs: seq<Field>): Product {
    if fs == [] then p else WithSentinel(WithSentinels(p, fs[..|fs| - 1]), fs[|fs| - 1])
  }

  /** The record depends on the six selectors and the link only. */
  lemma ExtractionReadsOnlyItsSelectors(n1: ItemNode, n2: ItemNode)
    requires forall sel :: sel in {NameSelector, CurrentPriceSelector, InitialPriceSelector,
                                   DiscountSelector, ReviewsSelector, StarsSelector} ==>
               (sel in n1.texts <==> sel in n2.texts) &&
               (sel in n1.texts ==> n1.texts[sel] == n2.texts[sel])
    requires n1.anchor == n2.anchor
    ensures ExtractProductDetails(n1) == ExtractProductDetails(n2)
  {
  }

  /** Price text holding no digit after stripping, such as a "GH₵ --"
      placeholder, yields the null price. */
  lemma UnparsablePrice(node: ItemNode, selector: string)
    requires selector in node.texts
    requires forall i :: 0 <= i < |node.texts[selector]| ==> !IsDigit(node.texts[selector][i])
    ensures PriceOf(node, selector) == None
  {
    assert !HasDigit(node.texts[selector]);
  }

  /** A price written as the currency symbol, a space and a whole number with no
      separators parses to that number. */
  lemma {:induction false} PlainPrice(n: nat)
    ensures ParseDecimal(StripPrice(CurrencySymbol + " " + Decimal(n))) == Some(n as real)
  {
    var digits := Decimal(n);
    assert StripPrice(CurrencySymbol + " " + digits) == " " + digits by {
      StripPriceValue(CurrencySymbol + " " + digits);
      PlainStrip(digits);
    }
    LeadingSpace(' ', digits);
    ParseDecimalOfDecimal(n);
  }

  /** A price written with a thousands separator and decimals, "GH₵ a,b.f",
      parses to the number the digits of `a` and `b` denote plus the fraction `f`. */
  lemma SeparatedPrice(a: string, b: string, f: string)
    requires |a| > 0 && AllDigits(a) && AllDigits(b) && AllDigits(f)
    ensures var r := ParseDecimal(StripPrice(CurrencySymbol + (" " + (a + ("," + (b + ("." + f)))))));
      r.Some? && r.value == DigitsValue(a + b) as real + FractionValue(f)
  {
    var text := CurrencySymbol + (" " + (a + ("," + (b + ("." + f)))));
    var m := (a + b) + ("." + f);
    assert StripPrice(text) == " " + m by {
      StripPriceValue(text);
      SeparatorThenPoint(a, b, f);
    }
    LeadingSpace(' ', m);
    DigitsConcat(a, b);
    ParseDecimalWithFraction(a + b, f);
  }

  /** What stripping leaves, by the two removals. */
  lemma StripPriceValue(text: string)
    ensures StripPrice(text) == RemoveAll(RemoveAll(text, CurrencySymbol), ThousandsSeparator)
  {
  }

  /** Removing the currency symbol and then the separator from "GH₵ a,b.f" leaves " ab.f". */
  lemma SeparatorThenPoint(a: string, b: string, f: string)
    requires AllDigits(a) && AllDigits(b) && AllDigits(f)
    ensures RemoveAll(RemoveAll(CurrencySymbol + (" " + (a + ("," + (b + ("." + f))))), CurrencySymbol), ThousandsSeparator)
         == " " + ((a + b) + ("." + f))
  {
    var tail := b + ("." + f);
    var x := " " + a;
    var rest := x + ("," + tail);
    ConcatAssoc(" ", a, "," + tail);
    RemoveAllLeading(CurrencySymbol, rest);
    HeadAvoids(a, 'G');
    TailAvoids(b, f, 'G');
    AvoidsConcat(",", tail, 'G');
    AvoidsConcat(x, "," + tail, 'G');
    RemoveAllAbsent(rest, CurrencySymbol);
    HeadAvoids(a, ',');
    TailAvoids(b, f, ',');
    RemoveSingleOccurrence(x, ',', tail);
    ConcatAssoc(" ", a, tail);
    ConcatAssoc(a, b, "." + f);
  }

  /** A space and digits hold no other character. */
  lemma HeadAvoids(a: string, c: char)
    requires AllDigits(a) && !IsDigit(c) && c != ' '
    ensures Avoids(" " + a, c)
  {
    assert forall i :: 1 <= i < |" " + a| ==> (" " + a)[i] == a[i - 1];
  }

  /** Digits, a point and digits hold no other character. */
  lemma TailAvoids(b: string, f: string, c: char)
    requires AllDigits(b) && AllDigits(f) && !IsDigit(c) && c != '.'
    ensures Avoids(b + ("." + f), c)
  {
    assert Avoids(f, c);
    AvoidsConcat(".", f, c);
    assert Avoids(b, c);
    AvoidsConcat(b, "." + f, c);
  }

  /** "GH₵ 1,234.56" is the price 1234.56. */
  lemma ThousandsPrice()
    ensures ParseDecimal(StripPrice("GH₵ 1,234.56")) == Some(1234.56)
  {
    ThousandsText();
    ThousandsDigits();
    SeparatedPrice("1", "234", "56");
  }

  lemma ThousandsDigits()
    ensures AllDigits("1") && AllDigits("234") && AllDigits("56")
    ensures DigitsValue("1" + "234") == 1234
    ensures FractionValue("56") == 0.56
  {
    assert "1" + "234" == "1234";
    assert "1234"[..3] == "123" && "123"[..2] == "12" && "12"[..1] == "1" && "1"[..0] == "";
    assert "56"[..1] == "5" && "5"[..0] == "";
    assert Pow10(2) == 100;
  }

  lemma ThousandsText()
    ensures "GH₵ 1,234.56" == CurrencySymbol + (" " + ("1" + ("," + ("234" + ("." + "56")))))
  {
  }

  /** Removing the currency symbol and the separator from "GH₵ d" leaves " d". */
  lemma PlainStrip(digits: string)
    requires AllDigits(digits)
    ensures RemoveAll(RemoveAll(CurrencySymbol + " " + digits, CurrencySymbol), ThousandsSeparator) == " " + digits
  {
    ConcatAssoc(CurrencySymbol, " ", digits);
    RemoveAllLeading(CurrencySymbol, " " + digits);
    HeadAvoids(digits, 'G');
    RemoveAllAbsent(" " + digits, CurrencySymbol);
    HeadAvoids(digits, ',');
    RemoveAllAbsent(" " + digits, ThousandsSeparator);
  }

  /** A node with a name and a current price but no initial price, discount,
      reviews, stars or link yields the record with those fields at their sentinels. */
  lemma NameAndPriceOnly(name: string, n: nat)
    ensures var node := ItemNode(map[NameSelector := name, CurrentPriceSelector := CurrencySymbol + " " + Decimal(n)], None);
      ExtractProductDetails(node) == Product(name, Some(n as real), None, "", "", "", Some(""))
  {
    PlainPrice(n);
  }
}
