/** The schema.org `Product` structured data embedded in the page. */
module JsonLd {
  import opened Wrappers
  import opened Js
  import opened Catalog

  const Context: string := "https://schema.org"
  const ProductType: string := "Product"

  datatype Availability = InStock | OutOfStock

  /** One offer for the selected variant, or an aggregate over the product's price range. */
  datatype Offers =
    | Offer(availability: Availability, priceCurrency: Option<string>, price: Option<real>)
    | AggregateOffer(availability: Availability, priceCurrency: Option<string>, lowPrice: Option<real>, highPrice: Option<real>)

  datatype ProductJsonLd = ProductJsonLd(
    context: string, kind: string, image: Option<string>, name: string, description: string, offers: Offers)

  /** The schema.org URL written for an availability; only InStock is written as the in-stock URL. */
  function AvailabilityUrl(a: Availability): (url: string)
    ensures url == "https://schema.org/InStock" <==> a == InStock
    ensures a == OutOfStock ==> url == "https://schema.org/OutOfStock"
  {
    match a
    case InStock => "https://schema.org/InStock"
    case OutOfStock => "https://schema.org/OutOfStock"
  }

  /** The `@type` written for an offer. */
  function OfferType(o: Offers): string {
    match o
    case Offer(_, _, _) => "Offer"
    case AggregateOffer(_, _, _, _) => "AggregateOffer"
  }

  function StockOf(inStock: bool): Availability {
    if inStock then InStock else OutOfStock
  }

  function AmountOf(m: Option<Money>): Option<real> {
    match m case Some(v) => Some(v.amount) case None => None
  }

  function CurrencyOf(m: Option<Money>): Option<string> {
    match m case Some(v) => Some(v.currency) case None => None
  }

  /** `productJsonLd` for a product and the `variant` query parameter. */
  function ProductJsonLdOf(p: Product, query: Option<string>): (r: ProductJsonLd)
    ensures r.context == Context && r.kind == ProductType
    ensures r.image == (if p.thumbnail.Some? then Some(p.thumbnail.value.url) else None)
    ensures r.offers.Offer? <==> HasSelection(p, query)
    ensures OfferType(r.offers) == (if HasSelection(p, query) then "Offer" else "AggregateOffer")
    ensures forall i :: SelectedAt(p, query, i) ==>
              var v := p.variants.value[i];
              && r.name == p.name + " - " + v.name
              && r.description == OptOrElse(p.seoDescription, p.name + " - " + v.name)
              && (r.offers.availability == InStock <==> TruthyNumber(v.quantityAvailable))
              && AvailabilityUrl(r.offers.availability) ==
                   (if TruthyNumber(v.quantityAvailable) then "https://schema.org/InStock" else "https://schema.org/OutOfStock")
              && r.offers.priceCurrency == CurrencyOf(v.gross)
              && r.offers.price == AmountOf(v.gross)
    ensures !HasSelection(p, query) ==>
              && r.name == p.name
              && r.description == OptOrElse(p.seoDescription, p.name)
              && (r.offers.availability == InStock <==> SomeInStock(p))
              && AvailabilityUrl(r.offers.availability) ==
                   (if SomeInStock(p) then "https://schema.org/InStock" else "https://schema.org/OutOfStock")
              && r.offers.priceCurrency == CurrencyOf(RangeStart(p))
              && r.offers.lowPrice == AmountOf(RangeStart(p))
              && r.offers.highPrice == AmountOf(RangeStop(p))
  {
    var image := match p.thumbnail case Some(t) => Some(t.url) case None => None;
    match SelectVariant(p, query)
    case Some(v) =>
      var name := p.name + " - " + v.name;
      ProductJsonLd(Context, ProductType, image, name, OptOrElse(p.seoDescription, name),
        Offer(StockOf(TruthyNumber(v.quantityAvailable)), CurrencyOf(v.gross), AmountOf(v.gross)))
    case None =>
      ProductJsonLd(Context, ProductType, image, p.name, OptOrElse(p.seoDescription, p.name),
        AggregateOffer(StockOf(IsAvailable(p)), CurrencyOf(RangeStart(p)), AmountOf(RangeStart(p)), AmountOf(RangeStop(p))))
  }

  /** Structured data claims stock only when the page's availability message does too. */
  lemma InStockImpliesAvailable(p: Product, query: Option<string>)
    requires ProductJsonLdOf(p, query).offers.availability == InStock
    ensures IsAvailable(p)
  {
  }
}
