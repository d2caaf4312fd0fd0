/**
 * The `Page` view-model: displayed price, availability, the add-to-cart
 * button's disabled flag and the media handed to the gallery, derived from
 * an already-fetched product and the `variant` query parameter.
 */
module ProductPage {
  import opened Wrappers
  import opened Js
  import opened Catalog
  import JsonLd
  import Gallery

  /** Which formatter the price line is produced by, and with what input. */
  datatype PriceSource =
    | VariantPrice(money: Money)
    | RangePrice(start: Option<Money>, stop: Option<Money>)
    | NoPrice

  /** The selected variant's gross price if it has one, else the range when something is in stock, else nothing. */
  function PriceSourceOf(p: Product, query: Option<string>): (r: PriceSource)
    ensures r.VariantPrice? <==> exists i :: SelectedAt(p, query, i) && p.variants.value[i].gross.Some?
    ensures forall i :: SelectedAt(p, query, i) && p.variants.value[i].gross.Some? ==>
              r == VariantPrice(p.variants.value[i].gross.value)
    ensures r.RangePrice? ==> SomeInStock(p) && r == RangePrice(RangeStart(p), RangeStop(p))
    ensures !r.VariantPrice? && SomeInStock(p) ==> r.RangePrice?
    ensures r.NoPrice? <==> !r.VariantPrice? && !SomeInStock(p)
  {
    var selected := SelectVariant(p, query);
    if selected.Some? && selected.value.gross.Some? then VariantPrice(selected.value.gross.value)
    else if IsAvailable(p) then RangePrice(RangeStart(p), RangeStop(p))
    else NoPrice
  }

  /** The price line, given the `formatMoney` and `formatMoneyRange` helpers, whose definitions are not part of this model. */
  function PriceText(src: PriceSource, formatMoney: (real, string) -> string,
                     formatMoneyRange: (Option<Money>, Option<Money>) -> string): (r: string)
    ensures src.VariantPrice? ==> r == formatMoney(src.money.amount, src.money.currency)
    ensures src.RangePrice? ==> r == formatMoneyRange(src.start, src.stop)
    ensures src.NoPrice? ==> r == ""
  {
    match src
    case VariantPrice(m) => formatMoney(m.amount, m.currency)
    case RangePrice(start, stop) => formatMoneyRange(start, stop)
    case NoPrice => ""
  }

  /** `!selectedVariantID || !selectedVariant?.quantityAvailable`. */
  function AddButtonDisabled(p: Product, query: Option<string>): (r: bool)
    ensures !r <==> TruthyOptString(query) &&
                    exists i :: SelectedAt(p, query, i) && TruthyNumber(p.variants.value[i].quantityAvailable)
  {
    var selected := SelectVariant(p, query);
    !TruthyOptString(query) || !(selected.Some? && TruthyNumber(selected.value.quantityAvailable))
  }

  datatype PageView = PageView(
    heading: string,
    price: string,
    showVariantSelector: bool,
    selected: Option<Variant>,
    isAvailable: bool,
    addDisabled: bool,
    media: seq<Gallery.Image>,
    jsonLd: JsonLd.ProductJsonLd)

  /** Everything `Page` derives from the fetched product, or `NotFound` when there is none. */
  function Page(fetched: Option<Product>, query: Option<string>, formatMoney: (real, string) -> string,
                formatMoneyRange: (Option<Money>, Option<Money>) -> string): (r: Result<PageView, PageError>)
    ensures fetched.None? <==> r == Failure(NotFound)
    ensures r.Success? ==>
              var p := fetched.value;
              && r.value.heading == p.name
              && r.value.showVariantSelector == p.variants.Some?
              && (r.value.isAvailable <==> SomeInStock(p))
              && (forall i :: SelectedAt(p, query, i) && p.variants.value[i].gross.Some? ==>
                    var m := p.variants.value[i].gross.value; r.value.price == formatMoney(m.amount, m.currency))
              && ((!exists i :: SelectedAt(p, query, i) && p.variants.value[i].gross.Some?) ==>
                    r.value.price == if SomeInStock(p) then formatMoneyRange(RangeStart(p), RangeStop(p)) else "")
              && r.value.addDisabled == AddButtonDisabled(p, query)
              && r.value.jsonLd == JsonLd.ProductJsonLdOf(p, query)
              && (forall i :: SelectedAt(p, query, i) ==> r.value.selected == Some(p.variants.value[i]))
              && (!HasSelection(p, query) ==> r.value.selected == None)
              && (p.media.Some? ==> r.value.media == p.media.value)
              && (p.media.None? ==> r.value.media == [])
  {
    match fetched
    case None => Failure(NotFound)
    case Some(p) =>
      Success(PageView(
        p.name,
        PriceText(PriceSourceOf(p, query), formatMoney, formatMoneyRange),
        p.variants.Some?,
        SelectVariant(p, query),
        IsAvailable(p),
        AddButtonDisabled(p, query),
        GalleryMedia(p),
        JsonLd.ProductJsonLdOf(p, query)))
  }

  /** A variant without a gross price falls through: the range is shown when something is in stock, otherwise nothing. */
  lemma UnpricedSelectionFallsThrough(p: Product, query: Option<string>, i: int,
                                      formatMoney: (real, string) -> string,
                                      formatMoneyRange: (Option<Money>, Option<Money>) -> string)
    requires SelectedAt(p, query, i) && p.variants.value[i].gross.None?
    ensures PriceText(PriceSourceOf(p, query), formatMoney, formatMoneyRange) ==
              if IsAvailable(p) then formatMoneyRange(RangeStart(p), RangeStop(p)) else ""
  {
  }

  /** An id that matches no variant disables the button, shows no variant price and yields an aggregate offer. */
  lemma UnmatchedQuery(p: Product, id: string)
    requires p.variants.None? || forall i :: 0 <= i < |p.variants.value| ==> p.variants.value[i].id != id
    ensures AddButtonDisabled(p, Some(id))
    ensures !PriceSourceOf(p, Some(id)).VariantPrice?
    ensures JsonLd.ProductJsonLdOf(p, Some(id)).offers.AggregateOffer?
  {
  }

  /** An enabled button means the structured data offers that variant in stock and the page reports availability. */
  lemma EnabledButtonAgreesWithStock(p: Product, query: Option<string>)
    requires !AddButtonDisabled(p, query)
    ensures IsAvailable(p)
    ensures JsonLd.ProductJsonLdOf(p, query).offers.Offer?
    ensures JsonLd.ProductJsonLdOf(p, query).offers.availability == JsonLd.InStock
  {
  }

  /** The structured-data price of the selected variant is the amount the price line formats. */
  lemma OfferPriceMatchesPriceLine(p: Product, query: Option<string>)
    requires PriceSourceOf(p, query).VariantPrice?
    ensures JsonLd.ProductJsonLdOf(p, query).offers.Offer?
    ensures JsonLd.ProductJsonLdOf(p, query).offers.price == Some(PriceSourceOf(p, query).money.amount)
    ensures JsonLd.ProductJsonLdOf(p, query).offers.priceCurrency == Some(PriceSourceOf(p, query).money.currency)
  {
  }

  /** Without a query the aggregate offer's stock status is the page's availability flag. */
  lemma NoQueryAggregateAvailability(p: Product)
    ensures JsonLd.ProductJsonLdOf(p, None).offers.AggregateOffer?
    ensures JsonLd.ProductJsonLdOf(p, None).offers.availability == JsonLd.StockOf(IsAvailable(p))
    ensures PriceSourceOf(p, None) == if IsAvailable(p) then RangePrice(RangeStart(p), RangeStop(p)) else NoPrice
  {
  }
}
