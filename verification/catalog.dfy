/**
 * The product data the page receives from the commerce API, already fetched,
 * and the two derivations every other part of the page builds on: which
 * variant the `variant` query parameter selects, and whether any variant is
 * in stock.
 */
module Catalog {
  import opened Wrappers
  import opened Js
  import Gallery

  /** A gross price. The amount is carried, never computed with. */
  datatype Money = Money(amount: real, currency: string)

  /** A purchasable configuration; `gross` is `pricing?.price?.gross`. */
  datatype Variant = Variant(id: string, name: string, gross: Option<Money>, quantityAvailable: Option<int>)

  /** `pricing?.priceRange`: the gross price at each end of the range. */
  datatype PriceRange = PriceRange(start: Option<Money>, stop: Option<Money>)

  datatype Thumbnail = Thumbnail(url: string)

  /** `notFound()` when the API returns no product for the slug. */
  datatype PageError = NotFound

  datatype Product = Product(
    name: string,
    seoTitle: Option<string>,
    seoDescription: Option<string>,
    variants: Option<seq<Variant>>,
    priceRange: Option<PriceRange>,
    thumbnail: Option<Thumbnail>,
    media: Option<seq<Gallery.Image>>)

  /** `pricing?.priceRange?.start?.gross`. */
  function RangeStart(p: Product): Option<Money> {
    if p.priceRange.Some? then p.priceRange.value.start else None
  }

  /** `pricing?.priceRange?.stop?.gross`. */
  function RangeStop(p: Product): Option<Money> {
    if p.priceRange.Some? then p.priceRange.value.stop else None
  }

  /** `i` is the first position in `vs` whose variant has id `id`. */
  ghost predicate FirstMatchAt(vs: seq<Variant>, id: string, i: int) {
    0 <= i < |vs| && vs[i].id == id && forall j :: 0 <= j < i ==> vs[j].id != id
  }

  /** The query parameter is present and `i` is the first variant carrying that id. */
  ghost predicate SelectedAt(p: Product, query: Option<string>, i: int) {
    query.Some? && p.variants.Some? && FirstMatchAt(p.variants.value, query.value, i)
  }

  ghost predicate HasSelection(p: Product, query: Option<string>) {
    exists i :: SelectedAt(p, query, i)
  }

  /** Some variant reports a truthy `quantityAvailable`. */
  ghost predicate SomeInStock(p: Product) {
    p.variants.Some? && exists i :: 0 <= i < |p.variants.value| && TruthyNumber(p.variants.value[i].quantityAvailable)
  }

  lemma FirstMatchUnique(vs: seq<Variant>, id: string, i: int, j: int)
    requires FirstMatchAt(vs, id, i) && FirstMatchAt(vs, id, j)
    ensures i == j
  {
  }

  /** The index at which `find` on variant ids stops, if it finds one. */
  function FindIndex(vs: seq<Variant>, id: string): (r: Option<nat>)
    ensures r.Some? ==> FirstMatchAt(vs, id, r.value)
    ensures r.None? ==> forall i :: 0 <= i < |vs| ==> vs[i].id != id
    decreases |vs|
  {
    if |vs| == 0 then None
    else if vs[0].id == id then Some(0)
    else match FindIndex(vs[1..], id)
      case None => None
      case Some(k) => Some(k + 1)
  }

  /**
   * `variants?.find(({ id }) => id === query)`. An absent query never matches,
   * because every id is a string and `undefined` equals no string.
   */
  function SelectVariant(p: Product, query: Option<string>): (r: Option<Variant>)
    ensures r.Some? <==> HasSelection(p, query)
    ensures forall i :: SelectedAt(p, query, i) ==> r == Some(p.variants.value[i])
  {
    if query.None? || p.variants.None? then None
    else
      match FindIndex(p.variants.value, query.value)
      case None => None
      case Some(i) =>
        assert SelectedAt(p, query, i);
        assert forall j :: SelectedAt(p, query, j) ==> j == i by {
          forall j | SelectedAt(p, query, j) {
            FirstMatchUnique(p.variants.value, query.value, i, j);
          }
        }
        Some(p.variants.value[i])
  }

  /** A variant is selected exactly when the query is present and some variant carries its id. */
  lemma SelectionIffSomeMatch(p: Product, query: Option<string>)
    ensures HasSelection(p, query) <==>
              query.Some? && p.variants.Some? &&
              exists i :: 0 <= i < |p.variants.value| && p.variants.value[i].id == query.value
  {
    if query.Some? && p.variants.Some? {
      var _ := SelectVariant(p, query);
    }
  }

  /** `vs.some((v) => v.quantityAvailable)`. */
  function AnyInStock(vs: seq<Variant>): (r: bool)
    ensures r <==> exists i :: 0 <= i < |vs| && TruthyNumber(vs[i].quantityAvailable)
    decreases |vs|
  {
    if |vs| == 0 then false
    else if TruthyNumber(vs[0].quantityAvailable) then true
    else
      var rest := AnyInStock(vs[1..]);
      assert forall i :: 1 <= i < |vs| ==> vs[i] == vs[1..][i - 1];
      rest
  }

  /** `isAvailable`: `variants?.some(...) ?? false`. */
  function IsAvailable(p: Product): (r: bool)
    ensures r <==> SomeInStock(p)
  {
    p.variants.Some? && AnyInStock(p.variants.value)
  }

  /** `product.media || []`: the media list handed to the gallery. */
  function GalleryMedia(p: Product): (m: seq<Gallery.Image>)
    ensures p.media.Some? ==> m == p.media.value
    ensures p.media.None? ==> m == []
  {
    p.media.GetOr([])
  }
}
