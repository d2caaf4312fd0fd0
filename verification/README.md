# Storefront product page: derivations and image gallery

A Dafny model of the logic in a storefront's product detail page and its image
gallery component. The page receives a product already fetched from the
commerce API and the optional `variant` query parameter, and derives from them
the metadata (title, description, Open Graph image), the schema.org structured
data, the displayed price, the availability flag, the add-to-cart button's
disabled flag and the `addItem` server action's effect on an abstract session.
The gallery is a one-field state machine: the selected image index, starting
at 0 and replaced by a thumbnail click, over a fixed media list.

JavaScript truthiness is explicit (module `Js`): a string is truthy iff
non-empty, an optional number iff present and non-zero, and absence is
`None`. An absent query parameter never selects a variant, because every
variant id is a string and `undefined === id` is false.

Modules: `Wrappers` (Option, Result), `Js`, `Decimal` (the `${n}` rendering of
a number), `Gallery`, `Catalog` (product data, variant selection,
availability), `Metadata`, `JsonLd`, `ProductPage`, `Cart`, `StaticParams`.

Functions whose definitions lie outside this model are parameters: `formatMoney`,
`formatMoneyRange` (to `ProductPage.Page`), `decodeURIComponent` (partial:
`None` where it throws `URIError`) and the
checkout id returned by `Checkout.findOrCreate` (to `Cart.AddItem`), and the
parent layout's absolute title (to `Metadata.GenerateMetadata`). Properties
about them say which input they receive, not what they return.

## Model

| member | source | states |
|---|---|---|
| Catalog.FindIndex | page.tsx:101 | a returned index is the first variant whose id equals the query; none is returned only when no variant has that id |
| Catalog.SelectVariant | page.tsx:99-101 | a variant is selected iff the query is present and some variant matches, and then it is the first matching variant |
| Catalog.SelectionIffSomeMatch | page.tsx:100-101 | selection happens exactly when the query is present, variants are present and some variant carries the queried id |
| Catalog.GalleryMedia | page.tsx:183 | the gallery receives the product's media, or an empty list when there is none |
| Catalog.AnyInStock | page.tsx:102 | true iff some variant in the list has a present, non-zero quantity |
| Catalog.IsAvailable | page.tsx:102 | `isAvailable` holds iff variants are present and one of them has a truthy quantity; false when variants are absent |
| Metadata.BaseTitle | page.tsx:47 | the SEO title when it is non-empty, the product name otherwise |
| Metadata.PageTitle | page.tsx:47-49 | the title is seoTitle-or-name, followed by " - " and the variant name only when the query selects a variant whose name is non-empty |
| Metadata.GenerateMetadata | page.tsx:45-68 | a missing product is NotFound; the title ends with " \| " and the parent title or nothing; the description is the SEO description or else the full title; the Open Graph image exists iff a thumbnail does and carries its url and the product name |
| Metadata.UnmatchedQueryKeepsBaseTitle | page.tsx:48-49 | a query that matches no variant, or no query, leaves the title at seoTitle-or-name |
| JsonLd.ProductJsonLdOf | page.tsx:141-170 | the context is https://schema.org and the type Product; with a selected variant the offer is a single Offer, in stock iff that variant's quantity is truthy, priced by its gross; otherwise an AggregateOffer, in stock iff some variant is (each written as the matching schema.org URL), with low and high prices from the range start and stop |
| JsonLd.AvailabilityUrl | page.tsx:151-165 | InStock is written as https://schema.org/InStock, OutOfStock as https://schema.org/OutOfStock, and no other availability as the in-stock URL |
| JsonLd.InStockImpliesAvailable | page.tsx:145-170 | whenever the structured data says InStock, the page's availability flag is true |
| ProductPage.PriceText | page.tsx:104-114 | `formatMoney` receives exactly the variant gross amount and currency, `formatMoneyRange` exactly the range start and stop, and no price is the empty string |
| ProductPage.PriceSourceOf | page.tsx:104-114 | the selected variant's gross is formatted when it has one; otherwise the range when something is in stock; otherwise nothing |
| ProductPage.UnpricedSelectionFallsThrough | page.tsx:104-114 | a selected variant without a price falls through to the range when available and to the empty string otherwise |
| ProductPage.AddButtonDisabled | page.tsx:206 | the button is enabled iff the query is a non-empty id that selects a variant with a truthy quantity |
| ProductPage.Page | page.tsx:96-206 | a missing product is NotFound; the heading is the product name, the variant selector shows iff variants are present, the price line formats the selected variant's price, else the range when in stock, else is empty, and the media falls back to an empty list |
| ProductPage.UnmatchedQuery | page.tsx:101-206 | an id that matches no variant disables the button, never shows a variant price and yields an AggregateOffer |
| ProductPage.EnabledButtonAgreesWithStock | page.tsx:145-206 | an enabled button implies the availability flag and an in-stock single Offer in the structured data |
| ProductPage.OfferPriceMatchesPriceLine | page.tsx:104-155 | when the price line formats a variant price, the structured data's Offer carries the same amount and currency |
| ProductPage.NoQueryAggregateAvailability | page.tsx:102-165 | without a query the offer is aggregate, its stock status is the availability flag, and the price is the range or nothing by that same flag |
| Cart.AddItem | page.tsx:116-139 | a missing checkout fails with the session untouched; otherwise the channel's cookie is set to the checkout id and other cookies keep their values; then a truthy query id whose decoding throws fails with the lines untouched, and a decodable one appends exactly its decoded form to that checkout, with every other checkout untouched; lines change only in that last case |
| Cart.EnabledAddAddsSelectedVariant | page.tsx:128-206 | submitting while the button is enabled appends exactly the selected variant's decoded id, or fails with the lines untouched when that id does not decode |
| StaticParams.GenerateStaticParams | page.tsx:72-80 | one slug per edge, in edge order; empty when the product listing is absent |
| Gallery.Initial | ProductGallery.tsx:11 | the initial selection 0 is valid for every media list |
| Gallery.Step | ProductGallery.tsx:30-34 | a click on thumbnail i makes i the selection, which is valid for any media list with more than i items |
| Gallery.Run | ProductGallery.tsx:34 | after a sequence of clicks the selection is the last click's index, and no clicks leave the state as it was |
| Gallery.ClickShowsClicked | ProductGallery.tsx:21-38 | after a click on thumbnail i the render succeeds, the main image is item i and thumbnail i is highlighted |
| Gallery.ThumbnailsFrom | ProductGallery.tsx:30-50 | one thumbnail per item from the start index on, in order, each with the item's id, url, alt fallback, highlight and click handler |
| Gallery.Render | ProductGallery.tsx:13-50 | empty media renders the placeholder only; rendering throws iff the selection is past the end of non-empty media; otherwise the main image is the selected item with alt fallback "Product image", above the thumbnails for every item from index 0 |
| Gallery.ClickPreservesValid | ProductGallery.tsx:30-34 | every click the rendered view offers leaves the selection inside the media list |
| Gallery.TraceKeepsValid | ProductGallery.tsx:13-34 | with media fixed, any sequence of offered clicks from a valid state keeps the selection in range and rendering defined |
| Gallery.NeverUndefined | ProductGallery.tsx:11-21 | from the initial selection 0, `media[selectedImage]` is defined after any sequence of offered clicks |
| Gallery.ExactlyOneHighlighted | ProductGallery.tsx:35-38 | exactly one thumbnail is highlighted, the one at the selected index |
| Gallery.FallbackAltsDistinct | ProductGallery.tsx:44 | two thumbnails without alt text get different "Thumbnail n" labels |
| Gallery.ShrunkMediaBreaksInvariant | ProductGallery.tsx:11-22 | the invariant needs fixed media: a selection reached with two images makes rendering throw once the list has one |
| Decimal.FromNat | ProductGallery.tsx:44 | the rendering of a number is a non-empty digit string without leading zeros |
| Decimal.RoundTrip | ProductGallery.tsx:44 | reading the rendered digits back gives the number |
| Decimal.FromNatInjective | ProductGallery.tsx:44 | distinct numbers render to distinct strings |

## Left out

- GraphQL fetching (`executeGraphQL`), `revalidate`, `revalidatePath`: network and framework I/O. The fetched product is an input; a missing one yields `NotFound` instead of calling `notFound()`.
- `Checkout.findOrCreate`, `Checkout.getIdFromCookies`, `Checkout.saveIdToCookie`, `CheckoutAddLine`: backend and cookie I/O, modelled as an abstract session of cookies per channel and lines per checkout; how the backend merges a repeated variant into a line is not modelled (a line is appended).
- `formatMoney`, `formatMoneyRange`, `decodeURIComponent`: their definitions are not part of this model; they are opaque function parameters (`decodeURIComponent` may fail).
- ProductPage.Page: `JSON.parse` of the rich-text description (page.tsx:98) can throw on a malformed description; that failure is not reflected, so `NotFound` is the only failure `Page` reports.
- `editorjs-html` parsing, `JSON.parse` of the description and `xss` sanitisation: third-party libraries.
- The canonical URL built from `process.env.NEXT_PUBLIC_STOREFRONT_URL` and `encodeURIComponent`: environment lookup and platform string function.
- JSX markup, CSS class strings beyond highlighted or not, `next/image`, the React hook runtime and the `Promise.all` sequencing: rendering and scheduling with no effect on the derived values.
- `pricing?.price?.gross` is one optional `gross` field per variant; a `pricing` object present without a `price` is the same as an absent gross price. Money amounts are `real` and never computed with, so floating point is not modelled.
- The add-to-cart action does not consult the disabled flag: `Cart.AddItem` adds whatever truthy, decodable id the query holds, as the source does.
