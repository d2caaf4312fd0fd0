/** `generateMetadata`: the page title, description and Open Graph image. */
module Metadata {
  import opened Wrappers
  import opened Js
  import opened Catalog

  datatype OpenGraphImage = OpenGraphImage(url: string, alt: string)

  datatype Metadata = Metadata(title: string, description: string, openGraph: Option<OpenGraphImage>)

  /** `product.seoTitle || product.name`. */
  function BaseTitle(p: Product): (r: string)
    ensures TruthyOptString(p.seoTitle) ==> r == p.seoTitle.value
    ensures !TruthyOptString(p.seoTitle) ==> r == p.name
  {
    OptOrElse(p.seoTitle, p.name)
  }

  /** The title before the parent's suffix: the base title, then ` - ` and the selected variant's name if it has one. */
  function PageTitle(p: Product, query: Option<string>): (r: string)
    ensures forall i :: SelectedAt(p, query, i) && p.variants.value[i].name != "" ==>
              r == BaseTitle(p) + " - " + p.variants.value[i].name
    ensures (forall i :: SelectedAt(p, query, i) ==> p.variants.value[i].name == "") ==> r == BaseTitle(p)
  {
    var variantName := match SelectVariant(p, query) case Some(v) => Some(v.name) case None => None;
    if TruthyOptString(variantName) then BaseTitle(p) + " - " + variantName.value else BaseTitle(p)
  }

  /** The metadata for an already-fetched product, or `NotFound` when there is none. */
  function GenerateMetadata(fetched: Option<Product>, query: Option<string>, parentTitle: Option<string>): (r: Result<Metadata, PageError>)
    ensures fetched.None? <==> r == Failure(NotFound)
    ensures r.Success? ==>
              var p := fetched.value;
              && r.value.title == PageTitle(p, query) + " | " + Coalesce(parentTitle, "")
              && (TruthyOptString(p.seoDescription) ==> r.value.description == p.seoDescription.value)
              && (!TruthyOptString(p.seoDescription) ==> r.value.description == PageTitle(p, query))
              && (r.value.openGraph.Some? <==> p.thumbnail.Some?)
              && (r.value.openGraph.Some? ==> r.value.openGraph.value == OpenGraphImage(p.thumbnail.value.url, p.name))
  {
    match fetched
    case None => Failure(NotFound)
    case Some(p) =>
      var title := PageTitle(p, query);
      var og := match p.thumbnail case Some(t) => Some(OpenGraphImage(t.url, p.name)) case None => None;
      Success(Metadata(title + " | " + Coalesce(parentTitle, ""), OptOrElse(p.seoDescription, title), og))
  }

  /** A query that selects no variant leaves the title at the product's own title. */
  lemma UnmatchedQueryKeepsBaseTitle(p: Product, query: Option<string>)
    requires query.None? || p.variants.None? ||
             forall i :: 0 <= i < |p.variants.value| ==> p.variants.value[i].id != query.value
    ensures PageTitle(p, query) == BaseTitle(p)
  {
  }
}
