/** `generateStaticParams`: one route parameter per product in the listing. */
module StaticParams {
  import opened Wrappers

  datatype ProductNode = ProductNode(slug: string)
  datatype Edge = Edge(node: ProductNode)
  datatype ProductConnection = ProductConnection(edges: seq<Edge>)
  datatype StaticParam = StaticParam(slug: string)

  /** `products?.edges.map(({ node }) => ({ slug: node.slug })) || []`. */
  function GenerateStaticParams(products: Option<ProductConnection>): (params: seq<StaticParam>)
    ensures products.None? ==> params == []
    ensures products.Some? ==> |params| == |products.value.edges|
    ensures products.Some? ==> forall i :: 0 <= i < |params| ==> params[i].slug == products.value.edges[i].node.slug
  {
    match products
    case None => []
    case Some(connection) =>
      var edges := connection.edges;
      seq(|edges|, i requires 0 <= i < |edges| => StaticParam(edges[i].node.slug))
  }
}
