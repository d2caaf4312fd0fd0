/**
 * The `addItem` server action over an abstract session: the checkout-id
 * cookie of each channel and the variant lines of each checkout.
 */
module Cart {
  import opened Wrappers
  import opened Js
  import opened Catalog
  import ProductPage

  datatype Session = Session(cookies: map<string, string>, lines: map<string, seq<string>>)

  datatype CartError =
    | CheckoutMissing      // `invariant(checkout, "Checkout must exist")` failing
    | MalformedVariantId   // `decodeURIComponent` throwing `URIError` on the variant id

  /**
   * The session after the action, and the error it threw, if any. A throw
   * does not undo the effects that happened before it.
   */
  datatype ActionOutcome = ActionOutcome(session: Session, error: Option<CartError>)

  function LinesOf(s: Session, checkoutId: string): seq<string> {
    if checkoutId in s.lines then s.lines[checkoutId] else []
  }

  /**
   * `addItem` for one channel. `checkout` is the id `Checkout.findOrCreate`
   * returned (absent when it returned nothing) and `decode` stands for
   * `decodeURIComponent`, `None` where it throws; neither is defined by this
   * model.
   */
  function AddItem(s: Session, channel: string, checkout: Option<string>, selectedVariantId: Option<string>,
                   decode: string -> Option<string>): (r: ActionOutcome)
    ensures checkout.None? <==> r.error == Some(CheckoutMissing)
    ensures checkout.None? ==> r.session == s
    ensures r.error == Some(MalformedVariantId) <==>
              checkout.Some? && TruthyOptString(selectedVariantId) && decode(selectedVariantId.value).None?
    ensures checkout.Some? ==>
              && r.session.cookies.Keys == s.cookies.Keys + {channel}
              && r.session.cookies[channel] == checkout.value
              && forall c :: c in s.cookies && c != channel ==> r.session.cookies[c] == s.cookies[c]
    ensures r.session.lines != s.lines ==>
              checkout.Some? && TruthyOptString(selectedVariantId) && decode(selectedVariantId.value).Some?
    ensures checkout.Some? && TruthyOptString(selectedVariantId) && decode(selectedVariantId.value).Some? ==>
              && r.error == None
              && LinesOf(r.session, checkout.value) == LinesOf(s, checkout.value) + [decode(selectedVariantId.value).value]
              && r.session.lines.Keys == s.lines.Keys + {checkout.value}
              && forall id :: id in s.lines && id != checkout.value ==> r.session.lines[id] == s.lines[id]
  {
    match checkout
    case None => ActionOutcome(s, Some(CheckoutMissing))
    case Some(id) =>
      var saved := s.(cookies := s.cookies[channel := id]);
      if !TruthyOptString(selectedVariantId) then ActionOutcome(saved, None)
      else
        match decode(selectedVariantId.value)
        case None => ActionOutcome(saved, Some(MalformedVariantId))
        case Some(variantId) =>
          ActionOutcome(saved.(lines := s.lines[id := LinesOf(s, id) + [variantId]]), None)
  }

  /**
   * Submitting while the button is enabled adds one line, for the selected
   * variant, unless its id is not a valid URI component.
   */
  lemma EnabledAddAddsSelectedVariant(p: Product, query: Option<string>, s: Session, channel: string,
                                      checkoutId: string, decode: string -> Option<string>)
    requires !ProductPage.AddButtonDisabled(p, query)
    ensures var r := AddItem(s, channel, Some(checkoutId), query, decode);
            var id := SelectVariant(p, query).value.id;
            && (decode(id).Some? ==> r.error == None && LinesOf(r.session, checkoutId) == LinesOf(s, checkoutId) + [decode(id).value])
            && (decode(id).None? ==> r.error == Some(MalformedVariantId) && r.session.lines == s.lines)
  {
  }
}
