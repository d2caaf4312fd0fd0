/**
 * The product image gallery: a selection index over a fixed list of media
 * items, changed only by clicking a thumbnail, and the view rendered from
 * the pair (media, selection).
 */
module Gallery {
  import opened Wrappers
  import opened Js
  import Decimal

  /** One media item as the page passes it in. */
  datatype Image = Image(id: string, url: string, alt: string)

  /** The component's only state: the index of the selected image. */
  datatype State = State(selected: nat)

  /** The only event: a click on the thumbnail with the given index. */
  datatype Event = Click(index: nat)

  datatype MainImage = MainImage(src: string, alt: string)

  /** A rendered thumbnail button and the event its click handler emits. */
  datatype Thumb = Thumb(key: string, src: string, alt: string, highlighted: bool, onClick: Event)

  /** What the component renders: the grey placeholder, or the main image above the thumbnail strip. */
  datatype View = Placeholder | Shown(main: MainImage, thumbnails: seq<Thumb>)

  /** Reading `.url` of `media[selected]` when that element is `undefined` throws. */
  datatype RenderError = UndefinedImage

  const MainAltFallback: string := "Product image"
  const ThumbAltPrefix: string := "Thumbnail "

  /** `useState(0)`. */
  function Initial(): (s: State)
    ensures forall media: seq<Image> :: Valid(media, s)
  {
    State(0)
  }

  /** `setSelectedImage(index)`: the click replaces the selection. */
  function Step(s: State, e: Event): (s': State)
    ensures s'.selected == e.index
    ensures forall media: seq<Image> :: e.index < |media| ==> Valid(media, s')
  {
    State(e.index)
  }

  /** The state after a sequence of events, applied in order: the last click wins. */
  function Run(s: State, events: seq<Event>): (r: State)
    ensures |events| == 0 ==> r == s
    ensures |events| > 0 ==> r.selected == events[|events| - 1].index
    decreases |events|
  {
    if |events| == 0 then s else Run(Step(s, events[0]), events[1..])
  }

  /** Alt text of the thumbnail at `index`: the item's own alt, else a 1-based label. */
  function ThumbAlt(image: Image, index: nat): string {
    OrElse(image.alt, ThumbAltPrefix + Decimal.FromNat(index + 1))
  }

  /** The `media.map` callback: the thumbnail button for item `index`. */
  function ThumbAt(media: seq<Image>, selected: nat, index: nat): Thumb
    requires index < |media|
  {
    Thumb(media[index].id, media[index].url, ThumbAlt(media[index], index), selected == index, Click(index))
  }

  /** The thumbnails for the items from `from` on, in order. */
  function ThumbnailsFrom(media: seq<Image>, selected: nat, from: nat): (ts: seq<Thumb>)
    requires from <= |media|
    ensures |ts| == |media| - from
    ensures forall i :: 0 <= i < |ts| ==> ts[i] == ThumbAt(media, selected, from + i)
    decreases |media| - from
  {
    if from == |media| then [] else [ThumbAt(media, selected, from)] + ThumbnailsFrom(media, selected, from + 1)
  }

  /** Renders the gallery for the current media and state. */
  function Render(media: seq<Image>, s: State): (r: Result<View, RenderError>)
    ensures |media| == 0 <==> r == Success(Placeholder)
    ensures r.Failure? <==> 0 < |media| <= s.selected
    ensures r.Success? && r.value.Shown? ==>
              && s.selected < |media|
              && r.value.main == MainImage(media[s.selected].url, OrElse(media[s.selected].alt, MainAltFallback))
              && r.value.thumbnails == ThumbnailsFrom(media, s.selected, 0)
  {
    if |media| == 0 then Success(Placeholder)
    else if s.selected >= |media| then Failure(UndefinedImage)
    else
      var sel := media[s.selected];
      Success(Shown(MainImage(sel.url, OrElse(sel.alt, MainAltFallback)), ThumbnailsFrom(media, s.selected, 0)))
  }

  /** The selection indexes an existing item whenever there is one to index. */
  ghost predicate Valid(media: seq<Image>, s: State) {
    |media| > 0 ==> s.selected < |media|
  }

  /** `e` is the click handler of some thumbnail the current view shows. */
  ghost predicate Offers(media: seq<Image>, s: State, e: Event) {
    var r := Render(media, s);
    r.Success? && r.value.Shown? &&
    exists i :: 0 <= i < |r.value.thumbnails| && r.value.thumbnails[i].onClick == e
  }

  /** Each event is a click on a thumbnail shown at the moment it happens, with `media` unchanged throughout. */
  ghost predicate Trace(media: seq<Image>, s: State, events: seq<Event>)
    decreases |events|
  {
    |events| == 0 || (Offers(media, s, events[0]) && Trace(media, Step(s, events[0]), events[1..]))
  }

  /** A click the view offers keeps the selection inside the media list. */
  lemma ClickPreservesValid(media: seq<Image>, s: State, e: Event)
    requires Offers(media, s, e)
    ensures Valid(media, Step(s, e))
  {
  }

  /** Clicking thumbnail `i` shows item `i` as the main image and highlights thumbnail `i`. */
  lemma ClickShowsClicked(media: seq<Image>, s: State, i: nat)
    requires i < |media|
    ensures var r := Render(media, Step(s, Click(i)));
            && r.Success? && r.value.Shown?
            && r.value.main.src == media[i].url
            && r.value.thumbnails[i].highlighted
  {
  }

  /** With fixed media, the selection stays in range along any trace from a valid state. */
  lemma {:induction false} TraceKeepsValid(media: seq<Image>, s: State, events: seq<Event>)
    requires Valid(media, s)
    requires Trace(media, s, events)
    ensures Valid(media, Run(s, events))
    ensures Render(media, Run(s, events)).Success?
    decreases |events|
  {
    if |events| > 0 {
      ClickPreservesValid(media, s, events[0]);
      TraceKeepsValid(media, Step(s, events[0]), events[1..]);
    }
  }

  /** From the initial state, `media[selectedImage]` is always defined: rendering never throws. */
  lemma {:induction false} NeverUndefined(media: seq<Image>, events: seq<Event>)
    requires Trace(media, Initial(), events)
    ensures Render(media, Run(Initial(), events)).Success?
    ensures |media| > 0 ==> Run(Initial(), events).selected < |media|
  {
    TraceKeepsValid(media, Initial(), events);
  }

  /** Number of highlighted thumbnails. */
  function CountHighlighted(ts: seq<Thumb>): nat
    decreases |ts|
  {
    if |ts| == 0 then 0 else (if ts[0].highlighted then 1 else 0) + CountHighlighted(ts[1..])
  }

  lemma {:induction false} CountFrom(media: seq<Image>, selected: nat, from: nat)
    requires from <= |media|
    ensures CountHighlighted(ThumbnailsFrom(media, selected, from)) == if from <= selected < |media| then 1 else 0
    decreases |media| - from
  {
    if from < |media| {
      var ts := ThumbnailsFrom(media, selected, from);
      assert ts[1..] == ThumbnailsFrom(media, selected, from + 1);
      CountFrom(media, selected, from + 1);
    }
  }

  /** Exactly one thumbnail is highlighted, and it is the selected one. */
  lemma ExactlyOneHighlighted(media: seq<Image>, s: State)
    requires Render(media, s).Success? && Render(media, s).value.Shown?
    ensures CountHighlighted(Render(media, s).value.thumbnails) == 1
    ensures forall i :: 0 <= i < |media| ==> (Render(media, s).value.thumbnails[i].highlighted <==> i == s.selected)
  {
    CountFrom(media, s.selected, 0);
  }

  /** Two thumbnails without their own alt text get different fallback labels. */
  lemma FallbackAltsDistinct(a: Image, b: Image, i: nat, j: nat)
    requires a.alt == "" && b.alt == "" && i != j
    ensures ThumbAlt(a, i) != ThumbAlt(b, j)
  {
    if ThumbAlt(a, i) == ThumbAlt(b, j) {
      var x := Decimal.FromNat(i + 1);
      var y := Decimal.FromNat(j + 1);
      assert ThumbAltPrefix + x == ThumbAltPrefix + y;
      assert x == (ThumbAltPrefix + x)[|ThumbAltPrefix|..];
      assert y == (ThumbAltPrefix + y)[|ThumbAltPrefix|..];
      Decimal.FromNatInjective(i + 1, j + 1);
    }
  }

  /**
   * The invariant needs `media` to stay fixed: a selection reached by a valid
   * trace over two images makes the render throw once the list shrinks to one.
   */
  lemma ShrunkMediaBreaksInvariant()
    ensures exists media: seq<Image>, events: seq<Event> ::
              && Trace(media, Initial(), events)
              && |media| == 2
              && Render(media[..1], Run(Initial(), events)) == Failure(UndefinedImage)
  {
    var img := Image("a", "u", "");
    var media := [img, img];
    var events := [Click(1)];
    var ts := Render(media, Initial()).value.thumbnails;
    assert ts[1].onClick == Click(1);
    assert Offers(media, Initial(), Click(1));
    assert events[1..] == [];
    assert Trace(media, Initial(), events);
    assert Run(Initial(), events) == State(1);
  }
}
