/** What the lightbox reads from a clicked carousel image: its source, its alt
    text and, through its enclosing slide, the slide's caption element. */
module Lightbox {

  datatype Option<T> = None | Some(value: T)

  /** The `.carousel__slide` element that encloses an image. `caption` is the
      text content of its `.carousel__caption` element, None when it has none. */
  datatype Slide = Slide(caption: Option<string>)

  /** A clicked gallery image; `parentSlide` is None when no slide encloses it. */
  datatype GalleryImage = GalleryImage(src: string, alt: string, parentSlide: Option<Slide>)

  /** The image sits in a slide whose caption element exists and holds text. */
  predicate HasCaptionText(img: GalleryImage)
  {
    img.parentSlide.Some? && img.parentSlide.value.caption.Some? && img.parentSlide.value.caption.value != ""
  }

  /** The caption the lightbox shows: the slide's caption text when there is
      some, the image's alt text otherwise (no enclosing slide, no caption
      element, or an empty one). */
  function ResolveCaption(img: GalleryImage): (caption: string)
    ensures HasCaptionText(img) ==> caption == img.parentSlide.value.caption.value
    ensures !HasCaptionText(img) ==> caption == img.alt
    ensures caption == "" ==> img.alt == ""
  {
    var fallback := img.alt;
    match img.parentSlide
    case None => fallback
    case Some(slide) =>
      match slide.caption
      case Some(text) => if text != "" then text else fallback
      case None => fallback
  }

  /** The caption text takes priority over the alt text: with a non-empty
      caption the alt text has no influence, and without one the slide has none. */
  lemma CaptionPriority(img: GalleryImage, otherAlt: string, otherSlide: Option<Slide>)
    ensures HasCaptionText(img) ==> ResolveCaption(img.(alt := otherAlt)) == ResolveCaption(img)
    ensures !HasCaptionText(img) && !HasCaptionText(img.(parentSlide := otherSlide)) ==>
              ResolveCaption(img.(parentSlide := otherSlide)) == ResolveCaption(img)
  {
  }

  /** A slide captioned "Sunset over the bay" shows that caption; an image with
      alt text "Front porch" and no caption element shows "Front porch". */
  lemma CaptionExamples()
    ensures ResolveCaption(GalleryImage("sunset.jpg", "Sunset", Some(Slide(Some("Sunset over the bay")))))
            == "Sunset over the bay"
    ensures ResolveCaption(GalleryImage("porch.jpg", "Front porch", Some(Slide(None)))) == "Front porch"
    ensures ResolveCaption(GalleryImage("porch.jpg", "Front porch", Some(Slide(Some(""))))) == "Front porch"
    ensures ResolveCaption(GalleryImage("porch.jpg", "Front porch", None)) == "Front porch"
  {
  }
}
