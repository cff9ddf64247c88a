/** The image lightbox and the purchase confirmation modal: the DOM state their
    handlers write (display toggles, the lightbox's image source and caption,
    the form's fields), with one method per event handler of the source.

    The image-click handler looks up nothing defensively: when #modalImage,
    #modalCaption or #imageModal is missing it stops at the first statement that
    uses the missing element, so the updates before that statement stand and
    the ones after it do not. The submit handler likewise stops before
    resetting the form when #confirmationModal is missing. */
module ModalController {
  import opened Lightbox
  import opened ModalSpec

  class Modals {
    /** Which of the elements the handlers use were found on the page. */
    const imageModalFound: bool
    const modalImageFound: bool
    const modalCaptionFound: bool
    const confirmationModalFound: bool
    /** The default values of the purchase form's fields. */
    const formDefaults: seq<string>

    var imageVisible: bool
    var confirmationVisible: bool
    /** The src of #modalImage. */
    var modalImageSrc: string
    /** The text content of #modalCaption. */
    var modalCaption: string
    /** The values of the purchase form's fields. */
    var formFields: seq<string>

    /** A modal that is not on the page is never shown. */
    ghost predicate Valid()
      reads this
    {
      (!imageModalFound ==> !imageVisible) &&
      (!confirmationModalFound ==> !confirmationVisible)
    }

    function State(): (v: Visibility)
      reads this
    {
      Visibility(imageVisible, confirmationVisible)
    }

    /** The page after load: both modals hidden, the form at its defaults. The
        lightbox's image source and caption are whatever the page's markup gave
        them (`src` and `caption`); the script does not write them at load. */
    constructor (imageModal: bool, modalImage: bool, modalCaption: bool, confirmationModal: bool,
                 defaults: seq<string>, src: string, caption: string)
      ensures Valid()
      ensures imageModalFound == imageModal && modalImageFound == modalImage
      ensures modalCaptionFound == modalCaption && confirmationModalFound == confirmationModal
      ensures formDefaults == defaults && formFields == defaults
      ensures State() == Visibility(false, false)
      ensures modalImageSrc == src && this.modalCaption == caption
    {
      imageModalFound, modalImageFound := imageModal, modalImage;
      modalCaptionFound, confirmationModalFound := modalCaption, confirmationModal;
      formDefaults, formFields := defaults, defaults;
      imageVisible, confirmationVisible := false, false;
      modalImageSrc, this.modalCaption := src, caption;
    }

    /** A click on a gallery image: copies its source into the lightbox, shows
        the resolved caption and displays the lightbox. The confirmation modal
        is not touched. */
    method ImageClick(img: GalleryImage)
      requires Valid()
      modifies this`modalImageSrc, this`modalCaption, this`imageVisible
      ensures Valid()
      ensures modalImageSrc == if modalImageFound then img.src else old(modalImageSrc)
      ensures modalCaption == if modalImageFound && modalCaptionFound then ResolveCaption(img)
                              else old(modalCaption)
      ensures imageVisible == if modalImageFound && modalCaptionFound && imageModalFound then true
                              else old(imageVisible)
    {
      if !modalImageFound {
        return;
      }
      modalImageSrc := img.src;
      var captionText := img.alt;
      match img.parentSlide {
        case Some(slide) =>
          match slide.caption {
            case Some(text) =>
              if text != "" {
                captionText := text;
              }
            case None =>
          }
        case None =>
      }
      if !modalCaptionFound {
        return;
      }
      modalCaption := captionText;
      if !imageModalFound {
        return;
      }
      imageVisible := true;
    }

    /** A click on the lightbox's close button hides the lightbox. */
    method CloseButtonClick()
      requires Valid()
      modifies this`imageVisible
      ensures Valid()
      ensures State() == Visibility(false, old(confirmationVisible))
    {
      if imageModalFound {
        imageVisible := false;
      }
    }

    /** A click on the lightbox hides it only when it landed on the backdrop. */
    method ImageModalClick(target: ClickTarget)
      requires Valid()
      modifies this`imageVisible
      ensures Valid()
      ensures imageVisible == AfterBackdropClick(old(imageVisible), target)
    {
      if imageModalFound && target == Container {
        imageVisible := false;
      }
    }

    /** A key press anywhere on the page. */
    method KeyDown(key: string)
      requires Valid()
      modifies this`imageVisible, this`confirmationVisible
      ensures Valid()
      ensures State() == AfterKeyDown(old(State()), key)
    {
      if key == EscapeKey {
        if imageModalFound && imageVisible {
          imageVisible := false;
        } else if confirmationModalFound && confirmationVisible {
          confirmationVisible := false;
        }
      }
    }

    /** Submission of the purchase form with the field values `entered`: the
        browser's navigation is always prevented; the confirmation modal is
        shown and the form reset to its defaults, unless the confirmation modal
        is missing, in which case the handler stops before both. */
    method Submit(entered: seq<string>) returns (defaultPrevented: bool)
      requires Valid()
      modifies this`confirmationVisible, this`formFields
      ensures Valid()
      ensures defaultPrevented
      ensures confirmationVisible == (confirmationModalFound || old(confirmationVisible))
      ensures formFields == if confirmationModalFound then formDefaults else entered
    {
      formFields := entered;
      defaultPrevented := true;
      if !confirmationModalFound {
        return;
      }
      confirmationVisible := true;
      formFields := formDefaults;
    }

    /** A click on the confirmation modal's close button hides it. */
    method CloseConfirmationButtonClick()
      requires Valid()
      modifies this`confirmationVisible
      ensures Valid()
      ensures State() == Visibility(old(imageVisible), false)
    {
      if confirmationModalFound {
        confirmationVisible := false;
      }
    }

    /** A click on the confirmation modal hides it only when it landed on the backdrop. */
    method ConfirmationModalClick(target: ClickTarget)
      requires Valid()
      modifies this`confirmationVisible
      ensures Valid()
      ensures confirmationVisible == AfterBackdropClick(old(confirmationVisible), target)
    {
      if confirmationModalFound && target == Container {
        confirmationVisible := false;
      }
    }
  }
}
