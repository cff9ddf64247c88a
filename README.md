# Carousel, lightbox and confirmation modal of Proyecto-bem, in Dafny

`assets/js/main.js` wires three controllers into a marketing page when the DOM
has loaded:

- an auto-advancing image carousel with previous/next buttons and one dot per slide;
- an image lightbox that opens on a click on a carousel image, showing the image
  and its caption;
- a purchase form whose submission is intercepted and acknowledged by a
  confirmation modal.

This project models the state behind them with the DOM abstracted to values. Each
handler becomes a method on a class whose fields are the state the handler writes:

- `CarouselSpec` (`carousel_spec.dfy`) holds the pure parts of the carousel:
  - the wrap rule of `showSlide` (`Normalize`), with `NextIndex` and `PrevIndex`;
  - the dot flags for a given slide (`DotsFor`) and how many of them are active (`CountActive`);
  - the track offset;
  - the slide reached after `k` ticks (`Advance`).

  It also holds the lemmas about them: exactly one dot is active, `k` ticks from
  slide `i` land on slide `(i + k) % n`, and the wrap rule is not a modulo.
- `CarouselController` (`carousel.dfy`) has the class `Carousel`. Its fields are:
  - `currentIndex`;
  - the track offset;
  - the dots, an `array<bool>` of active flags;
  - the `slideInterval` handle;
  - the set of armed interval handles.

  It has one method per source function and per event handler, plus
  `Initialize`, the page-load guard. The object invariant `Valid()` holds between
  events. It says the index is in range, the dots and the offset match the index,
  and every armed interval is the one `slideInterval` names, so at most one timer
  is ever armed.
- `Lightbox` (`lightbox.dfy`) has the clicked image and its enclosing slide as
  datatypes, and `ResolveCaption`, the choice between the slide's caption and
  the image's alt text.
- `ModalSpec` (`modal_spec.dfy`) has the two modals' visibility as a value. It
  also has the transitions of the backdrop click and of the key press (Escape
  closes one modal, the image modal first).
- `ModalController` (`modals.dfy`) has the class `Modals`. Its fields are the
  two display toggles, the lightbox's image source and caption, and the form's
  fields. It has one method per handler of the lightbox and of the purchase form.

Timers, clicks, mouse movements and key presses are inputs: each event is one
method call, and a timer tick names the interval that fires (`Tick(t)`).

The image-click handler (`main.js:118-134`) and the submit handler
(`main.js:177-187`) do not check for missing modal elements. They are attached
whatever is missing, and stop with an error at the first statement that uses a
missing element. So `ImageClick` keeps the updates made before the missing
element and no later one. `Submit` still prevents the page reload, but it neither
shows the confirmation modal nor resets the form when `#confirmationModal` is
missing.

## Model

| member | source | states |
|---|---|---|
| `CarouselSpec.Normalize` | assets/js/main.js:22-30 | the index `showSlide` settles on is always a valid slide: 0 for any index at or past n, n - 1 for any negative index, and for arguments one step out of range (-1 to n) it equals the argument modulo n |
| `CarouselSpec.NextIndex` | assets/js/main.js:38-40 | `nextSlide` moves to `(i + 1) % n`: from the last slide to the first |
| `CarouselSpec.PrevIndex` | assets/js/main.js:43-45 | `prevSlide` moves to `(i - 1 + n) % n`: from the first slide to the last |
| `CarouselSpec.TrackOffset` | assets/js/main.js:33 | the track is shifted left (offset at most 0) exactly for non-negative indices, hence for every valid slide; the shown slide is recovered from the offset as `-offset / 100` |
| `CarouselSpec.DotsFor` | assets/js/main.js:90-98 | the dot flags for slide k; its own contract gives only their number, n, and `ExactlyOneDotActive` proves their contents |
| `CarouselSpec.Advance` | assets/js/main.js:48-51 | any number of timer ticks keeps the index a valid slide |
| `CarouselSpec.ExactlyOneDotActive` | assets/js/main.js:90-98 | the dots `updateDots` leaves have exactly one active dot, the one of the current slide |
| `CarouselSpec.AdvanceIsModular` | assets/js/main.js:38-51 | left untouched for k ticks, the carousel shows slide `(i + k) % n` |
| `CarouselSpec.NextPrevInverse` | assets/js/main.js:38-45 | `prevSlide` undoes `nextSlide` and `nextSlide` undoes `prevSlide` |
| `CarouselSpec.WrapIsNotModulo` | assets/js/main.js:24-25 | with more than five slides `showSlide(n + 5)` shows slide 0, while `(n + 5) % n` is 5 |
| `CarouselSpec.ThreeSlideScenario` | assets/js/main.js:38-45 | with three slides, three `nextSlide` calls from slide 0 visit 1, 2, 0, and `prevSlide` from 0 goes to 2 |
| `CarouselController.Carousel.constructor` | assets/js/main.js:101-105 | set-up creates n dots, shows slide 0 with only dot 0 active and the track at offset 0, and arms exactly one interval |
| `CarouselController.Carousel.CreateDots` | assets/js/main.js:73-87 | the dot container is replaced by n new dots of which only the first is active |
| `CarouselController.Carousel.UpdateDots` | assets/js/main.js:90-98 | after the walk over the dots, a dot is active exactly when its index is `currentIndex` |
| `CarouselController.Carousel.ShowSlide` | assets/js/main.js:22-35 | `currentIndex` becomes the wrapped index, the offset `TrackOffset(currentIndex)` (`-currentIndex * 100`), exactly the current dot is active, and the timers are untouched |
| `CarouselController.Carousel.NextSlide` | assets/js/main.js:38-40 | the index becomes the next slide, wrapping, and the invariant is kept |
| `CarouselController.Carousel.PrevSlide` | assets/js/main.js:43-45 | the index becomes the previous slide, wrapping, and the invariant is kept |
| `CarouselController.Carousel.ClearInterval` | assets/js/main.js:49 | clearing the handle leaves no interval armed |
| `CarouselController.Carousel.StartAutoSlide` | assets/js/main.js:48-51 | whatever was armed before, exactly one interval is armed afterwards, under a fresh handle, so repeated calls never stack timers |
| `CarouselController.Carousel.Tick` | assets/js/main.js:50 | a tick of the armed interval performs one `nextSlide`; a tick of a cleared interval changes nothing |
| `CarouselController.Carousel.MouseEnter` | assets/js/main.js:54 | hovering over the track leaves no interval armed and the slide unchanged |
| `CarouselController.Carousel.MouseLeave` | assets/js/main.js:56 | leaving the track arms exactly one new interval |
| `CarouselController.Carousel.NextButtonClick` | assets/js/main.js:59-64 | the next button moves one slide forward and re-arms exactly one fresh interval |
| `CarouselController.Carousel.PrevButtonClick` | assets/js/main.js:65-70 | the previous button moves one slide back and re-arms exactly one fresh interval |
| `CarouselController.Carousel.DotClick` | assets/js/main.js:81-84 | a click on dot k shows slide k, makes dot k the active one and re-arms exactly one fresh interval |
| `CarouselController.Initialize` | assets/js/main.js:17-20 | the carousel is set up exactly when the track, at least one image and the dot container exist; set up, it shows slide 0 with one active dot and one armed interval |
| `Lightbox.ResolveCaption` | assets/js/main.js:123-131 | the caption is the slide's caption text when it exists and is non-empty, otherwise the alt text (also with no enclosing slide); it is empty only if the alt text is |
| `Lightbox.CaptionPriority` | assets/js/main.js:124-130 | a non-empty caption makes the alt text irrelevant; without one, which slide encloses the image does not matter |
| `Lightbox.CaptionExamples` | assets/js/main.js:123-131 | "Sunset over the bay" from a caption element; "Front porch" from the alt text with no caption element, an empty one, or no slide |
| `ModalSpec.AfterBackdropClick` | assets/js/main.js:150-154 | a click on a modal never shows it, hides it when the target is the container itself, and leaves it alone when the target is inside |
| `ModalSpec.AfterKeyDown` | assets/js/main.js:158-168 | only Escape acts; it never shows a modal, never hides both at once, and hides one whenever one is shown |
| `ModalSpec.EscapePriority` | assets/js/main.js:161-166 | with the image modal shown, Escape hides it and leaves the confirmation modal as it was; a second Escape hides the confirmation modal too |
| `ModalController.Modals.constructor` | assets/js/main.js:110-113 | after load both modals are hidden, the form holds its defaults, and the lightbox's image source and caption are as the page's markup left them |
| `ModalController.Modals.ImageClick` | assets/js/main.js:118-134 | the lightbox gets the image's source, the resolved caption and is shown, each only if the elements written up to that step exist; the confirmation modal is untouched |
| `ModalController.Modals.CloseButtonClick` | assets/js/main.js:142-146 | the close button hides the lightbox and leaves the confirmation modal as it was |
| `ModalController.Modals.ImageModalClick` | assets/js/main.js:149-155 | a click on the lightbox hides it exactly when it lands on the backdrop |
| `ModalController.Modals.KeyDown` | assets/js/main.js:158-168 | the modals change as `AfterKeyDown` says: Escape hides the image modal if shown, else the confirmation modal if shown |
| `ModalController.Modals.Submit` | assets/js/main.js:176-188 | the reload is always prevented; the confirmation modal is shown and the fields reset to their defaults when that modal exists, otherwise neither happens |
| `ModalController.Modals.CloseConfirmationButtonClick` | assets/js/main.js:191-195 | the close button hides the confirmation modal and leaves the lightbox as it was |
| `ModalController.Modals.ConfirmationModalClick` | assets/js/main.js:198-204 | a click on the confirmation modal hides it exactly when it lands on the backdrop |

## Left out

- Wall-clock timing: the 5000 ms interval (`main.js:14`, `main.js:50`) is not modelled. A tick is an event naming the interval that fires, and the event loop's ordering of callbacks is the order of method calls.
- DOM queries, element creation, `classList` and `style` strings, `addEventListener`: the elements are fields (flags, strings, an array of dot flags). The transform string `translateX(…%)` is kept as its integer percentage.
- `console.warn` (`main.js:18`): a diagnostic message only.
- `document.querySelector('.modal__close')` (`main.js:113`) returns the first such button in the document, which depends on the page's HTML. `CloseButtonClick` is simply the lightbox's close button.
- `updateDots` re-queries every `.carousel__dot` in the document (`main.js:91`). The model's dots are the carousel's own `n` dots.
- The optional previous/next buttons (`main.js:59-70`), the close buttons (`main.js:142`, `main.js:191`) and the purchase form (`main.js:176`) only get a listener when they exist. The model has no flag for them: a click on a missing button, or a submission of a missing form, is an event that never happens.
- The second check `carouselImages.length > 0` (`main.js:101`) is always true inside the branch that reaches it. The model has no separate case for it.
- `Initialize` only says whether a carousel exists; it cannot express "no state change" beyond that, because the page state that the skipped set-up would have written is not modelled.
- The form's field contents are opaque strings. The model covers only their reset to defaults (`main.js:186`), not the simulated purchase, which contacts no backend.
- The Escape handler reads `confirmationModal`, which is declared later in the same callback (`main.js:164`, `main.js:173`). Key presses are only dispatched after that callback has finished, so the name is always initialised when the handler runs. The model treats it as an ordinary reference.
