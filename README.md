# Landing-page behaviours: a verified model

The page script `assets/js/main.js` wires a marketing landing page: smooth
scrolling for same-page anchors, a glow that follows the mouse over buttons,
counters and progress bars that start when they scroll into view, a rotating
testimonial slider and a demo contact form. This project models the parts of
it that keep state or take decisions, with DOM elements reduced to identities
or small records, and proves what they promise.

- `dom.dfy` (module `Dom`): `Option` for lookups that may return `null`,
  element identities, and the decimal text `String(n)` gives the small
  natural numbers the script prints (the dot positions).
- `carousel.dfy` (module `Carousel`): the testimonial slider. The class
  `TestimonialCarousel` holds the script's `idx` and `timer`, the text of the
  quote, name and role elements (`None` when the element is missing), the dot
  container's buttons (`None` when the container is missing) and the
  browser's registry of running intervals with the next handle it will hand
  out. `setIndex`, `next`, `restart`, `renderDots`, a dot's click handler and
  the start-up guard are methods; each is proved against a function on values
  (`ShowIndex`, `NextIndex`, `RestartTiming`, `RenderView`, `Init`), and the
  lemmas state what those functions guarantee: the index stays in range and
  `Count` advances come back to the start; exactly the current dot is active;
  the rendered dots are one per testimonial with distinct labels; after any
  number of restarts at most one interval runs, and exactly one after at
  least one restart.
- `visibility.dfy` (module `Visibility`): the IntersectionObserver callback.
  The class `Dispatcher` holds the two seen-sets and the record of animations
  started; `OnEntries` processes a batch of entries and is proved equal to
  the fold `DispatchAll`. The lemmas show that hidden entries are ignored,
  the seen-sets only grow, no animation is ever started twice and every
  element reported visible has been animated. `Fallback` is the branch taken
  when the browser has no IntersectionObserver.
- `handlers.dfy` (module `Handlers`): the anchor click, `fillProgress` and the
  contact form's submit handler as functions that return the effect the
  handler carries out.

The interval's callback `next()` (lines 180-183) shows the following
testimonial through `setIndex` and leaves the interval alone; `restart()` is
called at start-up (line 193) and by a dot click (lines 157-160).

The guard `if (timer)` in `restart()` tests the handle's truthiness. The model
writes it literally (`Some` and non-zero) and hands out handles from 1
upwards, as browsers do, so the guard never skips a live interval; that is
what keeps the one-interval invariant.

## Model

| member | source | states |
|---|---|---|
| Dom.Decimal | assets/js/main.js:156 | the text of a number is a non-empty string of digits with no leading zero |
| Dom.ParseDecimalOfDecimal | assets/js/main.js:156 | reading the digits back gives the number: the text identifies the number |
| Dom.DecimalInjective | assets/js/main.js:156 | different numbers print differently |
| Carousel.NextIndex | assets/js/main.js:180-183 | the next index stays in range: one further, or 0 after the last |
| Carousel.Advance | assets/js/main.js:180-183 | any number of auto-advances keeps the index in range |
| Carousel.AdvanceIsModular | assets/js/main.js:180-183 | k advances from i land on (i + k) mod the number of testimonials |
| Carousel.FullCycle | assets/js/main.js:180-183 | exactly Count advances return to the starting index and no shorter run does |
| Carousel.LabelInjective | assets/js/main.js:156 | two dots with the same aria-label are the same position |
| Carousel.ToggledDots | assets/js/main.js:173-177 | the toggle keeps every dot, its label and its click handler; only the active flags change |
| Carousel.ToggledMarksOnly | assets/js/main.js:172-177 | after toggling, the active dots are exactly the one at the index (none if out of range) |
| Carousel.RenderedDots | assets/js/main.js:149-163 | renderDots builds exactly one dot per testimonial |
| Carousel.RenderedDotsShape | assets/js/main.js:149-163 | renderDots builds one dot per testimonial, only the current one active, dot k labelled "Show testimonial k+1" and jumping to k, labels pairwise distinct |
| Carousel.ToggleRendered | assets/js/main.js:155 | toggling a rendered row to i equals rendering at i: renderDots and setIndex agree on the active dot |
| Carousel.ShowIndex | assets/js/main.js:165-177 | setIndex(i) sets the index to i and neither adds nor removes a text slot or the dot container |
| Carousel.RenderView | assets/js/main.js:149-163 | renderDots changes only the dot container: present stays present, and it then holds one dot per testimonial with only the current one active |
| Carousel.ShowIndexDisplays | assets/js/main.js:165-177 | setIndex(i) sets the index to i, writes testimonial i's quote, name and role into each slot that exists, skips missing slots, and leaves exactly dot i active |
| Carousel.ShowIndexIdempotent | assets/js/main.js:165-177 | what setIndex shows depends only on i: showing j then i equals showing i |
| Carousel.RestartTiming | assets/js/main.js:185-188 | restart holds the new handle, that interval runs, handles keep increasing, and no interval other than the new one is started |
| Carousel.RestartKeepsOneTimer | assets/js/main.js:185-188 | a restart stops the held interval and leaves exactly the new one running, under a fresh handle |
| Carousel.RestartsKeepOneTimer | assets/js/main.js:185-188 | after any number of restarts at most one interval runs, exactly one after at least one restart |
| Carousel.Init | assets/js/main.js:190-194 | without all four elements start-up changes nothing; with them it ends at index 0 holding an interval, all elements still present |
| Carousel.InitGuard | assets/js/main.js:190-194 | with all four elements present start-up shows testimonial 0, renders the dots with dot 0 active and starts exactly one interval; otherwise nothing changes |
| Carousel.TestimonialCarousel.constructor | assets/js/main.js:190-194 | page load leaves the state that Init describes and establishes the object invariant |
| Carousel.TestimonialCarousel.RenderDots | assets/js/main.js:149-163 | the container, if present, holds exactly the rendered row; nothing else changes |
| Carousel.TestimonialCarousel.SetIndex | assets/js/main.js:165-178 | the new view is ShowIndex of the old one; the timer is untouched |
| Carousel.TestimonialCarousel.Next | assets/js/main.js:180-183 | the new view shows NextIndex of the old index; the timer is untouched |
| Carousel.TestimonialCarousel.SetInterval | assets/js/main.js:187 | a new interval runs under the next handle, which was not in use: every running handle is below the next one, so the new handle is not among the running ones |
| Carousel.TestimonialCarousel.ClearInterval | assets/js/main.js:186 | the cleared interval no longer runs |
| Carousel.TestimonialCarousel.Restart | assets/js/main.js:185-188 | the timing becomes RestartTiming of the old one, keeping one interval running; the view is untouched |
| Carousel.TestimonialCarousel.ClickDot | assets/js/main.js:157-160 | a rendered dot jumps to its index and restarts the interval; a dot without a handler does nothing |
| Visibility.DispatchEntry | assets/js/main.js:89-103 | one entry: a hidden entry changes nothing, the seen-sets only grow and the fired record only extends |
| Visibility.DispatchEntryFires | assets/js/main.js:88-104 | one entry: a counter animation starts iff the entry is visible and its target a counter not yet seen; likewise a bar fill |
| Visibility.DispatchEntryPreserves | assets/js/main.js:91-103 | one entry keeps the seen-sets equal to what has fired, with no repeats |
| Visibility.DispatchAllPreserves | assets/js/main.js:88-104 | over any batch the seen-sets stay consistent and no animation fires twice |
| Visibility.DispatchAll | assets/js/main.js:88-104 | over a batch of entries, processed in order, the seen-sets only grow and the fired record only extends |
| Visibility.DispatchAllIgnoresHidden | assets/js/main.js:89 | a batch has the same effect as its visible entries alone |
| Visibility.DispatchAllReaches | assets/js/main.js:91-103 | every counter or bar reported visible in a batch is in its seen-set afterwards |
| Visibility.FiresOnceFromLoad | assets/js/main.js:82-104 | from page load each element's animation fires at most once, and fires if the element is ever reported visible |
| Visibility.Fallback | assets/js/main.js:116-120 | without an observer every counter is animated, in list order, and then every bar filled, once per listed element |
| Visibility.Dispatcher.constructor | assets/js/main.js:82-83 | both seen-sets start empty and nothing has fired |
| Visibility.Dispatcher.OnEntries | assets/js/main.js:87-105 | processing a batch leaves the state DispatchAll gives and keeps the seen-sets consistent |
| Handlers.CollapseStep | assets/js/main.js:28-32 | the navigation is closed iff it exists, is shown and the library is loaded; through the existing instance iff there is one |
| Handlers.AnchorClick | assets/js/main.js:18-26 | no effect for a missing, empty or "#" href or a target not found; otherwise default prevented, the found target scrolled to, and the open navigation closed as CollapseStep decides |
| Handlers.FillProgress | assets/js/main.js:72-76 | an absent or empty data-progress leaves the width alone; otherwise the width is the percentage followed by "%" |
| Handlers.FillProgressIdempotent | assets/js/main.js:72-76 | filling twice equals filling once, and the assigned width ignores the old one |
| Handlers.Submit | assets/js/main.js:200-204 | default always prevented and the form always reset to its defaults; the note is set to the fixed text iff the note element exists |
| Handlers.SubmitIdempotent | assets/js/main.js:200-204 | a second submit changes nothing further |

## Left out

- Footer year (lines 13-14): it reads the wall clock.
- Glow-follow (lines 37-46): mouse coordinates and element geometry are floating point, and their only output is a CSS custom property.
- Counter animation (`animateCounter`, `easeOutCubic`, lines 49-69): floating-point easing driven by animation-frame timestamps. The model records only that the animation was started for an element (`CounterRun`); the text it displays, including the final `String(target)`, is not modelled.
- Smooth scrolling and the collapse library (lines 25, 28-32): the model records the request (`scrollTo`, `Collapse`) but not what the browser or library then does.
- Handlers.AnchorClick: the document lookup is the parameter `find` and always returns a result. The model does not capture that `querySelector` throws on an href that is not a valid selector (for instance one whose id starts with a digit).
- Query helpers `qs`/`qsa`, observer geometry and the 0.3 visibility threshold: an entry carries only its `isIntersecting` flag. The observer's `observe` registration (lines 109-115) is not modelled.
- Real interval scheduling: an interval is a handle in a set and a firing is a call of `Next`; the 4500 ms period is not modelled.
- Listener registration: handlers are modelled as the functions and methods they run, not as attached listeners. The guard `if (form)` that decides whether the submit listener is attached at all is not modelled.
- Visibility.Fallback: it is given as the list of calls it makes. What each call then displays is covered by the counter and progress-bar items above.
- Form reset: modelled as restoring each control's default value; other reset behaviour of the browser is not captured.
- Dom.Decimal: gives JavaScript's `String(n)` only below 10^21, where JavaScript still prints plain digits (and only up to 2^53 are numbers exact); the script prints only dot positions 1 to 3.
- Handlers.FillProgress: the CSS parsing done by the `style.width` setter is not modelled. The result is the string the script assigns; the browser ignores an invalid value (for instance "abc%") and normalises a valid one (for instance "050%" reads back as "50%").
