/** The testimonial slider: a fixed list of three quotes, the index of the one
    on show, the quote/name/role text slots, the row of indicator dots and the
    handle of the auto-advance interval. */
module Carousel {
  import opened Dom

  datatype Testimonial = Testimonial(quote: string, name: string, role: string)

  /** The hard-coded list the slider cycles through. */
  const Testimonials: seq<Testimonial> := [
    Testimonial(
      "\U{201C}Pixel-perfect design, fast delivery, and clean code. The site feels premium and performs great.\U{201D}",
      "Maya Chen",
      "Product Manager, Northwave"),
    Testimonial(
      "\U{201C}The UI is sleek and the animations are subtle but powerful. Communication was excellent.\U{201D}",
      "Jordan Blake",
      "Founder, Studio Byte"),
    Testimonial(
      "\U{201C}Our conversion rate improved immediately after launch. The performance score is outstanding.\U{201D}",
      "Elena Park",
      "Marketing Lead, Brightlane")
  ]

  const Count: nat := |Testimonials|

  /* ---------------------------------------------------------------------- */
  /* Indices                                                                 */
  /* ---------------------------------------------------------------------- */

  /** The index `next()` moves to: one further, wrapping to the first. */
  function NextIndex(i: nat): (r: nat)
    requires i < Count
    ensures r < Count
    ensures r == if i == Count - 1 then 0 else i + 1
  {
    (i + 1) % Count
  }

  /** The index after `k` auto-advances from `i`. */
  function Advance(i: nat, k: nat): (r: nat)
    requires i < Count
    ensures r < Count
  {
    if k == 0 then i else NextIndex(Advance(i, k - 1))
  }

  lemma {:induction false} AdvanceIsModular(i: nat, k: nat)
    requires i < Count
    ensures Advance(i, k) == (i + k) % Count
  {
    if k > 0 {
      AdvanceIsModular(i, k - 1);
    }
  }

  /** A full round of `Count` advances comes back to where it started. */
  lemma FullCycle(i: nat)
    requires i < Count
    ensures Advance(i, Count) == i
    ensures forall k :: 0 < k < Count ==> Advance(i, k) != i
  {
    forall k | 0 <= k <= Count
      ensures Advance(i, k) == (i + k) % Count
    {
      AdvanceIsModular(i, k);
    }
  }

  /* ---------------------------------------------------------------------- */
  /* Indicator dots                                                          */
  /* ---------------------------------------------------------------------- */

  /** A `button.dot`: whether it carries the `active` class, its aria-label and
      the index its click handler jumps to (None for a dot this script did not
      build, which has no handler). */
  datatype Dot = Dot(active: bool, ariaLabel: string, target: Option<nat>)

  /** The aria-label of the dot for testimonial `i` (counted from one). */
  function Label(i: nat): string {
    "Show testimonial " + Decimal(i + 1)
  }

  lemma LabelInjective(i: nat, j: nat)
    ensures Label(i) == Label(j) ==> i == j
  {
    var prefix := "Show testimonial ";
    assert Label(i)[|prefix|..] == Decimal(i + 1);
    assert Label(j)[|prefix|..] == Decimal(j + 1);
    DecimalInjective(i + 1, j + 1);
  }

  /** Positions of the dots that carry the `active` class. */
  function ActivePositions(ds: seq<Dot>): set<nat> {
    set k: nat | k < |ds| && ds[k].active
  }

  /** The dots after `setIndex(i)` toggled `active` on each of them. */
  function ToggledDots(ds: seq<Dot>, i: nat): (r: seq<Dot>)
    ensures |r| == |ds|
    ensures forall k :: 0 <= k < |ds| ==> r[k].ariaLabel == ds[k].ariaLabel && r[k].target == ds[k].target
  {
    seq(|ds|, k requires 0 <= k < |ds| => ds[k].(active := k == i))
  }

  /** Toggling leaves exactly the dot at `i` active (none if there is no such
      dot). */
  lemma ToggledMarksOnly(ds: seq<Dot>, i: nat)
    ensures ActivePositions(ToggledDots(ds, i)) == if i < |ds| then {i} else {}
  {
  }

  /** The dot row `renderDots` builds while `current` is the index on show. */
  function RenderedDots(current: nat): (r: seq<Dot>)
    ensures |r| == Count
  {
    seq(Count, k requires 0 <= k < Count => Dot(k == current, Label(k), Some(k)))
  }

  /** One dot per testimonial, only the current one active, each labelled by
      its position from one and jumping to its own index; no two labels agree. */
  lemma RenderedDotsShape(current: nat)
    requires current < Count
    ensures |RenderedDots(current)| == Count
    ensures ActivePositions(RenderedDots(current)) == {current}
    ensures forall k :: 0 <= k < Count ==>
      RenderedDots(current)[k].ariaLabel == Label(k) && RenderedDots(current)[k].target == Some(k)
    ensures forall j, k :: 0 <= j < k < Count ==> RenderedDots(current)[j].ariaLabel != RenderedDots(current)[k].ariaLabel
  {
    var r := RenderedDots(current);
    assert r[current].active;
    forall j, k | 0 <= j < k < Count
      ensures r[j].ariaLabel != r[k].ariaLabel
    {
      LabelInjective(j, k);
    }
  }

  /** Toggling a freshly rendered row to `i` gives the row rendered at `i`:
      `setIndex` and `renderDots` agree on which dot is active. */
  lemma ToggleRendered(current: nat, i: nat)
    ensures ToggledDots(RenderedDots(current), i) == RenderedDots(i)
  {
  }

  /* ---------------------------------------------------------------------- */
  /* What the page shows                                                     */
  /* ---------------------------------------------------------------------- */

  /** The carousel's DOM-facing state: the index, the three text slots (None
      when the element is missing from the page) and the dot container. */
  datatype View = View(
    idx: nat,
    quote: Option<string>,
    name: Option<string>,
    role: Option<string>,
    dots: Option<seq<Dot>>)

  /** Writing `text` into a slot; a missing element is skipped. */
  function Show(slot: Option<string>, text: string): Option<string> {
    if slot.Some? then Some(text) else None
  }

  /** The view after `setIndex(i)`. */
  function ShowIndex(v: View, i: nat): (r: View)
    requires i < Count
    ensures r.idx == i
    ensures r.quote.Some? == v.quote.Some? && r.name.Some? == v.name.Some? && r.role.Some? == v.role.Some?
    ensures r.dots.Some? == v.dots.Some?
  {
    var t := Testimonials[i];
    View(i, Show(v.quote, t.quote), Show(v.name, t.name), Show(v.role, t.role),
         if v.dots.Some? then Some(ToggledDots(v.dots.value, i)) else None)
  }

  /** The view after `renderDots()`: the container, if there is one, holds
      exactly the rendered row. */
  function RenderView(v: View): (r: View)
    requires v.idx < Count
    ensures r.(dots := v.dots) == v
    ensures r.dots.Some? == v.dots.Some?
    ensures r.dots.Some? ==> |r.dots.value| == Count && ActivePositions(r.dots.value) == {v.idx}
  {
    RenderedDotsShape(v.idx);
    if v.dots.Some? then v.(dots := Some(RenderedDots(v.idx))) else v
  }

  /** `setIndex(i)` shows testimonial `i` in every slot that exists, leaves a
      missing slot missing, and marks exactly dot `i` active. */
  lemma ShowIndexDisplays(v: View, i: nat)
    requires i < Count
    ensures ShowIndex(v, i).idx == i
    ensures ShowIndex(v, i).quote.Some? == v.quote.Some?
    ensures ShowIndex(v, i).name.Some? == v.name.Some?
    ensures ShowIndex(v, i).role.Some? == v.role.Some?
    ensures v.quote.Some? ==> ShowIndex(v, i).quote.value == Testimonials[i].quote
    ensures v.name.Some? ==> ShowIndex(v, i).name.value == Testimonials[i].name
    ensures v.role.Some? ==> ShowIndex(v, i).role.value == Testimonials[i].role
    ensures ShowIndex(v, i).dots.Some? == v.dots.Some?
    ensures v.dots.Some? && i < |v.dots.value| ==> ActivePositions(ShowIndex(v, i).dots.value) == {i}
  {
  }

  /** Showing is determined by the index alone: showing `i` twice is showing
      it once, and whatever was shown before is overwritten. */
  lemma ShowIndexIdempotent(v: View, i: nat, j: nat)
    requires i < Count && j < Count
    ensures ShowIndex(ShowIndex(v, j), i) == ShowIndex(v, i)
  {
    if v.dots.Some? {
      assert ToggledDots(ToggledDots(v.dots.value, j), i) == ToggledDots(v.dots.value, i);
    }
  }

  /* ---------------------------------------------------------------------- */
  /* The auto-advance interval                                               */
  /* ---------------------------------------------------------------------- */

  /** The intervals the browser is running for the carousel (`live`), the
      handle it will hand out next, and the handle held in `timer`. */
  datatype Timing = Timing(live: set<nat>, nextHandle: nat, held: Option<nat>)

  function Held(h: Option<nat>): set<nat> {
    if h.Some? then {h.value} else {}
  }

  /** The only running interval is the one `timer` holds, and handles are
      positive and fresh. */
  predicate OneTimer(t: Timing) {
    && t.live == Held(t.held)
    && t.nextHandle >= 1
    && forall h :: h in t.live ==> 1 <= h < t.nextHandle
  }

  /** `restart()`: clear the held interval if the handle is truthy, then start
      a new one with a fresh handle. */
  function RestartTiming(t: Timing): (r: Timing)
    ensures r.held == Some(t.nextHandle) && t.nextHandle in r.live
    ensures r.nextHandle > t.nextHandle
    ensures r.live - {t.nextHandle} <= t.live
  {
    var cleared := if t.held.Some? && t.held.value != 0 then t.live - {t.held.value} else t.live;
    Timing(cleared + {t.nextHandle}, t.nextHandle + 1, Some(t.nextHandle))
  }

  /** After a restart exactly one interval runs, it is the new one, and the
      interval held before is no longer running. */
  lemma RestartKeepsOneTimer(t: Timing)
    requires OneTimer(t)
    ensures OneTimer(RestartTiming(t))
    ensures RestartTiming(t).live == {t.nextHandle}
    ensures t.held.Some? ==> t.held.value !in RestartTiming(t).live
  {
  }

  /** `k` restarts in a row. */
  function Restarts(t: Timing, k: nat): Timing {
    if k == 0 then t else RestartTiming(Restarts(t, k - 1))
  }

  lemma {:induction false} RestartsKeepOneTimer(t: Timing, k: nat)
    requires OneTimer(t)
    ensures OneTimer(Restarts(t, k))
    ensures |Restarts(t, k).live| <= 1
    ensures k > 0 ==> |Restarts(t, k).live| == 1
  {
    if k > 0 {
      RestartsKeepOneTimer(t, k - 1);
      RestartKeepsOneTimer(Restarts(t, k - 1));
    }
  }

  /* ---------------------------------------------------------------------- */
  /* Start-up                                                                */
  /* ---------------------------------------------------------------------- */

  predicate AllPresent(v: View) {
    v.quote.Some? && v.name.Some? && v.role.Some? && v.dots.Some?
  }

  /** The start-up block: only when all four elements exist are the dots
      rendered, testimonial 0 shown and the interval started. */
  function Init(v: View, t: Timing): (r: (View, Timing))
    requires v.idx < Count
    ensures !AllPresent(v) ==> r == (v, t)
    ensures AllPresent(v) ==> r.0.idx == 0 && r.1.held.Some? && AllPresent(r.0)
  {
    if AllPresent(v) then (ShowIndex(RenderView(v), 0), RestartTiming(t)) else (v, t)
  }

  lemma InitGuard(v: View, t: Timing)
    requires v.idx == 0 && OneTimer(t) && t.held.None?
    ensures AllPresent(v) ==>
      && Init(v, t).0.idx == 0
      && Init(v, t).0.quote == Some(Testimonials[0].quote)
      && Init(v, t).0.name == Some(Testimonials[0].name)
      && Init(v, t).0.role == Some(Testimonials[0].role)
      && Init(v, t).0.dots == Some(RenderedDots(0))
      && OneTimer(Init(v, t).1) && |Init(v, t).1.live| == 1
    ensures !AllPresent(v) ==> Init(v, t) == (v, t)
  {
    if AllPresent(v) {
      ToggleRendered(0, 0);
      RestartKeepsOneTimer(t);
    }
  }

  /** Every dot handler jumps to an index of the list. */
  predicate HandlersInRange(dots: Option<seq<Dot>>) {
    dots.Some? ==> forall k :: 0 <= k < |dots.value| && dots.value[k].target.Some? ==> dots.value[k].target.value < Count
  }

  predicate NoHandlers(dots: Option<seq<Dot>>) {
    dots.Some? ==> forall k :: 0 <= k < |dots.value| ==> dots.value[k].target.None?
  }

  /* ---------------------------------------------------------------------- */
  /* The carousel object                                                     */
  /* ---------------------------------------------------------------------- */

  class TestimonialCarousel {
    var idx: nat
    var quote: Option<string>
    var name: Option<string>
    var role: Option<string>
    var dots: Option<seq<Dot>>
    var timer: Option<nat>
    /** The browser's registry of running carousel intervals. */
    var live: set<nat>
    var nextHandle: nat

    function Current(): View
      reads this
    {
      View(idx, quote, name, role, dots)
    }

    function Timers(): Timing
      reads this
    {
      Timing(live, nextHandle, timer)
    }

    ghost predicate Valid()
      reads this
    {
      idx < Count && OneTimer(Timers()) && HandlersInRange(dots)
    }

    /** Page load: the four lookups, `idx = 0`, `timer = null`, then the
        start-up guard. */
    constructor (quoteEl: Option<string>, nameEl: Option<string>, roleEl: Option<string>,
                 dotsEl: Option<seq<Dot>>)
      requires NoHandlers(dotsEl)
      ensures Valid()
      ensures (Current(), Timers()) == Init(View(0, quoteEl, nameEl, roleEl, dotsEl), Timing({}, 1, None))
    {
      idx, quote, name, role, dots := 0, quoteEl, nameEl, roleEl, dotsEl;
      timer, live, nextHandle := None, {}, 1;
      new;
      if quote.Some? && name.Some? && role.Some? && dots.Some? {
        RenderDots();
        SetIndex(0);
        Restart();
      }
    }

    /** `renderDots()`: rebuild the container's contents, one dot per
        testimonial. */
    method RenderDots()
      requires Valid()
      modifies this
      ensures Valid()
      ensures Current() == RenderView(old(Current()))
      ensures Timers() == old(Timers())
    {
      if dots.None? {
        return;
      }
      var built: seq<Dot> := [];
      var i := 0;
      while i < |Testimonials|
        invariant 0 <= i <= Count
        invariant built == RenderedDots(idx)[..i]
      {
        built := built + [Dot(i == idx, Label(i), Some(i))];
        i := i + 1;
      }
      assert built == RenderedDots(idx);
      dots := Some(built);
    }

    /** `setIndex(i)`: record the index, fill the slots that exist, toggle the
        dots. */
    method SetIndex(i: nat)
      requires Valid() && i < Count
      modifies this
      ensures Valid()
      ensures Current() == ShowIndex(old(Current()), i)
      ensures Timers() == old(Timers())
    {
      idx := i;
      var t := Testimonials[idx];
      if quote.Some? { quote := Some(t.quote); }
      if name.Some? { name := Some(t.name); }
      if role.Some? { role := Some(t.role); }
      if dots.Some? {
        var ds := dots.value;
        var k := 0;
        while k < |ds|
          invariant 0 <= k <= |ds| == |dots.value|
          invariant forall j :: 0 <= j < k ==> ds[j] == dots.value[j].(active := j == idx)
          invariant forall j :: k <= j < |ds| ==> ds[j] == dots.value[j]
        {
          ds := ds[k := ds[k].(active := k == idx)];
          k := k + 1;
        }
        assert ds == ToggledDots(dots.value, i);
        dots := Some(ds);
      }
    }

    /** `next()`, which the interval calls: show the following testimonial.
        It does not touch the interval. */
    method Next()
      requires Valid()
      modifies this
      ensures Valid()
      ensures Current() == ShowIndex(old(Current()), NextIndex(old(idx)))
      ensures Timers() == old(Timers())
    {
      var ni := (idx + 1) % |Testimonials|;
      SetIndex(ni);
    }

    /** `window.setInterval`: a new running interval with a fresh handle. */
    method SetInterval() returns (h: nat)
      requires forall x :: x in live ==> x < nextHandle
      modifies this`live, this`nextHandle
      ensures h == old(nextHandle) && h !in old(live)
      ensures live == old(live) + {h} && nextHandle == old(nextHandle) + 1
    {
      h := nextHandle;
      live := live + {h};
      nextHandle := nextHandle + 1;
    }

    /** `window.clearInterval`: stop the interval `h` if it runs. */
    method ClearInterval(h: nat)
      modifies this`live
      ensures live == old(live) - {h}
    {
      live := live - {h};
    }

    /** `restart()`: cancel the held interval, then start a new one. */
    method Restart()
      requires Valid()
      modifies this
      ensures Valid()
      ensures Timers() == RestartTiming(old(Timers()))
      ensures Current() == old(Current())
    {
      if timer.Some? && timer.value != 0 {
        ClearInterval(timer.value);
      }
      var h := SetInterval();
      timer := Some(h);
    }

    /** A click on the dot at position `k` of the container: a dot built by
        `renderDots` jumps to its index and restarts the interval. */
    method ClickDot(k: nat)
      requires Valid() && dots.Some? && k < |dots.value|
      modifies this
      ensures Valid()
      ensures old(dots.value[k].target).None? ==> Current() == old(Current()) && Timers() == old(Timers())
      ensures old(dots.value[k].target).Some? ==>
        && Current() == ShowIndex(old(Current()), old(dots.value[k].target.value))
        && Timers() == RestartTiming(old(Timers()))
    {
      var target := dots.value[k].target;
      if target.Some? {
        SetIndex(target.value);
        Restart();
      }
    }
  }
}
