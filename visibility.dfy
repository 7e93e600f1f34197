/** The one-shot visibility dispatcher: the IntersectionObserver callback that
    starts a counter's animation or fills a progress bar the first time the
    element is reported visible, and never again. */
module Visibility {
  import opened Dom

  /** An observed element as the callback inspects it: its identity, whether
      it has a `data-counter` attribute and whether its class list holds
      `progress-bar`. */
  datatype Element = Element(id: ElementId, isCounter: bool, isProgressBar: bool)

  /** One observer entry: whether the element crossed the visibility
      threshold, and its target (which the callback checks for null). */
  datatype Entry = Entry(isIntersecting: bool, target: Option<Element>)

  /** A call of `animateCounter` or of `fillProgress` on an element. */
  datatype Animation = CounterRun(id: ElementId) | ProgressFill(id: ElementId)

  /** The two seen-sets and the animations started so far, in order. */
  datatype Seen = Seen(counters: set<ElementId>, progress: set<ElementId>, fired: seq<Animation>)

  const NothingSeen: Seen := Seen({}, {}, [])

  predicate NoRepeats(xs: seq<Animation>) {
    forall i, j :: 0 <= i < j < |xs| ==> xs[i] != xs[j]
  }

  /** The seen-sets record exactly the animations fired, each fired once. */
  ghost predicate Consistent(s: Seen) {
    && (forall id :: id in s.counters <==> CounterRun(id) in s.fired)
    && (forall id :: id in s.progress <==> ProgressFill(id) in s.fired)
    && NoRepeats(s.fired)
  }

  /** Does entry `e` start a counter animation in state `s`? */
  predicate FiresCounter(s: Seen, e: Entry) {
    e.isIntersecting && e.target.Some? && e.target.value.isCounter && e.target.value.id !in s.counters
  }

  /** The callback's body for one entry. The two checks are independent: an
      element that is both a counter and a progress bar gets both. */
  function DispatchEntry(s: Seen, e: Entry): (r: Seen)
    ensures !e.isIntersecting ==> r == s
    ensures s.counters <= r.counters && s.progress <= r.progress
    ensures s.fired <= r.fired
  {
    if !e.isIntersecting then s
    else
      var afterCounter :=
        if e.target.Some? && e.target.value.isCounter && e.target.value.id !in s.counters
        then Seen(s.counters + {e.target.value.id}, s.progress, s.fired + [CounterRun(e.target.value.id)])
        else s;
      if e.target.Some? && e.target.value.isProgressBar && e.target.value.id !in afterCounter.progress
      then Seen(afterCounter.counters, afterCounter.progress + {e.target.value.id},
                afterCounter.fired + [ProgressFill(e.target.value.id)])
      else afterCounter
  }

  /** One entry: a counter animation starts for exactly the visible counter
      that was not yet seen, a fill for exactly the visible bar not yet seen. */
  lemma DispatchEntryFires(s: Seen, e: Entry, x: ElementId)
    ensures CounterRun(x) in DispatchEntry(s, e).fired[|s.fired|..] <==>
      FiresCounter(s, e) && e.target.value.id == x
    ensures ProgressFill(x) in DispatchEntry(s, e).fired[|s.fired|..] <==>
      e.isIntersecting && e.target.Some? && e.target.value.isProgressBar
      && e.target.value.id !in s.progress && e.target.value.id == x
  {
    var r := DispatchEntry(s, e);
    if e.isIntersecting && e.target.Some? {
      var id := e.target.value.id;
      var added := r.fired[|s.fired|..];
      if FiresCounter(s, e) {
        assert added[0] == CounterRun(id);
      }
      if e.target.value.isProgressBar && id !in s.progress {
        assert added[|added| - 1] == ProgressFill(id);
      }
    }
  }

  lemma DispatchEntryPreserves(s: Seen, e: Entry)
    requires Consistent(s)
    ensures Consistent(DispatchEntry(s, e))
  {
  }

  /** The callback run over a batch of entries, in order. The seen-sets only
      grow and the record of fired animations only extends. */
  function DispatchAll(s: Seen, es: seq<Entry>): (r: Seen)
    ensures s.counters <= r.counters && s.progress <= r.progress
    ensures s.fired <= r.fired
  {
    if es == [] then s else DispatchEntry(DispatchAll(s, es[..|es| - 1]), es[|es| - 1])
  }

  /** The entries that report the element visible, in order. */
  function Visible(es: seq<Entry>): (r: seq<Entry>)
    ensures |r| <= |es|
    ensures forall k :: 0 <= k < |r| ==> r[k].isIntersecting
  {
    if es == [] then []
    else if es[|es| - 1].isIntersecting then Visible(es[..|es| - 1]) + [es[|es| - 1]]
    else Visible(es[..|es| - 1])
  }

  /** Over any batch the sets stay consistent with what has fired, so no
      animation ever fires twice. */
  lemma {:induction false} DispatchAllPreserves(s: Seen, es: seq<Entry>)
    requires Consistent(s)
    ensures Consistent(DispatchAll(s, es))
    ensures NoRepeats(DispatchAll(s, es).fired)
  {
    if es != [] {
      DispatchAllPreserves(s, es[..|es| - 1]);
      DispatchEntryPreserves(DispatchAll(s, es[..|es| - 1]), es[|es| - 1]);
    }
  }

  /** Entries that do not report the element visible make no difference. */
  lemma {:induction false} DispatchAllIgnoresHidden(s: Seen, es: seq<Entry>)
    ensures DispatchAll(s, es) == DispatchAll(s, Visible(es))
  {
    if es != [] {
      var init := es[..|es| - 1];
      DispatchAllIgnoresHidden(s, init);
      if es[|es| - 1].isIntersecting {
        var v := Visible(init) + [es[|es| - 1]];
        assert v[..|v| - 1] == Visible(init);
      }
    }
  }

  /** Every counter and every bar reported visible somewhere in the batch has
      been marked seen by its end. */
  lemma {:induction false} DispatchAllReaches(s: Seen, es: seq<Entry>, k: nat)
    requires k < |es| && es[k].isIntersecting && es[k].target.Some?
    ensures es[k].target.value.isCounter ==> es[k].target.value.id in DispatchAll(s, es).counters
    ensures es[k].target.value.isProgressBar ==> es[k].target.value.id in DispatchAll(s, es).progress
  {
    var init := es[..|es| - 1];
    if k < |es| - 1 {
      assert init[k] == es[k];
      DispatchAllReaches(s, init, k);
    }
  }

  /** From page load: each element's counter animation and bar fill fire at
      most once, and each fires if the element is ever reported visible. */
  lemma FiresOnceFromLoad(es: seq<Entry>, k: nat)
    requires k < |es| && es[k].isIntersecting && es[k].target.Some?
    ensures NoRepeats(DispatchAll(NothingSeen, es).fired)
    ensures es[k].target.value.isCounter ==> CounterRun(es[k].target.value.id) in DispatchAll(NothingSeen, es).fired
    ensures es[k].target.value.isProgressBar ==> ProgressFill(es[k].target.value.id) in DispatchAll(NothingSeen, es).fired
  {
    DispatchAllPreserves(NothingSeen, es);
    DispatchAllReaches(NothingSeen, es, k);
  }

  /** Without IntersectionObserver every counter is animated and every bar
      filled at once, counters first, with no seen-sets involved. */
  function Fallback(counterEls: seq<ElementId>, progressEls: seq<ElementId>): (r: seq<Animation>)
    ensures |r| == |counterEls| + |progressEls|
    ensures forall id :: CounterRun(id) in r <==> id in counterEls
    ensures forall id :: ProgressFill(id) in r <==> id in progressEls
    ensures forall k :: 0 <= k < |counterEls| ==> r[k] == CounterRun(counterEls[k])
    ensures forall k :: 0 <= k < |progressEls| ==> r[|counterEls| + k] == ProgressFill(progressEls[k])
  {
    if counterEls != [] then [CounterRun(counterEls[0])] + Fallback(counterEls[1..], progressEls)
    else if progressEls != [] then [ProgressFill(progressEls[0])] + Fallback([], progressEls[1..])
    else []
  }

  /** The observer object: the two WeakSets of the script and the record of
      animations it has started. */
  class Dispatcher {
    var seenCounters: set<ElementId>
    var seenProgress: set<ElementId>
    var fired: seq<Animation>

    function State(): Seen
      reads this
    {
      Seen(seenCounters, seenProgress, fired)
    }

    ghost predicate Valid()
      reads this
    {
      Consistent(State())
    }

    constructor ()
      ensures Valid() && State() == NothingSeen
    {
      seenCounters, seenProgress, fired := {}, {}, [];
    }

    /** The observer callback over one batch of entries. */
    method OnEntries(entries: seq<Entry>)
      requires Valid()
      modifies this
      ensures Valid()
      ensures State() == DispatchAll(old(State()), entries)
    {
      var k := 0;
      while k < |entries|
        invariant 0 <= k <= |entries|
        invariant State() == DispatchAll(old(State()), entries[..k])
      {
        var entry := entries[k];
        if entry.isIntersecting {
          if entry.target.Some? && entry.target.value.isCounter {
            if entry.target.value.id !in seenCounters {
              seenCounters := seenCounters + {entry.target.value.id};
              fired := fired + [CounterRun(entry.target.value.id)];
            }
          }
          if entry.target.Some? && entry.target.value.isProgressBar {
            if entry.target.value.id !in seenProgress {
              seenProgress := seenProgress + {entry.target.value.id};
              fired := fired + [ProgressFill(entry.target.value.id)];
            }
          }
        }
        assert entries[..k + 1][..k] == entries[..k];
        k := k + 1;
      }
      assert entries[..k] == entries;
      DispatchAllPreserves(old(State()), entries);
    }
  }
}
