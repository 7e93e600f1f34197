/** The page's small event handlers, each a decision over what the DOM lookups
    returned, given as the effect record the handler would carry out. */
module Handlers {
  import opened Dom

  /* ---------------------------------------------------------------------- */
  /* Same-page anchor click                                                  */
  /* ---------------------------------------------------------------------- */

  /** `#mainNav` as the handler sees it: whether it has the `show` class and
      whether the collapse library already holds an instance for it. */
  datatype Nav = Nav(shown: bool, hasInstance: bool)

  /** How the open mobile navigation is closed: not at all, through the
      existing collapse instance, or through a new one built with
      `toggle: false`. */
  datatype Collapse = NoCollapse | HideExisting | HideNew

  /** What a click does: cancel the browser's own navigation, scroll an
      element to the top of the viewport, close the navigation. */
  datatype AnchorEffect = AnchorEffect(preventDefault: bool, scrollTo: Option<ElementId>, collapse: Collapse)

  const NoEffect: AnchorEffect := AnchorEffect(false, None, NoCollapse)

  /** An href that names a target: present, not empty and not a bare `#`. */
  predicate NamesTarget(href: Option<string>) {
    href.Some? && href.value != "" && href.value != "#"
  }

  /** The collapse step after a scroll: only when the navigation exists, is
      open and the collapse library is loaded. */
  function CollapseStep(nav: Option<Nav>, collapseLibrary: bool): (c: Collapse)
    ensures c != NoCollapse <==> nav.Some? && nav.value.shown && collapseLibrary
    ensures c == HideExisting <==> nav.Some? && nav.value.shown && collapseLibrary && nav.value.hasInstance
  {
    if nav.Some? && nav.value.shown && collapseLibrary then
      if nav.value.hasInstance then HideExisting else HideNew
    else NoCollapse
  }

  /** The click handler of an `a[href^="#"]`. `find` is the document's
      selector lookup. */
  function AnchorClick(href: Option<string>, find: string -> Option<ElementId>, nav: Option<Nav>,
                       collapseLibrary: bool): (r: AnchorEffect)
    ensures !NamesTarget(href) ==> r == NoEffect
    ensures NamesTarget(href) && find(href.value).None? ==> r == NoEffect
    ensures r.preventDefault <==> NamesTarget(href) && find(href.value).Some?
    ensures r.scrollTo.Some? <==> r.preventDefault
    ensures r.scrollTo.Some? ==> r.scrollTo == find(href.value)
    ensures r.collapse != NoCollapse ==> r.preventDefault
    ensures r.preventDefault ==> r.collapse == CollapseStep(nav, collapseLibrary)
  {
    if href.None? || href.value == "" || href.value == "#" then NoEffect
    else
      match find(href.value)
      case None => NoEffect
      case Some(target) => AnchorEffect(true, Some(target), CollapseStep(nav, collapseLibrary))
  }

  /* ---------------------------------------------------------------------- */
  /* Progress bar                                                            */
  /* ---------------------------------------------------------------------- */

  /** `fillProgress`: the bar's new width style from its `data-progress`
      attribute (None when the attribute is absent) and its current width. */
  function FillProgress(pct: Option<string>, width: string): (w: string)
    ensures pct.None? || pct.value == "" ==> w == width
    ensures pct.Some? && pct.value != "" ==> |w| == |pct.value| + 1 && w[..|pct.value|] == pct.value && w[|pct.value|] == '%'
  {
    if pct.None? || pct.value == "" then width else pct.value + "%"
  }

  /** The width written does not depend on the width before, so a second fill
      changes nothing. */
  lemma FillProgressIdempotent(pct: Option<string>, width: string, other: string)
    ensures FillProgress(pct, FillProgress(pct, width)) == FillProgress(pct, width)
    ensures pct.Some? && pct.value != "" ==> FillProgress(pct, width) == FillProgress(pct, other)
  {
  }

  /* ---------------------------------------------------------------------- */
  /* Contact form                                                            */
  /* ---------------------------------------------------------------------- */

  /** The form's controls: current values and the defaults `reset()` restores. */
  datatype Form = Form(values: map<string, string>, defaults: map<string, string>)

  const QueuedNote: string := "Message queued (demo). Connect this form to your backend/email service."

  /** After a submit: whether the default submission was cancelled, the form,
      and the note's text (None when `#formNote` is missing). */
  datatype SubmitEffect = SubmitEffect(preventDefault: bool, form: Form, note: Option<string>)

  /** The `submit` handler of `#contactForm`. */
  function Submit(form: Form, note: Option<string>): (r: SubmitEffect)
    ensures r.preventDefault
    ensures r.form.values == form.defaults && r.form.defaults == form.defaults
    ensures r.note.Some? <==> note.Some?
    ensures r.note.Some? ==> r.note.value == QueuedNote
  {
    var shown := if note.Some? then Some(QueuedNote) else None;
    SubmitEffect(true, Form(form.defaults, form.defaults), shown)
  }

  /** Submitting again after a submit gives the same page: the handler is
      idempotent. */
  lemma SubmitIdempotent(form: Form, note: Option<string>)
    ensures Submit(Submit(form, note).form, Submit(form, note).note) == Submit(form, note)
  {
  }
}
