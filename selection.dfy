/**
 * The cause selection shared by the bar chart and the cartogram. The source
 * keeps it as a JavaScript `Set` that travels through the dispatcher and as the
 * click handlers each view rebinds when a selection arrives; here the handlers
 * are explicit states and the set is an object both views may hold.
 */
module Selection {
  import opened Wrappers

  /** The JavaScript `Set` of selected causes; handlers add to it and delete from it in place. */
  class CauseSet {
    var items: set<string>

    constructor (init: set<string>)
      ensures items == init
    {
      items := init;
    }
  }

  /** What a click on a bar does. */
  datatype BarHandler =
    | BarInitial                     // bound by rendering: selected bars plus this one
    | BarSelectOnly                  // bound for an empty selection: just this one
    | BarToggle(causes: CauseSet)    // bound for a non-empty selection: toggle in that set

  /** What a click on an event circle does. */
  datatype CircleHandler =
    | CircleUnbound                  // rendering binds no click handler
    | CircleSelectOnly               // bound for an empty selection: just this circle's type
    | CircleRemove(causes: CauseSet) // bound for a non-empty selection: remove from that set

  /** The highlight classes last applied to a view's marks. */
  datatype Highlight = Cleared | Marked(selected: set<string>)

  /** The classes one mark carries: none, `cause-selected` or `cause-not-selected`. */
  datatype Mark = Plain | CauseSelected | CauseNotSelected

  function MarkOf(h: Highlight, cause: string): (m: Mark)
    ensures m == Plain <==> h.Cleared?
    ensures m == CauseSelected <==> h.Marked? && cause in h.selected
  {
    match h
    case Cleared => Plain
    case Marked(s) => if cause in s then CauseSelected else CauseNotSelected
  }

  /** The highlight a view applies when a selection arrives: cleared for the empty set. */
  function HighlightFor(causes: set<string>): (h: Highlight)
    ensures h.Cleared? <==> causes == {}
    ensures forall c :: MarkOf(h, c) == CauseSelected <==> c in causes
  {
    if causes == {} then Cleared else Marked(causes)
  }

  /** The selection after a click on a bar of a non-empty selection: `c` toggled. */
  function Toggle(s: set<string>, c: string): (r: set<string>)
    ensures c in r <==> c !in s
    ensures r - {c} == s - {c}
  {
    if c in s then s - {c} else s + {c}
  }

  /**
   * The set a click on bar `c` sends while the rendering handler is bound: the
   * causes of the bars among `shown` that carry `cause-selected`, plus `c`.
   */
  function InitialClickPayload(h: Highlight, shown: set<string>, c: string): (r: set<string>)
    ensures c in r
    ensures forall x :: x != c ==> (x in r <==> x in shown && MarkOf(h, x) == CauseSelected)
    ensures h.Cleared? ==> r == {c}
  {
    match h
    case Cleared => {c}
    case Marked(s) => s * shown + {c}
  }

  /**
   * A click on a circle of a non-empty selection: nothing for a type outside
   * the set, otherwise the set without that type; it never adds.
   */
  function RemoveClick(s: set<string>, c: string): (r: Option<set<string>>)
    ensures r.None? <==> c !in s
    ensures r.Some? ==> r.value < s && r.value == s - {c}
  {
    if c in s then Some(s - {c}) else None
  }

  /**
   * The selection as a view's click handler encodes it. `Rendered` is the
   * handler drawing binds, before any selection reaches the view: a bar click
   * sends its own cause, since no bar is marked yet, and a circle click does
   * nothing.
   */
  datatype SelectionState = Rendered | NoSelection | Selecting(causes: set<string>)

  predicate ValidState(st: SelectionState) {
    st.Selecting? ==> st.causes != {}
  }

  /** The state every view enters when a selection is dispatched. */
  function Deliver(payload: set<string>): (st: SelectionState)
    ensures ValidState(st)
    ensures st == NoSelection <==> payload == {}
    ensures st.Selecting? ==> st.causes == payload
  {
    if payload == {} then NoSelection else Selecting(payload)
  }

  /** The set dispatched by a click on a bar of cause `c`. */
  function BarClick(st: SelectionState, c: string): (payload: set<string>)
    ensures !st.Selecting? ==> payload == {c}
    ensures st.Selecting? ==> (c in payload <==> c !in st.causes) && payload - {c} == st.causes - {c}
  {
    match st
    case Rendered => {c}
    case NoSelection => {c}
    case Selecting(s) => Toggle(s, c)
  }

  /** The set dispatched by a click on a circle of type `c`, if any. */
  function CircleClick(st: SelectionState, c: string): (payload: Option<set<string>>)
    ensures st.Rendered? ==> payload.None?
    ensures st.NoSelection? ==> payload == Some({c})
    ensures st.Selecting? ==> (payload.None? <==> c !in st.causes)
    ensures st.Selecting? && payload.Some? ==> payload.value < st.causes
  {
    match st
    case Rendered => None
    case NoSelection => Some({c})
    case Selecting(s) => RemoveClick(s, c)
  }

  /** Whether hover, move and leave on a circle of type `c` do anything. */
  function CircleResponds(st: SelectionState, c: string): (r: bool)
    ensures r <==> !st.Selecting? || c in st.causes
  {
    match st
    case Rendered => true
    case NoSelection => true
    case Selecting(s) => c in s
  }

  /** The state after a click on a bar, once the dispatcher has delivered it. */
  function AfterBarClick(st: SelectionState, c: string): SelectionState {
    Deliver(BarClick(st, c))
  }

  /** The state after a click on a circle; an inert click leaves it alone. */
  function AfterCircleClick(st: SelectionState, c: string): SelectionState {
    match CircleClick(st, c)
    case None => st
    case Some(p) => Deliver(p)
  }

  /**
   * Clicking the same bar twice restores any valid selection state; from the
   * rendered state it ends with no selection.
   */
  lemma BarClickTwice(st: SelectionState, c: string)
    requires ValidState(st)
    ensures AfterBarClick(AfterBarClick(st, c), c) == if st.Rendered? then NoSelection else st
  {
    match st
    case Rendered =>
    case NoSelection =>
    case Selecting(s) =>
      if c in s {
        if s - {c} == {} {
          assert s == {c};
        } else {
          assert s - {c} + {c} == s;
        }
      } else {
        assert s + {c} - {c} == s;
      }
  }

  /** Circle clicks only ever shrink a selection, down to no selection at all. */
  lemma CircleClickNeverAdds(st: SelectionState, c: string)
    requires st.Selecting?
    ensures AfterCircleClick(st, c).NoSelection? || AfterCircleClick(st, c).causes <= st.causes
    ensures AfterCircleClick(st, c) == st <==> c !in st.causes
  {
  }

  /** Before any selection reaches it, the cartogram ignores circle clicks and answers every hover. */
  lemma RenderedCircleInert(c: string)
    ensures AfterCircleClick(Rendered, c) == Rendered
    ensures CircleResponds(Rendered, c)
  {
  }

  /**
   * From no selection, clicking bars `a` then `b` selects both; a click on
   * blank space then clears, and the next click starts a fresh selection.
   */
  lemma SelectTwoThenClear(a: string, b: string, c: string)
    requires a != b
    ensures AfterBarClick(Rendered, a) == Selecting({a})
    ensures AfterBarClick(NoSelection, a) == Selecting({a})
    ensures AfterBarClick(AfterBarClick(NoSelection, a), b) == Selecting({a, b})
    ensures AfterBarClick(Deliver({}), c) == Selecting({c})
  {
  }
}
