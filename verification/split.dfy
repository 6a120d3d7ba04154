/** The resizable two-pane split of the editor (src/components/ResizableSplit.tsx):
    a three-valued pane visibility, two toggles, and a left-pane width, in
    percent, that a drag on the divider keeps inside [20, 80]. */
module Split {
  import opened Wrappers

  datatype Visibility = Both | LeftOnly | RightOnly

  /** The two toggle actions the divider offers. */
  datatype Toggle = ToggleLeftPane | ToggleRightPane

  const MinLeftWidth: real := 20.0
  const MaxLeftWidth: real := 80.0
  const DefaultLeftWidth: real := 50.0

  /** `toggleLeftPane`: hides the left pane when both are shown, and otherwise
      shows both panes again. */
  function ToggleLeft(v: Visibility): (r: Visibility)
    ensures r != v
    ensures r == RightOnly <==> v == Both
    ensures r != LeftOnly
  {
    match v
    case LeftOnly => Both
    case Both => RightOnly
    case RightOnly => Both
  }

  /** `toggleRightPane`: the mirror image of `ToggleLeft`. */
  function ToggleRight(v: Visibility): (r: Visibility)
    ensures r != v
    ensures r == LeftOnly <==> v == Both
    ensures r != RightOnly
  {
    match v
    case RightOnly => Both
    case Both => LeftOnly
    case LeftOnly => Both
  }

  function Apply(t: Toggle, v: Visibility): Visibility {
    match t
    case ToggleLeftPane => ToggleLeft(v)
    case ToggleRightPane => ToggleRight(v)
  }

  /** No toggle moves directly between the two single-pane states: one of the
      two ends of every transition is `Both`. */
  lemma NoDirectSinglePaneSwitch(t: Toggle, v: Visibility)
    ensures v == Both || Apply(t, v) == Both
    ensures v == LeftOnly ==> Apply(t, v) != RightOnly
    ensures v == RightOnly ==> Apply(t, v) != LeftOnly
  {
  }

  /** The same toggle applied twice from `Both` comes back to `Both`. */
  lemma ToggleTwiceFromBoth(t: Toggle)
    ensures Apply(t, Apply(t, Both)) == Both
  {
  }

  /** `Math.max(20, Math.min(80, w))`: the point of [20, 80] nearest to `w`. */
  function Clamp(w: real): (r: real)
    ensures MinLeftWidth <= r <= MaxLeftWidth
    ensures MinLeftWidth <= w <= MaxLeftWidth ==> r == w
    ensures w < MinLeftWidth ==> r == MinLeftWidth
    ensures w > MaxLeftWidth ==> r == MaxLeftWidth
  {
    var upper := if MaxLeftWidth < w then MaxLeftWidth else w;
    if MinLeftWidth > upper then MinLeftWidth else upper
  }

  /** Clamping is idempotent, and it never moves a width further from the range. */
  lemma ClampIdempotent(w: real)
    ensures Clamp(Clamp(w)) == Clamp(w)
    ensures w <= Clamp(w) || Clamp(w) == MaxLeftWidth
  {
  }

  /** The toggles offered in each state: both on the draggable divider, and a
      single "show" button in a single-pane state. */
  function OfferedToggles(v: Visibility): (r: set<Toggle>)
    ensures v == Both ==> r == {ToggleLeftPane, ToggleRightPane}
    ensures v == LeftOnly ==> r == {ToggleRightPane}
    ensures v == RightOnly ==> r == {ToggleLeftPane}
    ensures forall t :: t in r && v != Both ==> Apply(t, v) == Both
  {
    match v
    case Both => {ToggleLeftPane, ToggleRightPane}
    case LeftOnly => {ToggleRightPane}
    case RightOnly => {ToggleLeftPane}
  }

  /** The divider can start a drag only when both panes are shown. */
  predicate HasDraggableDivider(v: Visibility) {
    v == Both
  }

  /** The rendered width of the left pane, in percent; `None` when it is hidden. */
  function LeftPaneWidth(v: Visibility, leftWidth: real): (r: Option<real>)
    ensures r.None? <==> v == RightOnly
    ensures v == LeftOnly ==> r == Some(100.0)
  {
    match v
    case Both => Some(leftWidth)
    case LeftOnly => Some(100.0)
    case RightOnly => None
  }

  /** The rendered width of the right pane, in percent; `None` when it is hidden. */
  function RightPaneWidth(v: Visibility, leftWidth: real): (r: Option<real>)
    ensures r.None? <==> v == LeftOnly
    ensures v == RightOnly ==> r == Some(100.0)
  {
    match v
    case Both => Some(100.0 - leftWidth)
    case RightOnly => Some(100.0)
    case LeftOnly => None
  }

  /** In every state the visible panes share exactly 100 percent, and with a
      width the drag can produce neither pane of the split view is narrower
      than the minimum. */
  lemma VisibleWidthsFill(v: Visibility, leftWidth: real)
    ensures var l := LeftPaneWidth(v, leftWidth);
            var r := RightPaneWidth(v, leftWidth);
            (if l.Some? then l.value else 0.0) + (if r.Some? then r.value else 0.0) == 100.0
    ensures v == Both ==>
              LeftPaneWidth(v, Clamp(leftWidth)).value >= MinLeftWidth
              && RightPaneWidth(v, Clamp(leftWidth)).value >= 100.0 - MaxLeftWidth
  {
  }

  /** The component's state: `leftWidth`, `isDragging` and `paneVisibility`. */
  class SplitPane {
    var leftWidth: real
    var isDragging: bool
    var visibility: Visibility

    /** Mounting: both panes shown, not dragging, and the given initial width
        (50 when the property is omitted). */
    constructor (initialLeftWidth: Option<real>)
      ensures visibility == Both && !isDragging
      ensures leftWidth == (if initialLeftWidth.Some? then initialLeftWidth.value else DefaultLeftWidth)
    {
      leftWidth := if initialLeftWidth.Some? then initialLeftWidth.value else DefaultLeftWidth;
      isDragging := false;
      visibility := Both;
    }

    method ToggleLeftPane()
      modifies this
      ensures visibility == ToggleLeft(old(visibility))
      ensures leftWidth == old(leftWidth) && isDragging == old(isDragging)
    {
      if visibility == LeftOnly {
        visibility := Both;
      } else if visibility == Both {
        visibility := RightOnly;
      } else if visibility == RightOnly {
        visibility := Both;
      }
    }

    method ToggleRightPane()
      modifies this
      ensures visibility == ToggleRight(old(visibility))
      ensures leftWidth == old(leftWidth) && isDragging == old(isDragging)
    {
      if visibility == RightOnly {
        visibility := Both;
      } else if visibility == Both {
        visibility := LeftOnly;
      } else if visibility == LeftOnly {
        visibility := Both;
      }
    }

    /** A mouse-down on the divider starts a drag; only the `Both` state has a
        divider that listens for it. */
    method DividerMouseDown()
      modifies this
      ensures isDragging == (old(isDragging) || HasDraggableDivider(visibility))
      ensures visibility == old(visibility) && leftWidth == old(leftWidth)
    {
      if visibility == Both {
        isDragging := true;
      }
    }

    /** A mouse move while dragging sets the width to the pointer position,
        clamped; without a drag no listener is attached. */
    method MouseMove(pointerWidth: real)
      modifies this
      ensures leftWidth == (if old(isDragging) then Clamp(pointerWidth) else old(leftWidth))
      ensures isDragging == old(isDragging) && visibility == old(visibility)
      ensures old(isDragging) ==> MinLeftWidth <= leftWidth <= MaxLeftWidth
    {
      if isDragging {
        var w := Clamp(pointerWidth);
        leftWidth := w;
      }
    }

    /** A mouse-up ends the drag. */
    method MouseUp()
      modifies this
      ensures !isDragging
      ensures visibility == old(visibility) && leftWidth == old(leftWidth)
    {
      isDragging := false;
    }
  }
}
