/**
 * The `<search-facet-values>` element of the static search page: the first
 * `defaultNumVisible` values are always shown, the rest (the controlled slice) are
 * shown or hidden together by a "show more" / "show fewer" control.
 *
 * The element keeps the inline `style.display` of each value and of the control; the
 * attribute `initial-num-visible` arrives already parsed.
 */
module SearchFacetValues {
  import opened Wrappers
  import opened JsBuiltins

  /** An inline `style.display`: never set, `flex` or `none`. */
  datatype Display = Unset | Flex | NoDisplay

  const ShowMore := "show more"
  const ShowFewer := "show fewer"

  /** The control's text for a `showAll` state. */
  function Label(showAll: bool): (l: string)
    ensures l == ShowFewer <==> showAll
    ensures l == ShowMore <==> !showAll
  {
    if showAll then ShowFewer else ShowMore
  }

  /** The display of every controlled value for a `showAll` state. */
  function SliceDisplay(showAll: bool): Display {
    if showAll then Flex else NoDisplay
  }

  /** The displays after the change handler: the values from `from` on follow `showAll`. */
  function Applied(ds: seq<Display>, from: nat, showAll: bool): (r: seq<Display>)
    requires from <= |ds|
    ensures |r| == |ds|
    ensures forall i :: 0 <= i < |ds| ==> r[i] == if i < from then ds[i] else SliceDisplay(showAll)
  {
    ds[..from] + seq(|ds| - from, _ => SliceDisplay(showAll))
  }

  /**
   * The handler leaves the always-shown values alone and shows the slice iff `showAll`;
   * running it again for another state keeps only the last one.
   */
  lemma AppliedSpec(ds: seq<Display>, from: nat, a: bool, b: bool)
    requires from <= |ds|
    ensures |Applied(ds, from, a)| == |ds|
    ensures forall i :: 0 <= i < from ==> Applied(ds, from, a)[i] == ds[i]
    ensures forall i :: from <= i < |ds| ==> (Applied(ds, from, a)[i] == Flex <==> a)
    ensures forall i :: from <= i < |ds| ==> (Applied(ds, from, a)[i] == NoDisplay <==> !a)
    ensures Applied(Applied(ds, from, a), from, b) == Applied(ds, from, b)
  {
  }

  class SearchFacetValuesElement {
    var defaultNumVisible: int
    var showAll: bool
    /** The inline display of each `<search-facet-value>` child. */
    var displays: seq<Display>
    /** Where `valueElsSlice` starts; `None` before the first connect. */
    var sliceFrom: Option<nat>
    var controlText: string
    var showMoreDisplay: Display
    /** How many click handlers the control has been given. */
    var toggleRegistrations: nat

    ghost predicate Valid()
      reads this
    {
      sliceFrom.Some? ==> sliceFrom.value <= |displays|
    }

    /** The controlText and the slice show the current `showAll` state. */
    ghost predicate InSync()
      reads this
    {
      && sliceFrom.Some? && sliceFrom.value <= |displays|
      && controlText == Label(showAll)
      && displays == Applied(displays, sliceFrom.value, showAll)
    }

    /** Five values shown by default, collapsed, with the control reading "show more". */
    constructor (numValues: nat)
      ensures defaultNumVisible == 5 && !showAll
      ensures displays == seq(numValues, _ => Unset) && sliceFrom == None
      ensures controlText == ShowMore && showMoreDisplay == Unset && toggleRegistrations == 0
      ensures Valid()
    {
      defaultNumVisible := 5;
      showAll := false;
      displays := seq(numValues, _ => Unset);
      sliceFrom := None;
      controlText := ShowMore;
      showMoreDisplay := Unset;
      toggleRegistrations := 0;
    }

    /**
     * Reads the attribute, takes the slice after `defaultNumVisible` values (as
     * `slice` does, so a negative count counts from the end), hides the control when
     * the slice is empty and gives it a click handler otherwise, then runs the change
     * handler.
     */
    method ConnectedCallback(initialNumVisible: Option<int>)
      requires Valid()
      modifies this
      ensures Valid() && InSync()
      ensures defaultNumVisible == initialNumVisible.GetOr(old(defaultNumVisible))
      ensures |displays| == |old(displays)| && sliceFrom == Some(SliceIndex(defaultNumVisible, |displays|))
      ensures sliceFrom.value == |displays| ==> showMoreDisplay == NoDisplay && toggleRegistrations == old(toggleRegistrations)
      ensures sliceFrom.value < |displays| ==> showMoreDisplay == old(showMoreDisplay) && toggleRegistrations == old(toggleRegistrations) + 1
      ensures showAll == old(showAll)
      ensures |displays| == |old(displays)|
      ensures displays == Applied(old(displays), sliceFrom.value, showAll)
    {
      if initialNumVisible.Some? {
        defaultNumVisible := initialNumVisible.value;
      }
      sliceFrom := Some(SliceIndex(defaultNumVisible, |displays|));
      if sliceFrom.value < |displays| {
        toggleRegistrations := toggleRegistrations + 1;
      } else {
        showMoreDisplay := NoDisplay;
      }
      ShowAllChangeHandler();
    }

    /** Sets the controlText and, value by value, the display of the slice. */
    method ShowAllChangeHandler()
      requires Valid() && sliceFrom.Some?
      modifies this
      ensures Valid() && InSync()
      ensures controlText == Label(showAll)
      ensures |displays| == |old(displays)|
      ensures displays == Applied(old(displays), sliceFrom.value, showAll)
      ensures showAll == old(showAll) && sliceFrom == old(sliceFrom) && defaultNumVisible == old(defaultNumVisible)
      ensures showMoreDisplay == old(showMoreDisplay) && toggleRegistrations == old(toggleRegistrations)
    {
      controlText := Label(showAll);
      var from := sliceFrom.value;
      var display := SliceDisplay(showAll);
      var ds := displays;
      var i := from;
      while i < |ds|
        invariant from <= i <= |ds| == |displays|
        invariant forall k :: 0 <= k < |ds| ==> ds[k] == if from <= k < i then display else displays[k]
      {
        ds := ds[i := display];
        i := i + 1;
      }
      AppliedSpec(displays, from, showAll, showAll);
      displays := ds;
    }

    /** A click on the control: flips `showAll` and runs the change handler. */
    method ToggleShowAll()
      requires Valid() && sliceFrom.Some?
      modifies this
      ensures Valid() && InSync()
      ensures showAll == !old(showAll)
      ensures |displays| == |old(displays)|
      ensures displays == Applied(old(displays), sliceFrom.value, showAll)
      ensures sliceFrom == old(sliceFrom) && defaultNumVisible == old(defaultNumVisible)
      ensures showMoreDisplay == old(showMoreDisplay) && toggleRegistrations == old(toggleRegistrations)
    {
      showAll := !showAll;
      ShowAllChangeHandler();
    }
  }

  /** Two clicks on the control give back the state it showed before. */
  method ToggleTwice(e: SearchFacetValuesElement)
    requires e.Valid() && e.InSync()
    modifies e
    ensures e.showAll == old(e.showAll) && e.displays == old(e.displays) && e.controlText == old(e.controlText)
  {
    ghost var from := e.sliceFrom.value;
    ghost var ds := e.displays;
    e.ToggleShowAll();
    e.ToggleShowAll();
    AppliedSpec(ds, from, !old(e.showAll), old(e.showAll));
  }
}
