/**
 * The `<search-facet-values>` element of the search app: on its first connection only,
 * the first `defaultNumVisible` values get the `d-flex` class and the rest `d-none`,
 * and when there is a rest a "show more" button is appended that switches the rest
 * between `d-flex` and `d-none`.
 *
 * Visibility lives in each value's class list. The attribute `initial-num-visible`
 * arrives already parsed.
 */
module AppSearchFacetValues {
  import opened Wrappers
  import opened JsBuiltins

  const ShowMore := "show more"
  const ShowFewer := "show fewer"
  const DFlex := "d-flex"
  const DNone := "d-none"
  const DBlock := "d-block"

  /** The button's text for a `showAll` state. */
  function Label(showAll: bool): (l: string)
    ensures l == ShowFewer <==> showAll
    ensures l == ShowMore <==> !showAll
  {
    if showAll then ShowFewer else ShowMore
  }

  /** A value's classes after the change handler adds one class and removes the other. */
  function Switch(cs: set<string>, showAll: bool): (r: set<string>)
    ensures DFlex in r <==> showAll
    ensures DNone in r <==> !showAll
    ensures forall c :: c != DFlex && c != DNone ==> (c in r <==> c in cs)
  {
    if showAll then cs + {DFlex} - {DNone} else cs + {DNone} - {DFlex}
  }

  /** The class lists after the change handler: the values from `from` on follow `showAll`. */
  function Switched(css: seq<set<string>>, from: nat, showAll: bool): (r: seq<set<string>>)
    requires from <= |css|
    ensures |r| == |css|
    ensures forall i :: 0 <= i < |css| ==> r[i] == if i < from then css[i] else Switch(css[i], showAll)
  {
    seq(|css|, i requires 0 <= i < |css| => if i < from then css[i] else Switch(css[i], showAll))
  }

  /** The class lists after the first connection marks the shown and the hidden values. */
  function Marked(css: seq<set<string>>, from: nat): (r: seq<set<string>>)
    requires from <= |css|
    ensures |r| == |css|
    ensures forall i :: 0 <= i < |css| ==> r[i] == if i < from then css[i] + {DFlex} else css[i] + {DNone}
  {
    seq(|css|, i requires 0 <= i < |css| => if i < from then css[i] + {DFlex} else css[i] + {DNone})
  }

  /**
   * After the first connection, when the values came without visibility classes, a
   * value has `d-flex` iff it is among the first `from`, and `d-none` iff it is not.
   */
  lemma FirstConnectVisibility(css: seq<set<string>>, from: nat)
    requires from <= |css|
    requires forall i :: 0 <= i < |css| ==> DFlex !in css[i] && DNone !in css[i]
    ensures var r := if from < |css| then Switched(Marked(css, from), from, false) else Marked(css, from);
      forall i :: 0 <= i < |css| ==> (DFlex in r[i] <==> i < from) && (DNone in r[i] <==> i >= from)
  {
  }

  /** Switching again for another state keeps only the last one. */
  lemma SwitchedTwice(css: seq<set<string>>, from: nat, a: bool, b: bool)
    requires from <= |css|
    ensures Switched(Switched(css, from, a), from, b) == Switched(css, from, b)
  {
    var r, r' := Switched(Switched(css, from, a), from, b), Switched(css, from, b);
    forall i | from <= i < |css| ensures r[i] == r'[i] {
      SwitchTwice(css[i], a, b);
    }
  }

  lemma SwitchTwice(cs: set<string>, a: bool, b: bool)
    ensures Switch(Switch(cs, a), b) == Switch(cs, b)
  {
  }

  class AppSearchFacetValuesElement {
    var defaultNumVisible: int
    var showAll: bool
    var connectCount: int
    /** The class list of each `<search-facet-value>` child. */
    var valueClasses: seq<set<string>>
    var hostClasses: set<string>
    /** Where `valueElsSlice` starts; `None` before the first connection. */
    var sliceFrom: Option<nat>
    /** How many show-more buttons were appended, and the text of the first (which `querySelector` finds). */
    var showMoreButtons: nat
    var buttonText: string
    /** How many click handlers the buttons have been given. */
    var toggleRegistrations: nat

    ghost predicate Valid()
      reads this
    {
      && (sliceFrom.Some? ==> sliceFrom.value <= |valueClasses|)
      && (showMoreButtons > 0 ==> sliceFrom.Some?)
    }

    /** Five values shown by default, collapsed, not yet connected. */
    constructor (classes: seq<set<string>>)
      ensures defaultNumVisible == 5 && !showAll && connectCount == 1
      ensures valueClasses == classes && hostClasses == {} && sliceFrom == None
      ensures showMoreButtons == 0 && toggleRegistrations == 0
      ensures Valid()
    {
      defaultNumVisible := 5;
      showAll := false;
      connectCount := 1;
      valueClasses := classes;
      hostClasses := {};
      sliceFrom := None;
      showMoreButtons := 0;
      buttonText := "";
      toggleRegistrations := 0;
    }

    /**
     * Reads the attribute, marks the first `defaultNumVisible` values `d-flex` and the
     * rest `d-none`; when there is a rest, appends the button, collapses and registers
     * the click handler.
     */
    method InitialConnectCallback(initialNumVisible: Option<int>)
      requires Valid()
      modifies this
      ensures Valid()
      ensures defaultNumVisible == initialNumVisible.GetOr(old(defaultNumVisible))
      ensures hostClasses == old(hostClasses) + {DBlock} && connectCount == old(connectCount)
      ensures |valueClasses| == |old(valueClasses)| && sliceFrom == Some(SliceIndex(defaultNumVisible, |valueClasses|))
      ensures sliceFrom.value == |valueClasses| ==>
        && valueClasses == Marked(old(valueClasses), sliceFrom.value)
        && showAll == old(showAll) && showMoreButtons == old(showMoreButtons)
        && buttonText == old(buttonText) && toggleRegistrations == old(toggleRegistrations)
      ensures sliceFrom.value < |valueClasses| ==>
        && valueClasses == Switched(Marked(old(valueClasses), sliceFrom.value), sliceFrom.value, false)
        && !showAll && showMoreButtons == old(showMoreButtons) + 1
        && buttonText == ShowMore
        && toggleRegistrations == old(toggleRegistrations) + 1
    {
      if initialNumVisible.Some? {
        defaultNumVisible := initialNumVisible.value;
      }
      hostClasses := hostClasses + {DBlock};
      var from := SliceIndex(defaultNumVisible, |valueClasses|);
      var css := valueClasses;
      var i := 0;
      while i < |css|
        invariant 0 <= i <= |css| == |valueClasses|
        invariant forall k :: 0 <= k < |css| ==>
          css[k] == if k < i then (if k < from then valueClasses[k] + {DFlex} else valueClasses[k] + {DNone}) else valueClasses[k]
      {
        if i < from {
          css := css[i := css[i] + {DFlex}];
        } else {
          css := css[i := css[i] + {DNone}];
        }
        i := i + 1;
      }
      valueClasses := css;
      sliceFrom := Some(from);
      if from < |valueClasses| {
        if showMoreButtons == 0 {
          buttonText := ShowMore;
        }
        showMoreButtons := showMoreButtons + 1;
        showAll := false;
        var ok := ShowAllChangeHandler();
        toggleRegistrations := toggleRegistrations + 1;
      }
    }

    /** Runs the first-connection setup on the first connection only, and counts every connection. */
    method ConnectedCallback(initialNumVisible: Option<int>)
      requires Valid()
      modifies this
      ensures Valid()
      ensures connectCount == old(connectCount) + 1
      ensures old(connectCount) != 1 ==>
        && valueClasses == old(valueClasses) && sliceFrom == old(sliceFrom) && showAll == old(showAll)
        && showMoreButtons == old(showMoreButtons) && toggleRegistrations == old(toggleRegistrations)
        && hostClasses == old(hostClasses) && defaultNumVisible == old(defaultNumVisible)
        && buttonText == old(buttonText)
      ensures old(connectCount) == 1 ==>
        && defaultNumVisible == initialNumVisible.GetOr(old(defaultNumVisible))
        && hostClasses == old(hostClasses) + {DBlock}
        && |valueClasses| == |old(valueClasses)| && sliceFrom == Some(SliceIndex(defaultNumVisible, |valueClasses|))
      ensures old(connectCount) == 1 && sliceFrom.value == |valueClasses| ==>
        && valueClasses == Marked(old(valueClasses), sliceFrom.value)
        && showAll == old(showAll) && showMoreButtons == old(showMoreButtons)
        && buttonText == old(buttonText) && toggleRegistrations == old(toggleRegistrations)
      ensures old(connectCount) == 1 && sliceFrom.value < |valueClasses| ==>
        && valueClasses == Switched(Marked(old(valueClasses), sliceFrom.value), sliceFrom.value, false)
        && !showAll && showMoreButtons == old(showMoreButtons) + 1
        && buttonText == ShowMore
        && toggleRegistrations == old(toggleRegistrations) + 1
    {
      if connectCount == 1 {
        InitialConnectCallback(initialNumVisible);
      }
      connectCount := connectCount + 1;
    }

    /**
     * Sets the button text and switches the slice to `d-flex` or `d-none`; `ok` is
     * false, with nothing changed, when there is no button for the text to go to.
     */
    method ShowAllChangeHandler() returns (ok: bool)
      requires Valid()
      modifies this
      ensures Valid()
      ensures ok <==> showMoreButtons > 0
      ensures ok ==> buttonText == Label(showAll) && |valueClasses| == |old(valueClasses)|
      ensures ok ==> valueClasses == Switched(old(valueClasses), sliceFrom.value, showAll)
      ensures !ok ==> valueClasses == old(valueClasses) && buttonText == old(buttonText)
      ensures showAll == old(showAll) && sliceFrom == old(sliceFrom) && showMoreButtons == old(showMoreButtons)
      ensures connectCount == old(connectCount) && hostClasses == old(hostClasses)
      ensures defaultNumVisible == old(defaultNumVisible) && toggleRegistrations == old(toggleRegistrations)
    {
      if showMoreButtons == 0 {
        return false;
      }
      buttonText := Label(showAll);
      var from := sliceFrom.value;
      var css := valueClasses;
      var i := from;
      while i < |css|
        invariant from <= i <= |css| == |valueClasses|
        invariant forall k :: 0 <= k < |css| ==>
          css[k] == if from <= k < i then Switch(valueClasses[k], showAll) else valueClasses[k]
      {
        css := css[i := Switch(css[i], showAll)];
        i := i + 1;
      }
      valueClasses := css;
      ok := true;
    }

    /** A click on the button: flips `showAll` and runs the change handler. */
    method ToggleShowAll() returns (ok: bool)
      requires Valid()
      modifies this
      ensures Valid()
      ensures showAll == !old(showAll)
      ensures ok <==> showMoreButtons > 0
      ensures ok ==> buttonText == Label(showAll) && |valueClasses| == |old(valueClasses)|
      ensures ok ==> valueClasses == Switched(old(valueClasses), sliceFrom.value, showAll)
      ensures !ok ==> valueClasses == old(valueClasses) && buttonText == old(buttonText)
      ensures sliceFrom == old(sliceFrom) && showMoreButtons == old(showMoreButtons)
      ensures connectCount == old(connectCount) && hostClasses == old(hostClasses)
      ensures defaultNumVisible == old(defaultNumVisible) && toggleRegistrations == old(toggleRegistrations)
    {
      showAll := !showAll;
      ok := ShowAllChangeHandler();
    }
  }
}
