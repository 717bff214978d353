/**
 * The `<search-facet>` element: a heading that collapses and expands the facet's
 * values, and a registry of value-click listeners that receive the facet's name
 * with the clicked value.
 */
module SearchFacet {
  import opened Wrappers
  import opened Listeners

  /** `style.display` of the `<search-facet-values>` child; `Default` is never having been set. */
  datatype Display = Default | Block | NoDisplay

  class SearchFacetElement {
    var collapsed: bool
    var valueClickListeners: seq<ListenerId>
    /** The `name` and `display-name` attributes, `None` until connected or when absent. */
    var name: Option<string>
    var displayName: Option<string>
    /** The text of the heading's name span and of its collapsed icon. */
    var headingText: string
    var icon: string
    var valuesDisplay: Display

    /** A fresh facet is expanded, with no listeners and the `-` icon. */
    constructor ()
      ensures !collapsed && valueClickListeners == []
      ensures name == None && displayName == None
      ensures headingText == "" && icon == "-" && valuesDisplay == Default
    {
      collapsed := false;
      valueClickListeners := [];
      name := None;
      displayName := None;
      headingText := "";
      icon := "-";
      valuesDisplay := Default;
    }

    /** Reads the attributes and shows the display name (`null` shows as the empty text). */
    method ConnectedCallback(nameAttr: Option<string>, displayNameAttr: Option<string>)
      modifies this
      ensures name == nameAttr && displayName == displayNameAttr
      ensures headingText == displayNameAttr.GetOr("")
      ensures collapsed == old(collapsed) && valueClickListeners == old(valueClickListeners)
      ensures icon == old(icon) && valuesDisplay == old(valuesDisplay)
    {
      name := nameAttr;
      displayName := displayNameAttr;
      headingText := displayNameAttr.GetOr("");
    }

    /** The icon and the display of the values follow the flag once it has been toggled. */
    predicate ShowsCollapsed()
      reads this
    {
      && (icon == "+" <==> collapsed)
      && (icon == "-" <==> !collapsed)
      && (valuesDisplay == NoDisplay <==> collapsed)
      && (valuesDisplay == Block <==> !collapsed)
    }

    /** A heading click: flips the flag, then shows `+`/`none` when collapsed and `-`/`block` otherwise. */
    method ToggleCollapsed()
      modifies this
      ensures collapsed == !old(collapsed)
      ensures ShowsCollapsed()
      ensures valueClickListeners == old(valueClickListeners)
      ensures name == old(name) && displayName == old(displayName) && headingText == old(headingText)
    {
      collapsed := !collapsed;
      icon := if collapsed then "+" else "-";
      valuesDisplay := if collapsed then NoDisplay else Block;
    }

    /** `addValueClickListener(fn)`: appends, duplicates included. */
    method AddValueClickListener(fn: ListenerId)
      modifies this
      ensures valueClickListeners == old(valueClickListeners) + [fn]
      ensures collapsed == old(collapsed) && name == old(name) && displayName == old(displayName)
      ensures icon == old(icon) && valuesDisplay == old(valuesDisplay) && headingText == old(headingText)
    {
      valueClickListeners := valueClickListeners + [fn];
    }

    /** `removeValueClickListener(fn)`: splices out the first identical entry, if any. */
    method RemoveValueClickListener(fn: ListenerId)
      modifies this
      ensures valueClickListeners == RemoveFirst(old(valueClickListeners), fn)
      ensures collapsed == old(collapsed) && name == old(name) && displayName == old(displayName)
      ensures icon == old(icon) && valuesDisplay == old(valuesDisplay) && headingText == old(headingText)
    {
      var at := FindListener(valueClickListeners, fn);
      if at >= 0 {
        valueClickListeners := valueClickListeners[..at] + valueClickListeners[at + 1..];
      }
    }

    /**
     * A click inside the values: `target` is the `value` of the closest enclosing
     * `<search-facet-value>`, or `None` when there is none (a click on the show-more
     * button). With a value, every listener is called, in order, with the facet's name
     * and the value; without one, reading its attribute throws (`ok` false) before any
     * listener is called.
     */
    method ValueClickHandler(target: Option<string>) returns (ok: bool, calls: seq<Call<Option<string>>>)
      ensures ok <==> target.Some?
      ensures !ok ==> calls == []
      ensures ok ==> |calls| == |valueClickListeners|
      ensures ok ==> forall i :: 0 <= i < |calls| ==> calls[i] == Call(valueClickListeners[i], name, target.value)
    {
      if target.None? {
        return false, [];
      }
      ok := true;
      calls := Dispatch(valueClickListeners, name, target.value);
    }
  }

  /** Two heading clicks leave the facet as it was, shown in step with its flag. */
  method ToggleTwice(f: SearchFacetElement)
    modifies f
    ensures f.collapsed == old(f.collapsed) && f.ShowsCollapsed()
    ensures f.valueClickListeners == old(f.valueClickListeners)
  {
    f.ToggleCollapsed();
    f.ToggleCollapsed();
  }
}
