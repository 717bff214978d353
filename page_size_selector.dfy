/**
 * The page-size `<select>`: its `options` attribute is a comma-separated list, the
 * current `value` is added at the end when the list lacks it, and one `<option>` is
 * appended per entry, selected when it equals the current value.
 *
 * The header's selector and the search app's selector are the same algorithm and
 * share this model.
 */
module PageSizeSelector {
  import opened JsBuiltins

  /** The option list after the current value has been added if missing. */
  function WithInitial(options: seq<string>, initial: string): seq<string> {
    if initial in options then options else options + [initial]
  }

  /**
   * The list always holds the initial value and keeps the original options in order
   * at its front; it grows by exactly that value when it lacked it, so it never holds
   * the value more often than it did, or zero times.
   */
  lemma WithInitialSpec(options: seq<string>, initial: string)
    ensures var r := WithInitial(options, initial);
      && initial in r
      && r[..|options|] == options
      && (initial in options ==> r == options)
      && (initial !in options ==> r == options + [initial])
      && multiset(r)[initial] == if initial in options then multiset(options)[initial] else 1
  {
    var r := WithInitial(options, initial);
    assert r[..|options|] == options;
    if initial !in options {
      assert multiset(options)[initial] == 0;
    }
  }

  /** An `<option>` element: its value, and whether it carries `selected`. */
  datatype OptionEl = OptionEl(value: string, selected: bool)

  /** The `for`/`forEach` loop: one option per entry, in order. */
  method OptionEls(options: seq<string>, initial: string) returns (els: seq<OptionEl>)
    ensures |els| == |options|
    ensures forall i :: 0 <= i < |options| ==> els[i].value == options[i]
    ensures forall i :: 0 <= i < |options| ==> (els[i].selected <==> options[i] == initial)
  {
    els := [];
    var i := 0;
    while i < |options|
      invariant 0 <= i <= |options|
      invariant |els| == i
      invariant forall j :: 0 <= j < i ==> els[j] == OptionEl(options[j], options[j] == initial)
    {
      els := els + [OptionEl(options[i], options[i] == initial)];
      i := i + 1;
    }
  }

  /** Two positions holding the same value make it count at least twice. */
  lemma TwoOccurrences(s: seq<string>, i: nat, j: nat)
    requires i < j < |s| && s[i] == s[j]
    ensures multiset(s)[s[i]] >= 2
  {
    assert s == s[..j] + [s[j]] + s[j + 1..];
    assert s[..j][i] == s[i];
    assert s[i] in multiset(s[..j]);
  }

  /**
   * Some option is always selected; when the attribute lists the current value at most
   * once, exactly one is.
   */
  lemma SelectedOptions(options: seq<string>, initial: string, els: seq<OptionEl>)
    requires |els| == |WithInitial(options, initial)|
    requires forall i :: 0 <= i < |els| ==> (els[i].selected <==> WithInitial(options, initial)[i] == initial)
    ensures exists i :: 0 <= i < |els| && els[i].selected
    ensures multiset(options)[initial] <= 1 ==>
      forall i, j :: 0 <= i < |els| && 0 <= j < |els| && els[i].selected && els[j].selected ==> i == j
  {
    var r := WithInitial(options, initial);
    WithInitialSpec(options, initial);
    var k :| 0 <= k < |r| && r[k] == initial;
    assert els[k].selected;
    if multiset(options)[initial] <= 1 {
      forall i, j | 0 <= i < |els| && 0 <= j < |els| && els[i].selected && els[j].selected
        ensures i == j
      {
        if i < j {
          TwoOccurrences(r, i, j);
        } else if j < i {
          TwoOccurrences(r, j, i);
        }
      }
    }
  }

  class PageSizeSelectorElement {
    /** The `<option>` children appended so far. */
    var children: seq<OptionEl>

    constructor ()
      ensures children == []
    {
      children := [];
    }

    /** Reads `value` and `options`, adds the value if missing, and appends the options. */
    method ConnectedCallback(value: string, optionsAttr: string)
      modifies this
      ensures |children| == |old(children)| + |WithInitial(Split(optionsAttr, ','), value)|
      ensures children[..|old(children)|] == old(children)
      ensures forall i :: 0 <= i < |WithInitial(Split(optionsAttr, ','), value)| ==>
        children[|old(children)| + i] == OptionEl(WithInitial(Split(optionsAttr, ','), value)[i],
                                                  WithInitial(Split(optionsAttr, ','), value)[i] == value)
    {
      var options := Split(optionsAttr, ',');
      if value !in options {
        options := options + [value];
      }
      var els := OptionEls(options, value);
      children := children + els;
    }
  }

  /** The header's attribute `"10,25,50,100"` splits into four options. */
  lemma HeaderOptionsSplit()
    ensures Split("10,25,50,100", ',') == ["10", "25", "50", "100"]
  {
    var parts := ["10", "25", "50", "100"];
    assert parts[1..] == ["25", "50", "100"] && parts[1..][1..] == ["50", "100"] && parts[1..][1..][1..] == ["100"];
    assert Join(["100"], ",") == "100";
    assert Join(["50", "100"], ",") == "50,100";
    assert Join(["25", "50", "100"], ",") == "25,50,100";
    assert Join(parts, ",") == "10,25,50,100";
    SplitJoin(parts, ',');
  }

  /** With that list, the default size 10 adds nothing, while a size of 20 from the URL is added as a fifth. */
  lemma HeaderOptionsExample()
    ensures WithInitial(Split("10,25,50,100", ','), "10") == ["10", "25", "50", "100"]
    ensures WithInitial(Split("10,25,50,100", ','), "20") == ["10", "25", "50", "100", "20"]
  {
    HeaderOptionsSplit();
    var parts := ["10", "25", "50", "100"];
    assert "10" in parts by {
      assert parts[0] == "10";
    }
    assert "20" !in parts by {
      assert "20" != parts[0] && "20" != parts[1] && "20" != parts[2] && "20" != parts[3];
    }
    assert WithInitial(parts, "20") == parts + ["20"];
  }
}
