/**
 * `snakeToTitleCase`: split on `_`, upper-case the first character of each segment,
 * join with single spaces. `s[0]` of an empty segment is `undefined`, so the call
 * fails there; `None` stands for that failure.
 *
 * Upper-casing is modelled on ASCII letters only.
 */
module Helpers {
  import opened Wrappers
  import opened JsBuiltins

  /** `toUpperCase` of one character, for ASCII input. */
  function UpperAscii(c: char): (u: char)
    ensures ('a' <= c <= 'z') ==> u as int == c as int - 32
    ensures !('a' <= c <= 'z') ==> u == c
  {
    if 'a' <= c <= 'z' then (c as int - 32) as char else c
  }

  /** Upper-casing never produces `_`, a space or a lower-case letter from anything else. */
  lemma UpperAsciiFacts(c: char)
    ensures UpperAscii(c) == '_' <==> c == '_'
    ensures UpperAscii(c) == ' ' <==> c == ' '
    ensures UpperAscii(UpperAscii(c)) == UpperAscii(c)
  {
  }

  /** `seg[0].toUpperCase() + seg.slice(1)`; `None` when `seg` is empty. */
  function Capitalize(seg: string): Option<string> {
    if |seg| == 0 then None else Some([UpperAscii(seg[0])] + seg[1..])
  }

  /** The `map` over the segments; `None` as soon as one segment is empty. */
  function CapitalizeAll(segs: seq<string>): (r: Option<seq<string>>)
    ensures r.None? <==> "" in segs
    ensures r.Some? ==> |r.value| == |segs|
    ensures r.Some? ==> forall i :: 0 <= i < |segs| ==> r.value[i] == [UpperAscii(segs[i][0])] + segs[i][1..]
    decreases |segs|
  {
    if |segs| == 0 then Some([])
    else
      match Capitalize(segs[0])
      case None => None
      case Some(head) =>
        match CapitalizeAll(segs[1..])
        case None =>
          assert "" in segs by { var j :| 0 <= j < |segs[1..]| && segs[1..][j] == ""; assert segs[j + 1] == ""; }
          None
        case Some(tail) =>
          assert forall j :: 1 <= j < |segs| ==> segs[j] == segs[1..][j - 1];
          Some([head] + tail)
  }

  function SnakeToTitleCase(s: string): Option<string> {
    match CapitalizeAll(Split(s, '_'))
    case None => None
    case Some(words) => Some(Join(words, " "))
  }

  /**
   * The call fails exactly when some segment is empty: the empty string, a leading
   * or trailing `_`, or two `_` in a row.
   */
  lemma SnakeToTitleCaseFails(s: string)
    ensures SnakeToTitleCase(s).None? <==>
      |s| == 0 || s[0] == '_' || s[|s| - 1] == '_' || Doubled(s, '_')
  {
    EmptyPartIff(s, '_');
  }

  /** A result holds no `_`: every `_` became the joining space. */
  lemma SnakeToTitleCaseNoUnderscore(s: string)
    requires SnakeToTitleCase(s).Some?
    ensures '_' !in SnakeToTitleCase(s).value
  {
    var segs := Split(s, '_');
    var words := CapitalizeAll(segs).value;
    forall i | 0 <= i < |words| ensures '_' !in words[i] {
      UpperAsciiFacts(segs[i][0]);
      assert '_' !in segs[i];
      assert segs[i][0] in segs[i];
    }
    JoinExcludes(words, " ", '_');
  }

  /** Only first characters change, so the result is as long as the input. */
  lemma SnakeToTitleCaseLength(s: string)
    requires SnakeToTitleCase(s).Some?
    ensures |SnakeToTitleCase(s).value| == |s|
  {
    var segs := Split(s, '_');
    var words := CapitalizeAll(segs).value;
    JoinSplit(s, '_');
    JoinSameLengths(words, segs, " ");
    JoinSameSeparatorLength(segs, " ", "_");
  }

  lemma {:induction false} JoinSameSeparatorLength(parts: seq<string>, a: string, b: string)
    requires |a| == |b|
    ensures |Join(parts, a)| == |Join(parts, b)|
    decreases |parts|
  {
    if |parts| > 1 {
      JoinSameSeparatorLength(parts[1..], a, b);
    }
  }

  /** The first character of the result is the upper-cased first character of the input. */
  lemma SnakeToTitleCaseHead(s: string)
    requires SnakeToTitleCase(s).Some?
    ensures |s| > 0 && |SnakeToTitleCase(s).value| > 0
    ensures SnakeToTitleCase(s).value[0] == UpperAscii(s[0])
  {
    var segs := Split(s, '_');
    var words := CapitalizeAll(segs).value;
    SnakeToTitleCaseFails(s);
    SnakeToTitleCaseLength(s);
    JoinHead(words, " ");
    assert segs[0] != "" by { assert segs[0] in segs; }
    FirstPartEmpty(s, '_');
    JoinSplit(s, '_');
    JoinHead(segs, "_");
  }

  lemma JoinHead(parts: seq<string>, sep: string)
    requires |parts| > 0 && |parts[0]| > 0
    ensures |Join(parts, sep)| > 0 && Join(parts, sep)[0] == parts[0][0]
  {
  }

  /**
   * A title-cased result has no `_` and already starts upper-case, so converting it
   * again gives it back unchanged.
   */
  lemma SnakeToTitleCaseIdempotent(s: string)
    requires SnakeToTitleCase(s).Some?
    ensures SnakeToTitleCase(SnakeToTitleCase(s).value) == SnakeToTitleCase(s)
  {
    var t := SnakeToTitleCase(s).value;
    SnakeToTitleCaseNoUnderscore(s);
    SnakeToTitleCaseHead(s);
    SplitWithoutSeparator(t, '_');
    UpperAsciiFacts(s[0]);
    assert [UpperAscii(t[0])] + t[1..] == t;
  }

  /** `"page_count"` becomes `"Page Count"`. */
  lemma SnakeToTitleCaseExample()
    ensures SnakeToTitleCase("page_count") == Some("Page Count")
  {
    assert "page_count" == Join(["page", "count"], "_");
    SplitJoin(["page", "count"], '_');
    assert UpperAscii('p') == 'P' && UpperAscii('c') == 'C';
    var w := CapitalizeAll(["page", "count"]);
    assert "" !in ["page", "count"];
    assert w.value[0] == [UpperAscii('p')] + "age" == "Page";
    assert w.value[1] == [UpperAscii('c')] + "ount" == "Count";
    assert w.value == ["Page", "Count"];
    assert ["Page", "Count"][1..] == ["Count"];
    assert Join(["Page", "Count"], " ") == "Page" + " " + "Count" == "Page Count";
  }
}
