/**
 * The bar chart of event causes: one bar per event type among the records
 * that have a NERC region, tallest first, with a per-region breakdown in its
 * tooltip, wrapped axis labels, and the cause-selection handlers.
 */
module BarChart {
  import opened Wrappers
  import opened Strings
  import opened Grouping
  import opened Records
  import opened Selection

  /** The widest a bar is drawn, in pixels (`maxBandWidth`). */
  const MaxBandWidth: real := 60.0

  /** `!!d['NERC Region']`: the record has a non-empty region. */
  predicate HasRegion(r: Record) {
    r.region != ""
  }

  /**
   * The bars: the records with a region grouped by event type, largest group
   * first, equal sizes in order of first occurrence.
   */
  function BarGroups(data: seq<Record>): (gs: seq<Group<string, Record>>)
    ensures NonIncreasing(gs) && DistinctKeys(gs)
    ensures TotalSize(gs) == |Filter(data, HasRegion)|
    ensures forall i :: 0 <= i < |gs| ==> Size(gs[i]) > 0
  {
    GroupBySizeDesc(Filter(data, HasRegion), EventType)
  }

  /**
   * The bar of a cause holds exactly the records with a region and that
   * event type, and every such record has a bar.
   */
  lemma BarMembers(data: seq<Record>)
    ensures forall i, r :: 0 <= i < |BarGroups(data)| ==>
              (r in BarGroups(data)[i].members <==> r in data && HasRegion(r) && EventType(r) == BarGroups(data)[i].key)
    ensures forall r :: r in data && HasRegion(r) ==> EventType(r) in KeySet(BarGroups(data))
  {
    var gs := GroupBySizeDesc(Filter(data, HasRegion), EventType);
    assert gs == BarGroups(data);
  }

  /** Groups of positive size with a total of zero are no groups at all. */
  lemma EmptyTotal<K, T>(gs: seq<Group<K, T>>)
    requires forall i :: 0 <= i < |gs| ==> Size(gs[i]) > 0
    ensures TotalSize(gs) == 0 <==> gs == []
  {
    if gs != [] {
      assert Size(gs[|gs| - 1]) > 0;
    }
  }

  /** In groups sorted by non-increasing size, `d3.max` of the sizes is the first one. */
  lemma MaxIsFirst<K, T>(gs: seq<Group<K, T>>)
    requires NonIncreasing(gs) && gs != []
    ensures MaxOf(Sizes(gs)) == Some(Size(gs[0]))
  {
    var ns := Sizes(gs);
    var m := MaxOf(ns);
    assert ns[0] == Size(gs[0]);
    var k :| 0 <= k < |ns| && ns[k] == m.value;
    assert Size(gs[0]) >= Size(gs[k]);
  }

  /**
   * The top of the y domain, `d3.max` of the bar heights, is the first bar's
   * height, and is undefined exactly when no record has a region.
   */
  lemma YDomainIsFirstBar(data: seq<Record>)
    ensures MaxOf(Sizes(BarGroups(data))).None? <==> Filter(data, HasRegion) == []
    ensures BarGroups(data) != [] ==> MaxOf(Sizes(BarGroups(data))) == Some(Size(BarGroups(data)[0]))
  {
    var gs := BarGroups(data);
    EmptyTotal(gs);
    if gs != [] {
      MaxIsFirst(gs);
    }
  }

  /** `Math.min(bandwidth, maxBandWidth)`: the drawn width of a bar. */
  function BarWidth(bandwidth: real): (w: real)
    ensures w <= MaxBandWidth
    ensures bandwidth >= 0.0 ==> 0.0 <= w <= bandwidth
    ensures bandwidth <= MaxBandWidth ==> w == bandwidth
    ensures bandwidth >= MaxBandWidth ==> w == MaxBandWidth
  {
    if bandwidth < MaxBandWidth then bandwidth else MaxBandWidth
  }

  /**
   * `Math.max(bandwidth - maxBandWidth, 0) / 2`: how far into its band a bar
   * starts, which centres the bar in the band, where the label sits.
   */
  function BarOffset(bandwidth: real): (off: real)
    ensures off >= 0.0
    ensures bandwidth >= 0.0 ==> off + BarWidth(bandwidth) / 2.0 == bandwidth / 2.0
  {
    (if bandwidth - MaxBandWidth > 0.0 then bandwidth - MaxBandWidth else 0.0) / 2.0
  }

  /**
   * The rows of a bar's tooltip: its records grouped by region, largest
   * first; the counts add up to the bar's total.
   */
  function RegionBreakdown(g: Group<string, Record>): (rows: seq<Group<string, Record>>)
    ensures NonIncreasing(rows) && DistinctKeys(rows)
    ensures TotalSize(rows) == Size(g)
    ensures forall i, r :: 0 <= i < |rows| ==>
              (r in rows[i].members <==> r in g.members && Region(r) == rows[i].key)
    ensures forall r :: r in g.members ==> Region(r) in KeySet(rows)
  {
    GroupBySizeDesc(g.members, Region)
  }

  /** The words of a label up to the first empty one, where `words.pop()` stops. */
  function FirstEmpty(words: seq<string>): (n: nat)
    ensures n <= |words|
    ensures forall j :: 0 <= j < n ==> words[j] != ""
    ensures n < |words| ==> words[n] == ""
  {
    if words == [] || words[0] == "" then 0 else 1 + FirstEmpty(words[1..])
  }

  lemma FirstEmptyStep(words: seq<string>, i: nat)
    requires i <= FirstEmpty(words) && i < |words| && words[i] != ""
    ensures i < FirstEmpty(words)
  {
  }

  lemma FirstEmptyExit(words: seq<string>, i: nat)
    requires i <= FirstEmpty(words) && (i == |words| || words[i] == "")
    ensures i == FirstEmpty(words)
  {
  }

  lemma TakeOneMore(words: seq<string>, i: nat, before: seq<string>, after: seq<string>)
    requires i < |words| && before == words[..i] && after == before + [words[i]]
    ensures after == words[..i + 1]
  {
  }

  /** The words of the lines, one after another. */
  function Concat(lines: seq<seq<string>>): seq<string> {
    if lines == [] then [] else Concat(lines[..|lines| - 1]) + lines[|lines| - 1]
  }

  /**
   * Every run of two or more words at the start of the line renders within
   * `width`: each word after the first was kept on the line because the line
   * up to it still fitted.
   */
  ghost predicate Fits(line: seq<string>, width: real, measure: string -> real) {
    forall n :: 2 <= n <= |line| ==> measure(Join(line[..n], " ")) <= width
  }

  /** Adding `word` to `line` would render it wider than `width`. */
  ghost predicate Overflows(line: seq<string>, word: string, width: real, measure: string -> real) {
    measure(Join(line + [word], " ")) > width
  }

  /**
   * `wrap(text, width)` on one tick label already split into words: each
   * line is a `tspan`. Words are added to the current line while its rendered
   * length (`measure`) stays within `width`; the word that overflows starts
   * the next line. Only the first line can be empty, when the first word
   * alone is too wide.
   */
  method Wrap(words: seq<string>, width: real, measure: string -> real) returns (lines: seq<seq<string>>)
    ensures |lines| >= 1
    ensures Concat(lines) == words[..FirstEmpty(words)]
    ensures forall k :: 0 < k < |lines| ==> lines[k] != []
    ensures forall k :: 0 <= k < |lines| ==> Fits(lines[k], width, measure)
    ensures forall j, k :: 0 <= j < k < |lines| && k == j + 1 ==> Overflows(lines[j], lines[k][0], width, measure)
    ensures FirstEmpty(words) > 0 ==> (lines[0] == [] <==> Overflows([], words[0], width, measure))
  {
    var done: seq<seq<string>> := [];
    var line: seq<string> := [];
    var i := 0;
    while i < |words| && words[i] != ""
      invariant 0 <= i <= FirstEmpty(words)
      invariant Concat(done) + line == words[..i]
      invariant WrapInv(done, line, width, measure)
      invariant i == 0 ==> done == [] && line == []
      invariant i > 0 ==> FirstLineRule(done, line, words[0], width, measure)
    {
      var word := words[i];
      FirstEmptyStep(words, i);
      ghost var done0, line0 := done, line;
      ghost var before := Concat(done) + line;
      done, line := AddWord(done, line, word, width, measure);
      FirstLineStep(done0, line0, word, done, line, words[0], width, measure);
      TakeOneMore(words, i, before, Concat(done) + line);
      i := i + 1;
    }
    FirstEmptyExit(words, i);
    ConcatAppend(done, line);
    WrapFinish(done, line, width, measure);
    lines := done + [line];
  }

  /**
   * The first line is empty exactly when the first word alone renders wider
   * than `width`; while no line is finished, the current one is not empty.
   */
  ghost predicate FirstLineRule(done: seq<seq<string>>, line: seq<string>, first: string, width: real, measure: string -> real) {
    && (done == [] ==> line != [])
    && ((done != [] && done[0] == []) <==> Overflows([], first, width, measure))
  }

  /** One turn of the loop keeps the rule for the first line, or sets it up on the first word. */
  lemma FirstLineStep(done: seq<seq<string>>, line: seq<string>, word: string,
                      done': seq<seq<string>>, line': seq<string>, first: string, width: real, measure: string -> real)
    requires (done == [] && line == [] && word == first) || FirstLineRule(done, line, first, width, measure)
    requires Overflows(line, word, width, measure) ==> done' == done + [line] && line' == [word]
    requires !Overflows(line, word, width, measure) ==> done' == done && line' == line + [word]
    ensures FirstLineRule(done', line', first, width, measure)
  {
    if done != [] {
      assert done'[0] == done[0];
    }
  }

  /**
   * One turn of the loop in `wrap`: push the word onto the current line, and
   * if the line then renders too wide, take the word back off, close the line
   * and start the next one with it.
   */
  method AddWord(done: seq<seq<string>>, line: seq<string>, word: string, width: real, measure: string -> real)
    returns (done': seq<seq<string>>, line': seq<string>)
    requires WrapInv(done, line, width, measure)
    ensures WrapInv(done', line', width, measure)
    ensures Concat(done') + line' == Concat(done) + line + [word]
    ensures Overflows(line, word, width, measure) ==> done' == done + [line] && line' == [word]
    ensures !Overflows(line, word, width, measure) ==> done' == done && line' == line + [word]
  {
    line' := line + [word];
    if measure(Join(line', " ")) > width {
      WrapStartLine(done, line, word, width, measure);
      ConcatAppend(done, line);
      done', line' := done + [line], [word];
    } else {
      WrapExtendLine(done, line, word, width, measure);
      done' := done;
    }
  }

  /**
   * What holds between words: only the first finished line can be empty,
   * every line fits unless it is a single word, and each finished line
   * overflows with the first word of the line after it.
   */
  ghost predicate WrapInv(done: seq<seq<string>>, line: seq<string>, width: real, measure: string -> real) {
    && (forall k :: 0 < k < |done| ==> done[k] != [])
    && (done != [] ==> line != [])
    && (forall k :: 0 <= k < |done| ==> Fits(done[k], width, measure))
    && Fits(line, width, measure)
    && (forall j, k :: 0 <= j < k < |done| && k == j + 1 ==> Overflows(done[j], done[k][0], width, measure))
    && (done != [] ==> Overflows(done[|done| - 1], line[0], width, measure))
  }

  /** Adding a word that fits to the current line keeps the invariant. */
  lemma WrapExtendLine(done: seq<seq<string>>, line: seq<string>, word: string, width: real, measure: string -> real)
    requires WrapInv(done, line, width, measure)
    requires !Overflows(line, word, width, measure)
    ensures WrapInv(done, line + [word], width, measure)
  {
    assert done != [] ==> (line + [word])[0] == line[0];
    var longer := line + [word];
    forall n | 2 <= n <= |longer| ensures measure(Join(longer[..n], " ")) <= width {
      if n <= |line| {
        assert longer[..n] == line[..n];
      } else {
        assert longer[..n] == longer;
      }
    }
  }

  /** Once the words run out, the finished lines and the current one are the result. */
  lemma WrapFinish(done: seq<seq<string>>, line: seq<string>, width: real, measure: string -> real)
    requires WrapInv(done, line, width, measure)
    ensures forall k :: 0 < k < |done + [line]| ==> (done + [line])[k] != []
    ensures forall k :: 0 <= k < |done + [line]| ==> Fits((done + [line])[k], width, measure)
    ensures forall j, k :: 0 <= j < k < |done + [line]| && k == j + 1 ==>
              Overflows((done + [line])[j], (done + [line])[k][0], width, measure)
  {
    var lines := done + [line];
    forall j, k | 0 <= j < k < |lines| && k == j + 1
      ensures Overflows(lines[j], lines[k][0], width, measure)
    {
      if k < |done| {
        assert lines[j] == done[j] && lines[k] == done[k];
      }
    }
  }

  /** Closing the current line on an overflowing word keeps the invariant. */
  lemma WrapStartLine(done: seq<seq<string>>, line: seq<string>, word: string, width: real, measure: string -> real)
    requires WrapInv(done, line, width, measure)
    requires Overflows(line, word, width, measure)
    ensures WrapInv(done + [line], [word], width, measure)
  {
    var next := done + [line];
    forall j, k | 0 <= j < k < |next| && k == j + 1
      ensures Overflows(next[j], next[k][0], width, measure)
    {
      if k < |done| {
        assert next[j] == done[j] && next[k] == done[k];
      }
    }
  }

  lemma ConcatAppend(lines: seq<seq<string>>, line: seq<string>)
    ensures Concat(lines + [line]) == Concat(lines) + line
  {
    assert (lines + [line])[..|lines|] == lines;
  }

  /** The bar chart view and the state its event handlers depend on. */
  class Barchart {
    var data: seq<Record>
    var groupedData: seq<Group<string, Record>>
    var xDomain: seq<string>
    var yDomainMax: Option<nat>
    var onClick: BarHandler
    var highlight: Highlight

    /** Rendering binds the "selected bars plus this one" handler only to unmarked bars. */
    predicate Valid()
      reads this
    {
      onClick.BarInitial? ==> highlight.Cleared?
    }

    /** The selection state the bars' click handler encodes. */
    function State(): SelectionState
      reads this, if onClick.BarToggle? then {onClick.causes} else {}
    {
      match onClick
      case BarInitial => Rendered
      case BarSelectOnly => NoSelection
      case BarToggle(causes) => Selecting(causes.items)
    }

    constructor (records: seq<Record>)
      ensures Valid()
      ensures data == records && groupedData == [] && xDomain == [] && yDomainMax == None
      ensures onClick == BarInitial && highlight == Cleared
    {
      data := records;
      groupedData := [];
      xDomain := [];
      yDomainMax := None;
      onClick := BarInitial;
      highlight := Cleared;
    }

    /**
     * `updateVis` and `renderVis`: regroup the data, set the scale domains and
     * redraw the bars, which resets their classes to `bar` and rebinds the
     * rendering click handler.
     */
    method UpdateVis()
      modifies this
      ensures Valid()
      ensures data == old(data)
      ensures groupedData == BarGroups(data)
      ensures xDomain == GroupKeys(groupedData)
      ensures yDomainMax == MaxOf(Sizes(groupedData))
      ensures onClick == BarInitial && highlight == Cleared
    {
      var gs := BarGroups(data);
      var keys := GroupKeys(gs);
      var top := MaxOf(Sizes(gs));
      groupedData, xDomain, yDomainMax := gs, keys, top;
      onClick := BarInitial;
      highlight := Cleared;
    }

    /** `onCauseSelected`: mark the bars and rebind their click handler. */
    method OnCauseSelected(causes: CauseSet)
      modifies this
      ensures Valid()
      ensures data == old(data) && groupedData == old(groupedData)
      ensures xDomain == old(xDomain) && yDomainMax == old(yDomainMax)
      ensures highlight == HighlightFor(causes.items)
      ensures State() == Deliver(causes.items)
      ensures causes.items == {} ==> onClick == BarSelectOnly
      ensures causes.items != {} ==> onClick == BarToggle(causes)
    {
      if causes.items == {} {
        highlight := Cleared;
        onClick := BarSelectOnly;
      } else {
        highlight := Marked(causes.items);
        onClick := BarToggle(causes);
      }
    }

    /**
     * A click on the bar of cause `c`: the set it hands to the dispatcher. The
     * toggling handler edits the selection it was bound with and sends that
     * same object.
     */
    method ClickBar(c: string) returns (sent: CauseSet)
      requires Valid()
      modifies if onClick.BarToggle? then {onClick.causes} else {}
      ensures onClick.BarInitial? ==> fresh(sent) && sent.items == InitialClickPayload(highlight, (set k | k in xDomain), c)
      ensures onClick.BarInitial? ==> sent.items == {c}
      ensures sent.items == BarClick(old(State()), c)
      ensures onClick.BarSelectOnly? ==> fresh(sent) && sent.items == {c}
      ensures onClick.BarToggle? ==> sent == onClick.causes && sent.items == Toggle(old(onClick.causes.items), c)
    {
      match onClick
      case BarInitial =>
        sent := new CauseSet(InitialClickPayload(highlight, (set k | k in xDomain), c));
      case BarSelectOnly =>
        sent := new CauseSet({c});
      case BarToggle(causes) =>
        if c !in causes.items {
          causes.items := causes.items + {c};
        } else {
          causes.items := causes.items - {c};
        }
        sent := causes;
    }

    /**
     * A click anywhere in the elements `#bar-chart` selects: the SVG drawing
     * and the page element that holds it. `target` is the class names of an
     * SVG target (its `className.baseVal`), or `None` for an HTML target,
     * whose `className` is a plain string with no `baseVal`, so the handler
     * throws before dispatching. An SVG target whose class names contain
     * `bar` is ignored; any other SVG target sends a new empty selection.
     */
    method ClickBackground(target: Option<string>) returns (sent: Option<CauseSet>)
      ensures sent.None? <==> target.None? || Includes(target.value, "bar")
      ensures sent.Some? ==> fresh(sent.value) && sent.value.items == {}
    {
      if target.None? || Includes(target.value, "bar") {
        sent := None;
      } else {
        var empty := new CauseSet({});
        sent := Some(empty);
      }
    }
  }
}
