/**
 * The active-cue search of `getStyleForTime` (index.js:220-237): the first
 * entry, in list order, whose half-open interval `[start, end)` holds the time.
 */
module Lookup {
  import opened Wrappers
  import opened Sprite
  import opened CueSheet

  /** `time >= item.start && time < item.end` (index.js:224). */
  predicate Covers(cue: Cue, time: real) {
    cue.start as real <= time < cue.end as real
  }

  /** The first index at or after `from` whose entry covers `time`. */
  function FindFrom(cues: seq<Cue>, time: real, from: nat): (found: Option<nat>)
    requires from <= |cues|
    ensures found.Some? ==>
      && from <= found.value < |cues|
      && Covers(cues[found.value], time)
      && forall j :: from <= j < found.value ==> !Covers(cues[j], time)
    ensures found.None? <==> forall j :: from <= j < |cues| ==> !Covers(cues[j], time)
    decreases |cues| - from
  {
    if from == |cues| then None
    else if Covers(cues[from], time) then Some(from)
    else FindFrom(cues, time, from + 1)
  }

  /** The index of the entry `getStyleForTime(time)` returns, `None` for `undefined`. */
  function FindAt(cues: seq<Cue>, time: real): (found: Option<nat>)
    ensures found.Some? ==>
      && found.value < |cues|
      && Covers(cues[found.value], time)
      && forall j :: 0 <= j < found.value ==> !Covers(cues[j], time)
    ensures found.None? <==> forall j :: 0 <= j < |cues| ==> !Covers(cues[j], time)
  {
    FindFrom(cues, time, 0)
  }

  /** The answer depends only on the entries up to the first one that covers `time`. */
  lemma FindAtIgnoresLater(cues: seq<Cue>, more: seq<Cue>, time: real)
    requires FindAt(cues, time).Some?
    ensures FindAt(cues + more, time) == FindAt(cues, time)
  {
    var i := FindAt(cues, time).value;
    assert (cues + more)[i] == cues[i];
    assert forall j :: 0 <= j < i ==> (cues + more)[j] == cues[j];
  }

  /** Adjacent intervals `[0, 5)` and `[5, 10)`: the boundary belongs to the later one, the end to none. */
  lemma AdjacentIntervalsExample(css: Css)
    ensures var cues := [Cue(0, 5, css), Cue(5, 10, css)];
      && FindAt(cues, 4.999) == Some(0)
      && FindAt(cues, 5.0) == Some(1)
      && FindAt(cues, 10.0) == None
  {
    var cues := [Cue(0, 5, css), Cue(5, 10, css)];
    assert Covers(cues[0], 4.999);
    assert !Covers(cues[0], 5.0) && Covers(cues[1], 5.0);
    assert !Covers(cues[0], 10.0) && !Covers(cues[1], 10.0);
  }
}
