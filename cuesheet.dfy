/**
 * The cue-sheet parser `processVtt` (index.js:290-313): cut the text into
 * blocks at two consecutive line-break characters, keep the blocks that
 * contain a timing line, and turn each into a `{start, end, css}` entry.
 */
module CueSheet {
  import opened Wrappers
  import opened Text
  import opened Timestamp
  import opened Url
  import opened Sprite

  /** One entry of `vttData`. */
  datatype Cue = Cue(start: nat, end: nat, css: Css)

  // ---------------------------------------------------------------------------
  // the timing-line test of index.js:295
  // ---------------------------------------------------------------------------

  predicate TwoDigitsAt(b: string, i: nat) {
    i + 2 <= |b| && IsDigit(b[i]) && IsDigit(b[i + 1])
  }

  /** `[0-9]{2}:` at `i`. */
  predicate UnitAt(b: string, i: nat) {
    TwoDigitsAt(b, i) && i + 2 < |b| && b[i + 2] == ':'
  }

  /** `.[0-9]{3}` at `i`, where `.` is any character but a line terminator. */
  predicate FractionAt(b: string, i: nat) {
    i + 4 <= |b| && !IsLineTerminator(b[i]) && IsDigit(b[i + 1]) && IsDigit(b[i + 2]) && IsDigit(b[i + 3])
  }

  /** The positions where `[0-9]{2}(.[0-9]{3})?` can end when it starts at `i`. */
  function SecondsEnds(b: string, i: nat): (ends: set<nat>)
    ensures forall e :: e in ends ==> i + 2 <= e <= |b|
  {
    if !TwoDigitsAt(b, i) then {}
    else {i + 2} + (if FractionAt(b, i + 2) then {i + 6} else {})
  }

  /** The positions where `([0-9]{2}:)?([0-9]{2}:)?[0-9]{2}(.[0-9]{3})?` can end when it starts at `i`. */
  function StampEnds(b: string, i: nat): (ends: set<nat>)
    ensures forall e :: e in ends ==> i + 2 <= e <= |b|
  {
    SecondsEnds(b, i)
    + (if UnitAt(b, i) then
         SecondsEnds(b, i + 3) + (if UnitAt(b, i + 3) then SecondsEnds(b, i + 6) else {})
       else {})
  }

  /** The positions where `( ?--> ?)` can end when it starts at `i`. */
  function ArrowEnds(b: string, i: nat): (ends: set<nat>)
    ensures forall e :: e in ends ==> i + 3 <= e
  {
    (if ArrowHeadAt(b, i) then {i + 3, i + 3 + SpaceAt(b, i + 3)} else {})
    + (if i < |b| && b[i] == ' ' && ArrowHeadAt(b, i + 1) then {i + 4, i + 4 + SpaceAt(b, i + 4)} else {})
  }

  /** The timing pattern, up to and including its `[\r\n]`, matches starting at `j`. */
  predicate CueMatchAt(b: string, j: nat) {
    exists e1 | e1 in StampEnds(b, j) ::
      exists e2 | e2 in ArrowEnds(b, e1) ::
        exists e3 | e3 in StampEnds(b, e2) :: e3 < |b| && IsLineBreak(b[e3])
  }

  /**
   * `vttDef.match(...)` of index.js:295 finds a match somewhere in the block.
   * The shortest text that matches, `00-->00` and a line break, is 8 long.
   */
  predicate IsCueBlock(b: string)
    ensures IsCueBlock(b) ==> 8 <= |b|
  {
    exists j | 0 <= j < |b| :: CueMatchAt(b, j)
  }

  /** A cue block holds a line break, so it has at least two lines, and it holds the `>` of an arrow. */
  lemma CueBlockShape(b: string)
    requires IsCueBlock(b)
    ensures exists k :: 0 <= k < |b| && IsLineBreak(b[k])
    ensures |Split(b, LineBreak)| >= 2
    ensures '>' in b
  {
    var j :| 0 <= j < |b| && CueMatchAt(b, j);
    var e1 :| e1 in StampEnds(b, j) && exists e2 | e2 in ArrowEnds(b, e1) ::
        exists e3 | e3 in StampEnds(b, e2) :: e3 < |b| && IsLineBreak(b[e3]);
    var e2 :| e2 in ArrowEnds(b, e1) && exists e3 | e3 in StampEnds(b, e2) :: e3 < |b| && IsLineBreak(b[e3]);
    var e3 :| e3 in StampEnds(b, e2) && e3 < |b| && IsLineBreak(b[e3]);
    SplitAtLeastTwo(b, LineBreak, e3);
    if ArrowHeadAt(b, e1) {
      assert b[e1 + 2] == '>';
    } else {
      assert b[e1 + 3] == '>';
    }
  }

  // ---------------------------------------------------------------------------
  // one block
  // ---------------------------------------------------------------------------

  /**
   * The body of the `if` of index.js:295-309 for one block: line 0 is the
   * timing line, cut at the arrow; line 1 is the image reference. The style
   * is built before either timestamp is read, so its error comes first.
   */
  function CueOf(vttDef: string, src: string, loc: Location): (r: Result<Cue, CueError>)
    requires IsCueBlock(vttDef)
    ensures r.Err? ==> r.error == NoCoordinates || r.error == MissingEndTime
  {
    CueBlockShape(vttDef);
    var vttDefSplit := Split(vttDef, LineBreak);
    var vttTimingSplit := Split(vttDefSplit[0], Arrow);
    var vttCssDef :- VttCss(vttDefSplit[1], src, loc);
    if |vttTimingSplit| < 2 then Err(MissingEndTime)
    else Ok(Cue(SecondsFromTimestamp(vttTimingSplit[0]), SecondsFromTimestamp(vttTimingSplit[1]), vttCssDef))
  }

  // ---------------------------------------------------------------------------
  // the whole sheet
  // ---------------------------------------------------------------------------

  /** What one turn of the `forEach` of index.js:294-310 does with its block. */
  datatype Outcome = Skipped | Entry(cue: Cue) | Thrown(error: CueError)

  function OutcomeOf(vttDef: string, src: string, loc: Location): (o: Outcome)
    ensures o.Skipped? <==> !IsCueBlock(vttDef)
    ensures o.Entry? ==> CueOf(vttDef, src, loc) == Ok(o.cue)
    ensures o.Thrown? ==> CueOf(vttDef, src, loc) == Err(o.error)
  {
    if !IsCueBlock(vttDef) then Skipped
    else
      match CueOf(vttDef, src, loc)
      case Ok(cue) => Entry(cue)
      case Err(e) => Thrown(e)
  }

  /** The outcome of every block, in block order. */
  function Outcomes(blocks: seq<string>, src: string, loc: Location): seq<Outcome> {
    seq(|blocks|, k requires 0 <= k < |blocks| => OutcomeOf(blocks[k], src, loc))
  }

  /**
   * The effect of the `forEach`: skipped blocks add nothing, entries are
   * pushed in order, and the first throw ends the parse with its error.
   */
  function Collect(outs: seq<Outcome>): Result<seq<Cue>, CueError>
    decreases |outs|
  {
    if outs == [] then Ok([])
    else
      match outs[0]
      case Skipped => Collect(outs[1..])
      case Thrown(e) => Err(e)
      case Entry(cue) =>
        var rest :- Collect(outs[1..]);
        Ok([cue] + rest)
  }

  /** `processVtt(data)` as a value: split into blocks at `/[\r\n][\r\n]/`, then run the `forEach`. */
  function ParseCues(data: string, src: string, loc: Location): (r: Result<seq<Cue>, CueError>)
    ensures r.Err? ==> r.error == NoCoordinates || r.error == MissingEndTime
    ensures r.Ok? ==> |r.value| <= |Split(data, BlankLine)|
  {
    var outs := Outcomes(Split(data, BlankLine), src, loc);
    CollectOk(outs);
    if Collect(outs).Err? then
      CollectErr(outs);
      Collect(outs)
    else
      Collect(outs)
  }

  /** Entries found so far, followed by what the remaining blocks give. */
  function Then(acc: seq<Cue>, r: Result<seq<Cue>, CueError>): (t: Result<seq<Cue>, CueError>)
    ensures r.Err? <==> t.Err?
    ensures r.Err? ==> t.error == r.error
    ensures r.Ok? ==> t.value == acc + r.value
  {
    match r
    case Ok(cues) => Ok(acc + cues)
    case Err(e) => Err(e)
  }

  /** One turn of the loop: the block at `i` is skipped, pushed, or ends the parse. */
  lemma CollectStep(outs: seq<Outcome>, i: nat, acc: seq<Cue>)
    requires i < |outs|
    ensures outs[i].Skipped? ==> Then(acc, Collect(outs[i..])) == Then(acc, Collect(outs[i + 1..]))
    ensures outs[i].Thrown? ==> Then(acc, Collect(outs[i..])) == Err(outs[i].error)
    ensures outs[i].Entry? ==> Then(acc, Collect(outs[i..])) == Then(acc + [outs[i].cue], Collect(outs[i + 1..]))
  {
    assert outs[i..][0] == outs[i];
    assert outs[i..][1..] == outs[i + 1..];
    if outs[i].Entry? {
      var r := Collect(outs[i + 1..]);
      if r.Ok? {
        assert acc + ([outs[i].cue] + r.value) == acc + [outs[i].cue] + r.value;
      }
    }
  }

  /**
   * index.js:290-313 as written: split the text, then push one entry per
   * cue block in a loop. A throw is returned as the error of the whole parse.
   */
  method ProcessVtt(data: string, src: string, loc: Location) returns (r: Result<seq<Cue>, CueError>)
    ensures r == ParseCues(data, src, loc)
  {
    var processedVtts: seq<Cue> := [];
    var vttDefinitions := Split(data, BlankLine);
    ghost var outs := Outcomes(vttDefinitions, src, loc);
    assert outs[0..] == outs;
    assert Collect(outs).Ok? ==> [] + Collect(outs).value == Collect(outs).value;
    var i := 0;
    while i < |vttDefinitions|
      invariant 0 <= i <= |vttDefinitions| == |outs|
      invariant ParseCues(data, src, loc) == Then(processedVtts, Collect(outs[i..]))
    {
      var vttDef := vttDefinitions[i];
      ghost var o := OutcomeOf(vttDef, src, loc);
      assert outs[i] == o;
      CollectStep(outs, i, processedVtts);
      if IsCueBlock(vttDef) {
        var cue := CueOf(vttDef, src, loc);
        if cue.Err? {
          assert o == Thrown(cue.error);
          return Err(cue.error);
        }
        assert o == Entry(cue.value);
        processedVtts := processedVtts + [cue.value];
      }
      i := i + 1;
    }
    assert outs[i..] == [];
    assert processedVtts + [] == processedVtts;
    r := Ok(processedVtts);
  }

  // ---------------------------------------------------------------------------
  // properties of the parse
  // ---------------------------------------------------------------------------

  /** The cues of the entries, in order. */
  function Entries(outs: seq<Outcome>): (cues: seq<Cue>)
    ensures |cues| <= |outs|
    decreases |outs|
  {
    if outs == [] then []
    else if outs[0].Entry? then [outs[0].cue] + Entries(outs[1..])
    else Entries(outs[1..])
  }

  /** Entries keep block order: the entries of two runs of blocks are the entries of the first, then the second. */
  lemma {:induction false} EntriesAppend(a: seq<Outcome>, b: seq<Outcome>)
    ensures Entries(a + b) == Entries(a) + Entries(b)
    decreases |a|
  {
    if a == [] {
      assert a + b == b;
    } else {
      assert (a + b)[1..] == a[1..] + b;
      EntriesAppend(a[1..], b);
    }
  }

  /** Every entry comes from a block whose outcome is that entry. */
  lemma {:induction false} EntriesFromBlocks(outs: seq<Outcome>)
    ensures forall c :: c in Entries(outs) ==> Entry(c) in outs
    decreases |outs|
  {
    if outs != [] {
      EntriesFromBlocks(outs[1..]);
      assert forall o :: o in outs[1..] ==> o in outs;
    }
  }

  /**
   * The parse succeeds exactly when no block throws, and then its entries
   * are those of the cue blocks, one per block, in block order.
   */
  lemma {:induction false} CollectOk(outs: seq<Outcome>)
    ensures Collect(outs).Ok? <==> forall k :: 0 <= k < |outs| ==> !outs[k].Thrown?
    ensures Collect(outs).Ok? ==> Collect(outs).value == Entries(outs)
    decreases |outs|
  {
    if outs != [] {
      CollectOk(outs[1..]);
      assert forall k :: 1 <= k < |outs| ==> outs[k] == outs[1..][k - 1];
    }
  }

  /** A failed parse fails with the error of the first block that throws. */
  lemma {:induction false} CollectErr(outs: seq<Outcome>)
    requires Collect(outs).Err?
    ensures exists k :: && 0 <= k < |outs| && outs[k] == Thrown(Collect(outs).error)
                        && forall m :: 0 <= m < k ==> !outs[m].Thrown?
    decreases |outs|
  {
    if !outs[0].Thrown? {
      CollectErr(outs[1..]);
      var k :| && 0 <= k < |outs[1..]| && outs[1..][k] == Thrown(Collect(outs[1..]).error)
                && forall m :: 0 <= m < k ==> !outs[1..][m].Thrown?;
      assert outs[k + 1] == Thrown(Collect(outs).error);
      forall m | 0 <= m < k + 1 ensures !outs[m].Thrown? {
        if m > 0 {
          assert outs[m] == outs[1..][m - 1];
        }
      }
    } else {
      assert outs[0] == Thrown(Collect(outs).error);
    }
  }

  /** Blocks that all fail the timing-line test yield no entries. */
  lemma {:induction false} AllSkippedNoCues(outs: seq<Outcome>)
    requires forall k :: 0 <= k < |outs| ==> outs[k] == Skipped
    ensures Collect(outs) == Ok([])
    decreases |outs|
  {
    if outs != [] {
      assert outs[0] == Skipped;
      AllSkippedNoCues(outs[1..]);
    }
  }

  /**
   * Each entry of a successful parse is the entry of some cue block of the
   * sheet, and there are no more entries than blocks.
   */
  lemma ParsedCuesComeFromBlocks(data: string, src: string, loc: Location)
    requires ParseCues(data, src, loc).Ok?
    ensures var blocks := Split(data, BlankLine);
      && |ParseCues(data, src, loc).value| <= |blocks|
      && forall c :: c in ParseCues(data, src, loc).value ==>
           exists k :: 0 <= k < |blocks| && IsCueBlock(blocks[k]) && CueOf(blocks[k], src, loc) == Ok(c)
  {
    var blocks := Split(data, BlankLine);
    var outs := Outcomes(blocks, src, loc);
    CollectOk(outs);
    EntriesFromBlocks(outs);
    forall c | c in ParseCues(data, src, loc).value
      ensures exists k :: 0 <= k < |blocks| && IsCueBlock(blocks[k]) && CueOf(blocks[k], src, loc) == Ok(c)
    {
      var k :| 0 <= k < |outs| && outs[k] == Entry(c);
      assert OutcomeOf(blocks[k], src, loc) == Entry(c);
    }
  }

  /** A sheet in which no block passes the timing-line test parses to no entries. */
  lemma NoCueBlocksNoCues(data: string, src: string, loc: Location)
    requires forall b :: b in Split(data, BlankLine) ==> !IsCueBlock(b)
    ensures ParseCues(data, src, loc) == Ok([])
  {
    var blocks := Split(data, BlankLine);
    var outs := Outcomes(blocks, src, loc);
    forall k | 0 <= k < |outs| ensures outs[k] == Skipped {
      assert blocks[k] in blocks;
    }
    AllSkippedNoCues(outs);
  }

  /** Text without an arrow has no timing line and parses to no entries. */
  lemma NoArrowNoCues(data: string, src: string, loc: Location)
    requires '>' !in data
    ensures ParseCues(data, src, loc) == Ok([])
  {
    var blocks := Split(data, BlankLine);
    SplitPiecesDrawFrom(data, BlankLine);
    forall b | b in blocks ensures !IsCueBlock(b) {
      var k :| 0 <= k < |blocks| && blocks[k] == b;
      assert CharsWithin(b, data);
      if IsCueBlock(b) {
        CueBlockShape(b);
      }
    }
    NoCueBlocksNoCues(data, src, loc);
  }

  /** Every line break of `s` belongs to a `\r\n` pair. */
  predicate CrLfOnly(s: string) {
    && (forall i :: 0 <= i < |s| && s[i] == '\r' ==> i + 1 < |s| && s[i + 1] == '\n')
    && (forall i :: 0 <= i < |s| && s[i] == '\n' ==> i > 0 && s[i - 1] == '\r')
  }

  /** Splitting text with `\r\n` line ends at `/[\r\n][\r\n]/` cuts at every line end. */
  lemma {:induction false} CrLfBlocksHaveNoLineBreak(s: string)
    requires CrLfOnly(s)
    ensures forall k :: 0 <= k < |Split(s, BlankLine)| ==>
      forall i :: 0 <= i < |Split(s, BlankLine)[k]| ==> !IsLineBreak(Split(s, BlankLine)[k][i])
    decreases |s|
  {
    var q := FirstMatch(BlankLine, s, 0);
    forall i | 0 <= i < q ensures !IsLineBreak(s[i]) {
      assert MatchLen(BlankLine, s, i) == 0;
      if i > 0 {
        assert MatchLen(BlankLine, s, i - 1) == 0;
      }
    }
    if q < |s| {
      if q > 0 {
        assert MatchLen(BlankLine, s, q - 1) == 0;
      }
      assert s[q] == '\r' && s[q + 1] == '\n';
      var rest := s[q + 2..];
      assert CrLfOnly(rest) by {
        forall i | 0 <= i < |rest| && rest[i] == '\n' ensures i > 0 && rest[i - 1] == '\r' {
          assert s[q + 2 + i] == '\n';
        }
      }
      CrLfBlocksHaveNoLineBreak(rest);
      var parts := Split(s, BlankLine);
      assert parts == [s[..q]] + Split(rest, BlankLine);
      forall k | 1 <= k < |parts|
        ensures forall i :: 0 <= i < |parts[k]| ==> !IsLineBreak(parts[k][i])
      {
        assert parts[k] == Split(rest, BlankLine)[k - 1];
      }
    }
  }

  /** A sheet written with `\r\n` line ends yields no entries: no block keeps a line break. */
  lemma CrLfSheetHasNoCues(data: string, src: string, loc: Location)
    requires CrLfOnly(data)
    ensures ParseCues(data, src, loc) == Ok([])
  {
    var blocks := Split(data, BlankLine);
    CrLfBlocksHaveNoLineBreak(data);
    forall b | b in blocks ensures !IsCueBlock(b) {
      var k :| 0 <= k < |blocks| && blocks[k] == b;
      if IsCueBlock(b) {
        CueBlockShape(b);
      }
    }
    NoCueBlocksNoCues(data, src, loc);
  }

  /** A block of two lines splits at its line break into those lines. */
  lemma TwoLines(first: string, second: string)
    requires forall i :: 0 <= i < |first| ==> !IsLineBreak(first[i])
    requires forall i :: 0 <= i < |second| ==> !IsLineBreak(second[i])
    ensures Split(first + "\n" + second, LineBreak) == [first, second]
  {
    var block := first + "\n" + second;
    forall i | 0 <= i < |first| ensures MatchLen(LineBreak, block, i) == 0 {
      assert block[i] == first[i];
    }
    SplitAt(block, LineBreak, |first|);
    assert block[..|first|] == first;
    assert block[|first| + 1..] == second;
    forall i | 0 <= i < |second| ensures MatchLen(LineBreak, second, i) == 0 {
    }
    SplitNoMatch(second, LineBreak);
  }

  /**
   * A block `start --> end` newline `ref`, with no line break in its parts and
   * no `-` in the timestamps, gives the entry made of the two timestamps and
   * the style of `ref`.
   */
  lemma WellFormedCue(start: string, end: string, ref: string, src: string, loc: Location)
    requires forall i :: 0 <= i < |start| ==> !IsLineBreak(start[i]) && start[i] != '-'
    requires forall i :: 0 <= i < |end| ==> !IsLineBreak(end[i]) && end[i] != '-'
    requires forall i :: 0 <= i < |ref| ==> !IsLineBreak(ref[i])
    requires IsCueBlock(start + " --> " + end + "\n" + ref)
    ensures CueOf(start + " --> " + end + "\n" + ref, src, loc)
         == match VttCss(ref, src, loc)
            case Ok(css) => Ok(Cue(SecondsFromTimestamp(start), SecondsFromTimestamp(end), css))
            case Err(e) => Err(e)
  {
    var timing := start + " --> " + end;
    TimingLineHasNoLineBreak(start, end);
    TwoLines(timing, ref);
    TimingLineSplit(start, end);
  }

  lemma TimingLineHasNoLineBreak(start: string, end: string)
    requires forall i :: 0 <= i < |start| ==> !IsLineBreak(start[i])
    requires forall i :: 0 <= i < |end| ==> !IsLineBreak(end[i])
    ensures forall i :: 0 <= i < |start + " --> " + end| ==> !IsLineBreak((start + " --> " + end)[i])
  {
    var timing := start + " --> " + end;
    forall i | 0 <= i < |timing| ensures !IsLineBreak(timing[i]) {
      if i >= |start| + 5 {
        assert timing[i] == end[i - |start| - 5];
      } else if i < |start| {
        assert timing[i] == start[i];
      }
    }
  }

  /** The timing line `start --> end` splits at the arrow into the two timestamps. */
  lemma TimingLineSplit(start: string, end: string)
    requires forall i :: 0 <= i < |start| ==> start[i] != '-'
    requires forall i :: 0 <= i < |end| ==> end[i] != '-'
    ensures Split(start + " --> " + end, Arrow) == [start, end]
  {
    var timing := start + " --> " + end;
    forall k | 0 <= k < |start| ensures MatchLen(Arrow, timing, k) == 0 {
      assert timing[k] == start[k];
      if k + 1 < |start| {
        assert timing[k + 1] == start[k + 1];
      }
    }
    assert MatchLen(Arrow, timing, |start|) == 5;
    SplitAt(timing, Arrow, |start|);
    assert timing[..|start|] == start;
    assert timing[|start| + 5..] == end;
    forall k | 0 <= k < |end| ensures MatchLen(Arrow, end, k) == 0 {
      if k + 1 < |end| {
        assert end[k + 1] != '-';
      }
    }
    SplitNoMatch(end, Arrow);
  }

  /** A timing line in `MM:SS.mmm` form followed by a reference passes the test. */
  lemma CueBlockExample()
    ensures IsCueBlock("00:01.000 --> 00:02.000\nx")
  {
    var b := "00:01.000 --> 00:02.000\nx";
    ExampleStart(b);
    ExampleArrow(b);
    ExampleEnd(b);
    assert IsLineBreak(b[23]);
    assert CueMatchAt(b, 0);
  }

  lemma ExampleStart(b: string)
    requires b == "00:01.000 --> 00:02.000\nx"
    ensures 9 in StampEnds(b, 0)
  {
    assert UnitAt(b, 0) && TwoDigitsAt(b, 3) && FractionAt(b, 5);
  }

  lemma ExampleArrow(b: string)
    requires b == "00:01.000 --> 00:02.000\nx"
    ensures 14 in ArrowEnds(b, 9)
  {
    assert b[9] == ' ' && ArrowHeadAt(b, 10) && SpaceAt(b, 13) == 1;
  }

  lemma ExampleEnd(b: string)
    requires b == "00:01.000 --> 00:02.000\nx"
    ensures 23 in StampEnds(b, 14)
  {
    assert UnitAt(b, 14) && TwoDigitsAt(b, 17) && FractionAt(b, 19);
  }
}
