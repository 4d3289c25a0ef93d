/**
 * Thumbnail references: `getPropsFromDef` (index.js:343-356) reads the
 * `#xywh=` crop fragment of a sprite reference, and `getVttCss`
 * (index.js:358-385) resolves a reference against the cue sheet's location
 * and builds the style record of a cue.
 */
module Sprite {
  import opened Wrappers
  import opened Text
  import opened Url

  /**
   * The ways turning a cue into an entry throws in index.js. A throw inside
   * the `forEach` of `processVtt` ends the whole parse.
   */
  datatype CueError =
    | NoFragment      // `imageDefSplit[1]` is undefined and `.match` is called on it (index.js:346-347)
    | NoCoordinates   // the fragment has no digit run, `match` gives null and `null[0]` throws (index.js:347-350)
    | MissingEndTime  // the timing line has no arrow, so the end timestamp is undefined (index.js:298-306)

  /** The record `getPropsFromDef` returns; the coordinates stay strings. */
  datatype Props = Props(x: string, y: string, w: string, h: string, image: string)

  /**
   * The style record `getVttCss` builds. Only `background` is always set; the
   * other three properties are absent for a whole-image reference.
   */
  datatype Css = Css(background: string, width: Option<string>, height: Option<string>, url: Option<string>)

  /** `s.match(/#xywh=/i)` succeeds. */
  predicate HasFragment(s: string) {
    exists i :: 0 <= i < |s| && FragmentAt(s, i)
  }

  /** `splitCoords[k]` as string concatenation sees it: the run, or `"undefined"` past the last run. */
  function RunOrUndefined(runs: seq<string>, k: nat): string {
    if k < |runs| then runs[k] else "undefined"
  }

  /**
   * `getPropsFromDef(def)`. The image is the text before the first `#xywh=`,
   * and the coordinates are the digit runs of the text between it and the
   * next one.
   */
  function PropsFromDef(def: string): (r: Result<Props, CueError>)
    ensures r == Err(NoFragment) <==> !HasFragment(def)
    ensures r.Ok? ==>
      && |r.value.image| < |def|
      && r.value.image == def[..|r.value.image|]
      && FragmentAt(def, |r.value.image|)
      && !HasFragment(r.value.image)
      && Numeral(r.value.x)
  {
    var imageDefSplit := Split(def, Fragment);
    FirstPieceBeforeFragment(def);
    if |imageDefSplit| < 2 then Err(NoFragment)
    else
      var splitCoords := DigitRuns(imageDefSplit[1]);
      if splitCoords == [] then Err(NoCoordinates)
      else
        Ok(Props(splitCoords[0], RunOrUndefined(splitCoords, 1), RunOrUndefined(splitCoords, 2),
                 RunOrUndefined(splitCoords, 3), imageDefSplit[0]))
  }

  /** The first piece of a split on `#xywh=` is everything before the first `#xywh=`. */
  lemma FirstPieceBeforeFragment(def: string)
    ensures var parts := Split(def, Fragment);
      && (|parts| >= 2 <==> HasFragment(def))
      && (|parts| >= 2 ==>
            |parts[0]| < |def| && parts[0] == def[..|parts[0]|]
            && FragmentAt(def, |parts[0]|) && !HasFragment(parts[0]))
  {
    var q := FirstMatch(Fragment, def, 0);
    if q < |def| {
      assert FragmentAt(def, q);
      assert Split(def, Fragment)[0] == def[..q];
      forall i | 0 <= i < q ensures !FragmentAt(def[..q], i) {
        assert MatchLen(Fragment, def, i) == 0;
      }
    } else {
      forall i | 0 <= i < |def| ensures !FragmentAt(def, i) {
        assert MatchLen(Fragment, def, i) == 0;
      }
    }
  }

  /**
   * The context base of index.js:362-368: the directory of the cue-sheet URL
   * when it is qualified, otherwise that directory appended to the directory
   * of the document.
   */
  function ContextBase(src: string, loc: Location): (base: string)
    ensures Contains(base, "//")
    ensures base != [] && base[|base| - 1] == '/'
  {
    var srcDir := DirOf(src);
    if Contains(src, "//") then
      QualifiedSourceDir(src);
      srcDir
    else
      var base := BaseUrl(loc);
      DocumentSourceDir(base, srcDir);
      base + srcDir
  }

  /** The directory of a qualified cue sheet URL is qualified and ends with `/`. */
  lemma QualifiedSourceDir(src: string)
    requires Contains(src, "//")
    ensures Contains(DirOf(src), "//")
    ensures DirOf(src) != [] && DirOf(src)[|DirOf(src)| - 1] == '/'
  {
    DirOfKeepsDoubleSlash(src);
    DirOfEmptyIff(src);
    var i := IndexOf(src, "//");
    assert src[i] == '/';
  }

  /** The document base followed by a relative directory stays qualified and ends with `/`. */
  lemma DocumentSourceDir(base: string, srcDir: string)
    requires Contains(base, "//")
    requires srcDir == [] || srcDir[|srcDir| - 1] == '/'
    requires base != [] && base[|base| - 1] == '/'
    ensures Contains(base + srcDir, "//")
    ensures base + srcDir != [] && (base + srcDir)[|base + srcDir| - 1] == '/'
  {
    var i := IndexOf(base, "//");
    assert OccursAt(base + srcDir, "//", i) by {
      assert (base + srcDir)[i..i + 2] == base[i..i + 2];
    }
  }

  /** The style record of a resolved reference, index.js:372-384. */
  function CssFor(ref: string): (r: Result<Css, CueError>)
    ensures r.Err? ==> r.error == NoCoordinates
    ensures r.Ok? ==> "url(\"" <= r.value.background
  {
    if !HasFragment(ref) then Ok(Css("url(\"" + ref + "\")", None, None, None))
    else
      var imageProps :- PropsFromDef(ref);
      Ok(Css("url(\"" + imageProps.image + "\") no-repeat -" + imageProps.x + "px -" + imageProps.y + "px",
             Some(imageProps.w + "px"), Some(imageProps.h + "px"), Some(imageProps.image)))
  }

  /**
   * `getVttCss(vttImageDef)`: resolve the reference against the context base,
   * then build its style. A reference that is already qualified does not
   * depend on where the cue sheet or the document is.
   */
  function VttCss(vttImageDef: string, src: string, loc: Location): (r: Result<Css, CueError>)
    ensures r.Err? ==> r.error == NoCoordinates
    ensures r.Ok? ==> "url(\"" <= r.value.background
    ensures Contains(vttImageDef, "//") ==> r == CssFor(vttImageDef)
  {
    CssFor(FullyQualified(vttImageDef, ContextBase(src, loc)))
  }

  /** A reference without a crop fragment sets `background` and nothing else. */
  lemma WholeImageCss(ref: string)
    requires !HasFragment(ref)
    ensures CssFor(ref).Ok?
    ensures CssFor(ref).value.width == None && CssFor(ref).value.height == None && CssFor(ref).value.url == None
    ensures CssFor(ref).value.background == "url(\"" + ref + "\")"
  {
  }

  /**
   * A cropped reference gives an error exactly when the text after its first
   * `#xywh=` (up to any second one) holds no digit.
   */
  lemma CssErrorIff(ref: string)
    ensures HasFragment(ref) <==> |Split(ref, Fragment)| >= 2
    ensures CssFor(ref).Err? <==>
      HasFragment(ref) && forall k :: 0 <= k < |Split(ref, Fragment)[1]| ==> !IsDigit(Split(ref, Fragment)[1][k])
  {
    FirstPieceBeforeFragment(ref);
    if HasFragment(ref) {
      DigitRunsEmptyIff(Split(ref, Fragment)[1]);
    }
  }

  /**
   * When a cropped style has a `url`, it is the text before the first
   * `#xywh=` of the resolved reference, and it holds no fragment itself.
   */
  lemma CroppedUrlIsImage(ref: string)
    requires CssFor(ref).Ok? && CssFor(ref).value.url.Some?
    ensures var image := CssFor(ref).value.url.value;
      && |image| < |ref| && image == ref[..|image|]
      && FragmentAt(ref, |image|) && !HasFragment(image)
  {
  }

  /** No `#xywh=` begins inside `image + "#xywh="` before the one appended. */
  lemma FragmentFirstAt(image: string, tail: string)
    requires !HasFragment(image)
    ensures var def := image + "#xywh=" + tail;
      && FragmentAt(def, |image|)
      && forall j :: 0 <= j < |image| ==> MatchLen(Fragment, def, j) == 0
  {
    var def := image + "#xywh=" + tail;
    forall j | 0 <= j < |image| ensures !FragmentAt(def, j) {
      if j + 6 <= |image| {
        assert forall k :: j <= k < j + 6 ==> def[k] == image[k];
        assert !FragmentAt(image, j);
      } else {
        assert def[j + 5] == "#xywh="[j + 5 - |image|];
      }
    }
  }

  /** Splitting `image + "#xywh=" + tail` on the fragment marker, when neither side holds one. */
  lemma SplitAtFragment(image: string, tail: string)
    requires !HasFragment(image) && '#' !in tail
    ensures Split(image + "#xywh=" + tail, Fragment) == [image, tail]
  {
    var def := image + "#xywh=" + tail;
    FragmentFirstAt(image, tail);
    SplitAt(def, Fragment, |image|);
    assert def[..|image|] == image;
    assert def[|image| + 6..] == tail;
    forall j | 0 <= j < |tail| ensures MatchLen(Fragment, tail, j) == 0 {
      assert tail[j] in tail;
    }
    SplitNoMatch(tail, Fragment);
  }

  /** The props of a reference with one crop fragment are the digit runs of the fragment. */
  lemma PropsOfFragment(image: string, tail: string)
    requires !HasFragment(image) && '#' !in tail
    ensures var runs := DigitRuns(tail);
      PropsFromDef(image + "#xywh=" + tail)
        == if runs == [] then Err(NoCoordinates)
           else Ok(Props(runs[0], RunOrUndefined(runs, 1), RunOrUndefined(runs, 2), RunOrUndefined(runs, 3), image))
  {
    SplitAtFragment(image, tail);
  }

  /** The text of a fragment `unit` `x,y,w,h`. */
  function Coords(unit: string, x: string, y: string, w: string, h: string): string {
    unit + (x + [','] + (y + [','] + (w + [','] + h)))
  }

  /** The digit runs of a fragment are its four numbers; a digit-free unit prefix contributes none. */
  lemma CoordsRuns(unit: string, x: string, y: string, w: string, h: string)
    requires forall k :: 0 <= k < |unit| ==> !IsDigit(unit[k])
    requires Numeral(x) && Numeral(y) && Numeral(w) && Numeral(h)
    ensures DigitRuns(Coords(unit, x, y, w, h)) == [x, y, w, h]
  {
    DigitRunsSkip(unit, x + [','] + (y + [','] + (w + [','] + h)));
    DigitRunsCons(x, ',', y + [','] + (w + [','] + h));
    DigitRunsCons(y, ',', w + [','] + h);
    DigitRunsCons(w, ',', h);
    DigitRunsWhole(h);
  }

  /** A fragment `unit` `x,y,w,h` holds no `#` when its unit holds none. */
  lemma CoordsHaveNoHash(unit: string, x: string, y: string, w: string, h: string)
    requires '#' !in unit
    requires Numeral(x) && Numeral(y) && Numeral(w) && Numeral(h)
    ensures '#' !in Coords(unit, x, y, w, h)
  {
    var c := Coords(unit, x, y, w, h);
    forall k | 0 <= k < |c| ensures c[k] != '#' {
      assert c[k] in unit || c[k] in x || c[k] == ',' || c[k] in y || c[k] in w || c[k] in h;
    }
  }

  /**
   * The crop fragment read as the media-fragment form `#xywh=x,y,w,h`, with
   * any digit-free unit prefix such as `pixel:` ignored: the four numbers
   * become x, y, w, h and the text before the fragment becomes the image.
   */
  lemma SpriteProps(image: string, unit: string, x: string, y: string, w: string, h: string)
    requires !HasFragment(image)
    requires '#' !in unit && forall k :: 0 <= k < |unit| ==> !IsDigit(unit[k])
    requires Numeral(x) && Numeral(y) && Numeral(w) && Numeral(h)
    ensures PropsFromDef(image + "#xywh=" + Coords(unit, x, y, w, h)) == Ok(Props(x, y, w, h, image))
  {
    CoordsRuns(unit, x, y, w, h);
    CoordsHaveNoHash(unit, x, y, w, h);
    PropsOfFragment(image, Coords(unit, x, y, w, h));
  }

  /**
   * The style of a cropped reference: the image is positioned at `-x px -y px`
   * and `width`, `height` and `url` are set from w, h and the image.
   */
  lemma SpriteCss(image: string, unit: string, x: string, y: string, w: string, h: string)
    requires !HasFragment(image)
    requires '#' !in unit && forall k :: 0 <= k < |unit| ==> !IsDigit(unit[k])
    requires Numeral(x) && Numeral(y) && Numeral(w) && Numeral(h)
    ensures CssFor(image + "#xywh=" + Coords(unit, x, y, w, h))
         == Ok(Css("url(\"" + image + "\") no-repeat -" + x + "px -" + y + "px",
                   Some(w + "px"), Some(h + "px"), Some(image)))
  {
    var def := image + "#xywh=" + Coords(unit, x, y, w, h);
    SpriteProps(image, unit, x, y, w, h);
    FirstPieceBeforeFragment(def);
  }

  /**
   * Fewer than four numbers in the fragment do not fail: the missing ones
   * are read as `undefined` and end up in the style as `"undefinedpx"`.
   */
  lemma TwoNumbersLeaveSizeUndefined(image: string, x: string, y: string)
    requires !HasFragment(image)
    requires Numeral(x) && Numeral(y)
    ensures PropsFromDef(image + "#xywh=" + (x + "," + y)) == Ok(Props(x, y, "undefined", "undefined", image))
  {
    var tail := x + "," + y;
    assert tail == x + [','] + y;
    DigitRunsCons(x, ',', y);
    DigitRunsWhole(y);
    forall k | 0 <= k < |tail| ensures tail[k] != '#' {
      assert tail[k] in x || tail[k] == ',' || tail[k] in y;
    }
    PropsOfFragment(image, tail);
  }

  /** `sprite.jpg#xywh=10,20,100,50`: a 100 by 50 crop at (10, 20). */
  lemma SpriteExample()
    ensures CssFor("sprite.jpg" + "#xywh=" + Coords("", "10", "20", "100", "50"))
         == Ok(Css("url(\"" + "sprite.jpg" + "\") no-repeat -" + "10" + "px -" + "20" + "px",
                   Some("100" + "px"), Some("50" + "px"), Some("sprite.jpg")))
  {
    assert !HasFragment("sprite.jpg") by {
      forall i | 0 <= i < 10 ensures "sprite.jpg"[i] != '#' {
      }
    }
    SpriteCss("sprite.jpg", "", "10", "20", "100", "50");
  }

  /** A fragment `unit` `x,y,w,h` holds no `/` when its unit holds none. */
  lemma CoordsHaveNoSlash(unit: string, x: string, y: string, w: string, h: string)
    requires '/' !in unit
    requires Numeral(x) && Numeral(y) && Numeral(w) && Numeral(h)
    ensures '/' !in Coords(unit, x, y, w, h)
  {
    var c := Coords(unit, x, y, w, h);
    forall k | 0 <= k < |c| ensures c[k] != '/' {
      assert c[k] in unit || c[k] in x || c[k] == ',' || c[k] in y || c[k] in w || c[k] in h;
    }
  }

  /** The context base of a cue sheet `dir + file` at a qualified URL is its directory. */
  lemma SheetContext(dir: string, file: string, loc: Location)
    requires Contains(dir, "//") && dir != [] && dir[|dir| - 1] == '/'
    requires '/' !in file
    ensures ContextBase(dir + file, loc) == dir
  {
    var src := dir + file;
    var i := IndexOf(dir, "//");
    assert OccursAt(src, "//", i) by {
      assert src[i..i + 2] == dir[i..i + 2];
    }
    DirOfFile(dir, file);
  }

  /** A reference without any `/` is resolved inside the directory. */
  lemma SlashFreeInDirectory(ref: string, dir: string)
    requires Contains(dir, "//") && |dir| >= 2 && dir[|dir| - 1] == '/'
    requires OccursAt(dir, "//", 0) || (dir[0] != '/' && dir[|dir| - 2] != '/')
    requires ref != [] && '/' !in ref
    ensures FullyQualified(ref, dir) == dir + ref
  {
    NoSlashNotQualified(ref);
    assert ref[0] in ref && ref[|ref| - 1] in ref;
    ResolveInDirectory(ref, dir);
  }

  /** `name#xywh=` followed by text without `/` holds no `/`. */
  lemma FragmentRefNoSlash(name: string, c: string)
    requires '/' !in name && '/' !in c
    ensures '/' !in name + "#xywh=" + c
  {
    var ref := name + "#xywh=" + c;
    forall k | 0 <= k < |ref| ensures ref[k] != '/' {
      if k < |name| {
        assert ref[k] == name[k];
      } else if k >= |name| + 6 {
        assert ref[k] == c[k - |name| - 6];
      }
    }
  }

  /** A slash-free name with a slash-free crop fragment is resolved inside the directory. */
  lemma SpriteInDirectory(dir: string, name: string, c: string)
    requires Contains(dir, "//") && |dir| >= 2 && dir[|dir| - 1] == '/'
    requires OccursAt(dir, "//", 0) || (dir[0] != '/' && dir[|dir| - 2] != '/')
    requires '/' !in name && '/' !in c
    ensures FullyQualified(name + "#xywh=" + c, dir) == (dir + name) + "#xywh=" + c
  {
    var ref := name + "#xywh=" + c;
    assert FullyQualified(ref, dir) == dir + ref by {
      FragmentRefNoSlash(name, c);
      SlashFreeInDirectory(ref, dir);
    }
    Reassociate(dir, name, "#xywh=", c);
  }

  lemma Reassociate(a: string, b: string, m: string, c: string)
    ensures a + (b + m + c) == (a + b) + m + c
  {
  }

  /**
   * getVttCss end to end for the usual sprite sheet: a slash-free name with
   * a crop fragment, listed in a cue sheet `dir + file` at a qualified URL,
   * is looked up in the cue sheet's directory and cropped as the fragment says.
   */
  lemma SpriteFromSheet(dir: string, file: string, name: string, loc: Location,
                        unit: string, x: string, y: string, w: string, h: string)
    requires Contains(dir, "//") && |dir| >= 2 && dir[|dir| - 1] == '/'
    requires OccursAt(dir, "//", 0) || (dir[0] != '/' && dir[|dir| - 2] != '/')
    requires '/' !in file
    requires '/' !in name && !HasFragment(dir + name)
    requires '#' !in unit && '/' !in unit && forall k :: 0 <= k < |unit| ==> !IsDigit(unit[k])
    requires Numeral(x) && Numeral(y) && Numeral(w) && Numeral(h)
    ensures VttCss(name + "#xywh=" + Coords(unit, x, y, w, h), dir + file, loc)
         == Ok(Css("url(\"" + (dir + name) + "\") no-repeat -" + x + "px -" + y + "px",
                   Some(w + "px"), Some(h + "px"), Some(dir + name)))
  {
    SheetContext(dir, file, loc);
    CoordsHaveNoSlash(unit, x, y, w, h);
    SpriteInDirectory(dir, name, Coords(unit, x, y, w, h));
    SpriteCss(dir + name, unit, x, y, w, h);
  }

  /** `sprite.jpg#xywh=10,20,100,50` listed in `http://x.com/a/cues.vtt`. */
  lemma SheetSpriteExample(loc: Location)
    ensures VttCss("sprite.jpg#xywh=10,20,100,50", "http://x.com/a/cues.vtt", loc)
         == Ok(Css("url(\"http://x.com/a/sprite.jpg\") no-repeat -10px -20px",
                   Some("100px"), Some("50px"), Some("http://x.com/a/sprite.jpg")))
  {
    var dir := "http://x.com/a/";
    ExampleSheetFacts();
    ExampleStyleFacts();
    ExampleNameFacts();
    SpriteFromSheet(dir, "cues.vtt", "sprite.jpg", loc, "", "10", "20", "100", "50");
  }

  /** The literal pieces of the example, one fact each. */
  lemma ExampleSheetFacts()
    ensures Contains("http://x.com/a/", "//")
    ensures !HasFragment("http://x.com/a/sprite.jpg")
    ensures "http://x.com/a/" + "sprite.jpg" == "http://x.com/a/sprite.jpg"
    ensures "http://x.com/a/" + "cues.vtt" == "http://x.com/a/cues.vtt"
    ensures "sprite.jpg" + "#xywh=" + Coords("", "10", "20", "100", "50") == "sprite.jpg#xywh=10,20,100,50"
  {
    assert OccursAt("http://x.com/a/", "//", 5);
    ExampleSpriteUnfragmented();
    ExampleFragment();
  }

  lemma ExampleSpriteUnfragmented()
    ensures !HasFragment("http://x.com/a/sprite.jpg")
  {
    var u := "http://x.com/a/sprite.jpg";
    forall i | 0 <= i < |u| ensures !FragmentAt(u, i) {
      assert u[i] != '#';
    }
  }

  lemma ExampleFragment()
    ensures "sprite.jpg" + "#xywh=" + Coords("", "10", "20", "100", "50") == "sprite.jpg#xywh=10,20,100,50"
  {
    assert Coords("", "10", "20", "100", "50") == "10,20,100,50";
  }

  lemma ExampleStyleFacts()
    ensures "url(\"" + "http://x.com/a/sprite.jpg" + "\") no-repeat -" + "10" + "px -" + "20" + "px"
         == "url(\"http://x.com/a/sprite.jpg\") no-repeat -10px -20px"
    ensures "100" + "px" == "100px" && "50" + "px" == "50px"
  {
    ExampleOffsets();
    ExampleUrlPrefix();
    ExampleStyleString();
  }

  lemma ExampleUrlPrefix()
    ensures "url(\"" + "http://x.com/a/sprite.jpg" == "url(\"http://x.com/a/sprite.jpg"
  {
  }

  lemma ExampleStyleString()
    ensures "url(\"http://x.com/a/sprite.jpg" + "\") no-repeat -10px -20px"
         == "url(\"http://x.com/a/sprite.jpg\") no-repeat -10px -20px"
  {
  }

  lemma ExampleOffsets()
    ensures "url(\"" + "http://x.com/a/sprite.jpg" + "\") no-repeat -" + "10" + "px -" + "20" + "px"
         == "url(\"" + "http://x.com/a/sprite.jpg" + "\") no-repeat -10px -20px"
  {
    assert "\") no-repeat -" + "10" == "\") no-repeat -10";
    assert "\") no-repeat -10" + "px -" == "\") no-repeat -10px -";
    assert "\") no-repeat -10px -" + "20" == "\") no-repeat -10px -20";
    assert "\") no-repeat -10px -20" + "px" == "\") no-repeat -10px -20px";
  }

  lemma ExampleNameFacts()
    ensures Numeral("10") && Numeral("20") && Numeral("100") && Numeral("50")
    ensures '/' !in "cues.vtt" && '/' !in "sprite.jpg"
  {
  }
}
