# videojs-vtt-thumbnails in Dafny

This project models the self-contained core of the video.js plugin
`videojs-vtt-thumbnails` (`index.js`) and proves properties of it. The plugin
shows a thumbnail above the progress bar while the mouse cursor hovers over it.
The core it relies on is:

- **Text primitives** (`text.dfy`). The JavaScript `split` is modelled once,
  generically, for every separator the plugin uses: `.`, `:`, `/[\r\n]/`,
  `/[\r\n][\r\n]/`, `/ ?--> ?/` and `/#xywh=/i`. The one exception is the
  directory-of split `/([^\/]*)$/`, which is modelled on its own as `Url.DirOf`.
  Also modelled are the global digit-run match `/[0-9]+/g` and `parseInt(_, 10)`.
- **Path helpers** (`trim.dfy`, `url.dfy`):
  - the PHP-style `trim`, a method with its two cutting loops, proved against
    a specification function;
  - `getFullyQualifiedUrl`;
  - the "directory of" idiom `s.split(/([^\/]*)$/).shift()`;
  - the document base URL, with `window.location` passed in as a value.
- **Timestamp decoding** (`timestamp.dfy`): `deconstructTimestamp` and
  `getSecondsFromTimestamp`.
- **Sprite references** (`sprite.dfy`): `getPropsFromDef` and `getVttCss`.
  This covers the context base of a cue sheet and the `#xywh=x,y,w,h` crop
  fragment.
- **Cue-sheet parsing** (`cuesheet.dfy`): `processVtt`, a method with its
  loop, proved against a per-block specification. The timing-line regular
  expression is a predicate on a block.
- **Active-cue search** (`lookup.dfy`, `plugin.dfy`):
  - the first cue whose half-open interval `[start, end)` holds the time;
  - the module-level image prefetch `cache`, modelled as a class holding a set
    of URLs;
  - `getStyleForTime`, a method of the plugin class.
- **Thumbnail placement** (`placement.dfy`, `plugin.dfy`):
  - the scale, the three-branch horizontal translation and the bottom offset
    of `updateThumbnailStyle`, as real arithmetic;
  - the `lastStyle` field update.

How the behaviour of `index.js` is represented:

- A call that throws is an `Err` of `Sprite.CueError`.
- An `undefined` URL or size of a whole-image style is `None`.
- `parseInt` yields `Option<nat>`, where `None` stands for `NaN`, and
  `|| 0` is `Text.OrZero`.
- The identity of an entry's `css` object (`lastStyle === currentStyle`) is
  the entry's index in `vttData`.

The following behaviours of `index.js` are kept as written and stated as
lemmas:

- A cue sheet written with `\r\n` line ends gives no entries, because
  `/[\r\n][\r\n]/` cuts it at every line end (`CueSheet.CrLfSheetHasNoCues`).
- A fragment with one to three numbers yields the string `"undefined"` for
  the missing ones, so a style such as `"undefinedpx"` results
  (`Sprite.TwoNumbersLeaveSizeUndefined`).
- `w >> 1` drops half a pixel from an odd thumbnail width, so a thumbnail
  clamped at the right end of the bar overhangs it by up to 0.75 pixels
  (`Placement.ThumbnailStaysOnBar`, `Placement.OddWidthOverhangExample`).
- A fragment with no number, or a cue block whose first line has no arrow,
  makes `processVtt` throw. The throw escapes the `forEach`, so the whole
  parse fails instead of one cue being skipped. The model follows the code:
  `CueSheet.ParseCues` returns the error of the first such block
  (`CueSheet.CollectErr`).

## Model

| member | source | states |
|---|---|---|
| Text.Split | index.js:292-298 | `split` with a non-empty separator always gives at least one piece |
| Text.SplitAt | index.js:292-298 | the first piece ends at the leftmost match; the rest is the split of what follows the match |
| Text.SplitNoMatch | index.js:292-298 | a string in which the separator never matches is its own single piece |
| Text.SplitAtLeastTwo | index.js:292-298 | a separator that matches somewhere gives at least two pieces |
| Text.SplitCharConcat | index.js:394-396 | splitting `a + c + b` on `c`, with no `c` in `a`, gives `a` and then the pieces of `b` |
| Text.JoinSplit | index.js:394-396 | joining the pieces of a one-character split with that character gives back the string |
| Text.SplitPiecesLackSeparator | index.js:394-396 | no piece of a one-character split contains the separator |
| Text.SplitPiecesDrawFrom | index.js:292 | every character of every piece of a split occurs in the split string (`PiecesWithin`) |
| Text.DigitRuns | index.js:347 | `match(/[0-9]+/g)` yields non-empty all-digit runs |
| Text.DigitRunsEmptyIff | index.js:347 | the match finds nothing (`null`) exactly when the text holds no digit |
| Text.DigitRunsCons | index.js:347 | a digit run followed by a non-digit is taken whole and the scan resumes after it |
| Text.DigitRunsSkip | index.js:347 | a digit-free prefix (such as `pixel:`) contributes no run |
| Text.ParseInt | index.js:399-402 | `parseInt(s, 10)` is `NaN` exactly when `s` is empty or does not start with a digit |
| Text.ParseIntDigits | index.js:399-402 | a string of digits parses to its decimal value |
| Text.ParseIntIgnoresTail | index.js:259 | what follows the leading digits (such as `px`) is ignored |
| Trim.Trimmed | index.js:460-474 | the result is empty exactly when every character is in the strip set; otherwise its first and last characters are not in it |
| Trim.TrimmedIsInfix | index.js:460-474 | the result is one contiguous piece of the input, and only strip-set characters are removed around it |
| Trim.TrimmedFixpoint | index.js:460-474 | trim leaves a string unchanged exactly when it is empty or neither end is in the strip set |
| Trim.TrimmedIdempotent | index.js:460-474 | trimming twice is trimming once |
| Trim.SlashCharlistKeepsWhitespace | index.js:457-459 | with charlist `/` only slashes are stripped and whitespace at the ends stays |
| Trim.Trim | index.js:428-475 | the method (strip-set choice, then the loops) returns the trimmed string over `StripSet(charlist)` |
| Trim.TrimWith | index.js:460-474 | the two cutting loops and the final test compute `Trimmed(str, whitespace)` |
| Url.IndexOf | index.js:316 | `indexOf` returns the first occurrence or -1 when there is none |
| Url.DropTrailingSlash | index.js:325 | `replace(/\/$/, '')` removes exactly one trailing `/` and nothing else |
| Url.FullyQualified | index.js:315-341 | a reference containing `//`, or any reference against a base without `//`, is returned unchanged; otherwise the result ends with `/` and the reference trimmed of slashes |
| Url.ProtocolRelativeJoin | index.js:321-328 | a base starting with `//` gives base-minus-trailing-slash, `/`, and the path trimmed of `/`; the result starts with `//` |
| Url.SchemeJoin | index.js:330-337 | a base with `//` later gives the base and the path, each trimmed of `/`, joined by `/` |
| Url.ResolveInDirectory | index.js:315-341 | a relative name resolved against a directory URL is appended to that directory |
| Url.ResolveAgainstSchemeExample | index.js:330-337 | `thumb.jpg` against `http://x.com/a/` is `http://x.com/a/thumb.jpg` |
| Url.ResolveAgainstProtocolRelativeExample | index.js:321-328 | `thumb.jpg` against `//x.com/a/` is `//x.com/a/thumb.jpg` |
| Url.ResolveQualifiedExample | index.js:316-319 | `//x.com/b.jpg` is returned as it is |
| Url.DirOf | index.js:120 | the directory is a prefix of the input, empty or ending in `/`, with no `/` after it |
| Url.DirOfEmptyIff | index.js:365 | the directory is empty exactly when the input has no `/` |
| Url.DirOfFile | index.js:365-367 | the directory of `dir + name`, with no `/` in `name`, is `dir` |
| Url.DirOfKeepsDoubleSlash | index.js:364-365 | taking the directory of a qualified URL keeps its `//` |
| Url.BaseUrl | index.js:109-121 | the document base URL always contains `//` and ends with `/`, since the split keeps everything up to the last slash |
| Timestamp.Deconstruct | index.js:393-404 | without a `.` the milliseconds are 0; without a `:` there are no minutes or hours; a bare number is read as seconds |
| Timestamp.Truncate | index.js:415-418 | `parseInt` of a non-negative number is its integer part |
| Timestamp.TruncateMilliseconds | index.js:415-418 | truncating whole seconds plus `ms/1000` is whole seconds plus `ms div 1000` |
| Timestamp.SecondsFromTimestamp | index.js:412-419 | the seconds of a timestamp are `h*3600 + m*60 + s + ms div 1000` of its decoded parts |
| Timestamp.ClockComponents | index.js:393-404 | for `H:M:S.F` the parts are read right to left, each parsed on its own, 0 when not a number |
| Timestamp.MinuteComponents | index.js:393-404 | for `M:S.F` there are no hours, so hours are 0 |
| Timestamp.ClockSeconds | index.js:393-419 | digit-only `HH:MM:SS.mmm` gives `h*3600 + m*60 + s + mmm div 1000` |
| Timestamp.MinuteSeconds | index.js:393-419 | digit-only `MM:SS.mmm` gives `m*60 + s + mmm div 1000` |
| Timestamp.ClockNoFraction | index.js:393-404 | for `H:M:S` with no fraction the milliseconds are 0 and the parts are read right to left, each parsed on its own |
| Timestamp.MinuteNoFraction | index.js:393-404 | for `M:S` there are no hours and no milliseconds |
| Timestamp.SecondsFraction | index.js:393-404 | for `S.F` with no `:` there are no minutes or hours; seconds and milliseconds are parsed on their own |
| Timestamp.ClockNoFractionSeconds | index.js:393-419 | digit-only `HH:MM:SS` gives `h*3600 + m*60 + s` |
| Timestamp.MinuteNoFractionSeconds | index.js:393-419 | digit-only `MM:SS` gives `m*60 + s` |
| Timestamp.SecondsFractionSeconds | index.js:393-419 | digit-only `SS.mmm` gives `s + mmm div 1000` |
| Timestamp.TimestampExamples | index.js:393-419 | `01:02:03.500` is 3723 seconds and `02:03.000` is 123 |
| Timestamp.BogusIsZero | index.js:399-402 | text that is not a timestamp decodes to 0 instead of failing |
| Sprite.PropsFromDef | index.js:343-356 | it fails with `NoFragment` exactly when there is no `#xywh=`; on success the image is the text before the first `#xywh=`, has none itself, and x is a digit run |
| Sprite.FirstPieceBeforeFragment | index.js:344-345 | the split on `#xywh=` has two pieces exactly when there is a fragment; the first piece is everything before the first one |
| Sprite.ContextBase | index.js:362-368 | the context base always contains `//` and ends with `/` |
| Sprite.CssFor | index.js:372-384 | the only error is `NoCoordinates`, and every background starts with `url("` |
| Sprite.VttCss | index.js:358-385 | the only error is `NoCoordinates`; every background starts with `url("`; a qualified reference gets the same style whatever the cue sheet's or document's location |
| Sprite.SheetContext | index.js:362-368 | the context base of a cue sheet `dir + file` at a qualified URL is `dir` |
| Sprite.SpriteInDirectory | index.js:370 | a slash-free `name#xywh=c` is resolved against a qualified directory `dir` (ending in `/`) to `dir + name` followed by the same fragment |
| Sprite.SpriteFromSheet | index.js:358-385 | a slash-free `name#xywh=x,y,w,h` listed in a qualified cue sheet `dir + file` gets the crop of `dir + name` at `-xpx -ypx`, `wpx` by `hpx`, with url `dir + name` |
| Sprite.SheetSpriteExample | index.js:358-385 | `sprite.jpg#xywh=10,20,100,50` listed in `http://x.com/a/cues.vtt` is a 100 by 50 crop at (10, 20) of `http://x.com/a/sprite.jpg` |
| Sprite.WholeImageCss | index.js:372-375 | a reference without `#xywh=` sets only `background`, to `url("ref")` |
| Sprite.CssErrorIff | index.js:347-350 | building the style throws exactly when there is a fragment and its text holds no digit |
| Sprite.CroppedUrlIsImage | index.js:377-382 | a style's `url` is the text before the first `#xywh=` of the reference and holds no fragment |
| Sprite.SplitAtFragment | index.js:344-346 | `image#xywh=tail`, with no fragment in `image` and no `#` in `tail`, splits into `image` and `tail` |
| Sprite.PropsOfFragment | index.js:343-356 | the props of such a reference are the digit runs of `tail`, missing ones `undefined`, or `NoCoordinates` when there are none |
| Sprite.CoordsRuns | index.js:347 | the digit runs of `unit x,y,w,h` are `x, y, w, h` |
| Sprite.SpriteProps | index.js:343-356 | `image#xywh=x,y,w,h` (with any digit-free unit prefix) gives props x, y, w, h and that image |
| Sprite.SpriteCss | index.js:377-384 | its style is `url("image") no-repeat -xpx -ypx` with width `wpx`, height `hpx` and url `image` |
| Sprite.TwoNumbersLeaveSizeUndefined | index.js:349-355 | a fragment with two numbers does not fail; w and h are `undefined` |
| Sprite.SpriteExample | index.js:377-384 | `sprite.jpg#xywh=10,20,100,50` is a 100 by 50 crop at (10, 20) |
| CueSheet.IsCueBlock | index.js:295 | the timing pattern matches anywhere in the block; a block that passes is at least 8 characters long, the length of `00-->00` and a line break |
| CueSheet.CueBlockShape | index.js:295-296 | a block that passes the timing-line test has a line break, so two lines, and an arrow's `>` |
| CueSheet.CueBlockExample | index.js:295 | `00:01.000 --> 00:02.000` followed by a line passes the test |
| CueSheet.CueOf | index.js:296-308 | turning a cue block into an entry can only fail with `NoCoordinates` or `MissingEndTime` |
| CueSheet.ParseCues | index.js:290-313 | a failed parse fails only with `NoCoordinates` or `MissingEndTime`, never `NoFragment`; a successful one has at most one entry per block |
| CueSheet.CollectStep | index.js:294-310 | one turn of the loop skips, pushes the entry, or ends the parse with the error |
| CueSheet.ProcessVtt | index.js:290-313 | the loop returns exactly `ParseCues(data)` |
| CueSheet.EntriesAppend | index.js:304-308 | entries keep block order: the entries of two runs of blocks are concatenated |
| CueSheet.EntriesFromBlocks | index.js:304-308 | every entry is the outcome of some block |
| CueSheet.CollectOk | index.js:294-312 | the parse succeeds exactly when no block throws, and then gives the entries of the blocks in order |
| CueSheet.CollectErr | index.js:294-310 | a failed parse fails with the error of the first block that throws |
| CueSheet.AllSkippedNoCues | index.js:294-312 | blocks that all fail the test give no entries |
| CueSheet.ParsedCuesComeFromBlocks | index.js:290-313 | there are at most as many entries as blocks, and each is the entry of a cue block of the sheet |
| CueSheet.NoCueBlocksNoCues | index.js:292-312 | a sheet without a cue block parses to no entries |
| CueSheet.NoArrowNoCues | index.js:292-312 | text without an arrow parses to no entries |
| CueSheet.CrLfBlocksHaveNoLineBreak | index.js:292 | splitting `\r\n` text at `/[\r\n][\r\n]/` leaves no line break in any block |
| CueSheet.CrLfSheetHasNoCues | index.js:292-295 | a cue sheet with `\r\n` line ends parses to no entries |
| CueSheet.TwoLines | index.js:296-301 | a two-line block splits at its line break into those lines |
| CueSheet.TimingLineSplit | index.js:298-300 | `start --> end` splits at the arrow into the two timestamps |
| CueSheet.WellFormedCue | index.js:295-308 | the block `start --> end` then `ref` gives the entry of the two timestamps and the style of `ref` |
| Lookup.FindFrom | index.js:221-236 | the first index at or after `from` whose interval holds the time, or none when no later entry does |
| Lookup.FindAt | index.js:220-237 | the first entry in list order with `start <= time < end`; none exactly when no entry covers the time |
| Lookup.FindAtIgnoresLater | index.js:221-235 | entries after the first covering one do not change the answer |
| Lookup.AdjacentIntervalsExample | index.js:224 | for `[0,5)`, `[5,10)`: 4.999 finds the first, 5 the second, 10 none |
| Placement.ToInt32 | index.js:261 | the conversion lands in `[-2^31, 2^31)` and agrees with its input modulo 2^32 |
| Placement.HalfWidth | index.js:261 | `w >> 1` lies in `[-2^30, 2^30)` and is the 32-bit value of `w` halved, rounded down |
| Placement.HalfWidthOfSmall | index.js:261 | for widths below 2^31, `w >> 1` is `w div 2` |
| Placement.HalfWidthWraps | index.js:261 | a width of 2^31 wraps to a negative half |
| Placement.Scale | index.js:260 | the scale is at most 0.5, positive for a positive bar, and scales the thumbnail to at most a quarter of the bar |
| Placement.Place | index.js:256-275 | the scale is at most 0.5 and positive for a positive bar; once the holder is scaled about its middle, its visible bottom edge sits exactly 50 pixels up, whatever the scale (`ScaledBottomEdge`) |
| Placement.BranchConditions | index.js:262-272 | the branches are exclusive and exhaustive: centred when both margins are positive, left clamp when the left one is not, right clamp otherwise |
| Placement.BranchTranslations | index.js:266-272 | centred gives `xPos - half`, left clamp `half*scale - half`, right clamp `width - half - half*scale` |
| Placement.LeftClampIgnoresCursor | index.js:268-269 | clamped at the left, the placement does not depend on the cursor position |
| Placement.ThumbnailStaysOnBar | index.js:258-272 | `StaysOnBar`: the scaled box, centred `w / 2` right of the translation, starts at or after 0 and ends at most `width + (w/2 - (w >> 1)) * (1 + scale)`, so an even-width thumbnail stays within `[0, width]` |
| Placement.OddWidthOverhangExample | index.js:270-272 | a 161-pixel thumbnail clamped right on an 800-pixel bar ends 0.75 pixels past the bar |
| Placement.MiddleOfBarExample | index.js:258-275 | width 800, thumbnail 160 by 90, cursor at 0.5: centred at 320, scale 0.5, bottom 27.5 |
| Placement.StartOfBarExample | index.js:258-275 | cursor at 0: left clamp at -40, so the scaled left edge is at 0 |
| Plugin.SpriteStyleIsPositionable | index.js:259-264 | the width and height of a sprite style parse back to its numbers |
| Plugin.PrefetchCache.constructor | index.js:7 | the cache starts empty |
| Plugin.PrefetchCache.Prefetch | index.js:226-232 | a truthy URL not yet cached is added once; the cache only grows and holds no URL twice |
| Plugin.VttThumbnails.constructor | index.js:99 | the plugin holds the parsed entries and no last style |
| Plugin.VttThumbnails.GetStyleForTime | index.js:220-237 | the loop returns `FindAt(vttData, time)` and prefetches exactly the found entry's image URL |
| Plugin.VttThumbnails.UpdateThumbnailStyle | index.js:247-288 | with no entry the holder is hidden and nothing else changes, the cache included; otherwise the found entry's truthy image URL is added to the cache, the placement of the entry is applied, it becomes the last style, and the style is copied only when it differs from the last one |

## Left out

- Player and DOM lifecycle are not modelled. This covers the constructor, `src`, `detach`, `resetPlugin`, `listenForDurationChange`, `setupThumbnailElement`, the mouse and touch handlers, `getXCoord`, `showThumbnailHolder` and the plugin registration. They are event wiring and element mutation.
- Network loading is not modelled: `initializeThumbnails`, `getVttFile` and `vttFileLoaded`. The cue-sheet text is a parameter of `CueSheet.ProcessVtt`.
- `window.location` is a `Url.Location` parameter of `Url.BaseUrl`.
- The `Image` object created on a cache miss is not modelled. The cache keeps only the URL.
- The copy of the style record onto the holder's `style` (index.js:283-287) is not modelled. `UpdateThumbnailStyle` reports in `restyled` whether the copy would run.
- The `transform` and `bottom` strings are not modelled. Their numbers are kept as real-valued fields.
- Text.ParseInt: leading whitespace, a sign and radix prefixes are not accepted. A string that does not start with a digit is `NaN`.
- Text.Split: strings are sequences of Unicode characters, not of UTF-16 code units. A character outside the Basic Multilingual Plane counts as one, not two.
- Timestamp.SecondsFromTimestamp: the sum is computed exactly on reals. Double-precision rounding of `ms / 1000` is not modelled.
- Placement.Scale: a zero thumbnail width gives 0.5. In JavaScript, a zero bar width with it gives `NaN`. Floating-point rounding, `NaN` and `Infinity` are not modelled.
- Plugin.VttThumbnails.UpdateThumbnailStyle: requires the entry found at the time to have a numeric `width` and `height`. For a whole-image entry both are `undefined`, and index.js computes with `NaN`.
- Plugin.PrefetchCache.Prefetch: the test `!cache[url]` on a plain object (index.js:226) is modelled as set membership. The two differ for keys every object already has, such as `constructor`, which index.js treats as already cached.
- Plugin.VttThumbnails.UpdateThumbnailStyle: the player's `duration()` and `currentWidth()` are parameters.
- Url.DirOf: returns `""` for `""`, where JavaScript returns `undefined`. index.js:90 never lets an empty source through.
