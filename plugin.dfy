/**
 * The stateful part of the plugin: the module-level prefetch `cache`
 * (index.js:7, 226-232), the active-cue search `getStyleForTime`
 * (index.js:220-237) and the style update `updateThumbnailStyle`
 * (index.js:247-288).
 */
module Plugin {
  import opened Wrappers
  import opened Text
  import opened Sprite
  import opened CueSheet
  import opened Lookup
  import opened Placement

  /** `item.css.url` is truthy: present and not empty (index.js:226). */
  predicate Wanted(url: Option<string>) {
    url.Some? && url.value != ""
  }

  /**
   * The module-level `cache` object, seen as the set of image URLs already
   * requested. `requested` records the order in which they were added.
   */
  class PrefetchCache {
    var urls: set<string>
    ghost var requested: seq<string>

    /** Every URL was added exactly once, and the set is what was added. */
    ghost predicate Valid()
      reads this
    {
      && (forall i, j :: 0 <= i < j < |requested| ==> requested[i] != requested[j])
      && urls == set u | u in requested
    }

    /** `const cache = {}` (index.js:7). */
    constructor()
      ensures Valid() && urls == {} && requested == []
    {
      urls := {};
      requested := [];
    }

    /**
     * The cache-miss branch of index.js:226-232: a wanted URL not yet in the
     * cache is requested and recorded; anything else changes nothing.
     */
    method Prefetch(url: Option<string>)
      requires Valid()
      modifies this
      ensures Valid()
      ensures urls == old(urls) + (if Wanted(url) then {url.value} else {})
      ensures requested == old(requested) + (if Wanted(url) && url.value !in old(urls) then [url.value] else [])
    {
      if Wanted(url) && url.value !in urls {
        urls := urls + {url.value};
        requested := requested + [url.value];
      }
    }
  }

  /** A style whose `width` and `height` parse as numbers, as the placement needs. */
  predicate Positionable(css: Css) {
    && css.width.Some? && ParseInt(css.width.value).Some?
    && css.height.Some? && ParseInt(css.height.value).Some?
  }

  /** `parseInt(currentStyle.width, 10)` (index.js:259). */
  function ThumbWidth(css: Css): nat
    requires Positionable(css)
  {
    ParseInt(css.width.value).value
  }

  /** `parseInt(currentStyle.height, 10)` (index.js:264). */
  function ThumbHeight(css: Css): nat
    requires Positionable(css)
  {
    ParseInt(css.height.value).value
  }

  /** Sprite styles built from a four-number fragment can be positioned. */
  lemma SpriteStyleIsPositionable(w: string, h: string, background: string, image: string)
    requires Numeral(w) && Numeral(h)
    ensures Positionable(Css(background, Some(w + "px"), Some(h + "px"), Some(image)))
    ensures ThumbWidth(Css(background, Some(w + "px"), Some(h + "px"), Some(image))) == DecimalValue(w)
    ensures ThumbHeight(Css(background, Some(w + "px"), Some(h + "px"), Some(image))) == DecimalValue(h)
  {
    assert w + "px" == w + ['p'] + "x";
    assert h + "px" == h + ['p'] + "x";
    ParseIntIgnoresTail(w, 'p', "x");
    ParseIntIgnoresTail(h, 'p', "x");
  }

  /**
   * The plugin object's state that the hover path reads and writes: the
   * parsed cues, the style last applied, and the thumbnail holder's
   * visibility, translation, scale and bottom offset.
   */
  class VttThumbnails {
    var vttData: seq<Cue>
    /** The entry whose style was applied last; the index stands for the identity of its `css` object. */
    var lastStyle: Option<nat>
    var hidden: bool
    var translateX: real
    var scale: real
    var bottom: real

    /** The state after `this.vttData = this.processVtt(data)` (index.js:99). */
    constructor(cues: seq<Cue>)
      ensures vttData == cues && lastStyle == None && !hidden
    {
      vttData := cues;
      lastStyle := None;
      hidden := false;
      translateX := 0.0;
      scale := 1.0;
      bottom := 0.0;
    }

    /**
     * `getStyleForTime(time)` (index.js:220-237): scan the entries in order,
     * return the first whose interval holds `time`, and prefetch its image.
     */
    method GetStyleForTime(time: real, cache: PrefetchCache) returns (found: Option<nat>)
      requires cache.Valid()
      modifies cache
      ensures cache.Valid()
      ensures found == FindAt(vttData, time)
      ensures found.None? ==> cache.urls == old(cache.urls) && cache.requested == old(cache.requested)
      ensures found.Some? ==>
        var url := vttData[found.value].css.url;
        cache.urls == old(cache.urls) + (if Wanted(url) then {url.value} else {})
      ensures old(cache.urls) <= cache.urls
    {
      for i := 0 to |vttData|
        invariant forall j :: 0 <= j < i ==> !Covers(vttData[j], time)
        invariant cache.urls == old(cache.urls) && cache.requested == old(cache.requested)
      {
        var item := vttData[i];
        if time >= item.start as real && time < item.end as real {
          cache.Prefetch(item.css.url);
          return Some(i);
        }
      }
      return None;
    }

    /**
     * `updateThumbnailStyle(percent)` (index.js:247-288), with the player's
     * duration and width passed in. With no entry at the time the holder is
     * hidden; otherwise the placement is applied, and the entry becomes the
     * last style. `restyled` tells whether the style copy of index.js:283-287
     * runs, which it does only when the entry differs from the last one.
     */
    method UpdateThumbnailStyle(percent: real, duration: real, width: real, cache: PrefetchCache)
      returns (restyled: bool)
      requires cache.Valid()
      requires var found := FindAt(vttData, percent * duration);
        found.Some? ==> Positionable(vttData[found.value].css)
      modifies this, cache
      ensures cache.Valid() && old(cache.urls) <= cache.urls
      ensures vttData == old(vttData)
      ensures FindAt(vttData, percent * duration).None? ==>
        && hidden && !restyled && lastStyle == old(lastStyle)
        && translateX == old(translateX) && scale == old(scale) && bottom == old(bottom)
        && cache.urls == old(cache.urls) && cache.requested == old(cache.requested)
      ensures FindAt(vttData, percent * duration).Some? ==>
        var url := vttData[FindAt(vttData, percent * duration).value].css.url;
        cache.urls == old(cache.urls) + (if Wanted(url) then {url.value} else {})
      ensures FindAt(vttData, percent * duration).Some? ==>
        var i := FindAt(vttData, percent * duration).value;
        var p := Place(percent, width, ThumbWidth(vttData[i].css), ThumbHeight(vttData[i].css));
        && translateX == p.translateX && scale == p.scale && bottom == p.bottom
        && hidden == old(hidden)
        && lastStyle == Some(i)
        && restyled == (old(lastStyle) != Some(i))
    {
      var time := percent * duration;
      var currentStyle := GetStyleForTime(time, cache);
      if currentStyle.None? {
        hidden := true;
        return false;
      }
      var css := vttData[currentStyle.value].css;
      var p := Place(percent, width, ThumbWidth(css), ThumbHeight(css));
      translateX := p.translateX;
      scale := p.scale;
      bottom := p.bottom;
      if lastStyle == currentStyle {
        return false;
      }
      lastStyle := currentStyle;
      restyled := true;
    }
  }
}
