/**
 * The CONFIG_DEFAULTS filter `_override_openedx_docker_image`: it scans the host's
 * accumulated (key, value) defaults, remembers the last value given to each of the
 * two image keys, and appends to the very same list a themed image name for each
 * key whose remembered value is non-empty.
 */
module DockerImage {

  /** One configuration default, as the host hands it over: (key, value). */
  type Pair = (string, string)

  const OPENEDX_KEY: string := "DOCKER_IMAGE_OPENEDX"
  const MFE_KEY: string := "MFE_DOCKER_IMAGE"
  const THEME_SUFFIX: string := "-veneactiva-theme"

  // ---------------------------------------------------------------------------
  // Specification

  /** The value of the last entry whose key is `key`, or "" when there is none. */
  function LastValue(items: seq<Pair>, key: string): string
  {
    if items == [] then ""
    else if items[|items| - 1].0 == key then items[|items| - 1].1
    else LastValue(items[..|items| - 1], key)
  }

  /** `j` is the position of the last entry with key `key`. */
  ghost predicate IsLastOccurrence(items: seq<Pair>, key: string, j: int)
  {
    0 <= j < |items| && items[j].0 == key &&
    forall k :: j < k < |items| ==> items[k].0 != key
  }

  /** `key` is absent from `items`, or the last entry with that key has an empty value. */
  ghost predicate NoImage(items: seq<Pair>, key: string)
  {
    (forall j :: 0 <= j < |items| ==> items[j].0 != key) ||
    (exists j :: IsLastOccurrence(items, key, j) && items[j].1 == "")
  }

  /** The entry appended for one image key: nothing when the remembered image is empty. */
  function ThemedImage(key: string, image: string): seq<Pair>
  {
    if image != "" then [(key, image + THEME_SUFFIX)] else []
  }

  /** The list after the filter has run: the input, then at most one pair per image key. */
  function Overridden(items: seq<Pair>): (r: seq<Pair>)
    ensures |items| <= |r| <= |items| + 2
    ensures r[..|items|] == items
  {
    items
      + ThemedImage(OPENEDX_KEY, LastValue(items, OPENEDX_KEY))
      + ThemedImage(MFE_KEY, LastValue(items, MFE_KEY))
  }

  // ---------------------------------------------------------------------------
  // The caller's list and the filter

  /** The Python list the host passes in; the filter appends to it in place. */
  class ItemList {
    var elems: seq<Pair>

    constructor (elems: seq<Pair>)
      ensures this.elems == elems
    {
      this.elems := elems;
    }

    /** `list.append`: the new pair goes at the end, nothing else moves. */
    method Append(p: Pair)
      modifies this
      ensures elems == old(elems) + [p]
    {
      elems := elems + [p];
    }
  }

  /** The scan: the last value seen for each image key, "" for a key never seen. */
  method LatestImages(items: seq<Pair>) returns (openedxImage: string, mfeImage: string)
    ensures openedxImage == LastValue(items, OPENEDX_KEY)
    ensures mfeImage == LastValue(items, MFE_KEY)
  {
    openedxImage, mfeImage := "", "";
    for i := 0 to |items|
      invariant openedxImage == LastValue(items[..i], OPENEDX_KEY)
      invariant mfeImage == LastValue(items[..i], MFE_KEY)
    {
      assert items[..i + 1][..i] == items[..i];
      var (k, v) := items[i];
      if k == OPENEDX_KEY {
        openedxImage := v;
      } else if k == MFE_KEY {
        mfeImage := v;
      }
    }
    assert items[..|items|] == items;
  }

  /** The filter itself: appends to `items` and returns that same list. */
  method OverrideOpenedxDockerImage(items: ItemList) returns (r: ItemList)
    modifies items
    ensures r == items
    ensures items.elems == Overridden(old(items.elems))
  {
    var openedxImage, mfeImage := LatestImages(items.elems);
    if openedxImage != "" {
      items.Append((OPENEDX_KEY, openedxImage + THEME_SUFFIX));
    }
    if mfeImage != "" {
      items.Append((MFE_KEY, mfeImage + THEME_SUFFIX));
    }
    r := items;
  }

  // ---------------------------------------------------------------------------
  // Properties

  /** The remembered value is that of the last matching entry, and "" when no entry matches. */
  lemma {:induction false} LastValueIsLastOccurrence(items: seq<Pair>, key: string)
    ensures (forall j :: 0 <= j < |items| ==> items[j].0 != key) ==> LastValue(items, key) == ""
    ensures forall j :: IsLastOccurrence(items, key, j) ==> LastValue(items, key) == items[j].1
  {
    if items != [] {
      var n := |items| - 1;
      var front := items[..n];
      LastValueIsLastOccurrence(front, key);
      if (forall j :: 0 <= j < |items| ==> items[j].0 != key) {
        assert forall j :: 0 <= j < |front| ==> front[j].0 != key by {
          forall j | 0 <= j < |front| ensures front[j].0 != key {
            assert front[j] == items[j];
          }
        }
      }
      forall j | IsLastOccurrence(items, key, j)
        ensures LastValue(items, key) == items[j].1
      {
        if j < n {
          assert IsLastOccurrence(front, key, j);
        }
      }
    }
  }

  /** Appending one pair changes the last value of its own key only. */
  lemma LastValueAppend(items: seq<Pair>, p: Pair, key: string)
    ensures LastValue(items + [p], key) == if p.0 == key then p.1 else LastValue(items, key)
  {
    assert (items + [p])[..|items|] == items;
  }

  /**
   * A non-empty last DOCKER_IMAGE_OPENEDX value `v` yields the pair
   * (DOCKER_IMAGE_OPENEDX, v + "-veneactiva-theme") right after the original entries.
   */
  lemma OpenedxImageThemed(items: seq<Pair>, j: int)
    requires IsLastOccurrence(items, OPENEDX_KEY, j) && items[j].1 != ""
    ensures |Overridden(items)| > |items|
    ensures Overridden(items)[|items|] == (OPENEDX_KEY, items[j].1 + THEME_SUFFIX)
  {
    LastValueIsLastOccurrence(items, OPENEDX_KEY);
  }

  /**
   * A non-empty last MFE_DOCKER_IMAGE value `v` yields the pair
   * (MFE_DOCKER_IMAGE, v + "-veneactiva-theme") as the final entry.
   */
  lemma MfeImageThemed(items: seq<Pair>, j: int)
    requires IsLastOccurrence(items, MFE_KEY, j) && items[j].1 != ""
    ensures |Overridden(items)| > |items|
    ensures Overridden(items)[|Overridden(items)| - 1] == (MFE_KEY, items[j].1 + THEME_SUFFIX)
  {
    LastValueIsLastOccurrence(items, MFE_KEY);
  }

  /** With both images set, exactly two pairs are appended, the openedx one first. */
  lemma BothImagesThemed(items: seq<Pair>, jOpenedx: int, jMfe: int)
    requires IsLastOccurrence(items, OPENEDX_KEY, jOpenedx) && items[jOpenedx].1 != ""
    requires IsLastOccurrence(items, MFE_KEY, jMfe) && items[jMfe].1 != ""
    ensures Overridden(items) == items + [(OPENEDX_KEY, items[jOpenedx].1 + THEME_SUFFIX),
                                          (MFE_KEY, items[jMfe].1 + THEME_SUFFIX)]
  {
    LastValueIsLastOccurrence(items, OPENEDX_KEY);
    LastValueIsLastOccurrence(items, MFE_KEY);
  }

  /**
   * An image key that is absent, or whose last value is empty, gets no appended
   * pair, and the filter does not fail.
   */
  lemma SkippedWhenAbsentOrEmpty(items: seq<Pair>, key: string)
    requires key == OPENEDX_KEY || key == MFE_KEY
    requires NoImage(items, key)
    ensures forall i :: |items| <= i < |Overridden(items)| ==> Overridden(items)[i].0 != key
  {
    LastValueIsLastOccurrence(items, key);
  }

  /** Nothing is appended at all when neither image key has a non-empty last value. */
  lemma {:induction false} UnchangedWithoutImages(items: seq<Pair>)
    requires NoImage(items, OPENEDX_KEY) && NoImage(items, MFE_KEY)
    ensures Overridden(items) == items
  {
    LastValueIsLastOccurrence(items, OPENEDX_KEY);
    LastValueIsLastOccurrence(items, MFE_KEY);
  }

  /**
   * Read back with "last entry wins", as the filter's own loop reads the list, the
   * result gives each image key its themed image, and every other key its old value.
   */
  lemma EffectiveValuesThemed(items: seq<Pair>, key: string)
    ensures var v := LastValue(items, key);
      LastValue(Overridden(items), key) ==
        if (key == OPENEDX_KEY || key == MFE_KEY) && v != "" then v + THEME_SUFFIX else v
  {
    var o := ThemedImage(OPENEDX_KEY, LastValue(items, OPENEDX_KEY));
    var m := ThemedImage(MFE_KEY, LastValue(items, MFE_KEY));
    if o != [] {
      LastValueAppend(items, o[0], key);
      assert items + o == items + [o[0]];
    }
    if m != [] {
      LastValueAppend(items + o, m[0], key);
      assert items + o + m == (items + o) + [m[0]];
    }
    assert Overridden(items) == items + o + m;
  }
}
