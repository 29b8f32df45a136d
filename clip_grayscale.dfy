/**
 * The clip-grayscale filter: in a grayscale ("L") image, pixels below a minimum are replaced,
 * then pixels above a maximum are replaced, and the result is clamped to 0..255. Images of
 * any other mode pass through.
 */
module ClipGrayscaleFilter {
  import opened Wrappers
  import opened Grids
  import opened Records

  /** The PIL mode of an 8-bit grayscale image. */
  const GrayscaleMode: string := "L"

  /** The four values the filter runs with. */
  datatype Clip = Clip(minValue: int, minReplacement: int, maxValue: int, maxReplacement: int)

  /** `np.clip(v, 0, 255)`. */
  function Clamp(v: int): (c: int)
    ensures 0 <= c <= 255
    ensures 0 <= v <= 255 ==> c == v
  {
    if v < 0 then 0 else if v > 255 then 255 else v
  }

  /** Whether the values leave every pixel alone, so that the filter does nothing. */
  predicate NoClipping(c: Clip)
  {
    c.minValue == 0 && c.maxValue == 255
  }

  /**
   * The rule for one pixel: the minimum step (only when the minimum is positive), then the
   * maximum step on its result (only when the maximum is below 255), then the clamp.
   */
  function ClipPixel(v: int, c: Clip): (p: int)
    requires c.minValue < c.maxValue
    ensures 0 <= p <= 255
    ensures 0 <= v <= 255 && c.minValue <= v <= c.maxValue ==> p == v
    ensures c.minValue > 0 && v < c.minValue && (c.maxValue >= 255 || c.minReplacement <= c.maxValue) ==>
      p == Clamp(c.minReplacement)
    ensures c.minValue > 0 && v < c.minValue && c.maxValue < 255 && c.minReplacement > c.maxValue ==>
      p == Clamp(c.maxReplacement)
    ensures v > c.maxValue && c.maxValue < 255 ==> p == Clamp(c.maxReplacement)
    ensures v > c.maxValue && c.maxValue >= 255 ==> p == Clamp(v)
  {
    var low := if c.minValue > 0 && v < c.minValue then c.minReplacement else v;
    var high := if c.maxValue < 255 && low > c.maxValue then c.maxReplacement else low;
    Clamp(high)
  }

  /** The rule applied to every pixel of an image. */
  function ClipImage(g: Grid, c: Clip): (r: Grid)
    requires c.minValue < c.maxValue
    ensures WellFormed(r) && r.height == g.height && r.width == g.width
    ensures forall i, j :: 0 <= i < g.height && 0 <= j < g.width ==>
      At(r, i, j) == ClipPixel(At(g, i, j), c) && 0 <= At(r, i, j) <= 255
  {
    Build(g.height, g.width, (i, j) => ClipPixel(At(g, i, j), c))
  }

  /** The pixels of an image are 8-bit values, as in every image a reader produces. */
  predicate EightBit(g: Grid)
  {
    forall i, j :: 0 <= i < g.height && 0 <= j < g.width ==> 0 <= At(g, i, j) <= 255
  }

  /**
   * The filter may skip values that clip nothing: on an 8-bit image, a minimum of 0 and a
   * maximum of 255 leave every pixel as it is.
   */
  lemma NoClippingIdentity(g: Grid, c: Clip)
    requires NoClipping(c) && WellFormed(g) && EightBit(g)
    ensures ClipImage(g, c) == g
  {
    Extensionality(ClipImage(g, c), g);
  }

  /** One record through the filter: a grayscale image is clipped; any other record is passed on. */
  function Clipped(r: Record, c: Clip): (o: Record)
    requires c.minValue < c.maxValue
    ensures r.mode != GrayscaleMode ==> o == r
    ensures r.mode == GrayscaleMode ==> o == r.(image := ClipImage(r.image, c))
    ensures o.name == r.name && o.format == r.format && o.mode == r.mode && o.meta == r.meta && o.ann == r.ann
    ensures r.mode == GrayscaleMode ==> EightBit(o.image) && WellFormed(o.image)
  {
    if r.mode == GrayscaleMode then r.(image := ClipImage(r.image, c)) else r
  }

  /** Skipping the batch when the values clip nothing agrees with clipping every 8-bit record. */
  lemma NoClippingRecord(r: Record, c: Clip)
    requires NoClipping(c) && WellFormedRecord(r) && EightBit(r.image)
    ensures Clipped(r, c) == r
  {
    NoClippingIdentity(r.image, c);
  }

  /** The filter's values, as set by the caller and then completed by `Initialize`. */
  class ClipGrayscale {
    var minValue: Option<int>
    var minReplacement: Option<int>
    var maxValue: Option<int>
    var maxReplacement: Option<int>

    constructor (minValue: Option<int>, minReplacement: Option<int>, maxValue: Option<int>, maxReplacement: Option<int>)
      ensures this.minValue == minValue && this.minReplacement == minReplacement
      ensures this.maxValue == maxValue && this.maxReplacement == maxReplacement
    {
      this.minValue, this.minReplacement := minValue, minReplacement;
      this.maxValue, this.maxReplacement := maxValue, maxReplacement;
    }

    /** Every value is set and the minimum lies below the maximum. */
    predicate Initialized()
      reads this
    {
      minValue.Some? && minReplacement.Some? && maxValue.Some? && maxReplacement.Some? &&
      minValue.value < maxValue.value
    }

    /** The values as one. */
    function Values(): Clip
      reads this
      requires Initialized()
    {
      Clip(minValue.value, minReplacement.value, maxValue.value, maxReplacement.value)
    }

    /**
     * `initialize`: unset values default to 0, 0, 255 and 255; then it fails unless the minimum
     * lies below the maximum.
     */
    method Initialize() returns (ok: bool)
      modifies this
      ensures minValue == Some(old(minValue).GetOr(0)) && minReplacement == Some(old(minReplacement).GetOr(0))
      ensures maxValue == Some(old(maxValue).GetOr(255)) && maxReplacement == Some(old(maxReplacement).GetOr(255))
      ensures ok <==> old(minValue).GetOr(0) < old(maxValue).GetOr(255)
      ensures ok ==> Initialized()
    {
      minValue := Some(minValue.GetOr(0));
      minReplacement := Some(minReplacement.GetOr(0));
      maxValue := Some(maxValue.GetOr(255));
      maxReplacement := Some(maxReplacement.GetOr(255));
      ok := minValue.value < maxValue.value;
    }

    /**
     * `_do_process`: the batch as it is when the values clip nothing; otherwise one output per
     * record, in order, each record clipped.
     */
    method Process(items: seq<Record>) returns (result: seq<Record>)
      requires Initialized()
      ensures NoClipping(Values()) ==> result == items
      ensures !NoClipping(Values()) ==>
        |result| == |items| && forall k :: 0 <= k < |items| ==> result[k] == Clipped(items[k], Values())
    {
      var c := Values();
      if NoClipping(c) {
        return items;
      }
      result := [];
      var i := 0;
      while i < |items|
        invariant 0 <= i <= |items|
        invariant |result| == i && forall k :: 0 <= k < i ==> result[k] == Clipped(items[k], c)
      {
        var item := items[i];
        if item.mode == GrayscaleMode {
          result := result + [item.(image := ClipImage(item.image, c))];
        } else {
          result := result + [item];
        }
        i := i + 1;
      }
    }
  }
}
