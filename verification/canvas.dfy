/** What the overlay code needs from a drawing library, with the pixels left out:
    a loaded font is known only through its measurements, and drawing a string
    is recorded as a command instead of being rasterised. */
module Canvas {

  /** A loaded font. `width(s)` is the horizontal extent of the bounding box of `s`
      (`getbbox(s)[2] - getbbox(s)[0]`); `ascent` and `descent` are `getmetrics()`. */
  datatype Font = Font(width: string -> nat, ascent: nat, descent: nat)

  /** An RGB triple as the annotation gives it (a list turned into a tuple). */
  type Colour = seq<int>

  /** The paint of one `draw.text` call: fill colour, outline width and outline colour. */
  datatype Style = Style(fill: Colour, strokeWidth: int, strokeFill: Colour)

  /** One `draw.text((x, y), text, ...)` call. */
  datatype Draw = Draw(x: int, y: int, text: string, style: Style)

  /** `start` places something of length `size` centred within the span of length
      `extent` that begins at `lo`: the space left before it and the space left after
      it are equal, or the space after is larger by one (floor division rounds towards
      the start). Either space may be negative when the thing is larger than the span. */
  predicate Centred(lo: int, extent: int, start: int, size: int)
  {
    var before := start - lo;
    var after := (lo + extent) - (start + size);
    before == after || before + 1 == after
  }
}
