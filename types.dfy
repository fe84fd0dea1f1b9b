/** The records exchanged between the backend and the frontend. */
module QATypes {
  import opened JsBuiltins

  /**
   * A region the model mentioned, with the answer text around the mention.
   * The coordinates are `[x1, y1, x2, y2]`, normalised to the image size;
   * the backend builds the list by parsing, so its length and finiteness
   * are properties proved about the extraction rather than part of the type.
   */
  datatype BoundingBox = BoundingBox(coordinates: seq<Number>, context: string)

  /**
   * The result of one question: the model's answer, the boxes derived from
   * it, the model identifier, and the optional `fallback` flag (absent on the
   * primary path).
   */
  datatype QAResponse = QAResponse(
    answer: string,
    boundingBoxes: seq<BoundingBox>,
    model: string,
    fallback: Option<bool>)

  /** Four finite coordinates: what the frontend's `[number, number, number, number]` type expects. */
  predicate FiniteBox(b: BoundingBox)
  {
    |b.coordinates| == 4 && forall k :: 0 <= k < 4 ==> b.coordinates[k].Num?
  }

  /** Four finite coordinates, each a fraction of the image size. */
  predicate NormalisedBox(b: BoundingBox)
  {
    FiniteBox(b) && forall k :: 0 <= k < 4 ==> 0.0 <= b.coordinates[k].value <= 1.0
  }
}
