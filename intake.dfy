/** `process_file`: submit the encoded image, annotate it when the service answered with faces,
    and either save the annotated image or return it. */
module Intake {
  import opened Basics
  import opened Detection
  import opened Dispatcher
  import opened Annotator

  /** What `cv2.imwrite` puts at a path: the raster decoded from `source` with `marks` drawn. */
  datatype Written = Written(path: string, source: seq<byte>, marks: seq<Mark>)

  /** Python truthiness of the `saveto` argument: `None` and `''` are false. */
  predicate Truthy(saveto: Option<string>)
  {
    saveto.Some? && |saveto.value| > 0
  }

  /** The faces `renderResultOnImage` iterates over for a non-`None` result: the parsed list, or
      no faces for an image answer with an empty body (iterating `b''` does nothing). */
  function DrawnFaces(result: Outcome): seq<Face>
  {
    match result
    case Parsed(faces) => faces
    case RawImage(_) => []
    case NoResult => []
  }

  /** The result can be drawn: it is not a non-empty byte string, over which the source's loops
      would index bytes as if they were faces. */
  predicate Drawable(result: Outcome)
  {
    result.RawImage? ==> |result.bytes| == 0
  }

  /** `data` is the thumbnailed JPEG encoding of the input file; `post(n)` is the service's
      answer to the n-th post. Returns the annotated image or `None`, and what was written. */
  method ProcessFile(data: seq<byte>, post: nat -> Response, saveto: Option<string>)
    returns (img: Image?, written: Option<Written>)
    requires Drawable(RequestOutcome(post))
    requires AllScored(DrawnFaces(RequestOutcome(post)))
    ensures RequestOutcome(post) == NoResult ==> img == null && written == None
    ensures RequestOutcome(post) != NoResult && Truthy(saveto) ==>
      img == null &&
      written == Some(Written(saveto.value, data, AnnotationPlan(DrawnFaces(RequestOutcome(post)))))
    ensures RequestOutcome(post) != NoResult && !Truthy(saveto) ==>
      img != null && fresh(img) && written == None &&
      img.source == data && img.marks == AnnotationPlan(DrawnFaces(RequestOutcome(post)))
  {
    var result, _, _ := ProcessRequest(post);
    img, written := null, None;
    if result != NoResult {
      var decoded := new Image.Decode(data);
      RenderResultOnImage(DrawnFaces(result), decoded);
      assert decoded.marks == AnnotationPlan(DrawnFaces(result));
      if Truthy(saveto) {
        written := Some(Written(saveto.value, decoded.source, decoded.marks));
      } else {
        img := decoded;
      }
    }
  }

  /** An image answer with an empty body is drawable and draws nothing: `process_file` then
      writes or returns the plain decoded image. */
  lemma EmptyImageAnswerDrawsNothing(post: nat -> Response)
    requires RequestOutcome(post) == RawImage([])
    ensures Drawable(RequestOutcome(post))
    ensures AnnotationPlan(DrawnFaces(RequestOutcome(post))) == []
  {
  }
}
