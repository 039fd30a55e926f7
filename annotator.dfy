/** `renderResultOnImage`: a rectangle over every face, then a translated label over every face.
    Drawing is recorded as a trace of marks on the image instead of changed pixels. */
module Annotator {
  import opened Basics
  import opened Detection

  type Point = (int, int)

  /** A colour in OpenCV's blue-green-red order. */
  datatype Color = Bgr(blue: int, green: int, red: int)
  datatype Font = HersheyComplex

  const RED := Bgr(0, 0, 255)
  const RECT_THICKNESS := 5
  const TEXT_SCALE := 1
  const TEXT_THICKNESS := 1
  /** The label's baseline sits this many pixels above the face's top edge. */
  const LABEL_RAISE := 10

  /** One drawing call: `cv2.rectangle` or `cv2.putText`. */
  datatype Mark =
    | Rectangle(pt1: Point, pt2: Point, color: Color, thickness: int)
    | PutText(text: string, org: Point, font: Font, fontScale: int, color: Color, thickness: int)

  /** A decoded raster: the bytes it was decoded from and the marks drawn on it so far. */
  class Image {
    const source: seq<byte>
    var marks: seq<Mark>

    /** `cv2.imdecode`: a fresh raster with nothing drawn on it. */
    constructor Decode(data: seq<byte>)
      ensures source == data && marks == []
    {
      source := data;
      marks := [];
    }

    /** `cv2.rectangle(img, pt1, pt2, color, thickness)`. */
    method DrawRectangle(pt1: Point, pt2: Point, color: Color, thickness: int)
      modifies this
      ensures marks == old(marks) + [Rectangle(pt1, pt2, color, thickness)]
    {
      marks := marks + [Rectangle(pt1, pt2, color, thickness)];
    }

    /** `cv2.putText(img, text, org, font, fontScale, color, thickness)`. */
    method DrawText(text: string, org: Point, font: Font, fontScale: int, color: Color, thickness: int)
      modifies this
      ensures marks == old(marks) + [PutText(text, org, font, fontScale, color, thickness)]
    {
      marks := marks + [PutText(text, org, font, fontScale, color, thickness)];
    }
  }

  /** The fixed `emotion_rus` table. */
  function Russian(e: Emotion): string
  {
    match e
    case Anger => "Гнев"
    case Contempt => "Сомнение"
    case Disgust => "Отвращение"
    case Fear => "Страх"
    case Happiness => "Радость"
    case Neutral => "Нейтрально"
    case Sadness => "Грусть"
    case Surprise => "Удивление"
  }

  /** Opposite corners of a face's rectangle. */
  function Corners(r: Rect): (Point, Point)
  {
    ((r.left, r.top), (r.left + r.width, r.top + r.height))
  }

  /** Where a face's label is written; nothing keeps it inside the image. */
  function LabelAnchor(r: Rect): Point
  {
    (r.left, r.top - LABEL_RAISE)
  }

  /** A face's label: the translation of its highest-scoring emotion. */
  function FaceLabel(f: Face): string
    requires |f.scores| > 0
  {
    Russian(TopEmotion(f))
  }

  /** A face's label is the translation of an emotion with the highest score, placed first
      among those with that score. */
  lemma FaceLabelIsTopScore(f: Face)
    requires |f.scores| > 0
    ensures exists k :: (0 <= k < |f.scores| && FaceLabel(f) == Russian(f.scores[k].0) &&
      (forall i :: 0 <= i < |f.scores| ==> f.scores[i].1 <= f.scores[k].1) &&
      (forall j :: 0 <= j < k ==> f.scores[j].1 < f.scores[k].1))
  {
    var k := ArgMax(f.scores);
    assert FaceLabel(f) == Russian(f.scores[k].0);
  }

  /** The mark the first pass draws for a face. */
  function FaceBox(f: Face): Mark
  {
    var c := Corners(f.faceRectangle);
    Rectangle(c.0, c.1, RED, RECT_THICKNESS)
  }

  /** The mark the second pass draws for a face. */
  function FaceCaption(f: Face): Mark
    requires |f.scores| > 0
  {
    PutText(FaceLabel(f), LabelAnchor(f.faceRectangle), HersheyComplex, TEXT_SCALE, RED, TEXT_THICKNESS)
  }

  /** Marks of the first loop over `faces`, in order. */
  function BoxPass(faces: seq<Face>): seq<Mark>
  {
    if |faces| == 0 then [] else BoxPass(faces[..|faces| - 1]) + [FaceBox(faces[|faces| - 1])]
  }

  /** Marks of the second loop over `faces`, in order. */
  function CaptionPass(faces: seq<Face>): seq<Mark>
    requires AllScored(faces)
  {
    if |faces| == 0 then []
    else CaptionPass(faces[..|faces| - 1]) + [FaceCaption(faces[|faces| - 1])]
  }

  /** Everything one call draws: all rectangles, then all labels. */
  function AnnotationPlan(faces: seq<Face>): seq<Mark>
    requires AllScored(faces)
  {
    BoxPass(faces) + CaptionPass(faces)
  }

  /** Draws the annotation of `result` onto `img`. */
  method RenderResultOnImage(result: seq<Face>, img: Image)
    requires AllScored(result)
    modifies img
    ensures img.marks == old(img.marks) + AnnotationPlan(result)
  {
    ghost var before := img.marks;
    for i := 0 to |result|
      invariant img.marks == before + BoxPass(result[..i])
    {
      var corners := Corners(result[i].faceRectangle);
      img.DrawRectangle(corners.0, corners.1, RED, RECT_THICKNESS);
      BoxPassExtend(result, i);
      AppendAssoc(before, BoxPass(result[..i]), [FaceBox(result[i])]);
    }
    assert result[..|result|] == result;
    ghost var boxed := img.marks;
    for i := 0 to |result|
      invariant img.marks == boxed + CaptionPass(result[..i])
    {
      var textToWrite := FaceLabel(result[i]);
      img.DrawText(textToWrite, LabelAnchor(result[i].faceRectangle), HersheyComplex, TEXT_SCALE, RED, TEXT_THICKNESS);
      CaptionPassExtend(result, i);
      AppendAssoc(boxed, CaptionPass(result[..i]), [FaceCaption(result[i])]);
    }
    assert result[..|result|] == result;
    AppendAssoc(before, BoxPass(result), CaptionPass(result));
  }

  lemma AppendAssoc(a: seq<Mark>, b: seq<Mark>, c: seq<Mark>)
    ensures (a + b) + c == a + (b + c)
  {
  }


  /** One more iteration of the first loop appends the next face's rectangle. */
  lemma BoxPassExtend(faces: seq<Face>, i: int)
    requires 0 <= i < |faces|
    ensures BoxPass(faces[..i + 1]) == BoxPass(faces[..i]) + [FaceBox(faces[i])]
  {
    assert faces[..i + 1][..i] == faces[..i];
  }

  /** One more iteration of the second loop appends the next face's label. */
  lemma CaptionPassExtend(faces: seq<Face>, i: int)
    requires AllScored(faces)
    requires 0 <= i < |faces|
    ensures AllScored(faces[..i]) && AllScored(faces[..i + 1])
    ensures CaptionPass(faces[..i + 1]) == CaptionPass(faces[..i]) + [FaceCaption(faces[i])]
  {
    assert faces[..i + 1][..i] == faces[..i];
  }

  /** The first pass draws exactly one rectangle per face, the i-th over the i-th face. */
  lemma {:induction false} BoxPassAt(faces: seq<Face>, i: int)
    requires 0 <= i < |faces|
    ensures |BoxPass(faces)| == |faces|
    ensures BoxPass(faces)[i] == FaceBox(faces[i])
    decreases |faces|
  {
    var n := |faces| - 1;
    BoxPassLength(faces[..n]);
    if i < n {
      BoxPassAt(faces[..n], i);
    }
  }

  lemma {:induction false} BoxPassLength(faces: seq<Face>)
    ensures |BoxPass(faces)| == |faces|
    decreases |faces|
  {
    if |faces| > 0 {
      BoxPassLength(faces[..|faces| - 1]);
    }
  }

  /** The second pass draws exactly one label per face, the i-th for the i-th face. */
  lemma {:induction false} CaptionPassAt(faces: seq<Face>, i: int)
    requires AllScored(faces)
    requires 0 <= i < |faces|
    ensures |CaptionPass(faces)| == |faces|
    ensures CaptionPass(faces)[i] == FaceCaption(faces[i])
    decreases |faces|
  {
    var n := |faces| - 1;
    CaptionPassLength(faces[..n]);
    if i < n {
      CaptionPassAt(faces[..n], i);
    }
  }

  lemma {:induction false} CaptionPassLength(faces: seq<Face>)
    requires AllScored(faces)
    ensures |CaptionPass(faces)| == |faces|
    decreases |faces|
  {
    if |faces| > 0 {
      CaptionPassLength(faces[..|faces| - 1]);
    }
  }

  /** Shape of the trace: 2n marks; mark i is face i's rectangle from (left, top) to
      (left + width, top + height); mark n + i is face i's label at (left, top - 10). */
  lemma AnnotationPlanShape(faces: seq<Face>)
    requires AllScored(faces)
    ensures |AnnotationPlan(faces)| == 2 * |faces|
    ensures forall i :: 0 <= i < |faces| ==>
      AnnotationPlan(faces)[i] ==
        Rectangle((faces[i].faceRectangle.left, faces[i].faceRectangle.top),
                  (faces[i].faceRectangle.left + faces[i].faceRectangle.width,
                   faces[i].faceRectangle.top + faces[i].faceRectangle.height),
                  RED, RECT_THICKNESS)
    ensures forall i :: 0 <= i < |faces| ==>
      AnnotationPlan(faces)[|faces| + i] ==
        PutText(FaceLabel(faces[i]), (faces[i].faceRectangle.left, faces[i].faceRectangle.top - 10),
                HersheyComplex, TEXT_SCALE, RED, TEXT_THICKNESS)
  {
    BoxPassLength(faces);
    CaptionPassLength(faces);
    forall i | 0 <= i < |faces|
      ensures AnnotationPlan(faces)[i] == FaceBox(faces[i])
      ensures AnnotationPlan(faces)[|faces| + i] == FaceCaption(faces[i])
    {
      BoxPassAt(faces, i);
      CaptionPassAt(faces, i);
    }
  }

  /** Two passes, never interleaved: every rectangle comes before every label. */
  lemma RectanglesBeforeLabels(faces: seq<Face>)
    requires AllScored(faces)
    ensures forall i, j :: 0 <= i < j < |AnnotationPlan(faces)| ==>
      !(AnnotationPlan(faces)[i].PutText? && AnnotationPlan(faces)[j].Rectangle?)
    ensures forall i :: 0 <= i < |AnnotationPlan(faces)| ==>
      (AnnotationPlan(faces)[i].Rectangle? <==> i < |faces|)
  {
    AnnotationPlanShape(faces);
    var plan, n := AnnotationPlan(faces), |faces|;
    forall i | 0 <= i < |plan|
      ensures plan[i].Rectangle? <==> i < n
    {
      if i < n {
        BoxPassAt(faces, i);
      } else {
        CaptionPassAt(faces, i - n);
      }
    }
  }

  /** The label sits 10 pixels above the rectangle's top edge and is not clamped: a face near
      the top edge gets a label anchored above the image. */
  lemma LabelAnchorUnclamped(r: Rect)
    ensures LabelAnchor(r).0 == Corners(r).0.0
    ensures LabelAnchor(r).1 == Corners(r).0.1 - 10
    ensures r.top < 10 ==> LabelAnchor(r).1 < 0
  {
  }

  /** A face whose scores rank happiness above neutral is labelled with happiness's translation. */
  lemma HappinessWins(r: Rect)
    ensures FaceLabel(Face(r, [(Happiness, 90), (Neutral, 10)])) == "Радость"
  {
    ArgMaxUnique([(Happiness, 90), (Neutral, 10)], 0);
  }

  /** On equal top scores the entry listed first wins. */
  lemma TieGoesToFirst(r: Rect, a: Emotion, b: Emotion, score: int)
    ensures FaceLabel(Face(r, [(a, score), (b, score)])) == Russian(a)
  {
    ArgMaxUnique([(a, score), (b, score)], 0);
  }

  /** Distinct emotions get distinct labels. */
  lemma RussianInjective(e1: Emotion, e2: Emotion)
    requires e1 != e2
    ensures Russian(e1) != Russian(e2)
  {
  }

  /** An empty detection list draws nothing. */
  lemma EmptyResultDrawsNothing()
    ensures AnnotationPlan([]) == []
  {
  }
}
