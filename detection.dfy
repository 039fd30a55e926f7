/** What the recognition service reports for one photograph: a list of faces with scores. */
module Detection {

  /** The closed set of emotion names the service scores. */
  datatype Emotion =
    | Anger | Contempt | Disgust | Fear | Happiness | Neutral | Sadness | Surprise

  /** `faceRectangle`: pixel coordinates of one face in the submitted image. */
  datatype Rect = Rect(left: int, top: int, width: int, height: int)

  /** One entry of the JSON list. `scores` keeps the mapping's iteration order; a score stands
      for the service's confidence, of which only the order matters. */
  datatype Face = Face(faceRectangle: Rect, scores: seq<(Emotion, int)>)

  /** Every face carries at least one score, so `max` over its scores is defined. */
  predicate AllScored(faces: seq<Face>)
  {
    forall i :: 0 <= i < |faces| ==> |faces[i].scores| > 0
  }

  /** Index of the entry Python's `max(scores.items(), key=itemgetter(1))` returns when it has
      looked at the first `n` entries: a later entry replaces the best one only when strictly
      greater, so the first maximal entry wins. */
  function ArgMaxPrefix(scores: seq<(Emotion, int)>, n: nat): (k: nat)
    requires 0 < n <= |scores|
    ensures k < n
    ensures forall i :: 0 <= i < n ==> scores[i].1 <= scores[k].1
    ensures forall j :: 0 <= j < k ==> scores[j].1 < scores[k].1
  {
    if n == 1 then 0
    else
      var best := ArgMaxPrefix(scores, n - 1);
      if scores[n - 1].1 > scores[best].1 then n - 1 else best
  }

  /** Index of the first entry with the highest score. */
  function ArgMax(scores: seq<(Emotion, int)>): (k: nat)
    requires |scores| > 0
    ensures k < |scores|
    ensures forall i :: 0 <= i < |scores| ==> scores[i].1 <= scores[k].1
    ensures forall j :: 0 <= j < k ==> scores[j].1 < scores[k].1
  {
    ArgMaxPrefix(scores, |scores|)
  }

  /** The emotion with the highest score; on a tie, the one listed first. */
  function TopEmotion(f: Face): Emotion
    requires |f.scores| > 0
  {
    f.scores[ArgMax(f.scores)].0
  }

  /** The first-maximal entry is the only index satisfying ArgMax's two conditions. */
  lemma ArgMaxUnique(scores: seq<(Emotion, int)>, k: nat)
    requires k < |scores|
    requires forall i :: 0 <= i < |scores| ==> scores[i].1 <= scores[k].1
    requires forall j :: 0 <= j < k ==> scores[j].1 < scores[k].1
    ensures ArgMax(scores) == k
  {
  }
}
