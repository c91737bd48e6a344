/** How the Results tab presents the score (app.py lines 91-95 and 103-106). */
module Score {
  /** `score_label`: the rating shown next to the score. */
  function ScoreLabel(score: int): (rating: string)
    ensures rating == "Excellent" <==> score >= 80
    ensures rating == "Good" <==> 60 <= score < 80
    ensures rating == "Fair" <==> 40 <= score < 60
    ensures rating == "Poor" <==> score < 40
  {
    if score >= 80 then "Excellent"
    else if score >= 60 then "Good"
    else if score >= 40 then "Fair"
    else "Poor"
  }

  /** The position of a label in the order Poor < Fair < Good < Excellent. */
  function LabelLevel(rating: string): nat
  {
    if rating == "Excellent" then 3
    else if rating == "Good" then 2
    else if rating == "Fair" then 1
    else 0
  }

  /** A higher score never gets a worse label. */
  lemma ScoreLabelMonotone(lo: int, hi: int)
    requires lo <= hi
    ensures LabelLevel(ScoreLabel(lo)) <= LabelLevel(ScoreLabel(hi))
  {
  }

  /** `min(max(score, 0), 100)`: the integer the progress bar shows, out of 100. */
  function Progress(score: int): (p: int)
    ensures 0 <= p <= 100
    ensures 0 <= score <= 100 ==> p == score
    ensures score > 100 ==> p == 100
    ensures score < 0 ==> p == 0
  {
    var low := if score > 0 then score else 0;
    if low < 100 then low else 100
  }

  /** The clamp is monotone and leaves an in-range value where it is. */
  lemma ProgressMonotone(lo: int, hi: int)
    requires lo <= hi
    ensures Progress(lo) <= Progress(hi)
    ensures Progress(Progress(lo)) == Progress(lo)
  {
  }
}
