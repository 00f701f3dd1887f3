/** The colour and label that `MatchScore` shows for a compatibility score. */
module MatchScore {

  /** The three bands a score falls into, best first. */
  datatype Band = Excellent | Good | Fair

  /** The band of a score, by the range it lies in. */
  function BandOf(score: int): Band
  {
    if 80 <= score then Excellent
    else if 60 <= score < 80 then Good
    else Fair
  }

  /** The position of a band in quality order: Fair < Good < Excellent. */
  function Rank(b: Band): nat
  {
    match b
    case Fair => 0
    case Good => 1
    case Excellent => 2
  }

  function ColorOf(b: Band): string
  {
    match b
    case Excellent => "text-green-600"
    case Good => "text-yellow-600"
    case Fair => "text-red-600"
  }

  function LabelOf(b: Band): string
  {
    match b
    case Excellent => "Excellent Match"
    case Good => "Good Match"
    case Fair => "Fair Match"
  }

  /** `getScoreColor`: the colour of the band the score lies in. */
  function ScoreColor(score: int): (color: string)
    ensures color == ColorOf(BandOf(score))
  {
    if score >= 80 then "text-green-600"
    else if score >= 60 then "text-yellow-600"
    else "text-red-600"
  }

  /** `getScoreLabel`: the label of the band the score lies in. */
  function ScoreLabel(score: int): (caption: string)
    ensures caption == LabelOf(BandOf(score))
  {
    if score >= 80 then "Excellent Match"
    else if score >= 60 then "Good Match"
    else "Fair Match"
  }

  /** Colour and label always name the same band: each colour goes with exactly one label. */
  lemma ColorAndLabelAgree(s: int, t: int)
    ensures ScoreColor(s) == ScoreColor(t) <==> ScoreLabel(s) == ScoreLabel(t)
  {
  }

  /** Every score gets exactly one of the three labels, and which one depends only on its range. */
  lemma LabelTotal(score: int)
    ensures ScoreLabel(score) in {"Excellent Match", "Good Match", "Fair Match"}
    ensures ScoreLabel(score) == "Excellent Match" <==> score >= 80
    ensures ScoreLabel(score) == "Good Match" <==> 60 <= score < 80
    ensures ScoreLabel(score) == "Fair Match" <==> score < 60
  {
  }

  /** Raising a score never moves it to a lower band. */
  lemma BandMonotone(s: int, t: int)
    requires s <= t
    ensures Rank(BandOf(s)) <= Rank(BandOf(t))
  {
  }
}
