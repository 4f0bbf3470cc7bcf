/**
 * The `feedback` table's record (`Feedback`) and its dictionary form
 * (`to_dict`).
 */
module FeedbackTable {
  import opened Wrappers

  /** A UTC instant (`datetime.utcnow()`), as a count of microseconds. */
  type Timestamp = nat

  /** One row. `id` is the primary key; `correctLabel` and `userComment` are
      the two nullable columns, every other column is NOT NULL. Floats are
      modelled as reals. */
  datatype Feedback = Feedback(
    id: nat,
    text: string,
    predictedSentiment: string,
    predictedConfidence: real,
    isCorrect: bool,
    correctLabel: Option<string>,
    userComment: Option<string>,
    createdAt: Timestamp)

  /** The JSON-like values `to_dict` puts in its dictionary. */
  datatype Value =
    | IntValue(i: int)
    | StrValue(s: string)
    | FloatValue(x: real)
    | BoolValue(b: bool)
    | NullValue

  const KEYS: set<string> := {"id", "text", "predicted_sentiment", "predicted_confidence",
                              "is_correct", "correct_label", "user_comment", "created_at"}

  function OptionalText(o: Option<string>): Value {
    if o.Some? then StrValue(o.value) else NullValue
  }

  /** `to_dict()`: exactly the eight keys; every column is reproduced
      unchanged, a NULL column becomes a null value, and `created_at` is
      rendered by `isoformat` (a parameter: the formatting is not modelled). */
  function ToDict(f: Feedback, isoformat: Timestamp -> string): (d: map<string, Value>)
    ensures d.Keys == KEYS
    ensures d["id"] == IntValue(f.id) && d["text"] == StrValue(f.text)
    ensures d["predicted_sentiment"] == StrValue(f.predictedSentiment)
    ensures d["predicted_confidence"] == FloatValue(f.predictedConfidence)
    ensures d["is_correct"] == BoolValue(f.isCorrect)
    ensures d["correct_label"] == OptionalText(f.correctLabel)
    ensures d["user_comment"] == OptionalText(f.userComment)
    ensures d["created_at"] == StrValue(isoformat(f.createdAt))
  {
    map["id" := IntValue(f.id),
        "text" := StrValue(f.text),
        "predicted_sentiment" := StrValue(f.predictedSentiment),
        "predicted_confidence" := FloatValue(f.predictedConfidence),
        "is_correct" := BoolValue(f.isCorrect),
        "correct_label" := OptionalText(f.correctLabel),
        "user_comment" := OptionalText(f.userComment),
        "created_at" := StrValue(isoformat(f.createdAt))]
  }

  function ReadOptionalText(v: Value): Option<Option<string>> {
    match v
    case StrValue(s) => Some(Some(s))
    case NullValue => Some(None)
    case _ => None
  }

  /** Reads a record back from its dictionary form, given a parser for the
      rendered timestamps; `None` when a key is missing or has the wrong kind
      of value. */
  function FromDict(d: map<string, Value>, parseIso: string -> Option<Timestamp>): Option<Feedback> {
    if d.Keys != KEYS then None
    else match (d["id"], d["text"], d["predicted_sentiment"], d["predicted_confidence"],
                d["is_correct"], d["created_at"])
      case (IntValue(id), StrValue(text), StrValue(sentiment), FloatValue(confidence),
            BoolValue(isCorrect), StrValue(stamp)) =>
        var correctLabel := ReadOptionalText(d["correct_label"]);
        var comment := ReadOptionalText(d["user_comment"]);
        var created := parseIso(stamp);
        if id >= 0 && correctLabel.Some? && comment.Some? && created.Some? then
          Some(Feedback(id, text, sentiment, confidence, isCorrect, correctLabel.value, comment.value, created.value))
        else None
      case _ => None
  }

  /** `to_dict` loses nothing: with a parser that inverts `isoformat`, the
      record is read back exactly. */
  lemma ToDictRoundTrip(f: Feedback, isoformat: Timestamp -> string, parseIso: string -> Option<Timestamp>)
    requires forall t: Timestamp :: parseIso(isoformat(t)) == Some(t)
    ensures FromDict(ToDict(f, isoformat), parseIso) == Some(f)
  {
    var d := ToDict(f, isoformat);
    assert parseIso(isoformat(f.createdAt)) == Some(f.createdAt);
    assert ReadOptionalText(d["correct_label"]) == Some(f.correctLabel);
    assert ReadOptionalText(d["user_comment"]) == Some(f.userComment);
  }
}
