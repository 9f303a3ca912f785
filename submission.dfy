/**
 * The submission record (flask-app/app/models/submission.py): one row per execution attempt,
 * never edited once stored, and its dictionary form.
 *
 * Timestamps are integers; `submitted_at` is rendered as that integer rather than as ISO text.
 * `problem_id` is kept as the request carried it (a decoded JSON value); the conversion the
 * database applies when an `Integer` column receives text, a boolean or a whole float is not
 * modelled.
 */
module SubmissionModel {
  import opened Base
  import opened JsonValues

  const DefaultLanguage: string := "python"

  /** The documented statuses 'success', 'error' and 'timeout'. */
  datatype Status = Success | Error | Timeout

  function StatusText(s: Status): string {
    match s
    case Success => "success"
    case Error => "error"
    case Timeout => "timeout"
  }

  function ParseStatus(t: string): (r: Option<Status>)
    ensures r.Some? <==> t in {"success", "error", "timeout"}
    ensures r.Some? ==> StatusText(r.value) == t
  {
    if t == "success" then Some(Success)
    else if t == "error" then Some(Error)
    else if t == "timeout" then Some(Timeout)
    else None
  }

  datatype Submission = Submission(
    id: int,
    userId: int,
    problemId: Json,
    code: string,
    language: string,
    output: Option<string>,
    error: Option<string>,
    status: Status,
    executionTime: Option<real>,
    score: Option<int>,
    isCorrect: Option<bool>,
    submittedAt: int)

  /** The columns declared `nullable=False` hold a value (the others are non-null by their type). */
  predicate NonNullColumns(s: Submission) {
    s.problemId != Null
  }

  /** A new row: `language` defaults to 'python'; `score` and `is_correct` start empty. */
  function NewSubmission(id: int, userId: int, problemId: Json, code: string, output: Option<string>,
                         error: Option<string>, status: Status, executionTime: Option<real>,
                         submittedAt: int): (s: Submission)
    ensures s.language == DefaultLanguage && s.score.None? && s.isCorrect.None?
    ensures s.id == id && s.userId == userId && s.problemId == problemId && s.code == code
    ensures s.output == output && s.error == error && s.status == status
    ensures s.executionTime == executionTime && s.submittedAt == submittedAt
  {
    Submission(id, userId, problemId, code, DefaultLanguage, output, error, status, executionTime,
               None, None, submittedAt)
  }

  const DictKeys: set<string> := {"id", "user_id", "problem_id", "code", "language", "output", "error",
                                  "status", "execution_time", "score", "is_correct", "submitted_at"}

  function OptNum(r: Option<real>): Json {
    match r
    case None => Null
    case Some(x) => Num(x)
  }

  function OptInt(i: Option<int>): Json {
    match i
    case None => Null
    case Some(x) => Int(x)
  }

  function OptBool(b: Option<bool>): Json {
    match b
    case None => Null
    case Some(x) => Bool(x)
  }

  /** `to_dict`: every column under its own name. */
  function ToDict(s: Submission): (d: map<string, Json>)
    ensures d.Keys == DictKeys
    ensures d["code"] == Str(s.code) && d["status"] == Str(StatusText(s.status))
    ensures d["error"] == OptStr(s.error) && d["output"] == OptStr(s.output)
  {
    map[
      "id" := Int(s.id),
      "user_id" := Int(s.userId),
      "problem_id" := s.problemId,
      "code" := Str(s.code),
      "language" := Str(s.language),
      "output" := OptStr(s.output),
      "error" := OptStr(s.error),
      "status" := Str(StatusText(s.status)),
      "execution_time" := OptNum(s.executionTime),
      "score" := OptInt(s.score),
      "is_correct" := OptBool(s.isCorrect),
      "submitted_at" := Int(s.submittedAt)]
  }

  /** Reads a submission back from its dictionary form. */
  function FromDict(d: map<string, Json>): Option<Submission> {
    if !(DictKeys <= d.Keys) then None
    else if !(d["id"].Int? && d["user_id"].Int? && d["code"].Str? && d["language"].Str?
              && d["status"].Str? && d["submitted_at"].Int?) then None
    else
      var status := ParseStatus(d["status"].s);
      var output := AsOptStr(d["output"]);
      var error := AsOptStr(d["error"]);
      var time := match d["execution_time"] case Null => Some(None) case Num(x) => Some(Some(x)) case _ => None;
      var score := match d["score"] case Null => Some(None) case Int(x) => Some(Some(x)) case _ => None;
      var correct := match d["is_correct"] case Null => Some(None) case Bool(x) => Some(Some(x)) case _ => None;
      if status.None? || output.None? || error.None? || time.None? || score.None? || correct.None? then None
      else Some(Submission(d["id"].i, d["user_id"].i, d["problem_id"], d["code"].s, d["language"].s,
                           output.value, error.value, status.value, time.value, score.value,
                           correct.value, d["submitted_at"].i))
  }

  /** `to_dict` loses nothing: every column, code, status and error included, is copied unchanged. */
  lemma ToDictLossless(s: Submission)
    ensures FromDict(ToDict(s)) == Some(s)
  {
    var d := ToDict(s);
    assert ParseStatus(StatusText(s.status)) == Some(s.status);
    assert AsOptStr(OptStr(s.output)) == Some(s.output);
    assert AsOptStr(OptStr(s.error)) == Some(s.error);
  }
}
