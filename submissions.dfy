/**
 * The submission endpoints (flask-app/app/routes/submissions.py): POST /execute runs code
 * without recording it, POST '' runs it and records a submission, GET /my and
 * GET /<id> read the caller's own history.
 *
 * Every endpoint sits behind `jwt_required_with_user`, so each receives the id of an active,
 * authenticated user. The request body is the decoded JSON object, or `None` for a body that
 * is the JSON literal `null`; a missing or non-JSON body is answered by `request.get_json()`
 * itself (400 or 415) before any guard runs. The HTTP call to the runner, the configured timeout
 * and the outcome of the commit are parameters.
 */
module Submissions {
  import opened Base
  import opened JsonValues
  import Validators
  import RunnerClient
  import opened SubmissionModel
  import Sorting

  const NoBody: string := "요청 데이터가 없습니다"
  const ProblemIdRequired: string := "문제 ID가 필요합니다"
  const SavePrefix: string := "제출 저장 중 오류가 발생했습니다: "
  const NotFound: string := "제출을 찾을 수 없습니다"
  const DefaultPage: int := 1
  const DefaultPerPage: int := 20

  /** What the guards of a view decide before anything is executed. */
  datatype Guard =
    | Reject(message: string)                   // 400
    | Crash                                     // an exception escapes the view: Flask answers 500
    | Proceed(code: string, problemId: Json)

  /**
   * `validate_code(data.get('code'))` on a decoded JSON value: text is validated as text,
   * any other falsy value is refused like a missing one, and any other truthy value makes
   * `code.strip()` raise.
   */
  function CodeGuard(v: Json): (r: Option<Validators.Validation>)
    ensures v.Str? ==> r == Some(Validators.ValidateCode(Some(v.s)))
    ensures !Truthy(v) ==> r == Some(Validators.Invalid(Validators.CodeRequired))
    ensures r.None? <==> Truthy(v) && !v.Str?
  {
    if v.Str? then Some(Validators.ValidateCode(Some(v.s)))
    else if !Truthy(v) then Some(Validators.ValidateCode(None))
    else None
  }

  /** Guards of `execute_code`: a body, then valid code. */
  function ExecuteGuard(body: Option<map<string, Json>>): (g: Guard)
    ensures body.None? || body.value == map[] ==> g == Reject(NoBody)
    ensures g.Proceed? ==> body.Some? && Get(body.value, "code") == Str(g.code)
    ensures g.Proceed? ==> Validators.ValidateCode(Some(g.code)) == Validators.Valid
    ensures (body.Some? && body.value != map[] && Get(body.value, "code").Str?
             && Validators.ValidateCode(Some(Get(body.value, "code").s)) == Validators.Valid)
              ==> g == Proceed(Get(body.value, "code").s, Null)
    ensures (body.Some? && body.value != map[] && CodeGuard(Get(body.value, "code")).Some?
             && CodeGuard(Get(body.value, "code")).value.Invalid?)
              ==> g == Reject(CodeGuard(Get(body.value, "code")).value.message)
    ensures (body.Some? && body.value != map[] && CodeGuard(Get(body.value, "code")).None?) ==> g == Crash
  {
    if body.None? || body.value == map[] then Reject(NoBody)
    else
      var code := Get(body.value, "code");
      match CodeGuard(code)
      case None => Crash
      case Some(Invalid(m)) => Reject(m)
      case Some(Valid) => Proceed(code.s, Null)
  }

  /** Guards of `submit_code`, in order: a body, a truthy `problem_id`, then valid code. */
  function SubmitGuard(body: Option<map<string, Json>>): (g: Guard)
    ensures body.None? || body.value == map[] ==> g == Reject(NoBody)
    ensures body.Some? && body.value != map[] && !Truthy(Get(body.value, "problem_id")) ==> g == Reject(ProblemIdRequired)
    ensures g.Proceed? ==> body.Some? && Truthy(g.problemId) && g.problemId == Get(body.value, "problem_id")
    ensures g.Proceed? ==> Get(body.value, "code") == Str(g.code) && Validators.ValidateCode(Some(g.code)) == Validators.Valid
    ensures (body.Some? && body.value != map[] && Truthy(Get(body.value, "problem_id")) && Get(body.value, "code").Str?
             && Validators.ValidateCode(Some(Get(body.value, "code").s)) == Validators.Valid)
              ==> g == Proceed(Get(body.value, "code").s, Get(body.value, "problem_id"))
    ensures (body.Some? && body.value != map[] && Truthy(Get(body.value, "problem_id"))
             && CodeGuard(Get(body.value, "code")).Some? && CodeGuard(Get(body.value, "code")).value.Invalid?)
              ==> g == Reject(CodeGuard(Get(body.value, "code")).value.message)
    ensures (body.Some? && body.value != map[] && Truthy(Get(body.value, "problem_id"))
             && CodeGuard(Get(body.value, "code")).None?)
              ==> g == Crash
  {
    if body.None? || body.value == map[] then Reject(NoBody)
    else
      var problemId := Get(body.value, "problem_id");
      if !Truthy(problemId) then Reject(ProblemIdRequired)
      else
        var code := Get(body.value, "code");
        match CodeGuard(code)
        case None => Crash
        case Some(Invalid(m)) => Reject(m)
        case Some(Valid) => Proceed(code.s, problemId)
  }

  /** A body `submit_code` accepts is accepted by `execute_code` too, with the same code. */
  lemma SubmitStricterThanExecute(body: Option<map<string, Json>>)
    requires SubmitGuard(body).Proceed?
    ensures ExecuteGuard(body).Proceed? && ExecuteGuard(body).code == SubmitGuard(body).code
  {
  }

  /** A problem id of 0 is refused like a missing one. */
  lemma ZeroProblemIdRejected(body: map<string, Json>)
    requires body != map[] && Get(body, "problem_id") == Int(0)
    ensures SubmitGuard(Some(body)) == Reject(ProblemIdRequired)
  {
  }

  /** Replies of POST /execute. */
  datatype ExecuteReply =
    | ExecuteRejected(error: string)              // 400
    | ExecuteCrashed                              // 500, unhandled exception
    | ExecuteFailed(error: string)                // 500, the call to the runner failed
    | Executed(data: RunnerClient.RunnerData)     // 200
  {
    function Status(): int {
      match this
      case ExecuteRejected(_) => 400
      case ExecuteCrashed => 500
      case ExecuteFailed(_) => 500
      case Executed(_) => 200
    }
  }

  /** `execute_code`: a failing program still answers 200; only a failed call answers 500. */
  function Execute(body: Option<map<string, Json>>, configuredTimeout: int, o: RunnerClient.HttpOutcome): (r: ExecuteReply)
    ensures ExecuteGuard(body).Reject? ==> r == ExecuteRejected(ExecuteGuard(body).message)
    ensures ExecuteGuard(body).Crash? ==> r == ExecuteCrashed
    ensures ExecuteGuard(body).Proceed? ==> (r.ExecuteFailed? <==> !RunnerClient.Classify(o).success)
    ensures ExecuteGuard(body).Proceed? && RunnerClient.Classify(o).success ==> r == Executed(RunnerClient.Reported(o.body))
    ensures r.ExecuteFailed? ==> Some(r.error) == RunnerClient.Classify(o).error
  {
    match ExecuteGuard(body)
    case Reject(m) => ExecuteRejected(m)
    case Crash => ExecuteCrashed
    case Proceed(code, _) =>
      var x := RunnerClient.ExecuteCode(code, None, configuredTimeout, o);
      if !x.result.success then ExecuteFailed(x.result.error.value)
      else Executed(x.result.data)
  }

  /** A program that failed in the runner is a 200 answer carrying the runner's report. */
  lemma FailingProgramIsOk(body: Option<map<string, Json>>, configuredTimeout: int, report: RunnerClient.Runner.CodeResponse)
    requires ExecuteGuard(body).Proceed? && !report.success
    ensures Execute(body, configuredTimeout, RunnerClient.Responded(200, report)).Status() == 200
  {
  }

  /**
   * The row `submit_code` builds from the classified call: 'success' only when the call
   * succeeded and the runner reported success, else 'error'; after a failed call the row
   * records the call's error and no output or execution time.
   */
  function Record(id: int, userId: int, problemId: Json, code: string, r: RunnerClient.CallResult, now: int): (s: Submission)
    ensures s.status == Success <==> r.success && r.data.Reported? && r.data.response.success
    ensures s.status != Timeout
    ensures s.id == id && s.userId == userId && s.problemId == problemId && s.code == code
    ensures s.language == DefaultLanguage && s.submittedAt == now
    ensures !r.success ==> s.output.None? && s.error == r.error && s.executionTime.None?
    ensures r.success && r.data.Reported? ==>
              s.output == Some(r.data.response.output) && s.error == r.data.response.error
              && s.executionTime == Some(r.data.response.executionTime)
  {
    var reported := r.success && r.data.Reported?;
    NewSubmission(
      id, userId, problemId, code,
      if reported then Some(r.data.response.output) else None,
      if r.success then (if reported then r.data.response.error else None) else r.error,
      if reported && r.data.response.success then Success else Error,
      if reported then Some(r.data.response.executionTime) else None,
      now)
  }

  /** Replies of POST ''. */
  datatype SubmitReply =
    | SubmitRejected(error: string)                                              // 400
    | SubmitCrashed                                                              // 500, unhandled exception
    | SaveFailed(error: string)                                                  // 500
    | Created(submission: Submission, executionResult: Option<RunnerClient.RunnerData>)  // 201
  {
    function Status(): int {
      match this
      case SubmitRejected(_) => 400
      case SubmitCrashed => 500
      case SaveFailed(_) => 500
      case Created(_, _) => 201
    }
  }

  /** Rows are stored in insertion order, with increasing ids. */
  predicate IdsIncreasing(rows: seq<Submission>) {
    forall i, j :: 0 <= i < j < |rows| ==> rows[i].id < rows[j].id
  }

  class SubmissionStore {
    /** The `submissions` table. */
    var rows: seq<Submission>
    /** The id the next committed row receives. */
    var nextId: int

    ghost predicate Valid()
      reads this
    {
      && IdsIncreasing(rows)
      && (forall i :: 0 <= i < |rows| ==> rows[i].id < nextId)
      && (forall i :: 0 <= i < |rows| ==> NonNullColumns(rows[i]) && rows[i].status != Timeout)
    }

    constructor ()
      ensures Valid() && rows == [] && nextId == 1
    {
      rows := [];
      nextId := 1;
    }

    /**
     * `submit_code` for user `userId`. Rejections answer 400 before the runner is called and
     * store nothing; an accepted submission is executed once and stored once, whatever the
     * outcome of the call; a failed commit is rolled back and answers 500.
     */
    method Submit(userId: int, body: Option<map<string, Json>>, configuredTimeout: int,
                  o: RunnerClient.HttpOutcome, now: int, commitOk: bool, commitError: string)
      returns (reply: SubmitReply, call: Option<RunnerClient.RunnerCall>)
      requires Valid()
      modifies this
      ensures Valid()
      ensures call.Some? <==> SubmitGuard(body).Proceed?
      ensures SubmitGuard(body).Reject? ==> reply == SubmitRejected(SubmitGuard(body).message)
      ensures SubmitGuard(body).Crash? ==> reply == SubmitCrashed
      ensures !SubmitGuard(body).Proceed? || !commitOk ==> rows == old(rows) && nextId == old(nextId)
      ensures SubmitGuard(body).Proceed? ==>
                var g := SubmitGuard(body);
                var x := RunnerClient.ExecuteCode(g.code, None, configuredTimeout, o);
                var row := Record(old(nextId), userId, g.problemId, g.code, x.result, now);
                && call == Some(x.call)
                && (commitOk ==>
                      && rows == old(rows) + [row] && nextId == old(nextId) + 1
                      && reply == Created(row, if x.result.success then Some(x.result.data) else None))
                && (!commitOk ==> reply == SaveFailed(SavePrefix + commitError))
    {
      var g := SubmitGuard(body);
      match g {
        case Reject(m) =>
          return SubmitRejected(m), None;
        case Crash =>
          return SubmitCrashed, None;
        case Proceed(code, problemId) =>
          var x := RunnerClient.ExecuteCode(code, None, configuredTimeout, o);
          call := Some(x.call);
          var row := Record(nextId, userId, problemId, code, x.result, now);
          if !commitOk {
            // db.session.rollback(): the pending row is discarded
            return SaveFailed(SavePrefix + commitError), call;
          }
          rows := rows + [row];
          nextId := nextId + 1;
          reply := Created(row, if x.result.success then Some(x.result.data) else None);
      }
    }
  }

  /** A call that never reached the runner is still recorded, as an 'error' carrying the call's message. */
  lemma TransportFailureRecordsError(id: int, userId: int, problemId: Json, code: string,
                                     o: RunnerClient.HttpOutcome, now: int)
    requires !(o.Responded? && o.status == 200)
    ensures var r := RunnerClient.Classify(o);
            var s := Record(id, userId, problemId, code, r, now);
            s.status == Error && s.output.None? && s.executionTime.None? && s.error == r.error && s.error.Some?
  {
  }

  /** Later submissions first. */
  predicate SubmittedNoEarlier(a: Submission, b: Submission) {
    a.submittedAt >= b.submittedAt
  }

  lemma SubmittedNoEarlierIsPreorder()
    ensures Sorting.TotalPreorder(SubmittedNoEarlier)
  {
  }

  /** `if problem_id:` then the row must carry that problem id. */
  predicate InHistory(s: Submission, userId: int, problemId: Option<int>) {
    s.userId == userId && (problemId.None? || problemId.value == 0 || s.problemId == Int(problemId.value))
  }

  function Matching(rows: seq<Submission>, userId: int, problemId: Option<int>): (r: seq<Submission>)
    ensures forall s :: s in r <==> s in rows && InHistory(s, userId, problemId)
    ensures forall s :: multiset(r)[s] == if InHistory(s, userId, problemId) then multiset(rows)[s] else 0
    ensures |r| <= |rows|
  {
    if rows == [] then []
    else
      var rest := Matching(rows[1..], userId, problemId);
      assert rows == [rows[0]] + rows[1..];
      assert forall s :: s in rows <==> s == rows[0] || s in rows[1..];
      if InHistory(rows[0], userId, problemId) then [rows[0]] + rest else rest
  }

  /** The caller's rows, optionally for one problem, latest first (before pagination). */
  function MySubmissions(rows: seq<Submission>, userId: int, problemId: Option<int>): (r: seq<Submission>)
    ensures forall s :: s in r ==> s in rows && s.userId == userId
    ensures forall s :: s in rows && InHistory(s, userId, problemId) ==> s in r
    ensures multiset(r) == multiset(Matching(rows, userId, problemId))
    ensures forall i, j :: 0 <= i < j < |r| ==> r[i].submittedAt >= r[j].submittedAt
  {
    SubmittedNoEarlierIsPreorder();
    var r := Sorting.Sort(Matching(rows, userId, problemId), SubmittedNoEarlier);
    assert forall s :: s in r <==> s in Matching(rows, userId, problemId) by {
      forall s ensures s in r <==> s in Matching(rows, userId, problemId) {
        assert s in r <==> s in multiset(r);
      }
    }
    r
  }

  /** The history reply of GET /my: page and per_page as requested, 1 and 20 when absent. */
  datatype HistoryReply = HistoryReply(matching: seq<Submission>, total: int, page: int, perPage: int)

  function History(rows: seq<Submission>, userId: int, problemId: Option<int>, page: Option<int>, perPage: Option<int>): (r: HistoryReply)
    ensures r.page == page.GetOr(DefaultPage) && r.perPage == perPage.GetOr(DefaultPerPage)
    ensures r.matching == MySubmissions(rows, userId, problemId) && r.total == |r.matching|
  {
    var m := MySubmissions(rows, userId, problemId);
    HistoryReply(m, |m|, page.GetOr(DefaultPage), perPage.GetOr(DefaultPerPage))
  }

  /** `filter_by(id=submission_id, user_id=current_user.id).first()` */
  function FindOwned(rows: seq<Submission>, userId: int, id: int): (r: Option<Submission>)
    ensures r.Some? ==> r.value in rows && r.value.id == id && r.value.userId == userId
    ensures r.None? <==> forall s :: s in rows ==> !(s.id == id && s.userId == userId)
  {
    if rows == [] then None
    else if rows[0].id == id && rows[0].userId == userId then Some(rows[0])
    else
      assert forall s :: s in rows <==> s == rows[0] || s in rows[1..];
      FindOwned(rows[1..], userId, id)
  }

  datatype DetailReply = DetailNotFound(error: string) | Detail(data: map<string, Json>)

  /** GET /<id>: the row's dictionary, or 404. */
  function GetSubmission(rows: seq<Submission>, userId: int, id: int): (r: DetailReply)
    ensures r.Detail? <==> exists s :: s in rows && s.id == id && s.userId == userId
    ensures r.Detail? ==> exists s :: s in rows && s.id == id && s.userId == userId && r.data == ToDict(s)
    ensures r.DetailNotFound? ==> r.error == NotFound
  {
    match FindOwned(rows, userId, id)
    case None => DetailNotFound(NotFound)
    case Some(s) => Detail(ToDict(s))
  }

  /** Another user's submission is answered exactly like an id that does not exist. */
  lemma OthersSubmissionLooksMissing(rows: seq<Submission>, userId: int, id: int, absent: int)
    requires forall s :: s in rows && s.id == id ==> s.userId != userId
    requires forall s :: s in rows ==> s.id != absent
    ensures GetSubmission(rows, userId, id) == GetSubmission(rows, userId, absent)
  {
  }
}
