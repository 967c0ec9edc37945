/** How the extension reads replies of the hub, and what it decides from the replies to a commit. */
module BridgeReplies {
  import opened Common

  /** A property of a JSON value: missing, a string, or a value of another type. */
  datatype Field = Undefined | Text(text: string) | OtherFalsy | OtherTruthy

  /** A decoded reply; `success` is `None` when the property is not a boolean. */
  datatype Body =
    | NotAnObject
    | Object(success: Option<bool>, requestId: Field, bundle: Field, errorCode: Field)

  datatype PostResult = Thrown(timeout: bool) | Got(body: Body)

  predicate Falsy(f: Field) {
    f.Undefined? || f.OtherFalsy? || f == Text("")
  }

  predicate NonBlankText(f: Field) {
    f.Text? && !Blank(f.text)
  }

  /** The outcome of a request that got an HTTP answer with a decodable body. */
  function Post(status: nat, body: Body, retryServerErrors: bool): PostResult {
    var ok := 200 <= status <= 299;
    if !ok && retryServerErrors && status >= 500 then Thrown(false)
    else if !ok && body.Object? && Falsy(body.errorCode) then
      Got(body.(errorCode := Text(if status == 403 then "permission_denied" else "unsupported")))
    else Got(body)
  }

  predicate IsAmbiguous(result: Body) {
    && result.Object?
    && result.errorCode in {Text("capture_in_progress"), Text("commit_outcome_unknown"), Text("timeout")}
  }

  predicate IsValid(result: Body, expected: string) {
    if !result.Object? || result.success.None? then false
    else if !result.requestId.Undefined? && result.requestId != Text(expected) then false
    else if result.success.value then result.requestId == Text(expected) && NonBlankText(result.bundle)
    else NonBlankText(result.errorCode)
  }

  /** A commit ends by passing on a reply or by reporting that its outcome is unknown. */
  datatype Verdict = Replay | Unknown | Returned(body: Body)

  function Conclude(result: Body): Verdict
    requires result.Object? && result.success.Some?
  {
    if !result.success.value && IsAmbiguous(result) then Unknown else Returned(result)
  }

  function FirstReply(r: PostResult, id: string): Verdict {
    if r.Thrown? || !IsValid(r.body, id) then Replay else Conclude(r.body)
  }

  function SecondReply(r: PostResult, id: string): Verdict {
    if r.Thrown? || !IsValid(r.body, id) || IsAmbiguous(r.body) then Unknown else Conclude(r.body)
  }
}
