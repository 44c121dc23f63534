/** The response envelope both halves of the application share
    (`ApiResponse<T>` in backend/src/interfaces/interfaces.ts and in
    frontend/src/app/models/interfaces.ts). */
module Api {
  import opened Wrappers

  /** `{ success, data?, error?, message? }`. */
  datatype ApiResponse<T> = ApiResponse(success: bool, data: Option<T>, error: Option<string>, message: Option<string>)

  /** An HTTP answer: status code and JSON body. */
  datatype Reply<T> = Reply(status: int, body: ApiResponse<T>)

  /** `res.status(status).json({ success: false, error })`. */
  function Failure<T>(status: int, error: string): Reply<T> {
    Reply(status, ApiResponse(false, None, Some(error), None))
  }

  /** A 2xx status: the answers Angular's `HttpClient` hands to `next`. */
  predicate IsSuccessStatus(status: int) {
    200 <= status < 300
  }

  /** The backend's convention: `success` is true exactly on a 2xx answer. */
  predicate StatusAgrees<T>(r: Reply<T>) {
    r.body.success <==> IsSuccessStatus(r.status)
  }

  /** What a client sees of a request: the decoded body of a 2xx answer, or a
      failure, which is any non-2xx answer and any network failure (the
      `error` callback of `HttpClient`, or a rejected promise). */
  datatype Outcome<T> = Answered(response: ApiResponse<T>) | ConnectionFailed

  /** What `HttpClient` makes of an exchange whose answer is `answer`, `None`
      when no answer arrived: the body of a 2xx answer goes to `next`,
      everything else to `error`. */
  function ClientOutcome<T>(answer: Option<Reply<T>>): (o: Outcome<T>)
    ensures o.Answered? <==> answer.Some? && IsSuccessStatus(answer.value.status)
    ensures o.Answered? ==> o.response == answer.value.body
  {
    if answer.Some? && IsSuccessStatus(answer.value.status) then Answered(answer.value.body) else ConnectionFailed
  }

  /** Against a server that keeps `StatusAgrees`, a client never sees an
      answered failure: every `success: false` arrives as `ConnectionFailed`. */
  lemma AgreeingServerFailuresUnanswered<T>(answer: Option<Reply<T>>)
    requires answer.Some? ==> StatusAgrees(answer.value)
    ensures ClientOutcome(answer).Answered? ==> ClientOutcome(answer).response.success
    ensures answer.Some? && !answer.value.body.success ==> ClientOutcome(answer) == ConnectionFailed
  {
  }

  /** `response.success && response.data`: the answer carries the data the
      client asked for. */
  predicate Delivered<T>(o: Outcome<T>) {
    o.Answered? && o.response.success && o.response.data.Some?
  }
}
