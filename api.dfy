/**
 * The HTTP calls the front end makes. `Dispatch` is a request sent through
 * an `api` instance, whose interceptor adds the bearer header read from
 * storage at send time; `Plain` is a request sent with bare `axios`, which
 * adds none. The transport itself is not modelled: each call's reply is an
 * input.
 */
module Api {
  import opened Wrappers
  import opened Js
  import opened Session

  datatype Verb = Get | Post

  datatype Endpoint =
    | TokenEndpoint
    | RegisterEndpoint
    | ResumesEndpoint
      /** `/resumes/${id}`: the id is written into the path with `String`. */
    | ResumeEndpoint(idSegment: string)

  /** A file chosen in an `<input type="file">`. */
  datatype File = File(name: string, mimeType: string)

  datatype Body =
    | NoBody
      /** The `FormData` of a login: fields `username` and `password`. */
    | LoginFormData(username: string, password: string)
      /** The JSON object `{ email, password }` of a registration. */
    | RegisterJson(email: string, password: string)
      /** The `FormData` of an upload: field `file`. */
    | UploadFormData(file: File)

  datatype Request = Request(verb: Verb, endpoint: Endpoint, body: Body, authorization: Option<string>)

  /**
   * How a call settles: `response.data` on success; on failure the error's
   * `response` (an object with `data`, or `undefined` when no reply arrived).
   */
  datatype Reply = Succeeded(data: Value) | Failed(response: Value)

  function Dispatch(storage: Storage, verb: Verb, endpoint: Endpoint, body: Body): (req: Request)
    ensures req.verb == verb && req.endpoint == endpoint && req.body == body
    ensures req.authorization.Some? <==> TokenKey in storage && storage[TokenKey] != ""
    ensures req.authorization.Some? ==> req.authorization.value == "Bearer " + storage[TokenKey]
  {
    Request(verb, endpoint, body, AuthorizationHeader(storage))
  }

  function Plain(verb: Verb, endpoint: Endpoint, body: Body): (req: Request)
    ensures req.verb == verb && req.endpoint == endpoint && req.body == body
    ensures req.authorization.None?
  {
    Request(verb, endpoint, body, None)
  }

  /** `error.response?.data?.detail`. */
  function ErrorDetail(response: Value): (d: Value)
    ensures Nullish(response) ==> d == Undefined
    ensures (response.Obj? && "data" in response.fields && response.fields["data"].Obj? &&
             "detail" in response.fields["data"].fields) ==>
              d == response.fields["data"].fields["detail"]
  {
    OptMember(OptMember(response, "data"), "detail")
  }
}
