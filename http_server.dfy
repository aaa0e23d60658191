/**
 * The decisions of the two HTTP handlers, as functions from the request's
 * fields and the service's answer to the response. Each result also says
 * which service call the handler made, if any. Serving, template loading and
 * rendering are not part of this model: a rendered page is named by its
 * template and the data passed to it.
 */
module HttpServer {
  import opened Wrappers

  const StatusBadRequest: int := 400

  datatype Response =
    | HttpError(status: int, message: string)
    | Page(template: string, data: map<string, string>)

  /** The arguments of a RegisterUser call. */
  datatype Submission = Submission(token: string, name: string, phone: string, birthday: string)

  /** A response, with the argument of the one service call the handler made (None: no call). */
  datatype Handled<A> = Handled(response: Response, call: Option<A>)

  /** `url.Values.Get` and `Request.FormValue`: the first value of the key, or "". */
  function FirstValue(values: map<string, seq<string>>, key: string): (v: string)
    ensures key !in values || values[key] == [] ==> v == ""
    ensures key in values && values[key] != [] ==> v == values[key][0]
  {
    if key in values && |values[key]| > 0 then values[key][0] else ""
  }

  /**
   * `HandleRegister`, for a request with the given query and the answer
   * `validated` that ValidateAndDecode gives when it is called.
   */
  function HandleRegister<E>(query: map<string, seq<string>>, validated: Result<string, E>): (h: Handled<string>)
    ensures FirstValue(query, "token") == "" ==> h == Handled(HttpError(StatusBadRequest, "Token is missing"), None)
    ensures FirstValue(query, "token") != "" ==> h.call == Some(FirstValue(query, "token"))
    ensures FirstValue(query, "token") != "" && validated.Err? ==>
      h.response == Page("error.html", map["Message" := "Invalid token"])
    ensures h.response.Page? && h.response.template == "register.html" <==>
      FirstValue(query, "token") != "" && validated.Ok?
    ensures FirstValue(query, "token") != "" && validated.Ok? ==>
      h.response == Page("register.html", map["Token" := validated.value])
  {
    var encrypted := FirstValue(query, "token");
    if encrypted == "" then Handled(HttpError(StatusBadRequest, "Token is missing"), None)
    else
      match validated
      case Err(_) => Handled(Page("error.html", map["Message" := "Invalid token"]), Some(encrypted))
      case Ok(token) => Handled(Page("register.html", map["Token" := token]), Some(encrypted))
  }

  /** The error page says the same whatever went wrong, so it reveals nothing about which tokens exist. */
  lemma RegisterErrorHidesCause<E>(query: map<string, seq<string>>, e1: E, e2: E)
    ensures HandleRegister(query, Result<string, E>.Err(e1)) == HandleRegister(query, Result<string, E>.Err(e2))
  {
  }

  function Fields(form: map<string, seq<string>>): Submission {
    Submission(FirstValue(form, "token"), FirstValue(form, "name"), FirstValue(form, "phone"), FirstValue(form, "birthday"))
  }

  /**
   * `HandleSubmit`, for a form and the outcome `registered` that RegisterUser
   * gives when it is called.
   */
  function HandleSubmit<E>(form: map<string, seq<string>>, registered: Outcome<E>): (h: Handled<Submission>)
    ensures var f := Fields(form);
      f.token == "" || f.name == "" || f.phone == "" || f.birthday == "" ==>
        h == Handled(HttpError(StatusBadRequest, "Missing required fields"), None)
    ensures var f := Fields(form);
      f.token != "" && f.name != "" && f.phone != "" && f.birthday != "" ==> h.call == Some(f)
    ensures h.call.Some? ==>
      var f := h.call.value;
      f == Fields(form) && f.token != "" && f.name != "" && f.phone != "" && f.birthday != ""
    ensures h.call.Some? && registered.Fail? ==> h.response == HttpError(StatusBadRequest, "Registration failed")
    ensures h.response.Page? <==> h.call.Some? && registered.Pass?
    ensures h.response.Page? ==> h.response == Page("success.html", map["Message" := "Registration successful!"])
  {
    var f := Fields(form);
    if f.token == "" || f.name == "" || f.phone == "" || f.birthday == "" then
      Handled(HttpError(StatusBadRequest, "Missing required fields"), None)
    else
      match registered
      case Fail(_) => Handled(HttpError(StatusBadRequest, "Registration failed"), Some(f))
      case Pass => Handled(Page("success.html", map["Message" := "Registration successful!"]), Some(f))
  }
}
