/**
  The contact API route (`handler`): rejects any method but POST, demands the
  three form fields, and otherwise acknowledges the message.
*/
module ContactApi {
  import opened Wrappers

  /** A field of the parsed JSON request body, with JavaScript's notion of truthiness. */
  datatype Value = Absent | Null | Bool(b: bool) | Number(n: int) | Str(s: string) | Composite

  predicate Truthy(v: Value)
  {
    match v
    case Absent => false
    case Null => false
    case Bool(b) => b
    case Number(n) => n != 0
    case Str(s) => s != ""
    case Composite => true
  }

  /** The HTTP method (`req.method`) and the three fields of `req.body`. */
  datatype Request = Request(verb: string, name: Value, email: Value, message: Value)

  /** A JSON body `{ message }`, or the plain text that `res.end` sends. */
  datatype Body = Json(message: string) | Text(text: string)

  datatype Response = Response(status: int, allow: Option<seq<string>>, body: Body)

  /**
    What the handler does: the response, and whether it went on to process the
    submission (the simulated delay and the log lines).
  */
  datatype Handled = Handled(response: Response, processed: bool)

  const FieldsRequired := "All fields are required."
  const MessageReceived := "Message received successfully!"

  predicate AllFieldsGiven(req: Request)
  {
    Truthy(req.name) && Truthy(req.email) && Truthy(req.message)
  }

  function Handler(req: Request): (h: Handled)
    ensures h.response.status in {200, 400, 405}
    ensures h.response.status == 405 <==> req.verb != "POST"
    ensures h.response.status == 405 <==> h.response.allow == Some(["POST"])
    ensures h.response.status == 405 ==> h.response.body == Text("Method " + req.verb + " Not Allowed")
    ensures h.response.status == 400 <==> req.verb == "POST" && !AllFieldsGiven(req)
    ensures h.response.status == 400 ==> h.response.body == Json(FieldsRequired)
    ensures h.response.status == 200 <==> req.verb == "POST" && AllFieldsGiven(req)
    ensures h.response.status == 200 ==> h.response.body == Json(MessageReceived)
    ensures h.processed <==> h.response.status == 200
  {
    if req.verb == "POST" then
      if !Truthy(req.name) || !Truthy(req.email) || !Truthy(req.message) then
        Handled(Response(400, None, Json(FieldsRequired)), false)
      else
        Handled(Response(200, None, Json(MessageReceived)), true)
    else
      Handled(Response(405, Some(["POST"]), Text("Method " + req.verb + " Not Allowed")), false)
  }

  /** Three sample submissions and what each gets back. */
  lemma NamedSubmissions()
    ensures Handler(Request("POST", Str("A"), Str("a@x.com"), Str("hi"))).response
         == Response(200, None, Json("Message received successfully!"))
    ensures Handler(Request("POST", Str("A"), Str("a@x.com"), Str(""))).response
         == Response(400, None, Json("All fields are required."))
    ensures Handler(Request("POST", Str("A"), Str("a@x.com"), Absent)).response.status == 400
    ensures Handler(Request("GET", Str("A"), Str("a@x.com"), Str("hi"))).response.status == 405
    ensures Handler(Request("GET", Str("A"), Str("a@x.com"), Str("hi"))).response.allow == Some(["POST"])
  {
  }

  /**
    The method is checked before the fields: a request with a method other than
    POST gets the same response whatever its body holds.
  */
  lemma MethodDecidedFirst(req: Request, other: Request)
    requires req.verb != "POST" && other.verb == req.verb
    ensures Handler(req) == Handler(other)
  {
  }
}
