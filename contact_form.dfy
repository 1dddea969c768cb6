/**
  The contact page's client state: the form fields and the status line, with
  `handleChange` and `handleSubmit`. The network is an input: the server is a
  function from the posted form to what the `fetch` came back with.
*/
module ContactForm {
  import opened Wrappers
  import ContactApi

  /** The `name` attribute of an input, which `handleChange` uses as the key. */
  datatype FieldName = NameField | EmailField | MessageField

  datatype FormData = FormData(name: string, email: string, message: string)
  {
    function Get(field: FieldName): string
    {
      match field
      case NameField => name
      case EmailField => email
      case MessageField => message
    }

    /** `{ ...formData, [field]: value }`: one field replaced, the others kept. */
    function With(field: FieldName, value: string): (d: FormData)
      ensures d.Get(field) == value
      ensures forall f :: f != field ==> d.Get(f) == Get(f)
    {
      match field
      case NameField => this.(name := value)
      case EmailField => this.(email := value)
      case MessageField => this.(message := value)
    }
  }

  const EmptyForm := FormData("", "", "")

  const Idle := ""
  const Sending := "Sending..."
  const SentText := "Message sent successfully! " + "I will get back to you soon."
  const FailurePrefix := "Failed to send message: "
  const UnknownError := "Unknown error"
  const ErrorText := "An error occurred while sending the message."

  /**
    The parsed reply: not JSON at all (so `response.json()` throws), or JSON whose
    `message` is a string (`None` when the key is missing).
  */
  datatype Reply = NotJson | JsonReply(message: Option<string>)

  /** What `fetch` comes back with: an exception, or a response with its `ok` flag. */
  datatype FetchResult = Threw | Answered(ok: bool, reply: Reply)

  /** The submission went through: the response was ok and its body was JSON. */
  predicate Succeeded(result: FetchResult)
  {
    result.Answered? && result.ok && result.reply.JsonReply?
  }

  /** `result.message || 'Unknown error'`. */
  function Reason(message: Option<string>): (s: string)
    ensures s != ""
    ensures message.Some? && message.value != "" ==> s == message.value
    ensures message.None? || message.value == "" ==> s == UnknownError
  {
    match message
    case Some(m) => if m != "" then m else UnknownError
    case None => UnknownError
  }

  /** The status `handleSubmit` settles on once the `fetch` is over. */
  function SettledStatus(result: FetchResult): string
  {
    match result
    case Threw => ErrorText
    case Answered(ok, reply) =>
      match reply
      case NotJson => ErrorText
      case JsonReply(m) => if ok then SentText else FailurePrefix + Reason(m)
  }

  /** The settled status tells the outcomes apart and is never the in-flight status. */
  lemma SettledStatusCases(result: FetchResult)
    ensures SettledStatus(result) != Sending
    ensures SettledStatus(result) == SentText <==> Succeeded(result)
    ensures SettledStatus(result) == ErrorText <==> result.Threw? || result.reply.NotJson?
    ensures result.Answered? && !result.ok && result.reply.JsonReply? ==>
              SettledStatus(result) == FailurePrefix + Reason(result.reply.message)
  {
    var s := SettledStatus(result);
    if result.Answered? && !result.ok && result.reply.JsonReply? {
      assert s[0] == 'F';
      assert SentText[0] == 'M';
      assert ErrorText[0] == 'A';
      assert Sending[0] == 'S';
    }
  }

  /** How the browser sees a response of the contact API. */
  function Deliver(response: ContactApi.Response): (r: FetchResult)
    ensures r.Answered? && r.ok == (200 <= response.status <= 299)
    ensures r.reply.NotJson? <==> response.body.Text?
    ensures response.body.Json? ==> r.reply == JsonReply(Some(response.body.message))
  {
    Answered(200 <= response.status <= 299,
             match response.body
             case Json(m) => JsonReply(Some(m))
             case Text(_) => NotJson)
  }

  /** The contact API answering the form the page posts. */
  function ContactServer(form: FormData): FetchResult
  {
    Deliver(ContactApi.Handler(ContactApi.Request("POST", ContactApi.Str(form.name),
                                                  ContactApi.Str(form.email), ContactApi.Str(form.message))).response)
  }

  class ContactPage {
    var formData: FormData
    var status: string
    /** Every value `status` has taken, in order. */
    ghost var statusLog: seq<string>

    ghost predicate Valid()
      reads this
    {
      statusLog != [] && status == statusLog[|statusLog| - 1]
    }

    /** `useState({ name: '', email: '', message: '' })` and `useState('')`. */
    constructor ()
      ensures Valid()
      ensures formData == EmptyForm && status == Idle && statusLog == [Idle]
    {
      formData := EmptyForm;
      status := Idle;
      statusLog := [Idle];
    }

    /** `handleChange`: the named field takes the input's value; nothing else changes. */
    method HandleChange(field: FieldName, value: string)
      requires Valid()
      modifies this
      ensures Valid()
      ensures formData.Get(field) == value
      ensures forall f :: f != field ==> formData.Get(f) == old(formData).Get(f)
      ensures status == old(status) && statusLog == old(statusLog)
    {
      formData := formData.With(field, value);
    }

    /**
      `handleSubmit`: the status becomes "Sending..." first, the form is posted,
      and the status then settles on the outcome; the form is cleared only when
      the submission went through. Returns the form that was posted.
    */
    method HandleSubmit(server: FormData -> FetchResult) returns (sent: FormData)
      requires Valid()
      modifies this
      ensures Valid()
      ensures sent == old(formData)
      ensures statusLog == old(statusLog) + [Sending, SettledStatus(server(sent))]
      ensures status == SettledStatus(server(sent))
      ensures formData == if Succeeded(server(sent)) then EmptyForm else old(formData)
    {
      status := Sending;
      statusLog := statusLog + [status];
      sent := formData;
      var result := server(sent);
      match result {
        case Threw =>
          status := ErrorText;
        case Answered(ok, reply) =>
          match reply {
            case NotJson =>
              status := ErrorText;
            case JsonReply(m) =>
              if ok {
                status := SentText;
                formData := EmptyForm;
              } else {
                status := FailurePrefix + Reason(m);
              }
          }
      }
      statusLog := statusLog + [status];
    }
  }

  /**
    Filling in the three fields and running `handleSubmit` on them against the
    contact API: the page reports success and clears the form exactly when every
    field is non-empty; otherwise it reports the API's reason and keeps what was
    typed.
  */
  method FillAndSubmit(name: string, email: string, message: string) returns (status: string, form: FormData)
    ensures status == SentText <==> name != "" && email != "" && message != ""
    ensures status == SentText ==> form == EmptyForm
    ensures status != SentText ==>
              status == FailurePrefix + ContactApi.FieldsRequired && form == FormData(name, email, message)
  {
    var page := new ContactPage();
    page.HandleChange(NameField, name);
    page.HandleChange(EmailField, email);
    page.HandleChange(MessageField, message);
    assert page.formData == FormData(name, email, message);
    var sent := page.HandleSubmit(ContactServer);
    SettledStatusCases(ContactServer(sent));
    status, form := page.status, page.formData;
  }
}
