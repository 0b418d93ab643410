/** The older contact page (src/pages/Contact.jsx), written against a
    Formspree endpoint. As in `ContactTerminal`, `onSubmit` is split at its
    `await`: `Submit` runs the guards and issues the request, `Settle`
    handles how the request ended. */
module Contact {
  import opened Wrappers
  import opened Toast
  import EmailPattern

  datatype Form = Form(name: string, email: string, message: string)

  datatype Field = Name | Email | Message

  const EmptyForm: Form := Form("", "", "")

  /** `FORMSPREE_ENDPOINT` as shipped, still holding the placeholder id. */
  const ShippedEndpoint: string := "https://formspree.io/f/your_form_id"
  const Placeholder: string := "your_form_id"

  const FillIn: string := "Please fill in all fields."
  const BadEmail: string := "Please enter a valid email address."
  const NotConfigured: string := "Form endpoint not configured. See README to connect to Formspree."
  const Thanks: string := "Thanks! Your message has been sent."
  const SendErrorPrefix: string := "Error sending message. "
  const NetworkError: string := "Network error. Please try again later."

  function Get(f: Form, k: Field): string {
    match k
    case Name => f.name
    case Email => f.email
    case Message => f.message
  }

  /** `{ ...form, [name]: value }`. */
  function Set(f: Form, k: Field, v: string): (r: Form)
    ensures Get(r, k) == v
    ensures forall j :: j != k ==> Get(r, j) == Get(f, j)
  {
    match k
    case Name => f.(name := v)
    case Email => f.(email := v)
    case Message => f.(message := v)
  }

  /** `String.prototype.endsWith`. */
  predicate EndsWith(s: string, suffix: string) {
    |suffix| <= |s| && s[|s| - |suffix|..] == suffix
  }

  /** The three guards of `onSubmit`, in order, for the endpoint `endpoint`;
      `None` lets the request go out. */
  function Validate(f: Form, endpoint: string): (r: Option<string>)
    ensures r == Some(FillIn) <==> (f.name == "" || f.email == "" || f.message == "")
    ensures r == Some(BadEmail) <==>
      (f.name != "" && f.email != "" && f.message != "" && !EmailPattern.ValidEmail(f.email))
    ensures r == Some(NotConfigured) <==>
      (f.name != "" && f.message != "" && EmailPattern.ValidEmail(f.email) && EndsWith(endpoint, Placeholder))
    ensures r == None <==>
      (f.name != "" && f.message != "" && EmailPattern.ValidEmail(f.email) && !EndsWith(endpoint, Placeholder))
  {
    if f.name == "" || f.email == "" || f.message == "" then Some(FillIn)
    else if !EmailPattern.ValidEmail(f.email) then Some(BadEmail)
    else if EndsWith(endpoint, Placeholder) then Some(NotConfigured)
    else None
  }

  /** With the endpoint as shipped no submission ever reaches `fetch`. */
  lemma ShippedNeverSends(f: Form)
    ensures Validate(f, ShippedEndpoint).Some?
  {
    assert ShippedEndpoint[|ShippedEndpoint| - |Placeholder|..] == Placeholder;
  }

  /** How the request ended: a response whose body text could be read (or
      `None` when `res.text()` rejected), or a rejected `fetch`. */
  datatype Outcome = Responded(ok: bool, text: Option<string>) | Rejected

  /** The toast pushed inside the `try`/`catch`. */
  function Report(o: Outcome): (n: Notice)
    ensures n.variant == Success <==> (o.Responded? && o.ok)
    ensures o.Responded? && o.ok ==> n == Notice(Thanks, Success)
    ensures o.Responded? && !o.ok && o.text.Some? ==> n.message == SendErrorPrefix + o.text.value
    ensures (o.Rejected? || (!o.ok && o.text.None?)) ==> n.message == NetworkError
  {
    match o
    case Responded(ok, text) =>
      if ok then Notice(Thanks, Success)
      else if text.Some? then Notice(SendErrorPrefix + text.value, Error)
      else Notice(NetworkError, Error)
    case Rejected => Notice(NetworkError, Error)
  }

  class ContactForm {
    const endpoint: string
    var form: Form
    var loading: bool
    ghost var pending: nat

    ghost predicate Valid()
      reads this
    {
      loading ==> pending > 0
    }

    /** The page on first render, posting to `endpoint`: `ShippedEndpoint`
        as shipped, or the address a deployer puts in its place. */
    constructor (endpoint: string)
      ensures Valid()
      ensures this.endpoint == endpoint
      ensures form == EmptyForm && !loading && pending == 0
    {
      this.endpoint := endpoint;
      form := EmptyForm;
      loading := false;
      pending := 0;
    }

    method OnChange(k: Field, v: string)
      requires Valid()
      modifies this
      ensures Valid()
      ensures form == Set(old(form), k, v)
      ensures loading == old(loading) && pending == old(pending)
    {
      form := Set(form, k, v);
    }

    /** `onSubmit` up to the `await`: a guard pushes its error toast, or
        `loading` is set and the payload `{ name, email, message }` is
        posted to the endpoint. */
    method Submit() returns (notice: Option<Notice>, payload: Option<Form>)
      requires Valid()
      modifies this
      ensures Valid()
      ensures form == old(form)
      ensures Validate(old(form), endpoint).Some? ==>
        && notice == Some(Notice(Validate(old(form), endpoint).value, Error))
        && payload == None
        && loading == old(loading) && pending == old(pending)
      ensures Validate(old(form), endpoint).None? ==>
        && notice == None
        && payload == Some(Form(old(form).name, old(form).email, old(form).message))
        && loading && pending == old(pending) + 1
    {
      var v := Validate(form, endpoint);
      if v.Some? {
        notice := Some(Notice(v.value, Error));
        payload := None;
        return;
      }
      loading := true;
      pending := pending + 1;
      notice := None;
      payload := Some(Form(form.name, form.email, form.message));
    }

    /** `onSubmit` after the `await`: the outcome's toast, a reset to three
        empty fields on an ok response only, and the `finally` that clears
        `loading`. */
    method Settle(o: Outcome) returns (notice: Notice)
      requires Valid() && pending > 0
      modifies this
      ensures Valid()
      ensures notice == Report(o)
      ensures form == if o.Responded? && o.ok then EmptyForm else old(form)
      ensures !loading && pending == old(pending) - 1
    {
      notice := Report(o);
      if o.Responded? && o.ok {
        form := EmptyForm;
      }
      loading := false;
      pending := pending - 1;
    }
  }

  /** On the page as shipped, submitting never issues a request and never
      sets `loading`. */
  method ShippedSubmit(c: ContactForm) returns (notice: Option<Notice>)
    requires c.Valid() && c.endpoint == ShippedEndpoint
    modifies c
    ensures notice.Some? && notice.value.variant == Error
    ensures c.loading == old(c.loading) && c.pending == old(c.pending) && c.form == old(c.form)
  {
    ShippedNeverSends(c.form);
    var payload;
    notice, payload := c.Submit();
  }
}
