/** The routed contact page (src/pages/ContactTerminal.jsx). Its `submit`
    runs in two halves around the `await fetch(...)`: `Submit` is everything
    up to and including issuing the request, `Settle` is everything after
    the request completes. The page's `push` calls are the `Toast.Notice`
    values these methods return. */
module ContactTerminal {
  import opened Wrappers
  import opened Toast
  import EmailPattern

  /** The `form` state; `website` is the hidden honeypot input. */
  datatype Form = Form(name: string, email: string, subject: string, message: string, website: string)

  /** The `name` attributes of the five inputs. */
  datatype Field = Name | Email | Subject | Message | Website

  const DefaultSubject: string := "Let's build something"
  const InitialForm: Form := Form("", "", DefaultSubject, "", "")

  const FillIn: string := "Please fill in name, email, and message."
  const BadEmail: string := "Please enter a valid email address."
  const SentNote: string := "Message sent. I’ll reply soon!"
  const FailedToSend: string := "Failed to send"
  const NetworkError: string := "Network error. Try again later."

  function Get(f: Form, k: Field): string {
    match k
    case Name => f.name
    case Email => f.email
    case Subject => f.subject
    case Message => f.message
    case Website => f.website
  }

  /** `{ ...form, [name]: value }`. */
  function Set(f: Form, k: Field, v: string): (r: Form)
    ensures Get(r, k) == v
    ensures forall j :: j != k ==> Get(r, j) == Get(f, j)
  {
    match k
    case Name => f.(name := v)
    case Email => f.(email := v)
    case Subject => f.(subject := v)
    case Message => f.(message := v)
    case Website => f.(website := v)
  }

  /** The two guards of `submit`, in order; `None` lets the request go out.
      The presence guard is JavaScript truthiness of a string: only the
      empty string fails it. */
  function Validate(f: Form): (r: Option<string>)
    ensures r == Some(FillIn) <==> (f.name == "" || f.email == "" || f.message == "")
    ensures r == Some(BadEmail) <==>
      (f.name != "" && f.email != "" && f.message != "" && !EmailPattern.ValidEmail(f.email))
    ensures r == None <==>
      (f.name != "" && f.message != "" && EmailPattern.ValidEmail(f.email))
  {
    if f.name == "" || f.email == "" || f.message == "" then Some(FillIn)
    else if !EmailPattern.ValidEmail(f.email) then Some(BadEmail)
    else None
  }

  /** What `res.json().catch(() => ({}))` yields: an unparseable body is
      `{}`; otherwise the string in its `error` property, if any. */
  datatype Body = Unparseable | Parsed(error: Option<string>)

  /** How the `fetch` call ended: a response, or a rejection with the
      message of the error it rejected with. */
  datatype Outcome = Responded(ok: bool, body: Body) | Rejected(message: string)

  /** `data.error`, with `{}` standing in for an unparseable body. */
  function ErrorField(b: Body): Option<string> {
    match b
    case Unparseable => None
    case Parsed(e) => e
  }

  /** The message of the `Error` thrown inside the `try`, if one is thrown:
      `new Error(data.error || "Failed to send")` for a non-ok response, the
      rejection for a failed fetch. */
  function Thrown(o: Outcome): Option<string> {
    match o
    case Responded(ok, body) =>
      if ok then None
      else
        var e := ErrorField(body);
        Some(if e.Some? && e.value != "" then e.value else FailedToSend)
    case Rejected(m) => Some(m)
  }

  /** The toast the `try`/`catch` pushes for an outcome. */
  function Report(o: Outcome): (n: Notice)
    ensures n.variant == Success <==> (o.Responded? && o.ok)
    ensures n.message != ""
    ensures o.Responded? && o.ok ==> n == Notice(SentNote, Success)
    ensures o.Rejected? ==> n == Notice(if o.message != "" then o.message else NetworkError, Error)
  {
    match Thrown(o)
    case None => Notice(SentNote, Success)
    case Some(m) => Notice(if m != "" then m else NetworkError, Error)
  }

  /** A non-ok response shows the server's `error` text when it sent a
      non-empty one and "Failed to send" otherwise, never the network
      fallback. */
  lemma HttpErrorReport(ok: bool, body: Body)
    requires !ok
    ensures Report(Responded(ok, body)).variant == Error
    ensures ErrorField(body).Some? && ErrorField(body).value != "" ==>
      Report(Responded(ok, body)).message == ErrorField(body).value
    ensures (ErrorField(body).None? || ErrorField(body).value == "") ==>
      Report(Responded(ok, body)).message == FailedToSend
  {
  }

  class Terminal {
    var form: Form
    var loading: bool
    /** Requests issued whose response has not been handled yet. */
    ghost var pending: nat

    ghost predicate Valid()
      reads this
    {
      loading ==> pending > 0
    }

    constructor ()
      ensures Valid()
      ensures form == InitialForm && !loading && pending == 0
    {
      form := InitialForm;
      loading := false;
      pending := 0;
    }

    /** `onChange` for the input named `k`. */
    method OnChange(k: Field, v: string)
      requires Valid()
      modifies this
      ensures Valid()
      ensures form == Set(old(form), k, v)
      ensures loading == old(loading) && pending == old(pending)
    {
      form := Set(form, k, v);
    }

    /** `submit()` up to the `await`: either a guard fails and a toast is
        pushed, or `loading` is set and the whole form is sent as the JSON
        body. Nothing checks `loading`: the Ctrl/⌘+Enter path reaches this
        while a request is already pending. */
    method Submit() returns (notice: Option<Notice>, request: Option<Form>)
      requires Valid()
      modifies this
      ensures Valid()
      ensures form == old(form)
      ensures Validate(old(form)).Some? ==>
        && notice == Some(Notice(Validate(old(form)).value, Error))
        && request == None
        && loading == old(loading) && pending == old(pending)
      ensures Validate(old(form)).None? ==>
        && notice == None
        && request == Some(old(form))
        && loading && pending == old(pending) + 1
    {
      var v := Validate(form);
      if v.Some? {
        notice := Some(Notice(v.value, Error));
        request := None;
        return;
      }
      loading := true;
      pending := pending + 1;
      notice := None;
      request := Some(form);
    }

    /** `submit()` after the `await`: the toast for the outcome, a reset to
        the initial form on success only, and `loading` cleared whatever
        happened (also when other requests are still pending). */
    method Settle(o: Outcome) returns (notice: Notice)
      requires Valid() && pending > 0
      modifies this
      ensures Valid()
      ensures notice == Report(o)
      ensures form == if o.Responded? && o.ok then InitialForm else old(form)
      ensures !loading && pending == old(pending) - 1
    {
      notice := Report(o);
      if o.Responded? && o.ok {
        form := InitialForm;
      }
      loading := false;
      pending := pending - 1;
    }
  }

  /** Pressing Ctrl/⌘+Enter twice on a valid form sends two requests, and
      the first response clears `loading` while the second is still out. */
  method CtrlEnterTwice(t: Terminal, first: Outcome)
    requires t.Valid() && Validate(t.form).None?
    modifies t
    ensures t.Valid()
    ensures !t.loading && t.pending == old(t.pending) + 1
  {
    var n1, r1 := t.Submit();
    var n2, r2 := t.Submit();
    assert r1 == r2 == Some(old(t.form));
    var n3 := t.Settle(first);
  }
}
