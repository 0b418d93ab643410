/** The serverless relay (api/contact.js). `Decide` is the handler's
    decision from the request, the configured `TO_EMAIL` and what the e-mail
    provider did, to the status, the JSON body and the message handed to the
    provider; `Handler` writes that decision to the response object. The
    provider client and `process.env` are outside the model: how
    constructing the client and sending went is the input `Provider`. */
module ContactApi {
  import opened Wrappers

  /** `req.body` when it is an object with string-valued properties;
      `None` for a missing body. */
  type Fields = map<string, string>

  /** `verb` is `req.method`. */
  datatype Request = Request(verb: string, body: Option<Fields>)

  /** The argument of `resend.emails.send`. */
  datatype Message = Message(from: string, to: seq<string>, replyTo: string, subject: string, text: string)

  /** How the `try` block went: `new Resend(...)` threw, `send` threw, or
      `send` resolved to `r` whose `id` property is `id`. A thrown error's
      `message` may be absent. */
  datatype Provider =
    | ClientThrew(error: Option<string>)
    | SendThrew(error: Option<string>)
    | Delivered(id: Option<string>)

  /** `{ error }` or `{ ok: true, id }`; an absent property is left out of
      the JSON. */
  datatype Json = ErrorJson(error: Option<string>) | OkJson(id: Option<string>)

  datatype Reply = Reply(status: int, json: Json, sent: Option<Message>)

  const Sender: string := "Portfolio <onboarding@resend.dev>"
  const FallbackTo: string := "your@gmail.com"
  const SubjectPrefix: string := "Portfolio message from "

  /** `body[key]` is present and truthy, that is a non-empty string. */
  predicate Truthy(f: Fields, key: string) {
    key in f && f[key] != ""
  }

  /** The three fields the handler destructures are all truthy. */
  predicate Complete(f: Fields) {
    Truthy(f, "name") && Truthy(f, "email") && Truthy(f, "message")
  }

  /** `[process.env.TO_EMAIL || 'your@gmail.com']`. */
  function Recipients(toEmail: Option<string>): (to: seq<string>)
    ensures |to| == 1
    ensures toEmail.Some? && toEmail.value != "" ==> to[0] == toEmail.value
    ensures toEmail.None? || toEmail.value == "" ==> to[0] == FallbackTo
  {
    if toEmail.Some? && toEmail.value != "" then [toEmail.value] else [FallbackTo]
  }

  /** The message sent for a complete body. */
  function Outbound(f: Fields, toEmail: Option<string>): (m: Message)
    requires Complete(f)
    ensures m.from == Sender && m.to == Recipients(toEmail)
    ensures m.replyTo == f["email"] && m.text == f["message"]
    ensures |m.subject| == |SubjectPrefix| + |f["name"]|
    ensures m.subject[..|SubjectPrefix|] == SubjectPrefix && m.subject[|SubjectPrefix|..] == f["name"]
  {
    Message(Sender, Recipients(toEmail), f["email"], SubjectPrefix + f["name"], f["message"])
  }

  /** The handler's decision: the method guard, then the field guard, then
      one provider call whose result is reported. */
  function Decide(req: Request, toEmail: Option<string>, p: Provider): (r: Reply)
    ensures r.status in {200, 400, 405, 500}
    ensures r.status == 405 <==> req.verb != "POST"
    ensures r.status == 405 ==> r.json == ErrorJson(Some("Method Not Allowed"))
    ensures r.status == 400 <==> req.verb == "POST" && !Complete(req.body.GetOr(map[]))
    ensures r.status == 400 ==> r.json == ErrorJson(Some("Missing fields"))
    ensures r.status == 200 <==> req.verb == "POST" && Complete(req.body.GetOr(map[])) && p.Delivered?
    ensures r.status == 200 ==> r.json == OkJson(p.id)
    ensures r.status == 500 ==> r.json == ErrorJson(p.error)
    ensures r.sent.Some? <==> req.verb == "POST" && Complete(req.body.GetOr(map[])) && !p.ClientThrew?
    ensures r.sent.Some? ==> r.sent.value == Outbound(req.body.GetOr(map[]), toEmail)
  {
    if req.verb != "POST" then Reply(405, ErrorJson(Some("Method Not Allowed")), None)
    else
      var f := req.body.GetOr(map[]);
      if !Complete(f) then Reply(400, ErrorJson(Some("Missing fields")), None)
      else
        match p
        case ClientThrew(e) => Reply(500, ErrorJson(e), None)
        case SendThrew(e) => Reply(500, ErrorJson(e), Some(Outbound(f, toEmail)))
        case Delivered(id) => Reply(200, OkJson(id), Some(Outbound(f, toEmail)))
  }

  /** There is no honeypot check: the `website` field, like every property
      other than the three the handler reads, does not influence the reply. */
  lemma IgnoresOtherFields(f: Fields, key: string, v: string, verb: string, toEmail: Option<string>, p: Provider)
    requires key !in {"name", "email", "message"}
    ensures Decide(Request(verb, Some(f[key := v])), toEmail, p) == Decide(Request(verb, Some(f)), toEmail, p)
  {
    var g := f[key := v];
    assert Truthy(g, "name") == Truthy(f, "name");
    assert Truthy(g, "email") == Truthy(f, "email");
    assert Truthy(g, "message") == Truthy(f, "message");
    if Complete(f) {
      assert g["name"] == f["name"] && g["email"] == f["email"] && g["message"] == f["message"];
    }
  }

  /** There is no e-mail shape check either: a complete POST reaches the
      provider whatever its `email` string is. */
  lemma NoEmailShapeCheck(f: Fields, toEmail: Option<string>, id: Option<string>)
    requires Complete(f)
    ensures Decide(Request("POST", Some(f)), toEmail, Delivered(id)) == Reply(200, OkJson(id), Some(Outbound(f, toEmail)))
  {
  }

  /** A missing body is read as `{}`, so it is rejected as missing fields. */
  lemma MissingBodyIs400(toEmail: Option<string>, p: Provider)
    ensures Decide(Request("POST", None), toEmail, p) == Reply(400, ErrorJson(Some("Missing fields")), None)
  {
    assert !Truthy(map[], "name");
  }

  /** The response object: what has been written to it, and how often. */
  class ServerResponse {
    var status: int
    var json: Option<Json>
    var writes: nat

    constructor ()
      ensures json == None && writes == 0
    {
      status := 200;
      json := None;
      writes := 0;
    }

    /** `res.status(code).json(body)`. */
    method Write(code: int, body: Json)
      modifies this
      ensures status == code && json == Some(body) && writes == old(writes) + 1
    {
      status := code;
      json := Some(body);
      writes := writes + 1;
    }
  }

  /** `handler(req, res)`: exactly one response is written, and it is the
      decision; the returned message is what reached `send`, if anything. */
  method Handler(req: Request, toEmail: Option<string>, p: Provider, res: ServerResponse)
    returns (sent: Option<Message>)
    modifies res
    ensures res.writes == old(res.writes) + 1
    ensures res.status == Decide(req, toEmail, p).status
    ensures res.json == Some(Decide(req, toEmail, p).json)
    ensures sent == Decide(req, toEmail, p).sent
  {
    if req.verb != "POST" {
      res.Write(405, ErrorJson(Some("Method Not Allowed")));
      return None;
    }
    var f := req.body.GetOr(map[]);
    if !Truthy(f, "name") || !Truthy(f, "email") || !Truthy(f, "message") {
      res.Write(400, ErrorJson(Some("Missing fields")));
      return None;
    }
    match p {
      case ClientThrew(e) =>
        res.Write(500, ErrorJson(e));
        sent := None;
      case SendThrew(e) =>
        sent := Some(Outbound(f, toEmail));
        res.Write(500, ErrorJson(e));
      case Delivered(id) =>
        sent := Some(Outbound(f, toEmail));
        res.Write(200, OkJson(id));
    }
  }
}
