/** The HTTP-triggered handler `ValidateBPMN`: parse the body, pick out the
    BPMN element, match it against the hardcoded rules and report whether it
    complies. The embedding model and the similarity measure are parameters. */
module Handler {
  import opened Errors
  import opened Text
  import opened Json
  import opened Matching
  import opened Compliance

  const NoPayloadMessage: string := "Please pass a JSON payload in the request body"
  const NoElementMessage: string := "Please pass a bpmn_element in the request body"

  /** The request as `req.get_json()` sees it: a body that is not valid JSON
      (an empty body included), or the parsed value. A body nested deeply
      enough to exhaust the interpreter's recursion limit is not represented. */
  datatype Request = Unparsable | Parsed(body: Json)

  /** The JSON report of a successful request: `elemento`, `norma`, `cumple`. */
  datatype Report = Report(elemento: Json, norma: string, cumple: bool)

  /** A response body: a plain-text message or a JSON report. */
  datatype Payload = PlainText(text: string) | JsonReport(report: Report)

  /** What the host receives: a response, or an exception escaping the handler. */
  datatype Outcome = Response(status: int, payload: Payload) | Unhandled(error: PyError)

  /** The body lacks a usable `bpmn_element`: it is falsy, or `'bpmn_element'
      in body` is false for it (a dict without that key, a string without that
      substring, a list without that string). */
  ghost predicate LacksElement(body: Json) {
    || !Truthy(body)
    || (body.JObject? && "bpmn_element" !in body.fields)
    || (body.JString? && !IsSubstring("bpmn_element", body.s))
    || (body.JArray? && JString("bpmn_element") !in body.items)
  }

  /** The body is a dict whose `bpmn_element` is a dict with a string
      `descripcion` and an `id`. */
  ghost predicate WellFormed(body: Json) {
    && body.JObject?
    && "bpmn_element" in body.fields
    && body.fields["bpmn_element"].JObject?
    && "descripcion" in body.fields["bpmn_element"].fields
    && body.fields["bpmn_element"].fields["descripcion"].JString?
    && "id" in body.fields["bpmn_element"].fields
  }

  /** The element's `descripcion`, for a well-formed body. */
  function DescriptionOf(body: Json): string
    requires WellFormed(body)
  {
    body.fields["bpmn_element"].fields["descripcion"].s
  }

  /** The element's `id`, for a well-formed body. */
  function IdOf(body: Json): Json
    requires WellFormed(body)
  {
    body.fields["bpmn_element"].fields["id"]
  }

  /** The body of the success branch: embed the description, choose the most relevant rule,
      evaluate compliance and build the report. */
  function Evaluate(element: Json, embed: string -> Vector, sim: (Vector, Vector) -> real): (out: Outcome)
    ensures out.Response? ==> out.status == 200 && out.payload.JsonReport?
    ensures out.Response? ==> out.payload.report.norma in {"norma1", "norma2"}
    ensures out.Response? ==> !out.payload.report.cumple
    ensures out.Response? ==>
      element.JObject? && "id" in element.fields && out.payload.report.elemento == element.fields["id"]
  {
    var rules := Normas(embed);
    match GetItem(element, "descripcion")
    case Raised(e) => Unhandled(e)
    case Ok(description) =>
      if !description.JString? then
        // `encode` or `cosine_similarity` raises on anything but a string
        Unhandled(ForeignError)
      else
        match FindRelevant(embed(description.s), rules, sim)
        case Raised(e) => Unhandled(e)
        case Ok(best) =>
          match GetItem(element, "id")
          case Raised(e) => Unhandled(e)
          case Ok(id) =>
            var cumple := Complies(Element(id, description.s), best);
            NeverCompliesWithNormas(embed, Element(id, description.s), best);
            Response(200, JsonReport(Report(id, best.id, cumple)))
  }

  /** `ValidateBPMN`. */
  function ValidateBPMN(req: Request, embed: string -> Vector, sim: (Vector, Vector) -> real): (out: Outcome)
    ensures req.Unparsable? <==> out == Response(400, PlainText(NoPayloadMessage))
    ensures out.Response? ==> out.status == 200 || out.status == 400
    ensures out.Response? && out.status == 400 ==>
      out.payload == PlainText(NoPayloadMessage) || out.payload == PlainText(NoElementMessage)
    ensures out.Response? && out.status == 200 ==>
      out.payload.JsonReport? && out.payload.report.norma in {"norma1", "norma2"} && !out.payload.report.cumple
  {
    match req
    case Unparsable => Response(400, PlainText(NoPayloadMessage))
    case Parsed(body) =>
      if !Truthy(body) then Response(400, PlainText(NoElementMessage))
      else
        match HasKey(body, "bpmn_element")
        case Raised(e) => Unhandled(e)
        case Ok(present) =>
          if !present then Response(400, PlainText(NoElementMessage))
          else
            match GetItem(body, "bpmn_element")
            case Raised(e) => Unhandled(e)
            case Ok(element) => Evaluate(element, embed, sim)
  }

  /** A parsed body is answered with the missing-element message exactly when
      it lacks a usable `bpmn_element`. */
  lemma MissingElementRejected(body: Json, embed: string -> Vector, sim: (Vector, Vector) -> real)
    ensures ValidateBPMN(Parsed(body), embed, sim) == Response(400, PlainText(NoElementMessage))
            <==> LacksElement(body)
  {
  }

  /** The handler answers 200 exactly for a well-formed body. */
  lemma SuccessIffWellFormed(req: Request, embed: string -> Vector, sim: (Vector, Vector) -> real)
    ensures ValidateBPMN(req, embed, sim).Response? && ValidateBPMN(req, embed, sim).status == 200
            <==> req.Parsed? && WellFormed(req.body)
  {
  }

  /** For a well-formed body the report names the element's `id`, the rule at
      the first maximum of the similarity scores, and `cumple` false. */
  lemma SuccessReport(body: Json, embed: string -> Vector, sim: (Vector, Vector) -> real, k: int)
    requires WellFormed(body)
    requires IsFirstMax(Scores(embed(DescriptionOf(body)), Normas(embed), sim), k)
    ensures ValidateBPMN(Parsed(body), embed, sim)
            == Response(200, JsonReport(Report(IdOf(body), Normas(embed)[k].id, false)))
  {
  }

  /** Every other parsed body makes an exception escape: a non-dict body that
      passes the `in` test, a non-dict element, or an element without a string
      `descripcion` or without an `id`. */
  lemma UnhandledOtherwise(req: Request, embed: string -> Vector, sim: (Vector, Vector) -> real)
    ensures ValidateBPMN(req, embed, sim).Unhandled?
            <==> req.Parsed? && !LacksElement(req.body) && !WellFormed(req.body)
  {
  }
}
