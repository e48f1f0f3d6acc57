# ValidateBPMN — a verified model of the matching and compliance core

`ValidateBPMN` is an HTTP-triggered serverless function. It receives a JSON
body `{"bpmn_element": {"id": …, "descripcion": …}}` describing one task of a
business-process (BPMN) diagram. It embeds the description with a sentence
embedding model, picks the most similar of two hardcoded regulatory rules
(`norma1` on personal-data protection, `norma2` on information security), and
answers with a report `{"elemento", "norma", "cumple"}`. `cumple` comes from a
keyword heuristic: the lower-cased description and the lower-cased rule text
must both contain `proteccion`.

The model is written in Dafny and consists of:

- `errors.dfy` (module `Errors`): the exceptions the model distinguishes, and
  a `Result` type for a Python computation that may raise. `ValueError` arises
  only in `Matching.FindRelevant` on an empty rule list, which the handler
  never passes.
- `text.dfy` (module `Text`): ASCII `str.lower()`, Python's substring test
  `pat in s` (`Contains`) against a declarative reference (`IsSubstring`), and
  a general lemma: a pattern cannot occur in a string if every window of its
  length contains a character foreign to the pattern.
- `json.dfy` (module `Json`): parsed JSON values, Python truthiness, and
  Python's `key in v` and `v[key]` on them, including the `TypeError` and
  `KeyError` cases.
- `matching.dfy` (module `Matching`): `buscar_normas_relevantes` as
  `max` then `list.index` over one score per rule, with a single-scan
  reference method proved to select the same position.
- `compliance.dfy` (module `Compliance`): `evaluar_cumplimiento`, the two
  hardcoded rules, and the proof that neither rule text contains the
  unaccented keyword, so no element ever complies.
- `handler.dfy` (module `Handler`): the request dispatch of `ValidateBPMN`,
  with every outcome: the two 400 messages, the 200 report, and the
  exceptions that escape for other malformed bodies.

The embedding model and the cosine similarity are parameters: `embed: string
-> Vector` and `sim: (Vector, Vector) -> real`. Every property is proved for
all choices of both.

A consequence worth knowing: `norma1` spells the keyword with an accent
(`protección`) and `norma2` does not mention it. The heuristic looks for the
ASCII spelling `proteccion`, so `cumple` is `false` for every request, whatever
the description (`Compliance.NeverCompliesWithNormas`,
`Handler.SuccessReport`). The model keeps this behaviour as written.
`Compliance.KeywordInBothComplies` shows that the heuristic does fire when both
texts carry the unaccented spelling.

Behaviour of the code worth knowing:

- An empty rule list makes `max` raise `ValueError` (`Matching.FindRelevant`).
- Each rule's vector embeds a short paraphrase (`"protección de datos
  personales"`), not the rule's own text (`Compliance.Normas`).
- The 400 "bpmn_element" message is given for any falsy body, not only for an
  object lacking the key. A truthy body that is not an object behaves like
  Python: a string or list passes or fails the `in` test by substring or
  element membership, then raises `TypeError` on subscription. A number or
  `true` raises `TypeError` at the `in` test (`Handler.UnhandledOtherwise`).

## Model

| member | source | states |
|---|---|---|
| `Text.Contains` | ValidateBPMN/__init__.py:20 | Python's `"proteccion" in s` is true exactly when the keyword occurs at some position of `s` |
| `Matching.MaxOf` | ValidateBPMN/__init__.py:16 | `max(similitudes)` is one of the scores and no score exceeds it |
| `Matching.FirstIndex` | ValidateBPMN/__init__.py:16 | `list.index(x)` returns a position holding `x` with no earlier position holding `x` |
| `Matching.BestIndex` | ValidateBPMN/__init__.py:16 | `similitudes.index(max(similitudes))` is the first position of a maximal score |
| `Matching.FirstMaxUnique` | ValidateBPMN/__init__.py:16 | the first maximal position is unique, so the selection is determined by the scores |
| `Matching.LaterTieNeverSelected` | ValidateBPMN/__init__.py:16 | of two rules with equal scores the later one is never chosen |
| `Matching.ScanBest` | ValidateBPMN/__init__.py:15-16 | a single scan that keeps its candidate unless a strictly greater score appears selects the same rule as `max` followed by `index` |
| `Matching.FindRelevant` | ValidateBPMN/__init__.py:14-17 | an empty rule list raises `ValueError`; otherwise the result is a rule of the list, its score is at least every rule's score, and it sits at the first maximal position |
| `Json.HasKey` | ValidateBPMN/__init__.py:36 | `'bpmn_element' in body` raises `TypeError` exactly for `None`, booleans and numbers; on a dict it is the key test, on a string the substring test, on a list the element test |
| `Json.SubscriptOnDict` | ValidateBPMN/__init__.py:36-37 | on a dict, `body['bpmn_element']` yields the stored value exactly when `'bpmn_element' in body` is true, and otherwise raises `KeyError` naming the key |
| `Json.SubscriptAfterIn` | ValidateBPMN/__init__.py:36-37 | once `'bpmn_element' in body` is true, `body['bpmn_element']` succeeds exactly for a dict; a string or list that passed the test raises `TypeError` |
| `Compliance.Complies` | ValidateBPMN/__init__.py:19-23 | the element complies iff the keyword occurs in the lower-cased description and in the lower-cased rule text |
| `Compliance.Norma1LacksKeyword` | ValidateBPMN/__init__.py:41 | the lower-cased text of `norma1` does not contain `proteccion` (it has `protección`) |
| `Compliance.Norma2LacksKeyword` | ValidateBPMN/__init__.py:42 | the lower-cased text of `norma2` does not contain `proteccion` |
| `Compliance.NormasLackKeyword` | ValidateBPMN/__init__.py:40-43 | no hardcoded rule text contains the keyword once lower-cased |
| `Compliance.NeverCompliesWithNormas` | ValidateBPMN/__init__.py:19-23 | no element description complies with either hardcoded rule |
| `Compliance.CompliesIgnoresCase` | ValidateBPMN/__init__.py:20 | lower-casing the description first does not change the verdict |
| `Compliance.KeywordInBothComplies` | ValidateBPMN/__init__.py:20-21 | a description containing the keyword in any ASCII case and a rule text containing it literally give `True` |
| `Handler.Evaluate` | ValidateBPMN/__init__.py:39-65 | a response from the success branch is a 200 JSON report whose `elemento` is the element's `id`, naming `norma1` or `norma2` with `cumple` false |
| `Handler.ValidateBPMN` | ValidateBPMN/__init__.py:25-70 | the JSON-payload message is returned exactly for an unparsable body; every response is 200 or 400; a 400 carries one of the two fixed messages; a 200 carries a report naming `norma1` or `norma2` with `cumple` false |
| `Handler.MissingElementRejected` | ValidateBPMN/__init__.py:36-70 | a parsed body gets the `bpmn_element` message exactly when it is falsy or fails the `'bpmn_element' in body` test |
| `Handler.SuccessIffWellFormed` | ValidateBPMN/__init__.py:36-65 | the handler answers 200 exactly when the body is a dict whose `bpmn_element` is a dict with a string `descripcion` and an `id` |
| `Handler.SuccessReport` | ValidateBPMN/__init__.py:40-64 | for such a body the report is the element's `id`, the id of the rule at the first maximal similarity to the embedded description, and `cumple` false |
| `Handler.UnhandledOtherwise` | ValidateBPMN/__init__.py:28-70 | an exception escapes exactly for a parsed body that passes the `bpmn_element` test but is not well formed |

## Left out

- The sentence-embedding model and its loading (ValidateBPMN/__init__.py:8, 10-12) are a foreign library; `embed` is a parameter, and the properties hold for every choice of it.
- `cosine_similarity` (ValidateBPMN/__init__.py:15) is floating-point code in a library outside the model; `sim` is a real-valued parameter. Float32 rounding and NaN scores, which would change how `max` compares, are not modelled.
- The Azure `HttpRequest`/`HttpResponse` objects, the MIME type, `json.dumps(..., indent=4)` formatting and `logging` are host and serialisation plumbing; a response is a status with either a message or a report datatype.
- JSON parsing itself is not modelled: a request is either unparsable or the parsed value. Objects keep one value per key, as `json.loads` keeps the last duplicate. The non-standard `NaN`/`Infinity` literals are not represented.
- A valid body nested deeply enough (about a thousand levels) makes CPython's `json.loads` raise `RecursionError`, a `RuntimeError` that the `except ValueError` at ValidateBPMN/__init__.py:30 does not catch, so it escapes the handler. The model treats every valid body as parsed, so such a body gets whatever response its value would get.
- `str.lower()` is modelled on ASCII letters only; other characters are left unchanged, which keeps `ó` distinct from `o` as Python does.
- Strings are sequences of Unicode scalar values. `json.loads` turns an escape such as `\ud800` into a `str` holding a lone surrogate, which a Dafny `char` cannot hold, so bodies, descriptions and ids containing one are outside the model.
- `Handler.Evaluate`: a `descripcion` that is not a string is modelled as raising `ForeignError`. The exact exception comes from the embedding or similarity library and is not identified.
- Determinism of two identical requests holds by construction: every member is a pure function of the request, `embed` and `sim`. No separate lemma states it.
- The block under `if __name__ == "__main__":` (ValidateBPMN/__init__.py:75-84) builds a sample request for running the file by hand. It is not part of the handler.
