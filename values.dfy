/**
 * The values the multipart middleware handles: the errors it passes to
 * `next`, the file parts the tokenizer reports, the entries it aggregates
 * and the trees the query-string decoder builds from them.
 */
module Values {

  datatype Option<+T> = None | Some(value: T)

  /** The outcome of an operation that may throw. */
  datatype Result<+T> = Ok(value: T) | Err(error: Error)

  /** An error object; `status` is the HTTP status attached to it, if any. */
  datatype Error = Error(message: string, status: Option<int>)

  /** The error as the middleware hands it on: its `status` set to 400. */
  function ClientFault(e: Error): (r: Error)
    ensures r.message == e.message
    ensures r.status == Some(400)
  {
    e.(status := Some(400))
  }

  /** A file part as the multipart tokenizer reports it. */
  datatype Part = Part(
    fieldName: string,
    originalFilename: string,
    path: string,
    size: nat,
    headers: map<string, string>)

  /** A file part after the middleware has added its `name` and `type`. */
  datatype Upload = Upload(part: Part, name: string, mimeType: Option<string>)

  /** A value stored under a form name: a field's text or an uploaded file. */
  datatype Value = Text(text: string) | File(upload: Upload)

  /** JavaScript truthiness of a stored value: only the empty string is falsy. */
  predicate Truthy(v: Value)
  {
    v.Text? ==> v.text != ""
  }

  /** A decoded tree: a value, an array or an object. */
  datatype Node = Leaf(value: Value) | List(items: seq<Node>) | Obj(fields: map<string, Node>)

  /** JavaScript truthiness of a tree: arrays and objects are always truthy. */
  predicate NodeTruthy(n: Node)
  {
    n.Leaf? ==> Truthy(n.value)
  }

  /**
   * The file handler's normalisation: the part is kept as it is, `name`
   * copies the original file name and `type` is the Content-Type header,
   * or null when that header is missing or empty.
   */
  function Normalise(p: Part): (u: Upload)
    ensures u.part == p
    ensures u.name == p.originalFilename
    ensures u.mimeType.Some? <==> "content-type" in p.headers && p.headers["content-type"] != ""
    ensures u.mimeType.Some? ==> u.mimeType.value == p.headers["content-type"]
  {
    var header := if "content-type" in p.headers then p.headers["content-type"] else "";
    Upload(p, p.originalFilename, if header != "" then Some(header) else None)
  }
}
