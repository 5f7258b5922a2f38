/**
 * The sidecar's document record and the embedding gateway, as the ingestion,
 * retrieval and cache components see them.
 */
module Documents {
  import opened Wrappers

  /** An ordered `{key: value}` mapping, each value already rendered by `str()`. */
  type Attrs = seq<(string, string)>

  /**
   * A document after `model_dump()`: every optional field is present and may
   * hold `None`.
   */
  datatype Doc = Doc(
    id: string,
    title: Option<string>,
    question: Option<string>,
    answer: Option<string>,
    url: Option<string>,
    metadata: Option<Attrs>,
    tags: Option<seq<string>>,
    attributes: Option<Attrs>)

  /** Python truthiness of a `str | None`. */
  predicate Truthy(o: Option<string>) {
    o.Some? && o.value != ""
  }

  /** An f-string rendering of a `str | None`. */
  function Show(o: Option<string>): string {
    match o
    case Some(s) => s
    case None => "None"
  }

  /** Each attribute rendered as its key, a colon and a space, and its value, in order. */
  function KeyValues(attrs: Attrs): (r: seq<string>)
    ensures |r| == |attrs|
    ensures forall i :: 0 <= i < |attrs| ==> r[i] == attrs[i].0 + ": " + attrs[i].1
  {
    seq(|attrs|, i requires 0 <= i < |attrs| => attrs[i].0 + ": " + attrs[i].1)
  }

  /** An embedding vector; the model is agnostic of its dimension. */
  type Vec = seq<real>

  /** `np.dot(u, v)` */
  function Dot(u: Vec, v: Vec): real {
    if u == [] || v == [] then 0.0 else u[0] * v[0] + Dot(u[1..], v[1..])
  }

  /** A unit vector: what `_normalize` produces. */
  predicate Normalised(v: Vec) {
    Dot(v, v) == 1.0
  }

  /**
   * The embedding gateway followed by normalisation: a text's unit vector, or
   * None when the encoder raises.
   */
  type Encoder = f: string -> Option<Vec>
    | forall t :: f(t).Some? ==> Normalised(f(t).value)
    witness (t: string) => None

  /** Encoding each text, or None as soon as one of them fails. */
  function EncodeEach(embed: Encoder, texts: seq<string>): (r: Option<seq<Vec>>)
    ensures r.Some? <==> forall i :: 0 <= i < |texts| ==> embed(texts[i]).Some?
    ensures r.Some? ==> |r.value| == |texts|
    ensures r.Some? ==> forall i :: 0 <= i < |texts| ==> r.value[i] == embed(texts[i]).value
  {
    if texts == [] then Some([])
    else
      match (EncodeEach(embed, texts[..|texts| - 1]), embed(texts[|texts| - 1]))
      case (Some(vs), Some(v)) => Some(vs + [v])
      case _ => None
  }

  /**
   * `_normalize(model.encode(texts))`. An empty batch fails too: the encoder
   * then yields a one-dimensional array, whose row norms cannot be taken.
   */
  function EncodeBatch(embed: Encoder, texts: seq<string>): (r: Option<seq<Vec>>)
    ensures r.Some? <==> texts != [] && forall i :: 0 <= i < |texts| ==> embed(texts[i]).Some?
    ensures r.Some? ==> |r.value| == |texts|
    ensures r.Some? ==> forall i :: 0 <= i < |texts| ==> r.value[i] == embed(texts[i]).value
  {
    if texts == [] then None else EncodeEach(embed, texts)
  }
}
