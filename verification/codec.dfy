/**
 * The pipelines of `predict`: the four pipeline names it accepts, the V2 inference
 * envelope each one posts (named tensors with a dtype, an optional shape and a
 * flat data list) and the rule that turns the downstream `outputs` tensors into
 * the pipeline's result.
 */
module Codec {
  import opened JsonValue
  import opened PyStr
  import opened Utf8

  datatype Pipeline = TextGeneration | ZeroShotClassification | TokenClassification | ObjectDetection

  /** The `hf_pipeline` string that selects each pipeline. */
  function Name(p: Pipeline): string {
    match p
    case TextGeneration => "text-generation"
    case ZeroShotClassification => "zero-shot-classification"
    case TokenClassification => "token-classification"
    case ObjectDetection => "object-detection"
  }

  /** The if/elif dispatch on `hf_pipeline`: None for every other name. */
  function ParsePipeline(name: string): (r: Option<Pipeline>)
    ensures r.Some? ==> Name(r.value) == name
  {
    if name == "text-generation" then Some(TextGeneration)
    else if name == "zero-shot-classification" then Some(ZeroShotClassification)
    else if name == "token-classification" then Some(TokenClassification)
    else if name == "object-detection" then Some(ObjectDetection)
    else None
  }

  /** A name selects a pipeline exactly when it is that pipeline's name. */
  lemma ParseName(name: string, p: Pipeline)
    ensures ParsePipeline(name) == Some(p) <==> name == Name(p)
  {
  }

  // ---------------------------------------------------------------------------
  // The V2 envelope

  /** One named input tensor. `data` is whatever the request supplies, so it is a
      JSON value rather than a typed list (`candidate_labels` is passed as is). */
  datatype Tensor = Tensor(dtype: string, shape: Option<seq<int>>, data: Json)

  /** The named tensors under "inputs", in the order the dict literal lists them. */
  type Envelope = seq<(string, Tensor)>

  function Ints(xs: seq<int>): (js: seq<Json>)
    ensures |js| == |xs| && forall i :: 0 <= i < |xs| ==> js[i] == JInt(xs[i])
  {
    seq(|xs|, i requires 0 <= i < |xs| => JInt(xs[i]))
  }

  function Texts(ws: seq<string>): (js: seq<Json>)
    ensures |js| == |ws| && forall i :: 0 <= i < |ws| ==> js[i] == JStr(ws[i])
  {
    seq(|ws|, i requires 0 <= i < |ws| => JStr(ws[i]))
  }

  function TensorJson(t: Tensor): Json {
    match t.shape
    case None => JObj([("dtype", JStr(t.dtype)), ("data", t.data)])
    case Some(shape) => JObj([("dtype", JStr(t.dtype)), ("shape", JArr(Ints(shape))), ("data", t.data)])
  }

  function SlotsJson(e: Envelope): (fields: seq<(string, Json)>)
    ensures |fields| == |e|
    ensures forall i :: 0 <= i < |e| ==> fields[i] == (e[i].0, TensorJson(e[i].1))
  {
    seq(|e|, i requires 0 <= i < |e| => (e[i].0, TensorJson(e[i].1)))
  }

  /** The JSON body posted downstream: `{"inputs": {slot: tensor, ...}}`. */
  function EnvelopeJson(e: Envelope): (body: Json)
    ensures ReadEnvelope(body) == Some(e)
  {
    ReadSlotsJson(e);
    JObj([("inputs", JObj(SlotsJson(e)))])
  }

  /** The integers of a JSON list, or None if one element is not an integer. */
  function ReadInts(js: seq<Json>): (r: Option<seq<int>>)
    ensures r.Some? <==> forall i :: 0 <= i < |js| ==> js[i].JInt?
    ensures r.Some? ==> |r.value| == |js| && forall i :: 0 <= i < |js| ==> js[i] == JInt(r.value[i])
    decreases |js|
  {
    if js == [] then Some([])
    else if !js[0].JInt? then None
    else
      match ReadInts(js[1..])
      case None => None
      case Some(rest) => Some([js[0].i] + rest)
  }

  /** A reader of one posted tensor object, defined here as the reference for the
      round trip: it takes exactly the keys the encoder writes, in that order. */
  function ReadTensor(j: Json): Option<Tensor> {
    if !j.JObj? then None
    else
      var f := j.fields;
      if |f| == 2 && f[0].0 == "dtype" && f[0].1.JStr? && f[1].0 == "data" then
        Some(Tensor(f[0].1.s, None, f[1].1))
      else if |f| == 3 && f[0].0 == "dtype" && f[0].1.JStr? && f[1].0 == "shape" && f[1].1.JArr?
              && f[2].0 == "data" then
        match ReadInts(f[1].1.items)
        case None => None
        case Some(shape) => Some(Tensor(f[0].1.s, Some(shape), f[2].1))
      else None
  }

  function ReadSlots(fields: seq<(string, Json)>): Option<Envelope>
    decreases |fields|
  {
    if fields == [] then Some([])
    else
      match ReadTensor(fields[0].1)
      case None => None
      case Some(t) =>
        match ReadSlots(fields[1..])
        case None => None
        case Some(rest) => Some([(fields[0].0, t)] + rest)
  }

  /** A reader of the posted body: `{"inputs": {...}}` and nothing else, read back
      into named tensors. */
  function ReadEnvelope(body: Json): Option<Envelope> {
    if body.JObj? && |body.fields| == 1 && body.fields[0].0 == "inputs" && body.fields[0].1.JObj? then
      ReadSlots(body.fields[0].1.fields)
    else None
  }

  lemma ReadTensorJson(t: Tensor)
    ensures ReadTensor(TensorJson(t)) == Some(t)
  {
    if t.shape.Some? {
      var shape := t.shape.value;
      var r := ReadInts(Ints(shape));
      assert r.Some?;
      assert r.value == shape;
    }
  }

  lemma TensorJsonRead(j: Json, t: Tensor)
    requires ReadTensor(j) == Some(t)
    ensures TensorJson(t) == j
  {
    var f := j.fields;
    if |f| == 3 {
      assert ReadInts(f[1].1.items) == Some(t.shape.value);
      assert f[1].1.items == Ints(t.shape.value);
      assert [f[0], f[1], f[2]] == f;
    } else {
      assert [f[0], f[1]] == f;
    }
  }

  lemma {:induction false} ReadSlotsJson(e: Envelope)
    ensures ReadSlots(SlotsJson(e)) == Some(e)
    decreases |e|
  {
    if e != [] {
      var fields := SlotsJson(e);
      ReadTensorJson(e[0].1);
      assert fields[0] == (e[0].0, TensorJson(e[0].1));
      assert fields[1..] == SlotsJson(e[1..]);
      ReadSlotsJson(e[1..]);
      assert e == [(e[0].0, e[0].1)] + e[1..];
    }
  }

  lemma {:induction false} SlotsJsonRead(fields: seq<(string, Json)>, e: Envelope)
    requires ReadSlots(fields) == Some(e)
    ensures SlotsJson(e) == fields
    decreases |fields|
  {
    if fields != [] {
      var t := ReadTensor(fields[0].1).value;
      TensorJsonRead(fields[0].1, t);
      var rest := ReadSlots(fields[1..]).value;
      SlotsJsonRead(fields[1..], rest);
      assert e == [(fields[0].0, t)] + rest;
      SlotsJsonCons(fields[0].0, t, rest);
      assert fields == [(fields[0].0, fields[0].1)] + fields[1..];
    }
  }

  lemma SlotsJsonCons(name: string, t: Tensor, rest: Envelope)
    ensures SlotsJson([(name, t)] + rest) == [(name, TensorJson(t))] + SlotsJson(rest)
  {
    var e := [(name, t)] + rest;
    assert forall i :: 0 < i < |e| ==> e[i] == rest[i - 1];
  }

  /** The posted body carries the envelope exactly: the reader gets back what was
      encoded, and only the JSON of an envelope reads back as one. */
  lemma EnvelopeRoundTrip(e: Envelope, body: Json)
    ensures ReadEnvelope(EnvelopeJson(e)) == Some(e)
    ensures ReadEnvelope(body) == Some(e) ==> EnvelopeJson(e) == body
  {
    ReadSlotsJson(e);
    if ReadEnvelope(body) == Some(e) {
      SlotsJsonRead(body.fields[0].1.fields, e);
      assert [body.fields[0]] == body.fields;
    }
  }

  // ---------------------------------------------------------------------------
  // Encode rules

  /** `request.parameters.get("candidate_labels", [])`. */
  function CandidateLabels(parameters: seq<(string, Json)>): (labels: Json)
    ensures ("candidate_labels", labels) in parameters ||
            (labels == JArr([]) && forall j :: 0 <= j < |parameters| ==> parameters[j].0 != "candidate_labels")
    ensures (exists j :: 0 <= j < |parameters| && parameters[j].0 == "candidate_labels") ==>
              ("candidate_labels", labels) in parameters
  {
    Lookup(parameters, "candidate_labels").GetOr(JArr([]))
  }

  /** text-generation: one "string" tensor `text` holding the input as its only item. */
  function EncodeText(inputs: string): (e: Envelope)
    ensures |e| == 1 && e[0].0 == "text"
    ensures e[0].1.dtype == "string" && e[0].1.shape.None?
    ensures e[0].1.data == JArr([JStr(inputs)])
  {
    [("text", Tensor("string", None, JArr([JStr(inputs)])))]
  }

  /** zero-shot-classification: the input as `sequence`, and the request's
      `candidate_labels` parameter (an empty list when absent) as `candidate_labels`. */
  function EncodeZeroShot(inputs: string, parameters: seq<(string, Json)>): (e: Envelope)
    ensures |e| == 2 && e[0].0 == "sequence" && e[1].0 == "candidate_labels"
    ensures e[0].1 == Tensor("string", None, JArr([JStr(inputs)]))
    ensures e[1].1.dtype == "string" && e[1].1.shape.None?
    ensures Lookup(parameters, "candidate_labels").Some? ==>
              e[1].1.data == Lookup(parameters, "candidate_labels").value
    ensures Lookup(parameters, "candidate_labels").None? ==> e[1].1.data == JArr([])
  {
    [("sequence", Tensor("string", None, JArr([JStr(inputs)]))),
     ("candidate_labels", Tensor("string", None, CandidateLabels(parameters)))]
  }

  /** token-classification: the whitespace-separated tokens of the input, in order,
      as a "string" tensor `tokens` of shape [-1]. */
  function EncodeTokens(inputs: string): (e: Envelope)
    ensures |e| == 1 && e[0].0 == "tokens"
    ensures e[0].1.dtype == "string" && e[0].1.shape == Some([-1])
    ensures e[0].1.data.JArr? && |e[0].1.data.items| == |Split(inputs)|
    ensures forall i :: 0 <= i < |Split(inputs)| ==>
              e[0].1.data.items[i].JStr? && IsToken(e[0].1.data.items[i].s)
  {
    [("tokens", Tensor("string", Some([-1]), JArr(Texts(Split(inputs)))))]
  }

  /** object-detection: the image bytes as a "BYTES" tensor `image` whose shape is
      its length and whose items are the bytes, each in 0..255, in order. */
  function EncodeImage(bytes: seq<byte>): (e: Envelope)
    ensures |e| == 1 && e[0].0 == "image"
    ensures e[0].1.dtype == "BYTES" && e[0].1.data.JArr?
    ensures e[0].1.shape == Some([|e[0].1.data.items|]) && |e[0].1.data.items| == |bytes|
    ensures forall i :: 0 <= i < |bytes| ==>
              e[0].1.data.items[i].JInt? && 0 <= e[0].1.data.items[i].i < 256 &&
              e[0].1.data.items[i] == JInt(bytes[i])
  {
    [("image", Tensor("BYTES", Some([|bytes|]), JArr(Ints(bytes))))]
  }

  /** The tokens slot carries `Split(inputs)`, which the lemmas of PyStr
      characterise: the input is those tokens with runs of whitespace around and
      between them, and no other token list has that property. */
  lemma EncodeTokensSplits(inputs: string)
    ensures var items := EncodeTokens(inputs)[0].1.data.items;
            |items| == |Split(inputs)| &&
            (forall i :: 0 <= i < |items| ==> items[i] == JStr(Split(inputs)[i])) &&
            Separates(Gaps(inputs), |items|) && Interleave(Gaps(inputs), Split(inputs)) == inputs
  {
    SplitDecomposes(inputs);
  }

  /** Product of the dimensions other than the wildcard -1. */
  function KnownSize(shape: seq<int>): int
    decreases |shape|
  {
    if shape == [] then 1
    else (if shape[0] == -1 then 1 else shape[0]) * KnownSize(shape[1..])
  }

  function Wildcards(shape: seq<int>): nat
    decreases |shape|
  {
    if shape == [] then 0 else (if shape[0] == -1 then 1 else 0) + Wildcards(shape[1..])
  }

  /** A V2 shape fits `n` items: dimensions are sizes or the single wildcard -1, and
      the known sizes multiply to `n` (to a divisor of `n` when there is a wildcard). */
  predicate Admits(shape: seq<int>, n: nat) {
    (forall i :: 0 <= i < |shape| ==> shape[i] >= -1) &&
    (if Wildcards(shape) == 0 then KnownSize(shape) == n
     else Wildcards(shape) == 1 &&
          (if KnownSize(shape) == 0 then n == 0 else n % KnownSize(shape) == 0))
  }

  /** Where a tensor has a shape, its data is a list the shape admits. */
  predicate Consistent(t: Tensor) {
    t.shape.Some? ==> t.data.JArr? && Admits(t.shape.value, |t.data.items|)
  }

  /** Every tensor the four encoders build is consistent with its shape: [-1]
      admits any number of tokens, [n] exactly the n bytes. */
  lemma EncodedTensorsConsistent(inputs: string, parameters: seq<(string, Json)>, bytes: seq<byte>)
    ensures forall i :: 0 <= i < |EncodeText(inputs)| ==> Consistent(EncodeText(inputs)[i].1)
    ensures forall i :: 0 <= i < |EncodeZeroShot(inputs, parameters)| ==>
              Consistent(EncodeZeroShot(inputs, parameters)[i].1)
    ensures forall i :: 0 <= i < |EncodeTokens(inputs)| ==> Consistent(EncodeTokens(inputs)[i].1)
    ensures forall i :: 0 <= i < |EncodeImage(bytes)| ==> Consistent(EncodeImage(bytes)[i].1)
  {
    assert KnownSize([-1]) == 1 && Wildcards([-1]) == 1;
    assert [|bytes|][1..] == [];
    assert KnownSize([|bytes|]) == |bytes| && Wildcards([|bytes|]) == 0;
  }

  // ---------------------------------------------------------------------------
  // Decode rules

  const TextPath: seq<string> := ["outputs", "generated_text", "data"]
  const ScoresPath: seq<string> := ["outputs", "scores", "data"]
  const EntitiesPath: seq<string> := ["outputs", "entities", "data"]
  const TagsPath: seq<string> := ["outputs", "tags", "data"]
  const ClassesPath: seq<string> := ["outputs", "detection_classes", "data"]
  const DetectionScoresPath: seq<string> := ["outputs", "detection_scores", "data"]
  const BoxesPath: seq<string> := ["outputs", "detection_boxes", "data"]

  /** text-generation: `v2_output["outputs"]["generated_text"]["data"][0]`, unwrapped. */
  function DecodeText(body: Json): (r: Result<Json>)
    ensures r.Err? ==> IsSubscriptError(r.error)
  {
    var data :- GetPath(body, TextPath);
    GetIndex(data, 0)
  }

  /** zero-shot-classification: the downstream `scores` data as is, with the labels
      of the request. */
  function DecodeZeroShot(body: Json, parameters: seq<(string, Json)>): (r: Result<Json>)
    ensures r.Err? ==> IsSubscriptError(r.error)
  {
    var scores :- GetPath(body, ScoresPath);
    Ok(JObj([("sequence_classification",
              JObj([("scores", scores), ("labels", CandidateLabels(parameters))]))]))
  }

  function EntityJson(entity: Json, tag: Json): Json {
    JObj([("entity", entity), ("label", tag)])
  }

  function Min(a: int, b: int): int {
    if a < b then a else b
  }

  /** `[{"entity": e, "label": l} for e, l in zip(entities, tags)]`. */
  function EntityPairs(entities: seq<Json>, tags: seq<Json>): (r: seq<Json>)
    ensures |r| == Min(|entities|, |tags|)
    ensures forall i :: 0 <= i < |r| ==> r[i] == EntityJson(entities[i], tags[i])
    decreases |entities|
  {
    if entities == [] || tags == [] then []
    else [EntityJson(entities[0], tags[0])] + EntityPairs(entities[1..], tags[1..])
  }

  /** token-classification: the entities zipped with the tags. */
  function DecodeTokens(body: Json): (r: Result<Json>)
    ensures r.Err? ==> IsSubscriptError(r.error)
  {
    var entities :- GetPath(body, EntitiesPath);
    var tags :- GetPath(body, TagsPath);
    var es :- Iterate(entities);
    var ts :- Iterate(tags);
    Ok(JObj([("entity_classification", JArr(EntityPairs(es, ts)))]))
  }

  function BoxJson(xmin: Json, ymin: Json, xmax: Json, ymax: Json): Json {
    JObj([("xmin", xmin), ("ymin", ymin), ("xmax", xmax), ("ymax", ymax)])
  }

  /** `{"xmin": b[0], "ymin": b[1], "xmax": b[2], "ymax": b[3]}`, with Python's
      failures when `b` is short or cannot be indexed. */
  function BoundingBox(b: Json): (r: Result<Json>)
    ensures r.Ok? <==> (b.JArr? && |b.items| >= 4) || (b.JStr? && |b.s| >= 4)
    ensures b.JArr? && |b.items| >= 4 ==> r == Ok(BoxJson(b.items[0], b.items[1], b.items[2], b.items[3]))
    ensures b.JArr? && |b.items| < 4 ==> r == Err(IndexError)
    ensures b.JObj? ==> r == Err(KeyError(JInt(0)))
    ensures r.Err? ==> IsSubscriptError(r.error)
  {
    var xmin :- GetIndex(b, 0);
    var ymin :- GetIndex(b, 1);
    var xmax :- GetIndex(b, 2);
    var ymax :- GetIndex(b, 3);
    Ok(BoxJson(xmin, ymin, xmax, ymax))
  }

  function DetectionJson(kind: Json, confidence: Json, box: Json): Json {
    JObj([("label", kind), ("confidence", confidence), ("bounding_box", box)])
  }

  function Min3(a: int, b: int, c: int): int {
    Min(a, Min(b, c))
  }

  /** The detections comprehension over `zip(classes, scores, boxes)`: one detection
      per triple up to the shortest list; it raises the error of the first box
      among them that cannot be unpacked. */
  function Detections(classes: seq<Json>, scores: seq<Json>, boxes: seq<Json>): (r: Result<seq<Json>>)
    ensures r.Ok? <==> forall i :: 0 <= i < Min3(|classes|, |scores|, |boxes|) ==> BoundingBox(boxes[i]).Ok?
    ensures r.Ok? ==> |r.value| == Min3(|classes|, |scores|, |boxes|)
    ensures r.Ok? ==> forall i :: 0 <= i < |r.value| ==>
              r.value[i] == DetectionJson(classes[i], scores[i], BoundingBox(boxes[i]).value)
    ensures r.Err? ==>
              (exists k :: 0 <= k < Min3(|classes|, |scores|, |boxes|) &&
                 BoundingBox(boxes[k]) == Err(r.error) &&
                 forall j :: 0 <= j < k ==> BoundingBox(boxes[j]).Ok?)
    decreases |classes|
  {
    if classes == [] || scores == [] || boxes == [] then Ok([])
    else
      var box :- BoundingBox(boxes[0]);
      var rest := Detections(classes[1..], scores[1..], boxes[1..]);
      if rest.Err? then
        assert BoundingBox(boxes[1..][0]) == BoundingBox(boxes[1]);
        Err(rest.error)
      else Ok([DetectionJson(classes[0], scores[0], box)] + rest.value)
  }

  /** object-detection: classes, scores and boxes zipped into detections. */
  function DecodeDetections(body: Json): (r: Result<Json>)
    ensures r.Err? ==> IsSubscriptError(r.error)
  {
    var classes :- GetPath(body, ClassesPath);
    var scores :- GetPath(body, DetectionScoresPath);
    var boxes :- GetPath(body, BoxesPath);
    var cs :- Iterate(classes);
    var ss :- Iterate(scores);
    var bs :- Iterate(boxes);
    var detections :- Detections(cs, ss, bs);
    Ok(JObj([("detections", JArr(detections))]))
  }

  /** The decode dispatch of `predict` for a status-200 reply. */
  function DecodeReply(p: Pipeline, body: Json, parameters: seq<(string, Json)>): (r: Result<Json>)
    ensures r.Err? ==> IsSubscriptError(r.error)
  {
    match p
    case TextGeneration => DecodeText(body)
    case ZeroShotClassification => DecodeZeroShot(body, parameters)
    case TokenClassification => DecodeTokens(body)
    case ObjectDetection => DecodeDetections(body)
  }

  /** Every pipeline's decode subscripts `outputs` first: a reply without it, or
      not an object, raises that subscript's error, and a reply whose `outputs` is
      a list (the V2 protocol's own shape) raises a TypeError. */
  lemma OutputsDecideFirst(p: Pipeline, body: Json, parameters: seq<(string, Json)>)
    ensures GetItem(body, "outputs").Err? ==>
              DecodeReply(p, body, parameters) == Err(GetItem(body, "outputs").error)
    ensures GetItem(body, "outputs").Ok? && GetItem(body, "outputs").value.JArr? ==>
              DecodeReply(p, body, parameters) == Err(TypeError)
  {
    var name := match p
      case TextGeneration => "generated_text"
      case ZeroShotClassification => "scores"
      case TokenClassification => "entities"
      case ObjectDetection => "detection_classes";
    var path := ["outputs", name, "data"];
    assert path[1..] == [name, "data"];
    if GetItem(body, "outputs").Ok? && GetItem(body, "outputs").value.JArr? {
      var rest: seq<string> := [name, "data"];
      assert GetPath(GetItem(body, "outputs").value, rest) == Err(TypeError);
    }
  }

  /** A reply of the shape `predict` indexes: `{"outputs": {name: {"data": d}, ...}}`.
      The V2 protocol's own shape, where `outputs` is a list of named tensors,
      makes every decode raise a TypeError (`OutputsDecideFirst`). */
  function V2Response(outputs: seq<(string, Json)>): Json {
    JObj([("outputs", JObj(seq(|outputs|, i requires 0 <= i < |outputs| =>
                                 (outputs[i].0, JObj([("data", outputs[i].1)])))))])
  }

  /** text-generation hands back the first generated item itself, not wrapped;
      an empty data list raises an IndexError. */
  lemma DecodeTextOfResponse(items: seq<Json>)
    ensures DecodeText(V2Response([("generated_text", JArr(items))])) ==
              if items == [] then Err(IndexError) else Ok(items[0])
  {
    var outputs := [("generated_text", JArr(items))];
    V2ResponsePath(outputs, 0);
    assert GetPath(V2Response(outputs), TextPath) == Ok(JArr(items));
    DecodeTextOfList(V2Response(outputs), items);
  }

  /** For any reply whose text path holds a list, text-generation gives its first
      item unwrapped, or an IndexError when the list is empty. */
  lemma DecodeTextOfList(body: Json, items: seq<Json>)
    requires GetPath(body, TextPath) == Ok(JArr(items))
    ensures DecodeText(body) == if items == [] then Err(IndexError) else Ok(items[0])
  {
  }

  /** zero-shot-classification reports the request's labels, never anything from
      the reply: the result fails exactly when the reply has no scores data, and
      otherwise holds that data unchanged with `CandidateLabels(parameters)`. */
  lemma ZeroShotLabelsFromRequest(body: Json, parameters: seq<(string, Json)>)
    ensures DecodeZeroShot(body, parameters).Ok? <==> GetPath(body, ScoresPath).Ok?
    ensures GetPath(body, ScoresPath).Ok? ==>
              DecodeZeroShot(body, parameters) ==
                Ok(JObj([("sequence_classification",
                          JObj([("scores", GetPath(body, ScoresPath).value),
                                ("labels", CandidateLabels(parameters))]))]))
    ensures Lookup(parameters, "candidate_labels").None? ==> CandidateLabels(parameters) == JArr([])
  {
  }

  /** token-classification on a reply of that shape pairs entity i with tag i, for
      i below the shorter of the two lists. */
  lemma DecodeTokensOfResponse(entities: seq<Json>, tags: seq<Json>)
    ensures DecodeTokens(V2Response([("entities", JArr(entities)), ("tags", JArr(tags))])) ==
              Ok(JObj([("entity_classification", JArr(EntityPairs(entities, tags)))]))
    ensures var r := DecodeTokens(V2Response([("entities", JArr(entities)), ("tags", JArr(tags))]));
            r.Ok? && r.value.JObj? && |r.value.fields| == 1 &&
            r.value.fields[0].0 == "entity_classification" && r.value.fields[0].1.JArr? &&
            |r.value.fields[0].1.items| == Min(|entities|, |tags|) &&
            forall i :: 0 <= i < |r.value.fields[0].1.items| ==>
              r.value.fields[0].1.items[i] == JObj([("entity", entities[i]), ("label", tags[i])])
  {
    var outputs := [("entities", JArr(entities)), ("tags", JArr(tags))];
    V2ResponsePath(outputs, 0);
    V2ResponsePath(outputs, 1);
    assert GetPath(V2Response(outputs), EntitiesPath) == Ok(JArr(entities));
    assert GetPath(V2Response(outputs), TagsPath) == Ok(JArr(tags));
    DecodeTokensOfLists(V2Response(outputs), entities, tags);
  }

  /** Once the two paths hold lists, decoding is the zip of those lists. */
  lemma DecodeTokensOfLists(body: Json, entities: seq<Json>, tags: seq<Json>)
    requires GetPath(body, EntitiesPath) == Ok(JArr(entities))
    requires GetPath(body, TagsPath) == Ok(JArr(tags))
    ensures DecodeTokens(body) == Ok(JObj([("entity_classification", JArr(EntityPairs(entities, tags)))]))
  {
  }

  /** The worked example of truncation: three entities and two tags give two pairs. */
  lemma TruncatedEntities()
    ensures DecodeTokens(V2Response([("entities", JArr([JStr("A"), JStr("B"), JStr("C")])),
                                     ("tags", JArr([JStr("X"), JStr("Y")]))])) ==
            Ok(JObj([("entity_classification",
                      JArr([JObj([("entity", JStr("A")), ("label", JStr("X"))]),
                            JObj([("entity", JStr("B")), ("label", JStr("Y"))])]))]))
  {
    var es, ts := [JStr("A"), JStr("B"), JStr("C")], [JStr("X"), JStr("Y")];
    DecodeTokensOfResponse(es, ts);
    var r := DecodeTokens(V2Response([("entities", JArr(es)), ("tags", JArr(ts))]));
    var items := r.value.fields[0].1.items;
    assert items == [EntityJson(es[0], ts[0]), EntityJson(es[1], ts[1])];
    assert r.value == JObj([("entity_classification", JArr(items))]);
  }

  /** object-detection on a reply of that shape whose boxes are lists of at least four
      coordinates: detection i pairs class i and score i with box i unpacked, for
      i below the shortest of the three lists. */
  lemma DecodeDetectionsOfResponse(classes: seq<Json>, scores: seq<Json>, boxes: seq<seq<Json>>)
    requires forall i :: 0 <= i < |boxes| ==> |boxes[i]| >= 4
    ensures var boxLists := seq(|boxes|, i requires 0 <= i < |boxes| => JArr(boxes[i]));
            var r := DecodeDetections(V2Response([("detection_classes", JArr(classes)),
                                                  ("detection_scores", JArr(scores)),
                                                  ("detection_boxes", JArr(boxLists))]));
            r.Ok? && r.value.JObj? && |r.value.fields| == 1 && r.value.fields[0].0 == "detections" &&
            r.value.fields[0].1.JArr? &&
            |r.value.fields[0].1.items| == Min3(|classes|, |scores|, |boxes|) &&
            forall i :: 0 <= i < |r.value.fields[0].1.items| ==>
              r.value.fields[0].1.items[i] ==
                JObj([("label", classes[i]), ("confidence", scores[i]),
                      ("bounding_box", JObj([("xmin", boxes[i][0]), ("ymin", boxes[i][1]),
                                             ("xmax", boxes[i][2]), ("ymax", boxes[i][3])]))])
  {
    var boxLists := seq(|boxes|, i requires 0 <= i < |boxes| => JArr(boxes[i]));
    var body := V2Response([("detection_classes", JArr(classes)),
                            ("detection_scores", JArr(scores)),
                            ("detection_boxes", JArr(boxLists))]);
    DetectionsReplyPaths(classes, scores, boxLists);
    forall i | 0 <= i < |boxes|
      ensures BoundingBox(boxLists[i]) == Ok(BoxJson(boxes[i][0], boxes[i][1], boxes[i][2], boxes[i][3]))
    {
      assert boxLists[i] == JArr(boxes[i]);
    }
    DecodeDetectionsOfLists(body, classes, scores, boxLists);
    var d := Detections(classes, scores, boxLists);
    assert d.Ok?;
    assert DecodeDetections(body) == Ok(JObj([("detections", JArr(d.value))]));
  }

  /** The three output paths of object-detection find their data in a reply of that shape. */
  lemma DetectionsReplyPaths(classes: seq<Json>, scores: seq<Json>, boxLists: seq<Json>)
    ensures var body := V2Response([("detection_classes", JArr(classes)),
                                    ("detection_scores", JArr(scores)),
                                    ("detection_boxes", JArr(boxLists))]);
            GetPath(body, ClassesPath) == Ok(JArr(classes)) &&
            GetPath(body, DetectionScoresPath) == Ok(JArr(scores)) &&
            GetPath(body, BoxesPath) == Ok(JArr(boxLists))
  {
    var outputs := [("detection_classes", JArr(classes)),
                    ("detection_scores", JArr(scores)),
                    ("detection_boxes", JArr(boxLists))];
    V2ResponsePath(outputs, 0);
    V2ResponsePath(outputs, 1);
    V2ResponsePath(outputs, 2);
  }

  /** Once the three paths hold lists, decoding is the zip of those lists. */
  lemma DecodeDetectionsOfLists(body: Json, classes: seq<Json>, scores: seq<Json>, boxes: seq<Json>)
    requires GetPath(body, ClassesPath) == Ok(JArr(classes))
    requires GetPath(body, DetectionScoresPath) == Ok(JArr(scores))
    requires GetPath(body, BoxesPath) == Ok(JArr(boxes))
    ensures var d := Detections(classes, scores, boxes);
            DecodeDetections(body) == if d.Ok? then Ok(JObj([("detections", JArr(d.value))])) else Err(d.error)
  {
    assert Iterate(JArr(classes)) == Ok(classes);
    assert Iterate(JArr(scores)) == Ok(scores);
    assert Iterate(JArr(boxes)) == Ok(boxes);
  }

  /** In a reply of that shape, `["outputs", name, "data"]` finds the data of the
      first output of that name. */
  lemma V2ResponsePath(outputs: seq<(string, Json)>, k: nat)
    requires k < |outputs|
    requires forall j :: 0 <= j < k ==> outputs[j].0 != outputs[k].0
    ensures GetPath(V2Response(outputs), ["outputs", outputs[k].0, "data"]) == Ok(outputs[k].1)
  {
    var body := V2Response(outputs);
    var o := body.fields[0].1;
    var name := outputs[k].0;
    assert GetItem(body, "outputs") == Ok(o);
    var slot := JObj([("data", outputs[k].1)]);
    assert |o.fields| == |outputs|;
    assert forall j :: 0 <= j < |outputs| ==> o.fields[j].0 == outputs[j].0;
    assert o.fields[k] == (name, slot);
    assert KeyIndex(o.fields, name) == k;
    assert GetItem(o, name) == Ok(slot);
    assert GetPath(slot, ["data"]) == Ok(outputs[k].1) by {
      assert GetItem(slot, "data") == Ok(outputs[k].1);
      assert ["data"][1..] == [];
    }
    assert GetPath(o, [name, "data"]) == Ok(outputs[k].1) by {
      assert [name, "data"][1..] == ["data"];
    }
    assert ["outputs", name, "data"][1..] == [name, "data"];
  }
}
