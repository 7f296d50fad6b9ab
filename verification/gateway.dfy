/**
 * The `predict` handler: dispatch on the pipeline name, encode (fetching the image
 * first for object-detection), post the envelope to the model endpoint, and
 * decode a status-200 reply. The two HTTP calls are oracles of a `Network`
 * value, and every handled request reports the calls it made, in order.
 */
module Gateway {
  import opened JsonValue
  import opened PyStr
  import opened Utf8
  import opened ImageResolver
  import opened Codec

  /** The body of POST /predict; `parameters` defaults to the empty object. */
  datatype PredictRequest = PredictRequest(
    hfPipeline: string,
    modelDeployedUrl: string,
    inputs: string,
    parameters: seq<(string, Json)>)

  /** What the POST gave: the model endpoint's answer, its body already parsed, or
      a failure of the transport itself, which the client raises. */
  datatype PostReply = PostReply(status: int, body: Json) | PostFailed

  /** The outside world of one request: the image server and the model endpoint. */
  datatype Network = Network(get: string -> FetchReply, post: (string, Json) -> PostReply)

  /** An outbound HTTP call. */
  datatype Call = ImageGet(url: string) | PredictPost(url: string, body: Json)

  /** The two error objects `predict` returns. */
  datatype Refusal = UnsupportedPipeline | DownstreamError

  /** How a request ends: a decoded result, one of the error objects, or an
      exception that escapes `predict` (the framework then answers 500). */
  datatype Reply = Output(result: Json) | Refused(reason: Refusal) | Raised(error: PyError)

  datatype Exchange = Exchange(reply: Reply, calls: seq<Call>)

  function Message(r: Refusal): string {
    match r
    case UnsupportedPipeline => "Unsupported pipeline type"
    case DownstreamError => "Received error response from model deployment endpoint"
  }

  function ErrorObject(r: Refusal): Json {
    JObj([("error", JStr(Message(r)))])
  }

  /** The JSON the client receives with status 200, or None when `predict` raised. */
  function ResponseBody(reply: Reply): Option<Json> {
    match reply
    case Output(result) => Some(result)
    case Refused(reason) => Some(ErrorObject(reason))
    case Raised(_) => None
  }

  /** The encode half of `predict` for a known pipeline, with the image fetch it
      may make: only object-detection can fail here, and only by what
      `download_image` raises. */
  function Prepare(p: Pipeline, req: PredictRequest, get: string -> FetchReply): (r: (Result<Envelope>, seq<Call>))
    ensures r.0.Err? ==> p == ObjectDetection && (r.0.error.ValueError? || r.0.error == HttpxError)
    ensures |r.1| <= 1
  {
    match p
    case TextGeneration => (Ok(EncodeText(req.inputs)), [])
    case ZeroShotClassification => (Ok(EncodeZeroShot(req.inputs, req.parameters)), [])
    case TokenClassification => (Ok(EncodeTokens(req.inputs)), [])
    case ObjectDetection =>
      var resolution := Resolve(req.inputs, get);
      var calls := seq(|resolution.fetched|, i requires 0 <= i < |resolution.fetched| => ImageGet(resolution.fetched[i]));
      match resolution.bytes
      case Ok(bytes) => (Ok(EncodeImage(bytes)), calls)
      case Err(e) => (Err(e), calls)
  }

  /** `predict(request)`. */
  function Handle(req: PredictRequest, net: Network): Exchange {
    match ParsePipeline(req.hfPipeline)
    case None => Exchange(Refused(UnsupportedPipeline), [])
    case Some(p) =>
      var (envelope, fetches) := Prepare(p, req, net.get);
      match envelope
      case Err(e) => Exchange(Raised(e), fetches)
      case Ok(e) =>
        var body := EnvelopeJson(e);
        var reply := net.post(req.modelDeployedUrl, body);
        var calls := fetches + [PredictPost(req.modelDeployedUrl, body)];
        if reply.PostFailed? then Exchange(Raised(HttpxError), calls)
        else if reply.status != 200 then Exchange(Refused(DownstreamError), calls)
        else
          match DecodeReply(p, reply.body, req.parameters)
          case Ok(result) => Exchange(Output(result), calls)
          case Err(err) => Exchange(Raised(err), calls)
  }

  function Posts(calls: seq<Call>): nat
    decreases |calls|
  {
    if calls == [] then 0 else (if calls[0].PredictPost? then 1 else 0) + Posts(calls[1..])
  }

  /** An unknown pipeline name is refused before any call, whatever the network
      does; and that refusal happens for unknown names only, so the decode-side
      fallback of `predict` can never be reached. */
  lemma UnsupportedShortCircuits(req: PredictRequest, net: Network)
    ensures ParsePipeline(req.hfPipeline).None? ==>
              Handle(req, net) == Exchange(Refused(UnsupportedPipeline), [])
    ensures Handle(req, net).reply == Refused(UnsupportedPipeline) <==>
              ParsePipeline(req.hfPipeline).None?
    ensures Handle(req, net).reply == Refused(UnsupportedPipeline) ==>
              ResponseBody(Handle(req, net).reply) == Some(JObj([("error", JStr("Unsupported pipeline type"))]))
  {
  }

  /** For a known pipeline whose input could be encoded, exactly one POST is made,
      last, to the request's URL with the encoded envelope as body; before it
      there is at most the image fetch of an "http" object-detection input. */
  lemma OnePostPerRequest(req: PredictRequest, net: Network, p: Pipeline)
    requires ParsePipeline(req.hfPipeline) == Some(p)
    requires Prepare(p, req, net.get).0.Ok?
    ensures var x := Handle(req, net);
            var e := Prepare(p, req, net.get).0.value;
            |x.calls| >= 1 && x.calls[|x.calls| - 1] == PredictPost(req.modelDeployedUrl, EnvelopeJson(e)) &&
            ReadEnvelope(x.calls[|x.calls| - 1].body) == Some(e) &&
            Posts(x.calls) == 1
    ensures var x := Handle(req, net);
            x.calls[..|x.calls| - 1] ==
              (if p == ObjectDetection && IsHttp(req.inputs) then [ImageGet(req.inputs)] else [])
  {
    var e := Prepare(p, req, net.get).0.value;
    var post := PredictPost(req.modelDeployedUrl, EnvelopeJson(e));
    var fetches := Prepare(p, req, net.get).1;
    CallsOfHandle(req, net, p);
    FetchesOfPrepare(p, req, net.get);
    var calls := fetches + [post];
    assert Handle(req, net).calls == calls;
    assert calls[..|calls| - 1] == fetches;
    EnvelopeRoundTrip(e, EnvelopeJson(e));
    if fetches == [] {
      assert calls == [post];
      assert calls[1..] == [];
    } else {
      assert calls == [ImageGet(req.inputs), post];
      assert calls[1..] == [post];
      assert calls[1..][1..] == [];
      assert Posts(calls[1..]) == 1;
    }
  }

  /** Once encoding succeeds, the calls are the image fetches followed by one POST
      of the encoded envelope to the request's URL. */
  lemma CallsOfHandle(req: PredictRequest, net: Network, p: Pipeline)
    requires ParsePipeline(req.hfPipeline) == Some(p)
    requires Prepare(p, req, net.get).0.Ok?
    ensures Handle(req, net).calls ==
              Prepare(p, req, net.get).1 +
              [PredictPost(req.modelDeployedUrl, EnvelopeJson(Prepare(p, req, net.get).0.value))]
  {
  }

  /** The encode half fetches the input itself, and only for an "http"
      object-detection input. */
  lemma FetchesOfPrepare(p: Pipeline, req: PredictRequest, get: string -> FetchReply)
    ensures Prepare(p, req, get).1 ==
              (if p == ObjectDetection && IsHttp(req.inputs) then [ImageGet(req.inputs)] else [])
  {
    ResolveFetchesAtMostDescriptor(req.inputs, get);
  }

  /** A failed image resolution raises before the POST: the only call made is
      the image fetch, if there was one. */
  lemma ResolveFailureStopsRequest(req: PredictRequest, net: Network)
    requires ParsePipeline(req.hfPipeline) == Some(ObjectDetection)
    requires Resolve(req.inputs, net.get).bytes.Err?
    ensures Handle(req, net).reply == Raised(Resolve(req.inputs, net.get).bytes.error)
    ensures Posts(Handle(req, net).calls) == 0
    ensures Handle(req, net).calls == (if IsHttp(req.inputs) then [ImageGet(req.inputs)] else [])
  {
    ResolveFetchesAtMostDescriptor(req.inputs, net.get);
    var calls := Handle(req, net).calls;
    if IsHttp(req.inputs) {
      assert calls == [ImageGet(req.inputs)];
      assert calls[1..] == [];
    }
  }

  /** A non-200 status from the model endpoint gives the downstream error object,
      for every pipeline and whatever the reply's body. */
  lemma DownstreamErrorForAnyPipeline(req: PredictRequest, net: Network, p: Pipeline)
    requires ParsePipeline(req.hfPipeline) == Some(p)
    requires Prepare(p, req, net.get).0.Ok?
    requires net.post(req.modelDeployedUrl, EnvelopeJson(Prepare(p, req, net.get).0.value)).PostReply?
    requires net.post(req.modelDeployedUrl, EnvelopeJson(Prepare(p, req, net.get).0.value)).status != 200
    ensures Handle(req, net).reply == Refused(DownstreamError)
    ensures ResponseBody(Handle(req, net).reply) ==
              Some(JObj([("error", JStr("Received error response from model deployment endpoint"))]))
  {
  }

  /** A status-200 reply is decoded by the pipeline's rule, with the request's
      own parameters; nothing else reaches the caller. */
  lemma SuccessIsDecoded(req: PredictRequest, net: Network, p: Pipeline)
    requires ParsePipeline(req.hfPipeline) == Some(p)
    requires Prepare(p, req, net.get).0.Ok?
    requires net.post(req.modelDeployedUrl, EnvelopeJson(Prepare(p, req, net.get).0.value)).PostReply?
    requires net.post(req.modelDeployedUrl, EnvelopeJson(Prepare(p, req, net.get).0.value)).status == 200
    ensures var d := DecodeReply(p, net.post(req.modelDeployedUrl, EnvelopeJson(Prepare(p, req, net.get).0.value)).body,
                            req.parameters);
            Handle(req, net).reply == (if d.Ok? then Output(d.value) else Raised(d.error))
  {
  }

  /** A POST that fails in transport escapes as the client's exception, for every
      pipeline, after the one POST. */
  lemma PostFailureRaises(req: PredictRequest, net: Network, p: Pipeline)
    requires ParsePipeline(req.hfPipeline) == Some(p)
    requires Prepare(p, req, net.get).0.Ok?
    requires net.post(req.modelDeployedUrl, EnvelopeJson(Prepare(p, req, net.get).0.value)) == PostFailed
    ensures Handle(req, net).reply == Raised(HttpxError)
    ensures ResponseBody(Handle(req, net).reply) == None
  {
  }

  /** For every request and every network: at most two calls, at most one POST, the
      GET only of the input and the POST only to the request's URL; the
      downstream error object and a decoded result both come after the POST;
      and what escapes is what `download_image`, the client or a subscript raises. */
  lemma HandleTrace(req: PredictRequest, net: Network)
    ensures var x := Handle(req, net);
            |x.calls| <= 2 && Posts(x.calls) <= 1 &&
            forall i :: 0 <= i < |x.calls| ==>
              (x.calls[i].ImageGet? ==> x.calls[i].url == req.inputs) &&
              (x.calls[i].PredictPost? ==> x.calls[i].url == req.modelDeployedUrl)
    ensures var x := Handle(req, net);
            x.reply.Output? || x.reply == Refused(DownstreamError) ==> Posts(x.calls) == 1
    ensures var x := Handle(req, net);
            x.reply.Raised? ==>
              IsSubscriptError(x.reply.error) || x.reply.error.ValueError? || x.reply.error == HttpxError
  {
    var x := Handle(req, net);
    match ParsePipeline(req.hfPipeline)
    case None =>
    case Some(p) =>
      FetchesOfPrepare(p, req, net.get);
      var fetches := Prepare(p, req, net.get).1;
      if Prepare(p, req, net.get).0.Err? {
        assert x.calls == fetches;
        if fetches != [] {
          assert fetches[1..] == [];
        }
      } else {
        OnePostPerRequest(req, net, p);
        CallsOfHandle(req, net, p);
        assert |x.calls| == |fetches| + 1;
      }
  }

  /** The example of an unknown pipeline: "foo" is refused with no call made. */
  lemma UnknownPipelineFoo(url: string, inputs: string, parameters: seq<(string, Json)>, net: Network)
    ensures Handle(PredictRequest("foo", url, inputs, parameters), net) ==
              Exchange(Refused(UnsupportedPipeline), [])
  {
  }

  /** text-generation end to end: the input is posted as the one item of `text`,
      and the first generated item comes back unwrapped. */
  lemma TextGenerationEndToEnd(req: PredictRequest, net: Network, items: seq<Json>)
    requires req.hfPipeline == "text-generation"
    requires net.post(req.modelDeployedUrl, EnvelopeJson(EncodeText(req.inputs))) ==
               PostReply(200, V2Response([("generated_text", JArr(items))]))
    ensures Handle(req, net).calls == [PredictPost(req.modelDeployedUrl, EnvelopeJson(EncodeText(req.inputs)))]
    ensures Handle(req, net).reply == if items == [] then Raised(IndexError) else Output(items[0])
  {
    DecodeTextOfResponse(items);
  }

  /** token-classification end to end: what is posted reads back as the tokens of
      the input, and what comes back pairs entities with tags up to the shorter. */
  lemma TokenClassificationEndToEnd(req: PredictRequest, net: Network, entities: seq<Json>, tags: seq<Json>)
    requires req.hfPipeline == "token-classification"
    requires net.post(req.modelDeployedUrl, EnvelopeJson(EncodeTokens(req.inputs))) ==
               PostReply(200, V2Response([("entities", JArr(entities)), ("tags", JArr(tags))]))
    ensures ReadEnvelope(Handle(req, net).calls[0].body) ==
              Some([("tokens", Tensor("string", Some([-1]), JArr(Texts(Split(req.inputs)))))])
    ensures Handle(req, net).reply == Output(JObj([("entity_classification", JArr(EntityPairs(entities, tags)))]))
  {
    var e := EncodeTokens(req.inputs);
    assert ParsePipeline(req.hfPipeline) == Some(TokenClassification);
    assert Prepare(TokenClassification, req, net.get) == (Ok(e), []);
    EnvelopeRoundTrip(e, EnvelopeJson(e));
    DecodeTokensOfResponse(entities, tags);
    assert Handle(req, net).calls == [PredictPost(req.modelDeployedUrl, EnvelopeJson(e))];
  }

  /** object-detection with an inline descriptor end to end: no image is fetched,
      and the posted `image` items are the UTF-8 bytes of the descriptor's second
      comma field, which decode back to that field. */
  lemma InlineImageEndToEnd(req: PredictRequest, net: Network)
    requires req.hfPipeline == "object-detection"
    requires !IsHttp(req.inputs) && ',' in req.inputs
    ensures var bytes := Encode(InlineField(req.inputs));
            Handle(req, net).calls == [PredictPost(req.modelDeployedUrl, EnvelopeJson(EncodeImage(bytes)))] &&
            Decode(bytes) == Some(InlineField(req.inputs))
  {
    ResolveInline(req.inputs, net.get);
  }

  /** object-detection with an "http" descriptor answered with status 200: the
      image is fetched once, then the envelope of exactly the fetched content is
      posted. */
  lemma HttpImageEndToEnd(req: PredictRequest, net: Network, content: seq<byte>, text: string)
    requires req.hfPipeline == "object-detection" && IsHttp(req.inputs)
    requires net.get(req.inputs) == FetchReply(200, content, text)
    ensures Handle(req, net).calls ==
              [ImageGet(req.inputs), PredictPost(req.modelDeployedUrl, EnvelopeJson(EncodeImage(content)))]
  {
    ResolveHttp(req.inputs, net.get);
  }

  /** zero-shot-classification end to end: the labels posted as `candidate_labels`
      and the labels returned are one and the same value, taken from the request. */
  lemma ZeroShotEndToEnd(req: PredictRequest, net: Network)
    requires req.hfPipeline == "zero-shot-classification"
    requires Handle(req, net).reply.Output?
    ensures var e := EncodeZeroShot(req.inputs, req.parameters);
            Handle(req, net).calls == [PredictPost(req.modelDeployedUrl, EnvelopeJson(e))] &&
            e[1].1.data == CandidateLabels(req.parameters) &&
            Handle(req, net).reply.result.fields[0].1.fields[1] == ("labels", e[1].1.data)
  {
    var e := EncodeZeroShot(req.inputs, req.parameters);
    assert ParsePipeline(req.hfPipeline) == Some(ZeroShotClassification);
    var reply := net.post(req.modelDeployedUrl, EnvelopeJson(e));
    ZeroShotLabelsFromRequest(reply.body, req.parameters);
  }
}
