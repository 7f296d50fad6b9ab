# Inference gateway: V2 translation layer, modelled in Dafny

This project models the core of a small inference gateway. The gateway takes a
`POST /predict` request keyed by a Hugging Face pipeline name. It rewrites the
request as a V2 inference protocol envelope, posts it to a model endpoint, and
turns the endpoint's `outputs` tensors back into a result for that pipeline.
Four pipelines are supported: `text-generation`, `zero-shot-classification`,
`token-classification` and `object-detection`. For object-detection, the input
descriptor is first resolved to image bytes. A URL starting with `http` is
fetched. An inline `...,<field>` descriptor gives the UTF-8 bytes of its second
comma-separated field.

Everything is pure. Six modules, one file each:

- `JsonValue` (json.dfy): parsed JSON values, plus the Python operations the handler applies to them: `v[key]`, `v[i]` and `iter(v)`. Each fails the way Python does, with `KeyError`, `IndexError` or `TypeError`.
- `PyStr` (pystr.dfy): `str.split()` on Python's whitespace set, `str.split(",")` and `startswith`.
- `Utf8` (utf8.dfy): `str.encode("utf-8")` following section 3 of RFC 3629, and a strict decoder used to state the round trip.
- `ImageResolver` (resolver.dfy): `download_image`.
- `Codec` (codec.dfy): the pipeline dispatch, the envelope with its JSON form and a reference reader that reads it back, the four encode rules and the four decode rules.
- `Gateway` (gateway.dfy): `predict` as `Handle`.

The network appears as a `Network` value holding two oracle functions. `get` stands for the image GET and `post` for the model endpoint. Each either answers or fails in transport (`TransportFailure`, `PostFailed`). `Handle` returns the reply together with the list of calls it made, in order. An exception that escapes `predict` is the reply `Raised(e)`; the web framework then answers 500. The two error objects that `predict` returns are the reply `Refused(r)`, and `ResponseBody` gives the JSON the client sees.

Four points about what `predict` and `download_image` actually do:

- `candidate_labels` is `parameters.get("candidate_labels", [])`. The empty list is used only when the key is absent; a key present with `null` passes `null` through.
- An inline descriptor yields `split(",")[1]`: the field between the first and the second comma. It is not everything after the first comma, and it is not base64-decoded.
- A failed image download and an invalid descriptor raise `ValueError`. Neither becomes an error object; they are `Raised` replies.
- Error objects come back with status 200. Neither call passes a timeout, so httpx's default one applies. A timeout, like any other transport failure of either call, raises the client's exception (`HttpxError`), which escapes `predict`. This holds even for a string that starts with "http" but is not a usable URL, such as "httpfoo,QUJD".

## Model

| member | source | states |
|---|---|---|
| Codec.ParsePipeline | main.py:27-71 | a known pipeline is selected only by its own name |
| Codec.ParseName | main.py:27-71 | a name selects pipeline p if and only if it is p's name; every other name is unsupported |
| Codec.EncodeText | main.py:27-35 | one "string" tensor `text`, no shape, whose data is the list holding the input |
| Codec.EncodeZeroShot | main.py:36-48 | `sequence` holds the input; `candidate_labels` holds the request's parameter value, or [] when the key is absent |
| Codec.EncodeTokens | main.py:49-58 | one "string" tensor `tokens` of shape [-1]; one item per token of `split()`, each a non-empty whitespace-free string |
| Codec.EncodeTokensSplits | main.py:55 | the token items are `Split(inputs)` in order; the input is those tokens with whitespace runs around and between them |
| Codec.EncodeImage | main.py:59-69 | one "BYTES" tensor `image` with shape [n] where n is the number of items and of bytes; item i is byte i, in 0..255 |
| Codec.EncodedTensorsConsistent | main.py:27-69 | every tensor that has a shape has list data that the shape admits |
| Codec.ReadInts | main.py:54 | a list reads as integers exactly when every item is an integer, and it reads back to the same list |
| Codec.EnvelopeRoundTrip | main.py:28-68 | the posted JSON reads back as exactly the envelope encoded, and only an envelope's JSON reads back as it |
| Codec.ReadTensorJson | main.py:30-33 | a tensor's JSON object reads back as the tensor |
| Codec.TensorJsonRead | main.py:30-33 | whatever reads as a tensor is that tensor's JSON object |
| Codec.ReadSlotsJson | main.py:29-34 | the named tensor slots read back in order |
| Codec.SlotsJsonRead | main.py:29-34 | only the slots' JSON reads back as those slots |
| Codec.EnvelopeJson | main.py:28-74 | the posted body reads back as the envelope it encodes |
| Codec.CandidateLabels | main.py:45 | the labels are the value bound to "candidate_labels" when the key is present, and [] only when it is absent |
| Codec.DecodeText | main.py:80 | decoding raises only a subscript error |
| Codec.DecodeZeroShot | main.py:82-87 | decoding raises only a subscript error |
| Codec.DecodeTokens | main.py:89-94 | decoding raises only a subscript error (KeyError, IndexError or TypeError) |
| Codec.DecodeDetections | main.py:96-114 | decoding raises only a subscript error, including a box that cannot be unpacked |
| Codec.DecodeReply | main.py:77-118 | every pipeline's decode raises only KeyError, IndexError or TypeError, never ValueError |
| Codec.OutputsDecideFirst | main.py:78-111 | a reply without `outputs`, or not an object, raises that subscript's error for every pipeline; an `outputs` list (the protocol's own shape) raises TypeError |
| Codec.DecodeTokensOfLists | main.py:88-94 | once the entities and tags paths hold lists, the result is their zip into pairs |
| Codec.DecodeTextOfResponse | main.py:79-80 | the first `generated_text` item comes back unwrapped; empty data raises IndexError |
| Codec.DecodeTextOfList | main.py:79-80 | for any reply whose text path holds a list, the first item comes back unwrapped; an empty list raises IndexError |
| Codec.ZeroShotLabelsFromRequest | main.py:81-87 | decoding fails exactly when the reply lacks the scores data; labels are the request's, scores pass through unchanged |
| Codec.EntityPairs | main.py:90-93 | length is min(entities, tags); item i is {"entity": entities[i], "label": tags[i]} |
| Codec.DecodeTokensOfResponse | main.py:88-94 | a well-formed reply gives the entity/tag pairs, truncated to the shorter list |
| Codec.TruncatedEntities | main.py:88-94 | entities A, B, C with tags X, Y give exactly the two pairs A/X and B/Y |
| Codec.BoundingBox | main.py:101-106 | a list of 4 or more unpacks to xmin, ymin, xmax, ymax = items 0..3; a shorter list raises IndexError, a dict raises KeyError(0) |
| Codec.Detections | main.py:97-113 | succeeds exactly when every box in the zipped range unpacks; then length is min of the three lists and item i pairs class i and score i with box i; otherwise it raises the first bad box's error |
| Codec.DecodeDetectionsOfResponse | main.py:95-114 | a well-formed reply with 4-coordinate boxes gives one detection per triple, up to the shortest list |
| Codec.DecodeDetectionsOfLists | main.py:95-114 | once the classes, scores and boxes paths hold lists, the result is their zip into detections, or the zip's error |
| Codec.V2ResponsePath | main.py:80 | `["outputs"][name]["data"]` of a well-formed reply is the data of the first output with that name |
| Codec.DetectionsReplyPaths | main.py:109-111 | the three object-detection paths find their lists in a well-formed reply |
| Gateway.HandleTrace | main.py:24-120 | `predict`, for every request and network: at most two calls and one POST; the GET only of the input, the POST only to the request URL; a result or the downstream error only after the POST; only a download, client or subscript exception escapes |
| Gateway.Prepare | main.py:27-69 | encoding fails only for object-detection, and only with what `download_image` raises; at most one fetch |
| Gateway.PostFailureRaises | main.py:74 | a POST that fails in transport escapes as the client's exception, for every pipeline |
| Gateway.UnsupportedShortCircuits | main.py:70-71 | an unknown name is refused with the "Unsupported pipeline type" object and no call; that refusal never happens for a known name, so the fallback at main.py:115-116 is unreachable |
| Gateway.UnknownPipelineFoo | main.py:70-71 | "foo" is refused with no call made |
| Gateway.OnePostPerRequest | main.py:60-74 | once encoding succeeds, exactly one POST goes to the request URL, last, carrying the encoded envelope; before it comes only the image GET of an "http" object-detection input |
| Gateway.CallsOfHandle | main.py:59-74 | once encoding succeeds, the calls are the image fetches followed by the one POST of the encoded envelope to the request URL |
| Gateway.FetchesOfPrepare | main.py:27-69 | encoding fetches only for object-detection with an "http" input, and then only the input itself |
| Gateway.ResolveFailureStopsRequest | main.py:60 | a failed image resolution raises before any POST; the only call made is the image GET, if there was one |
| Gateway.DownstreamErrorForAnyPipeline | main.py:77-120 | any status other than 200 gives the downstream error object, whatever the pipeline and the reply body |
| Gateway.SuccessIsDecoded | main.py:77-118 | a status-200 reply is answered with the pipeline's decode of the reply body, or with the exception that decoding raises |
| Gateway.TextGenerationEndToEnd | main.py:27-35 | a single POST is made, and the first generated item is returned, or IndexError when there is none |
| Gateway.ZeroShotEndToEnd | main.py:43-46 | the labels posted and the labels returned are the same request value |
| Gateway.TokenClassificationEndToEnd | main.py:49-58 | the POST reads back as the input's tokens with shape [-1], and the result pairs entities with tags |
| Gateway.InlineImageEndToEnd | main.py:130-133 | an inline descriptor is not fetched; the posted image bytes are the UTF-8 encoding of its second comma field and decode back to it |
| Gateway.HttpImageEndToEnd | main.py:59-74 | an "http" object-detection input answered with status 200 is fetched once, then the image envelope of exactly the fetched content is posted, and nothing else is called |
| ImageResolver.Resolve | main.py:122-135 | `download_image`: at most one fetch, of the descriptor itself; bytes only for an "http" or comma-holding descriptor; it raises only ValueError or the client's exception |
| ImageResolver.HttpDescriptors | main.py:123 | the "http" test is a four-letter prefix test: "http://" and "https://" URLs pass, as does any text starting with "http"; a "data:" URI does not |
| ImageResolver.ResolveHttp | main.py:123-129 | an "http" descriptor is fetched once, even when it holds a comma; it yields the body exactly when the server answers 200; any other status raises ValueError naming the URL and the body text; a transport failure raises the client's exception |
| ImageResolver.HttpPrefixIsFetched | main.py:123-125 | "httpfoo,QUJD" goes to the GET, not to the inline branch, and a transport failure there escapes as the client's exception |
| ImageResolver.ResolveInline | main.py:130-133 | any other descriptor with a comma yields, with no fetch, the UTF-8 bytes of the text between its first and second comma |
| ImageResolver.ResolveInvalid | main.py:134-135 | any other descriptor raises ValueError "Invalid image URL", with no fetch |
| ImageResolver.ResolveFetchesAtMostDescriptor | main.py:123-125 | the only URL ever fetched is the descriptor itself, and only when it starts with "http" |
| ImageResolver.InlineField | main.py:132 | the field holds no comma, starts right after the first comma and ends at the next comma or at the end |
| ImageResolver.ResolveDataUri | main.py:130-133 | a comma-free prefix of any length not starting with "http", a comma, then a comma-free text resolves to the bytes of that text |
| ImageResolver.InlineDataUri | main.py:130-133 | "data:image/png;base64,QUJD" gives the four bytes of "QUJD", not base64-decoded ones |
| PyStr.TokenEnd | main.py:55 | the longest whitespace-free prefix: no space before it, and a space or the end right after it |
| PyStr.Split | main.py:55 | every token of `str.split()` is non-empty and free of whitespace |
| PyStr.SpaceCharacters | main.py:55 | the whitespace `str.split()` splits on is exactly what `str.isspace()` accepts: ten ASCII characters and nineteen beyond ASCII, listed one by one; U+200B, U+FEFF and U+180E are not whitespace |
| PyStr.StartsWithPrefix | main.py:123 | `startswith(prefix)` holds exactly when the string is the prefix followed by the rest, and every `prefix + s` starts with `prefix` |
| PyStr.SplitDecomposes | main.py:55 | the input is its tokens interleaved with whitespace runs; runs between tokens are non-empty |
| PyStr.SplitUnique | main.py:55 | any such decomposition into tokens is the one `split()` returns |
| PyStr.SplitCollapsesWhitespace | main.py:55 | the input is its tokens with whitespace runs; `" ".join` of the tokens keeps them with no run at either end and one space for each inner run, and splits back to them |
| PyStr.SplitJoinSpaced | main.py:55 | splitting tokens joined by single spaces gives the tokens back |
| PyStr.IndexOf | main.py:130 | the position of the first comma, and it is found exactly when a comma is present |
| PyStr.SplitOn | main.py:132 | `split(",")` has at least two fields exactly when there is a comma, and no field holds a comma |
| PyStr.JoinSplitOn | main.py:132 | joining the `split(",")` fields with "," gives the string back |
| PyStr.SplitOnFirst | main.py:132 | the first field ends at the first comma, and the later fields are those of the text after it |
| PyStr.SecondField | main.py:132 | `split(",")[1]` is the text after the first comma up to the next one |
| Utf8.Encode | main.py:133 | one to four bytes per character |
| Utf8.EncodeChar | main.py:133 | one to four bytes, one byte exactly for ASCII, and every byte after the first a continuation byte |
| Utf8.DecodeFirstEncodeChar | main.py:133 | the decoder reads one encoded character back, and how many bytes it took |
| Utf8.DecodeEncode | main.py:133 | decoding `s.encode("utf-8")` gives s back |
| Utf8.EncodeInjective | main.py:133 | distinct strings have distinct encodings |
| Utf8.EncodeAscii | main.py:133 | an ASCII string encodes to one byte per character, equal to its code |
| JsonValue.GetItem | main.py:80-111 | `v[key]` succeeds exactly when v is a dict holding the key, with a value bound to it; otherwise KeyError on a dict and TypeError on anything else |
| JsonValue.GetIndex | main.py:102-105 | `v[i]` on a list or string gives item i, or IndexError past the end; KeyError on a dict, TypeError otherwise |
| JsonValue.GetPath | main.py:80-111 | a chain of string subscripts raises only TypeError or KeyError of one of its keys |
| JsonValue.GetPathConcat | main.py:80-111 | following a + b is following a, then b from where a led; the first failing step decides the error |
| JsonValue.KeyIndex | main.py:80 | the first position of the key, or the end when it is absent |
| JsonValue.Lookup | main.py:45 | `dict.get` finds a value exactly when the key is present, and that value is bound to the key |
| JsonValue.Iterate | main.py:92 | what `zip` iterates: list items, one-character strings, or dict keys; any other value raises TypeError |

## Left out

- The FastAPI app, the route decorators, the `/status` handler, pydantic validation of the request body, `print` and `uvicorn` (main.py:1-25): framework plumbing with no logic.
- The HTTP traffic itself. Both calls are the `Network` oracles. Which transport failures happen, and how long the default timeout is, are up to the oracle: the model only says that a failure escapes as `HttpxError`. The model does not capture that `httpx.post` is synchronous, so awaiting its reply would fail at run time: here the POST yields its reply or its transport failure.
- Parsing of the reply body (`response.json()`): the body is an already-parsed `Json` value. A status-200 reply whose body is not JSON is not modelled.
- async/await scheduling and concurrency between requests: each request is independent and sequential.
- Floating-point numbers: scores, confidences and box coordinates are opaque JSON values (`JReal` keeps the literal), because the code only passes them through.
- The relation between an image reply's `content` and its `text`: `FetchReply` carries both as independent values.
- Strings holding lone surrogates: Dafny characters are Unicode scalar values, so the `UnicodeEncodeError` that `encode("utf-8")` raises on them cannot arise.
- Duplicate keys in a parsed object: `json.loads` keeps the last one, while `Lookup` takes the first. Parsed bodies are taken to be duplicate-free.
- The HTTP status of the responses: error objects are returned with status 200, and an escaping exception is shown as `Raised`, not as the framework's 500 response.
