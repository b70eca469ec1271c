/** The API gateway's `/process` handler: validation of the request body,
    the chain translation -> hate speech -> tagging, the log record, the
    threshold decision and the conversion of every exception into a 500
    reply. The downstream services are one uninterpreted function `post`
    from a request to its reply; the handler's result is the reply it sends
    together with the requests it made, in order. */
module Gateway {
  import opened Wrappers
  import opened Text

  /** A decoded JSON value as Python sees it after `json.loads`. */
  datatype Json =
    | Null
    | Bool(b: bool)
    | Int(i: int)
    | Float(r: real)
    | Str(s: string)
    | Array(items: seq<Json>)
    | Object(fields: map<string, Json>)

  /** What `request.get_json()` gives: the decoded body, or the exception
      Flask raises for a body it cannot decode. */
  datatype RequestBody = Parsed(data: Json) | Rejected(message: string)

  /** A `requests.post(url, json=payload, timeout=timeout)` call. */
  datatype Call = Call(url: string, payload: Json, timeout: int)

  datatype ReplyBody = Decoded(json: Json) | Undecodable(message: string)

  /** What a `requests.post` call yields: an HTTP reply, or the exception
      `requests` raises when no reply arrives (connection error, timeout). */
  datatype ServiceReply =
    | Reply(status: int, reason: string, body: ReplyBody)
    | TransportFailure(message: string)

  /** A Flask reply: `jsonify(body), status`. */
  datatype Response = Response(status: int, body: Json)

  /** The reply the handler sends and the service calls it made, in order. */
  datatype Exchange = Exchange(response: Response, calls: seq<Call>)

  const TranslationUrl: string := "http://translation_service:5001/translate"
  const HateSpeechUrl: string := "http://hate_speech_service:5002/detect"
  const TaggingUrl: string := "http://tagging_service:5003/tag"
  const LogUrl: string := "http://logging_service:5004/log"
  const LogFlaggedUrl: string := "http://logging_service:5004/log_flagged"

  /** The services in the order the handler calls them. */
  const ServiceOrder: seq<string> := [TranslationUrl, HateSpeechUrl, TaggingUrl, LogUrl, LogFlaggedUrl]

  const ServiceTimeout: int := 10
  const LogTimeout: int := 5

  const MissingText: string := "Missing 'text' in JSON input"
  const EmptyText: string := "Empty text input"
  const InternalErrorPrefix: string := "Internal server error: "

  function ErrorBody(message: string): Json {
    Object(map["error" := Str(message)])
  }

  function BadRequest(message: string): Response {
    Response(400, ErrorBody(message))
  }

  /** The `except Exception as e` reply. */
  function InternalError(message: string): Response {
    Response(500, ErrorBody(InternalErrorPrefix + message))
  }

  const FlaggedBody: Json := Object(map["flagged" := Bool(true), "reason" := Str("Hate speech detected")])

  // ---------------------------------------------------------------------------
  // Python semantics on decoded JSON

  /** Python truthiness: `None`, `False`, zero and empty containers are false. */
  predicate Truthy(j: Json) {
    match j
    case Null => false
    case Bool(b) => b
    case Int(i) => i != 0
    case Float(r) => r != 0.0
    case Str(s) => s != []
    case Array(items) => items != []
    case Object(fields) => fields != map[]
  }

  function TypeName(j: Json): string {
    match j
    case Null => "NoneType"
    case Bool(_) => "bool"
    case Int(_) => "int"
    case Float(_) => "float"
    case Str(_) => "str"
    case Array(_) => "list"
    case Object(_) => "dict"
  }

  /** `key in j`: a dict tests its keys, a str its substrings, a list its
      elements; anything else raises `TypeError`. */
  function In(key: string, j: Json): (r: Outcome<bool>)
    ensures r.Raised? <==> !(j.Object? || j.Str? || j.Array?)
    ensures j.Object? ==> r == Returned(key in j.fields)
    ensures j.Str? ==> r == Returned(Contains(j.s, key))
    ensures j.Array? ==> r == Returned(Str(key) in j.items)
  {
    match j
    case Object(fields) => Returned(key in fields)
    case Str(s) => Returned(Contains(s, key))
    case Array(items) => Returned(Str(key) in items)
    case _ => Raised("argument of type '" + TypeName(j) + "' is not iterable")
  }

  /** `j[key]`: a dict looks the key up (`KeyError` when absent); a str or a
      list refuses a str index and nothing else is subscriptable, all with
      `TypeError`. */
  function Subscript(j: Json, key: string): (r: Outcome<Json>)
    ensures r.Returned? <==> j.Object? && key in j.fields
    ensures r.Returned? ==> r.value == j.fields[key]
  {
    match j
    case Object(fields) =>
      if key in fields then Returned(fields[key]) else Raised("'" + key + "'")
    case Str(_) => Raised("string indices must be integers, not 'str'")
    case Array(_) => Raised("list indices must be integers or slices, not str")
    case _ => Raised("'" + TypeName(j) + "' object is not subscriptable")
  }

  /** `j[k0], j[k1], ...` evaluated left to right: the first failing lookup
      raises. */
  function Lookups(j: Json, keys: seq<string>): (r: Outcome<seq<Json>>)
    ensures r.Returned? ==>
      |r.value| == |keys| && forall i :: 0 <= i < |keys| ==> Subscript(j, keys[i]) == Returned(r.value[i])
    ensures r.Raised? ==>
      exists i :: 0 <= i < |keys| && Subscript(j, keys[i]) == Raised(r.message)
                  && forall k :: 0 <= k < i ==> Subscript(j, keys[k]).Returned?
    decreases |keys|
  {
    if keys == [] then Returned([])
    else
      match Subscript(j, keys[0])
      case Raised(m) => Raised(m)
      case Returned(v) =>
        match Lookups(j, keys[1..])
        case Raised(m) =>
          assert exists i :: 0 <= i < |keys| - 1 && Subscript(j, keys[1..][i]) == Raised(m)
                             && forall k :: 0 <= k < i ==> Subscript(j, keys[1..][k]).Returned?;
          var i :| 0 <= i < |keys| - 1 && Subscript(j, keys[1..][i]) == Raised(m)
                   && forall k :: 0 <= k < i ==> Subscript(j, keys[1..][k]).Returned?;
          assert Subscript(j, keys[i + 1]) == Raised(m);
          assert forall k :: 0 <= k < i + 1 ==> Subscript(j, keys[k]).Returned? by {
            forall k | 0 <= k < i + 1 ensures Subscript(j, keys[k]).Returned? {
              if k > 0 { assert keys[k] == keys[1..][k - 1]; }
            }
          }
          Raised(m)
        case Returned(vs) =>
          assert forall i :: 1 <= i < |keys| ==> keys[i] == keys[1..][i - 1];
          Returned([v] + vs)
  }

  /** `j.strip()`: only a str has it. */
  function StripValue(j: Json): (r: Outcome<string>)
    ensures r.Returned? <==> j.Str?
    ensures j.Str? ==> r.value == Strip(j.s)
  {
    match j
    case Str(s) => Returned(Strip(s))
    case _ => Raised("'" + TypeName(j) + "' object has no attribute 'strip'")
  }

  /** `score >= threshold` for a float threshold: bools and numbers compare
      by value, anything else raises `TypeError`. */
  function AtLeast(score: Json, threshold: real): (r: Outcome<bool>)
    ensures r.Raised? <==> !(score.Bool? || score.Int? || score.Float?)
    ensures score.Int? ==> r == Returned(score.i as real >= threshold)
    ensures score.Float? ==> r == Returned(score.r >= threshold)
    ensures score.Bool? ==> r == Returned((if score.b then 1.0 else 0.0) >= threshold)
  {
    match score
    case Bool(b) => Returned((if b then 1.0 else 0.0) >= threshold)
    case Int(i) => Returned(i as real >= threshold)
    case Float(x) => Returned(x >= threshold)
    case _ => Raised("'>=' not supported between instances of '" + TypeName(score) + "' and 'float'")
  }

  // ---------------------------------------------------------------------------
  // Calling a service

  function DigitChar(d: nat): char
    requires d < 10
  {
    "0123456789"[d]
  }

  function NatToString(n: nat): (r: string)
    ensures r != []
    decreases n
  {
    if n < 10 then [DigitChar(n)] else NatToString(n / 10) + [DigitChar(n % 10)]
  }

  /** The message of the `HTTPError` that `raise_for_status` raises. */
  function HttpErrorMessage(status: nat, reason: string, url: string): string {
    NatToString(status) + (if status < 500 then " Client Error: " else " Server Error: ")
      + reason + " for url: " + url
  }

  /** `requests.post(...)`, `raise_for_status()` and `.json()`: a missing
      reply, a 4xx or 5xx status and an undecodable body each raise. */
  function Fetch(post: Call -> ServiceReply, call: Call): (r: Outcome<Json>)
    ensures post(call).TransportFailure? ==> r == Raised(post(call).message)
    ensures post(call).Reply? && 400 <= post(call).status < 600 ==>
      r == Raised(HttpErrorMessage(post(call).status, post(call).reason, call.url))
    ensures r.Returned? <==>
      post(call).Reply? && !(400 <= post(call).status < 600) && post(call).body.Decoded?
    ensures r.Returned? ==> r.value == post(call).body.json
  {
    match post(call)
    case TransportFailure(m) => Raised(m)
    case Reply(status, reason, body) =>
      if 400 <= status < 600 then Raised(HttpErrorMessage(status, reason, call.url))
      else
        match body
        case Undecodable(m) => Raised(m)
        case Decoded(j) => Returned(j)
  }

  /** A service call either yields the service's result, or stops the handler
      with a reply of its own. */
  datatype Stage = Answered(result: Json) | Stopped(response: Response)

  /** One downstream service: an exception gives the internal-error reply and
      a result mentioning `"error"` is passed back verbatim with status 500. */
  function CallService(post: Call -> ServiceReply, call: Call): (s: Stage)
    ensures s.Answered? <==> Fetch(post, call).Returned? && In("error", Fetch(post, call).value) == Returned(false)
    ensures s.Answered? ==> s.result == Fetch(post, call).value
    ensures Fetch(post, call).Raised? ==> s == Stopped(InternalError(Fetch(post, call).message))
    ensures Fetch(post, call).Returned? && In("error", Fetch(post, call).value) == Returned(true) ==>
      s == Stopped(Response(500, Fetch(post, call).value))
  {
    match Fetch(post, call)
    case Raised(m) => Stopped(InternalError(m))
    case Returned(result) =>
      match In("error", result)
      case Raised(m) => Stopped(InternalError(m))
      case Returned(true) => Stopped(Response(500, result))
      case Returned(false) => Answered(result)
  }

  function TextPayload(text: Json): Json {
    Object(map["text" := text])
  }

  function LogRecord(original: string, translated: Json, lang: Json, confidence: Json,
                     score: Json, details: Json, tags: Json): Json {
    Object(map["original_text" := Str(original), "translated_text" := translated,
               "language" := lang, "confidence" := confidence,
               "hate_speech_score" := score, "hate_speech_details" := details, "tags" := tags])
  }

  /** `log_data["flagged"] = True` */
  function WithFlag(record: Json): Json {
    match record
    case Object(fields) => Object(fields["flagged" := Bool(true)])
    case _ => record
  }

  function ResultBody(lang: Json, confidence: Json, translated: Json, score: Json,
                      details: Json, tags: Json): Json {
    Object(map["lang" := lang, "confidence" := confidence, "translated_text" := translated,
               "hatespeech" := score, "details" := details, "tags" := tags])
  }

  // ---------------------------------------------------------------------------
  // process_text

  /** The handler on a decoded request body: validation, then the service
      chain. Nothing is sent to any service before the text is validated. */
  function ProcessText(request: RequestBody, threshold: real, post: Call -> ServiceReply): (x: Exchange)
    ensures x.calls == [] ==> x.response.status in {400, 500}
    ensures x.calls != [] ==>
      ValidatedText(request).Some?
      && x.calls[0] == Call(TranslationUrl, TextPayload(Str(ValidatedText(request).value)), ServiceTimeout)
  {
    match request
    case Rejected(m) => Exchange(InternalError(m), [])
    case Parsed(data) =>
      if !Truthy(data) then Exchange(BadRequest(MissingText), [])
      else
        match In("text", data)
        case Raised(m) => Exchange(InternalError(m), [])
        case Returned(false) => Exchange(BadRequest(MissingText), [])
        case Returned(true) =>
          match Subscript(data, "text")
          case Raised(m) => Exchange(InternalError(m), [])
          case Returned(field) =>
            match StripValue(field)
            case Raised(m) => Exchange(InternalError(m), [])
            case Returned(text) =>
              if text == [] then Exchange(BadRequest(EmptyText), [])
              else Chain(text, threshold, post)
  }

  /** The service chain for a validated, stripped text: translation first. */
  function Chain(text: string, threshold: real, post: Call -> ServiceReply): (x: Exchange)
    ensures 1 <= |x.calls| && x.calls[0] == Call(TranslationUrl, TextPayload(Str(text)), ServiceTimeout)
  {
    var tc := Call(TranslationUrl, TextPayload(Str(text)), ServiceTimeout);
    match CallService(post, tc)
    case Stopped(r) => Exchange(r, [tc])
    case Answered(tr) =>
      match Lookups(tr, ["translated_text", "lang", "confidence"])
      case Raised(m) => Exchange(InternalError(m), [tc])
      case Returned(t) => Detect(text, t[0], t[1], t[2], threshold, post, [tc])
  }

  /** The hate speech service, on the translated text. */
  function Detect(text: string, translated: Json, lang: Json, confidence: Json, threshold: real,
                  post: Call -> ServiceReply, done: seq<Call>): (x: Exchange)
    ensures |done| < |x.calls| && x.calls[..|done|] == done
    ensures x.calls[|done|] == Call(HateSpeechUrl, TextPayload(translated), ServiceTimeout)
  {
    var hc := Call(HateSpeechUrl, TextPayload(translated), ServiceTimeout);
    match CallService(post, hc)
    case Stopped(r) => Exchange(r, done + [hc])
    case Answered(hr) =>
      match Lookups(hr, ["score", "details"])
      case Raised(m) => Exchange(InternalError(m), done + [hc])
      case Returned(h) => Tag(text, translated, lang, confidence, h[0], h[1], threshold, post, done + [hc])
  }

  /** The tagging service, on the translated text. */
  function Tag(text: string, translated: Json, lang: Json, confidence: Json, score: Json, details: Json,
               threshold: real, post: Call -> ServiceReply, done: seq<Call>): (x: Exchange)
    ensures |done| < |x.calls| && x.calls[..|done|] == done
    ensures x.calls[|done|] == Call(TaggingUrl, TextPayload(translated), ServiceTimeout)
  {
    var gc := Call(TaggingUrl, TextPayload(translated), ServiceTimeout);
    match CallService(post, gc)
    case Stopped(r) => Exchange(r, done + [gc])
    case Answered(gr) =>
      match Lookups(gr, ["tags"])
      case Raised(m) => Exchange(InternalError(m), done + [gc])
      case Returned(g) =>
        Decide(threshold, post, done + [gc], LogRecord(text, translated, lang, confidence, score, details, g[0]),
               ResultBody(lang, confidence, translated, score, details, g[0]))
  }

  /** Log the record, then compare the score with the threshold; the log
      services' replies are never looked at, only a missing reply raises. */
  function Decide(threshold: real, post: Call -> ServiceReply, done: seq<Call>, record: Json, result: Json): (x: Exchange)
    requires record.Object? && "hate_speech_score" in record.fields
    ensures |done| < |x.calls| <= |done| + 2 && x.calls[..|done|] == done
    ensures x.calls[|done|] == Call(LogUrl, record, LogTimeout)
    ensures |x.calls| == |done| + 2 ==> x.calls[|done| + 1] == Call(LogFlaggedUrl, WithFlag(record), LogTimeout)
  {
    var lc := Call(LogUrl, record, LogTimeout);
    match post(lc)
    case TransportFailure(m) => Exchange(InternalError(m), done + [lc])
    case Reply(_, _, _) =>
      match AtLeast(record.fields["hate_speech_score"], threshold)
      case Raised(m) => Exchange(InternalError(m), done + [lc])
      case Returned(false) => Exchange(Response(200, result), done + [lc])
      case Returned(true) =>
        var fc := Call(LogFlaggedUrl, WithFlag(record), LogTimeout);
        match post(fc)
        case TransportFailure(m) => Exchange(InternalError(m), done + [lc, fc])
        case Reply(_, _, _) => Exchange(Response(200, FlaggedBody), done + [lc, fc])
  }

  // ---------------------------------------------------------------------------
  // Properties of the handler

  /** The stripped text when the body is a dict whose `"text"` is a str that
      is not blank: exactly the requests that reach the services. */
  function ValidatedText(request: RequestBody): (r: Option<string>)
    ensures r.Some? ==> r.value != []
  {
    if request.Parsed? && request.data.Object? && "text" in request.data.fields
       && request.data.fields["text"].Str? && !IsBlank(request.data.fields["text"].s)
    then Some(Strip(request.data.fields["text"].s))
    else None
  }

  /** A request that does not validate gets a 400 or 500 reply and makes no
      service call; one that does goes through the chain with its stripped
      text. */
  lemma ValidationGate(request: RequestBody, threshold: real, post: Call -> ServiceReply)
    ensures ValidatedText(request).None? ==>
      ProcessText(request, threshold, post).calls == []
      && ProcessText(request, threshold, post).response.status in {400, 500}
    ensures ValidatedText(request).Some? ==>
      ProcessText(request, threshold, post) == Chain(ValidatedText(request).value, threshold, post)
  {
    if request.Parsed? && request.data.Object? && "text" in request.data.fields
       && request.data.fields["text"].Str? {
      assert Truthy(request.data);
    }
  }

  /** The two 400 replies: a falsy body or one without `"text"`, and a text
      that is blank. */
  lemma BadRequests(request: RequestBody, threshold: real, post: Call -> ServiceReply)
    ensures request.Parsed? && (!Truthy(request.data) || In("text", request.data) == Returned(false)) ==>
      ProcessText(request, threshold, post) == Exchange(BadRequest(MissingText), [])
    ensures request.Parsed? && request.data.Object? && "text" in request.data.fields
            && request.data.fields["text"].Str? && IsBlank(request.data.fields["text"].s) ==>
      ProcessText(request, threshold, post) == Exchange(BadRequest(EmptyText), [])
    ensures ProcessText(request, threshold, post).response.status == 400 ==>
      ProcessText(request, threshold, post).calls == []
  {
    if request.Parsed? && request.data.Object? && "text" in request.data.fields {
      assert Truthy(request.data);
    }
    ValidationGate(request, threshold, post);
    if ValidatedText(request).Some? {
      ChainShape(ValidatedText(request).value, threshold, post);
    }
  }

  /** `calls` names the services in the handler's order, each with its
      timeout, without skipping one. */
  predicate CallsInOrder(calls: seq<Call>) {
    |calls| <= |ServiceOrder|
    && forall i :: 0 <= i < |calls| ==>
         calls[i].url == ServiceOrder[i] && calls[i].timeout == (if i < 3 then ServiceTimeout else LogTimeout)
  }

  /** The chain calls translation first with the text, calls the services in
      order, and answers 200 only after the log call. */
  lemma ChainShape(text: string, threshold: real, post: Call -> ServiceReply)
    ensures 1 <= |Chain(text, threshold, post).calls|
    ensures CallsInOrder(Chain(text, threshold, post).calls)
    ensures Chain(text, threshold, post).calls[0] == Call(TranslationUrl, TextPayload(Str(text)), ServiceTimeout)
    ensures Chain(text, threshold, post).response.status in {200, 500}
    ensures Chain(text, threshold, post).response.status == 200 ==> 4 <= |Chain(text, threshold, post).calls|
  {
  }

  /** Every reply is 200, 400 or 500, and the calls made are a prefix of the
      service order. */
  lemma CallOrder(request: RequestBody, threshold: real, post: Call -> ServiceReply)
    ensures ProcessText(request, threshold, post).response.status in {200, 400, 500}
    ensures CallsInOrder(ProcessText(request, threshold, post).calls)
    ensures ProcessText(request, threshold, post).response.status == 200 ==>
      4 <= |ProcessText(request, threshold, post).calls|
  {
    ValidationGate(request, threshold, post);
    if ValidatedText(request).Some? {
      ChainShape(ValidatedText(request).value, threshold, post);
    }
  }

  /** The result a service returned, or `None` when the call raised. */
  function AnswerOf(post: Call -> ServiceReply, call: Call): Json {
    match Fetch(post, call)
    case Returned(j) => j
    case Raised(_) => Null
  }

  /** Hate speech and tagging both receive `{"text": translated_text}` taken
      from the translation service's answer. */
  lemma ChainPayloads(text: string, threshold: real, post: Call -> ServiceReply)
    ensures var x := Chain(text, threshold, post);
      2 <= |x.calls| ==>
        Fetch(post, x.calls[0]).Returned?
        && x.calls[1].payload.Object? && "text" in x.calls[1].payload.fields
        && Subscript(AnswerOf(post, x.calls[0]), "translated_text") == Returned(x.calls[1].payload.fields["text"])
        && x.calls[1].payload == TextPayload(x.calls[1].payload.fields["text"])
    ensures var x := Chain(text, threshold, post);
      3 <= |x.calls| ==> x.calls[2].payload == x.calls[1].payload
  {
    var tc := Call(TranslationUrl, TextPayload(Str(text)), ServiceTimeout);
    match CallService(post, tc)
    case Stopped(_) =>
    case Answered(tr) =>
      match Lookups(tr, ["translated_text", "lang", "confidence"])
      case Raised(_) =>
      case Returned(t) =>
        assert Subscript(tr, "translated_text") == Returned(t[0]);
        var hc := Call(HateSpeechUrl, TextPayload(t[0]), ServiceTimeout);
        assert Chain(text, threshold, post).calls[1] == hc;
  }

  /** The seven keys of the log record. */
  const LogKeySet: set<string> :=
    {"original_text", "translated_text", "language", "confidence",
     "hate_speech_score", "hate_speech_details", "tags"}

  /** The tagging stage logs the record built from its inputs and the
      tagging service's `"tags"`. */
  lemma TagRecord(text: string, translated: Json, lang: Json, confidence: Json, score: Json, details: Json,
                  threshold: real, post: Call -> ServiceReply, done: seq<Call>)
    ensures var x := Tag(text, translated, lang, confidence, score, details, threshold, post, done);
      |done| + 2 <= |x.calls| ==>
        Subscript(AnswerOf(post, x.calls[|done|]), "tags").Returned?
        && x.calls[|done| + 1].payload
           == LogRecord(text, translated, lang, confidence, score, details,
                        Subscript(AnswerOf(post, x.calls[|done|]), "tags").value)
  {
    var gc := Call(TaggingUrl, TextPayload(translated), ServiceTimeout);
    match CallService(post, gc)
    case Stopped(_) =>
    case Answered(gr) =>
      match Lookups(gr, ["tags"])
      case Raised(_) =>
      case Returned(g) =>
        assert Subscript(gr, "tags") == Returned(g[0]);
        assert AnswerOf(post, gc) == gr;
  }

  /** The detection stage passes the service's `"score"` and `"details"` on
      to the log record. */
  lemma DetectRecord(text: string, translated: Json, lang: Json, confidence: Json, threshold: real,
                     post: Call -> ServiceReply, done: seq<Call>)
    ensures var x := Detect(text, translated, lang, confidence, threshold, post, done);
      |done| + 3 <= |x.calls| ==>
        var hr := AnswerOf(post, x.calls[|done|]);
        Subscript(hr, "score").Returned? && Subscript(hr, "details").Returned?
        && Subscript(AnswerOf(post, x.calls[|done| + 1]), "tags").Returned?
        && x.calls[|done| + 2].payload
           == LogRecord(text, translated, lang, confidence, Subscript(hr, "score").value, Subscript(hr, "details").value,
                        Subscript(AnswerOf(post, x.calls[|done| + 1]), "tags").value)
  {
    var hc := Call(HateSpeechUrl, TextPayload(translated), ServiceTimeout);
    match CallService(post, hc)
    case Stopped(_) =>
    case Answered(hr) =>
      match Lookups(hr, ["score", "details"])
      case Raised(_) =>
      case Returned(h) =>
        assert Subscript(hr, "score") == Returned(h[0]);
        assert Subscript(hr, "details") == Returned(h[1]);
        assert AnswerOf(post, hc) == hr;
        TagRecord(text, translated, lang, confidence, h[0], h[1], threshold, post, done + [hc]);
        var y := Tag(text, translated, lang, confidence, h[0], h[1], threshold, post, done + [hc]);
        assert Detect(text, translated, lang, confidence, threshold, post, done) == y;
        if |done| + 3 <= |y.calls| {
          assert y.calls[|done|] == hc;
        }
  }

  /** The chain's log record, in terms of the three services' answers. */
  lemma ChainRecord(text: string, threshold: real, post: Call -> ServiceReply)
    ensures var x := Chain(text, threshold, post);
      4 <= |x.calls| ==>
        var tr := AnswerOf(post, x.calls[0]);
        var hr := AnswerOf(post, x.calls[1]);
        var gr := AnswerOf(post, x.calls[2]);
        Subscript(tr, "translated_text").Returned? && Subscript(tr, "lang").Returned?
        && Subscript(tr, "confidence").Returned?
        && Subscript(hr, "score").Returned? && Subscript(hr, "details").Returned?
        && Subscript(gr, "tags").Returned?
        && x.calls[1].payload == TextPayload(Subscript(tr, "translated_text").value)
        && x.calls[3].payload
           == LogRecord(text, Subscript(tr, "translated_text").value, Subscript(tr, "lang").value,
                        Subscript(tr, "confidence").value, Subscript(hr, "score").value,
                        Subscript(hr, "details").value, Subscript(gr, "tags").value)
  {
    var tc := Call(TranslationUrl, TextPayload(Str(text)), ServiceTimeout);
    match CallService(post, tc)
    case Stopped(_) =>
    case Answered(tr) =>
      match Lookups(tr, ["translated_text", "lang", "confidence"])
      case Raised(_) =>
      case Returned(t) =>
        assert Subscript(tr, "translated_text") == Returned(t[0]);
        assert Subscript(tr, "lang") == Returned(t[1]);
        assert Subscript(tr, "confidence") == Returned(t[2]);
        assert AnswerOf(post, tc) == tr;
        DetectRecord(text, t[0], t[1], t[2], threshold, post, [tc]);
        assert Chain(text, threshold, post) == Detect(text, t[0], t[1], t[2], threshold, post, [tc]);
  }

  /** The six-key result built from a logged record. */
  function ResultFrom(record: Json): Json
    requires record.Object? && LogKeySet <= record.fields.Keys
  {
    var f := record.fields;
    ResultBody(f["language"], f["confidence"], f["translated_text"], f["hate_speech_score"],
               f["hate_speech_details"], f["tags"])
  }

  /** The decision after logging: a 200 reply comes with one more call (the
      flagged log) exactly when the score reaches the threshold. */
  lemma DecideFlag(threshold: real, post: Call -> ServiceReply, done: seq<Call>, record: Json, result: Json)
    requires record.Object? && "hate_speech_score" in record.fields
    ensures var x := Decide(threshold, post, done, record, result);
      x.response.status == 200 ==>
        (|x.calls| == |done| + 2 <==> AtLeast(record.fields["hate_speech_score"], threshold) == Returned(true))
        && (|x.calls| == |done| + 2 ==> x.response.body == FlaggedBody)
        && (|x.calls| == |done| + 1 ==> x.response.body == result)
  {
  }

  /** The log record has the seven keys, and the result built from it is
      the one the handler builds from the same values. */
  lemma LogRecordKeys(text: string, translated: Json, lang: Json, confidence: Json, score: Json, details: Json,
                      tags: Json)
    ensures LogRecord(text, translated, lang, confidence, score, details, tags).fields.Keys == LogKeySet
    ensures ResultFrom(LogRecord(text, translated, lang, confidence, score, details, tags))
         == ResultBody(lang, confidence, translated, score, details, tags)
  {
  }

  lemma TagDecides(text: string, translated: Json, lang: Json, confidence: Json, score: Json, details: Json,
                   threshold: real, post: Call -> ServiceReply, done: seq<Call>)
    ensures var x := Tag(text, translated, lang, confidence, score, details, threshold, post, done);
      |done| + 2 <= |x.calls| ==>
        var record := x.calls[|done| + 1].payload;
        record.Object? && record.fields.Keys == LogKeySet
        && x == Decide(threshold, post, x.calls[..|done| + 1], record, ResultFrom(record))
  {
    var gc := Call(TaggingUrl, TextPayload(translated), ServiceTimeout);
    match CallService(post, gc)
    case Stopped(_) =>
    case Answered(gr) =>
      match Lookups(gr, ["tags"])
      case Raised(_) =>
      case Returned(g) =>
        var record := LogRecord(text, translated, lang, confidence, score, details, g[0]);
        LogRecordKeys(text, translated, lang, confidence, score, details, g[0]);
        var x := Decide(threshold, post, done + [gc], record, ResultFrom(record));
        assert x.calls[..|done| + 1] == done + [gc];
  }

  lemma DetectDecides(text: string, translated: Json, lang: Json, confidence: Json, threshold: real,
                      post: Call -> ServiceReply, done: seq<Call>)
    ensures var x := Detect(text, translated, lang, confidence, threshold, post, done);
      |done| + 3 <= |x.calls| ==>
        var record := x.calls[|done| + 2].payload;
        record.Object? && record.fields.Keys == LogKeySet
        && x == Decide(threshold, post, x.calls[..|done| + 2], record, ResultFrom(record))
  {
    var hc := Call(HateSpeechUrl, TextPayload(translated), ServiceTimeout);
    match CallService(post, hc)
    case Stopped(_) =>
    case Answered(hr) =>
      match Lookups(hr, ["score", "details"])
      case Raised(_) =>
      case Returned(h) =>
        TagDecides(text, translated, lang, confidence, h[0], h[1], threshold, post, done + [hc]);
        assert Detect(text, translated, lang, confidence, threshold, post, done)
            == Tag(text, translated, lang, confidence, h[0], h[1], threshold, post, done + [hc]);
  }

  /** Once the record is logged, the rest of the chain is the decision on
      that record. */
  lemma ChainDecides(text: string, threshold: real, post: Call -> ServiceReply)
    ensures var x := Chain(text, threshold, post);
      4 <= |x.calls| ==>
        var record := x.calls[3].payload;
        record.Object? && record.fields.Keys == LogKeySet
        && x == Decide(threshold, post, x.calls[..3], record, ResultFrom(record))
  {
    var tc := Call(TranslationUrl, TextPayload(Str(text)), ServiceTimeout);
    match CallService(post, tc)
    case Stopped(_) =>
    case Answered(tr) =>
      match Lookups(tr, ["translated_text", "lang", "confidence"])
      case Raised(_) =>
      case Returned(t) =>
        DetectDecides(text, t[0], t[1], t[2], threshold, post, [tc]);
        assert Chain(text, threshold, post) == Detect(text, t[0], t[1], t[2], threshold, post, [tc]);
  }

  /** A 200 reply is the flag exactly when the logged score reaches the
      threshold, and exactly when the flagged log was called too. */
  lemma FlagDecision(text: string, threshold: real, post: Call -> ServiceReply)
    requires Chain(text, threshold, post).response.status == 200
    ensures 4 <= |Chain(text, threshold, post).calls|
    ensures var x := Chain(text, threshold, post);
      var record := x.calls[3].payload;
      record.Object? && record.fields.Keys == LogKeySet
      && (x.response.body == FlaggedBody <==> AtLeast(record.fields["hate_speech_score"], threshold) == Returned(true))
      && (x.response.body == FlaggedBody <==> |x.calls| == 5)
  {
    var x := Chain(text, threshold, post);
    ChainShape(text, threshold, post);
    ChainDecides(text, threshold, post);
    var record := x.calls[3].payload;
    DecideFlag(threshold, post, x.calls[..3], record, ResultFrom(record));
    assert "lang" !in FlaggedBody.fields;
    assert "lang" in ResultFrom(record).fields;
  }

  /** The flagged log receives the log record with `"flagged": true` added
      and nothing else changed. */
  lemma FlaggedRecord(text: string, threshold: real, post: Call -> ServiceReply)
    ensures var x := Chain(text, threshold, post);
      |x.calls| == 5 ==>
        var record := x.calls[3].payload;
        record.Object? && record.fields.Keys == LogKeySet
        && x.calls[4].payload == WithFlag(record)
        && x.calls[4].payload.Object?
        && x.calls[4].payload.fields.Keys == LogKeySet + {"flagged"}
        && x.calls[4].payload.fields["flagged"] == Bool(true)
        && forall k :: k in LogKeySet ==> x.calls[4].payload.fields[k] == record.fields[k]
  {
    var x := Chain(text, threshold, post);
    ChainShape(text, threshold, post);
    ChainDecides(text, threshold, post);
    if |x.calls| == 5 {
      var record := x.calls[3].payload;
      assert x.calls[4] == Call(LogFlaggedUrl, WithFlag(record), LogTimeout);
      assert "flagged" !in LogKeySet;
    }
  }

  /** A 200 reply that is not the flag is the six-key result, built from the
      same values that were logged, for a score below the threshold. */
  lemma UnflaggedReply(text: string, threshold: real, post: Call -> ServiceReply)
    requires Chain(text, threshold, post).response.status == 200
    ensures 4 <= |Chain(text, threshold, post).calls|
    ensures var x := Chain(text, threshold, post);
      var f := x.calls[3].payload.fields;
      x.calls[3].payload.Object? && LogKeySet <= f.Keys
      && (x.response.body != FlaggedBody ==>
            AtLeast(f["hate_speech_score"], threshold) == Returned(false)
            && x.response.body == ResultBody(f["language"], f["confidence"], f["translated_text"],
                                             f["hate_speech_score"], f["hate_speech_details"], f["tags"]))
  {
    var x := Chain(text, threshold, post);
    ChainShape(text, threshold, post);
    ChainDecides(text, threshold, post);
    var record := x.calls[3].payload;
    DecideFlag(threshold, post, x.calls[..3], record, ResultFrom(record));
  }

  /** The `except` reply: status 500 and `{"error": "Internal server error: ..."}`. */
  predicate IsInternalError(r: Response) {
    r.status == 500 && r.body.Object? && r.body.fields.Keys == {"error"}
    && r.body.fields["error"].Str? && StartsWith(r.body.fields["error"].s, InternalErrorPrefix)
  }

  lemma InternalErrorShape(m: string)
    ensures IsInternalError(InternalError(m))
  {
    assert (InternalErrorPrefix + m)[..|InternalErrorPrefix|] == InternalErrorPrefix;
  }

  /** A stage stopped by a service: the internal-error reply, or the
      service's own result because it mentions `"error"`. */
  lemma StoppedReply(post: Call -> ServiceReply, call: Call)
    ensures CallService(post, call).Stopped? ==>
      IsInternalError(CallService(post, call).response)
      || (Fetch(post, call) == Returned(CallService(post, call).response.body)
          && CallService(post, call).response.status == 500
          && In("error", CallService(post, call).response.body) == Returned(true))
  {
    match Fetch(post, call)
    case Raised(m) => InternalErrorShape(m);
    case Returned(result) =>
      match In("error", result)
      case Raised(m) => InternalErrorShape(m);
      case Returned(_) =>
  }

  /** The last call made was to a service (not a log) whose result mentions
      `"error"`, and that result is the reply's body. */
  predicate PassedBack(x: Exchange, post: Call -> ServiceReply) {
    x.calls != []
    && x.calls[|x.calls| - 1].url in {TranslationUrl, HateSpeechUrl, TaggingUrl}
    && Fetch(post, x.calls[|x.calls| - 1]) == Returned(x.response.body)
    && In("error", x.response.body) == Returned(true)
  }

  predicate ServerErrorShape(x: Exchange, post: Call -> ServiceReply) {
    x.response.status == 500 ==> IsInternalError(x.response) || PassedBack(x, post)
  }

  lemma DecideErrors(threshold: real, post: Call -> ServiceReply, done: seq<Call>, record: Json, result: Json)
    requires record.Object? && "hate_speech_score" in record.fields
    ensures Decide(threshold, post, done, record, result).response.status == 500 ==>
      IsInternalError(Decide(threshold, post, done, record, result).response)
  {
    var lc := Call(LogUrl, record, LogTimeout);
    match post(lc)
    case TransportFailure(m) => InternalErrorShape(m);
    case Reply(_, _, _) =>
      match AtLeast(record.fields["hate_speech_score"], threshold)
      case Raised(m) => InternalErrorShape(m);
      case Returned(false) =>
      case Returned(true) =>
        var fc := Call(LogFlaggedUrl, WithFlag(record), LogTimeout);
        match post(fc)
        case TransportFailure(m) => InternalErrorShape(m);
        case Reply(_, _, _) =>
  }

  lemma TagErrors(text: string, translated: Json, lang: Json, confidence: Json, score: Json, details: Json,
                  threshold: real, post: Call -> ServiceReply, done: seq<Call>)
    ensures ServerErrorShape(Tag(text, translated, lang, confidence, score, details, threshold, post, done), post)
  {
    var gc := Call(TaggingUrl, TextPayload(translated), ServiceTimeout);
    StoppedReply(post, gc);
    match CallService(post, gc)
    case Stopped(_) =>
    case Answered(gr) =>
      match Lookups(gr, ["tags"])
      case Raised(m) => InternalErrorShape(m);
      case Returned(g) =>
        DecideErrors(threshold, post, done + [gc], LogRecord(text, translated, lang, confidence, score, details, g[0]),
                     ResultBody(lang, confidence, translated, score, details, g[0]));
  }

  lemma DetectErrors(text: string, translated: Json, lang: Json, confidence: Json, threshold: real,
                     post: Call -> ServiceReply, done: seq<Call>)
    ensures ServerErrorShape(Detect(text, translated, lang, confidence, threshold, post, done), post)
  {
    var hc := Call(HateSpeechUrl, TextPayload(translated), ServiceTimeout);
    StoppedReply(post, hc);
    match CallService(post, hc)
    case Stopped(_) =>
    case Answered(hr) =>
      match Lookups(hr, ["score", "details"])
      case Raised(m) => InternalErrorShape(m);
      case Returned(h) => TagErrors(text, translated, lang, confidence, h[0], h[1], threshold, post, done + [hc]);
  }

  /** A 500 reply is either the internal-error reply, or the result of the
      last service called, passed back verbatim because it mentions
      `"error"`; a translation result mentioning `"error"` ends the chain
      right there. */
  lemma ServerErrors(text: string, threshold: real, post: Call -> ServiceReply)
    ensures ServerErrorShape(Chain(text, threshold, post), post)
    ensures var tc := Call(TranslationUrl, TextPayload(Str(text)), ServiceTimeout);
      Fetch(post, tc).Returned? && In("error", Fetch(post, tc).value) == Returned(true) ==>
        Chain(text, threshold, post) == Exchange(Response(500, Fetch(post, tc).value), [tc])
  {
    var tc := Call(TranslationUrl, TextPayload(Str(text)), ServiceTimeout);
    StoppedReply(post, tc);
    match CallService(post, tc)
    case Stopped(_) =>
    case Answered(tr) =>
      match Lookups(tr, ["translated_text", "lang", "confidence"])
      case Raised(m) => InternalErrorShape(m);
      case Returned(t) => DetectErrors(text, t[0], t[1], t[2], threshold, post, [tc]);
  }

  /** How the translation stage stops: the internal-error reply when the
      call raises or its result lacks one of the three keys, the result
      itself with status 500 when it mentions `"error"`. */
  lemma ChainStops(text: string, threshold: real, post: Call -> ServiceReply)
    ensures var tc := Call(TranslationUrl, TextPayload(Str(text)), ServiceTimeout);
      Fetch(post, tc).Raised? ==>
        Chain(text, threshold, post) == Exchange(InternalError(Fetch(post, tc).message), [tc])
    ensures var tc := Call(TranslationUrl, TextPayload(Str(text)), ServiceTimeout);
      Fetch(post, tc).Returned? && In("error", Fetch(post, tc).value).Raised? ==>
        Chain(text, threshold, post) == Exchange(InternalError(In("error", Fetch(post, tc).value).message), [tc])
    ensures var tc := Call(TranslationUrl, TextPayload(Str(text)), ServiceTimeout);
      Fetch(post, tc).Returned? && In("error", Fetch(post, tc).value) == Returned(true) ==>
        Chain(text, threshold, post) == Exchange(Response(500, Fetch(post, tc).value), [tc])
    ensures var tc := Call(TranslationUrl, TextPayload(Str(text)), ServiceTimeout);
      var keys := ["translated_text", "lang", "confidence"];
      CallService(post, tc).Answered? && Lookups(CallService(post, tc).result, keys).Raised? ==>
        Chain(text, threshold, post) == Exchange(InternalError(Lookups(CallService(post, tc).result, keys).message), [tc])
  {
  }

  /** How the hate speech stage stops, in the same four ways. */
  lemma DetectStops(text: string, translated: Json, lang: Json, confidence: Json, threshold: real,
                    post: Call -> ServiceReply, done: seq<Call>)
    ensures var hc := Call(HateSpeechUrl, TextPayload(translated), ServiceTimeout);
      Fetch(post, hc).Raised? ==>
        Detect(text, translated, lang, confidence, threshold, post, done)
        == Exchange(InternalError(Fetch(post, hc).message), done + [hc])
    ensures var hc := Call(HateSpeechUrl, TextPayload(translated), ServiceTimeout);
      Fetch(post, hc).Returned? && In("error", Fetch(post, hc).value).Raised? ==>
        Detect(text, translated, lang, confidence, threshold, post, done)
        == Exchange(InternalError(In("error", Fetch(post, hc).value).message), done + [hc])
    ensures var hc := Call(HateSpeechUrl, TextPayload(translated), ServiceTimeout);
      Fetch(post, hc).Returned? && In("error", Fetch(post, hc).value) == Returned(true) ==>
        Detect(text, translated, lang, confidence, threshold, post, done)
        == Exchange(Response(500, Fetch(post, hc).value), done + [hc])
    ensures var hc := Call(HateSpeechUrl, TextPayload(translated), ServiceTimeout);
      CallService(post, hc).Answered? && Lookups(CallService(post, hc).result, ["score", "details"]).Raised? ==>
        Detect(text, translated, lang, confidence, threshold, post, done)
        == Exchange(InternalError(Lookups(CallService(post, hc).result, ["score", "details"]).message), done + [hc])
  {
  }

  /** How the tagging stage stops, in the same four ways. */
  lemma TagStops(text: string, translated: Json, lang: Json, confidence: Json, score: Json, details: Json,
                 threshold: real, post: Call -> ServiceReply, done: seq<Call>)
    ensures var gc := Call(TaggingUrl, TextPayload(translated), ServiceTimeout);
      Fetch(post, gc).Raised? ==>
        Tag(text, translated, lang, confidence, score, details, threshold, post, done)
        == Exchange(InternalError(Fetch(post, gc).message), done + [gc])
    ensures var gc := Call(TaggingUrl, TextPayload(translated), ServiceTimeout);
      Fetch(post, gc).Returned? && In("error", Fetch(post, gc).value).Raised? ==>
        Tag(text, translated, lang, confidence, score, details, threshold, post, done)
        == Exchange(InternalError(In("error", Fetch(post, gc).value).message), done + [gc])
    ensures var gc := Call(TaggingUrl, TextPayload(translated), ServiceTimeout);
      Fetch(post, gc).Returned? && In("error", Fetch(post, gc).value) == Returned(true) ==>
        Tag(text, translated, lang, confidence, score, details, threshold, post, done)
        == Exchange(Response(500, Fetch(post, gc).value), done + [gc])
    ensures var gc := Call(TaggingUrl, TextPayload(translated), ServiceTimeout);
      CallService(post, gc).Answered? && Lookups(CallService(post, gc).result, ["tags"]).Raised? ==>
        Tag(text, translated, lang, confidence, score, details, threshold, post, done)
        == Exchange(InternalError(Lookups(CallService(post, gc).result, ["tags"]).message), done + [gc])
  {
  }

  /** The decision's three failures: no reply to the log call, a score that
      cannot be compared with the threshold, no reply to the flagged-log
      call. Each ends the handler with the internal-error reply. */
  lemma DecideFailures(threshold: real, post: Call -> ServiceReply, done: seq<Call>, record: Json, result: Json)
    requires record.Object? && "hate_speech_score" in record.fields
    ensures var lc := Call(LogUrl, record, LogTimeout);
      post(lc).TransportFailure? ==>
        Decide(threshold, post, done, record, result) == Exchange(InternalError(post(lc).message), done + [lc])
    ensures var lc := Call(LogUrl, record, LogTimeout);
      var cmp := AtLeast(record.fields["hate_speech_score"], threshold);
      post(lc).Reply? && cmp.Raised? ==>
        Decide(threshold, post, done, record, result) == Exchange(InternalError(cmp.message), done + [lc])
    ensures var lc := Call(LogUrl, record, LogTimeout);
      var fc := Call(LogFlaggedUrl, WithFlag(record), LogTimeout);
      post(lc).Reply? && AtLeast(record.fields["hate_speech_score"], threshold) == Returned(true)
      && post(fc).TransportFailure? ==>
        Decide(threshold, post, done, record, result) == Exchange(InternalError(post(fc).message), done + [lc, fc])
  {
  }

  /** A tagging result mentioning `"error"`, after the hate speech stage,
      ends with that result as a 500 reply. */
  lemma DetectForwardsTagError(text: string, translated: Json, lang: Json, confidence: Json, threshold: real,
                               post: Call -> ServiceReply, done: seq<Call>)
    ensures var x := Detect(text, translated, lang, confidence, threshold, post, done);
      |done| + 2 <= |x.calls| && Fetch(post, x.calls[|done| + 1]).Returned?
      && In("error", Fetch(post, x.calls[|done| + 1]).value) == Returned(true) ==>
        |x.calls| == |done| + 2 && x.response == Response(500, Fetch(post, x.calls[|done| + 1]).value)
  {
    var hc := Call(HateSpeechUrl, TextPayload(translated), ServiceTimeout);
    match CallService(post, hc)
    case Stopped(_) =>
    case Answered(hr) =>
      match Lookups(hr, ["score", "details"])
      case Raised(_) =>
      case Returned(h) =>
        TagStops(text, translated, lang, confidence, h[0], h[1], threshold, post, done + [hc]);
  }

  /** A hate speech or tagging result mentioning `"error"` ends the chain
      with that result as a 500 reply, and no later service is called. */
  lemma ForwardedErrors(text: string, threshold: real, post: Call -> ServiceReply)
    ensures var x := Chain(text, threshold, post);
      2 <= |x.calls| && Fetch(post, x.calls[1]).Returned? && In("error", Fetch(post, x.calls[1]).value) == Returned(true) ==>
        |x.calls| == 2 && x.response == Response(500, Fetch(post, x.calls[1]).value)
    ensures var x := Chain(text, threshold, post);
      3 <= |x.calls| && Fetch(post, x.calls[2]).Returned? && In("error", Fetch(post, x.calls[2]).value) == Returned(true) ==>
        |x.calls| == 3 && x.response == Response(500, Fetch(post, x.calls[2]).value)
  {
    var tc := Call(TranslationUrl, TextPayload(Str(text)), ServiceTimeout);
    match CallService(post, tc)
    case Stopped(_) =>
    case Answered(tr) =>
      match Lookups(tr, ["translated_text", "lang", "confidence"])
      case Raised(_) =>
      case Returned(t) =>
        assert Chain(text, threshold, post) == Detect(text, t[0], t[1], t[2], threshold, post, [tc]);
        DetectStops(text, t[0], t[1], t[2], threshold, post, [tc]);
        DetectForwardsTagError(text, t[0], t[1], t[2], threshold, post, [tc]);
  }

  /** No reply to the log call, or to the flagged-log call, ends the chain
      with the internal-error reply carrying the transport exception. */
  lemma LogFailures(text: string, threshold: real, post: Call -> ServiceReply)
    ensures var x := Chain(text, threshold, post);
      4 <= |x.calls| && post(x.calls[3]).TransportFailure? ==>
        |x.calls| == 4 && x.response == InternalError(post(x.calls[3]).message)
    ensures var x := Chain(text, threshold, post);
      |x.calls| == 5 && post(x.calls[4]).TransportFailure? ==>
        x.response == InternalError(post(x.calls[4]).message)
  {
    var x := Chain(text, threshold, post);
    ChainDecides(text, threshold, post);
    if 4 <= |x.calls| {
      var record := x.calls[3].payload;
      DecideFailures(threshold, post, x.calls[..3], record, ResultFrom(record));
    }
  }

  /** `post1` and `post2` agree on every call except what the two log
      endpoints reply, and even there a reply arrives for both or for
      neither, with the same exception when none does. */
  ghost predicate AgreeButLogReplies(post1: Call -> ServiceReply, post2: Call -> ServiceReply) {
    forall c: Call ::
      (c.url != LogUrl && c.url != LogFlaggedUrl ==> post1(c) == post2(c))
      && (post1(c).TransportFailure? <==> post2(c).TransportFailure?)
      && (post1(c).TransportFailure? ==> post1(c).message == post2(c).message)
  }

  lemma DecideIgnoresLogReplies(threshold: real, post1: Call -> ServiceReply, post2: Call -> ServiceReply,
                                done: seq<Call>, record: Json, result: Json)
    requires record.Object? && "hate_speech_score" in record.fields
    requires AgreeButLogReplies(post1, post2)
    ensures Decide(threshold, post1, done, record, result) == Decide(threshold, post2, done, record, result)
  {
    var lc := Call(LogUrl, record, LogTimeout);
    var fc := Call(LogFlaggedUrl, WithFlag(record), LogTimeout);
    assert post1(lc).TransportFailure? <==> post2(lc).TransportFailure?;
    assert post1(fc).TransportFailure? <==> post2(fc).TransportFailure?;
  }

  lemma TagIgnoresLogReplies(text: string, translated: Json, lang: Json, confidence: Json, score: Json, details: Json,
                             threshold: real, post1: Call -> ServiceReply, post2: Call -> ServiceReply, done: seq<Call>)
    requires AgreeButLogReplies(post1, post2)
    ensures Tag(text, translated, lang, confidence, score, details, threshold, post1, done)
         == Tag(text, translated, lang, confidence, score, details, threshold, post2, done)
  {
    var gc := Call(TaggingUrl, TextPayload(translated), ServiceTimeout);
    assert post1(gc) == post2(gc);
    assert CallService(post1, gc) == CallService(post2, gc);
    match CallService(post1, gc)
    case Stopped(_) =>
    case Answered(gr) =>
      match Lookups(gr, ["tags"])
      case Raised(_) =>
      case Returned(g) =>
        DecideIgnoresLogReplies(threshold, post1, post2, done + [gc],
                                LogRecord(text, translated, lang, confidence, score, details, g[0]),
                                ResultBody(lang, confidence, translated, score, details, g[0]));
  }

  lemma DetectIgnoresLogReplies(text: string, translated: Json, lang: Json, confidence: Json, threshold: real,
                                post1: Call -> ServiceReply, post2: Call -> ServiceReply, done: seq<Call>)
    requires AgreeButLogReplies(post1, post2)
    ensures Detect(text, translated, lang, confidence, threshold, post1, done)
         == Detect(text, translated, lang, confidence, threshold, post2, done)
  {
    var hc := Call(HateSpeechUrl, TextPayload(translated), ServiceTimeout);
    assert post1(hc) == post2(hc);
    assert CallService(post1, hc) == CallService(post2, hc);
    match CallService(post1, hc)
    case Stopped(_) =>
    case Answered(hr) =>
      match Lookups(hr, ["score", "details"])
      case Raised(_) =>
      case Returned(h) =>
        TagIgnoresLogReplies(text, translated, lang, confidence, h[0], h[1], threshold, post1, post2, done + [hc]);
  }

  /** What the logging service replies never changes the handler's reply or
      its calls: only a log call that gets no reply at all matters. */
  lemma LogRepliesIgnored(request: RequestBody, threshold: real, post1: Call -> ServiceReply, post2: Call -> ServiceReply)
    requires AgreeButLogReplies(post1, post2)
    ensures ProcessText(request, threshold, post1) == ProcessText(request, threshold, post2)
  {
    ValidationGate(request, threshold, post1);
    ValidationGate(request, threshold, post2);
    if ValidatedText(request).Some? {
      var text := ValidatedText(request).value;
      var tc := Call(TranslationUrl, TextPayload(Str(text)), ServiceTimeout);
      assert post1(tc) == post2(tc);
      assert CallService(post1, tc) == CallService(post2, tc);
      match CallService(post1, tc)
      case Stopped(_) =>
      case Answered(tr) =>
        match Lookups(tr, ["translated_text", "lang", "confidence"])
        case Raised(_) =>
        case Returned(t) => DetectIgnoresLogReplies(text, t[0], t[1], t[2], threshold, post1, post2, [tc]);
    }
  }
}
