/**
 * The request builder the generator emits for an endpoint (generate/generate_test.go
 * shows it for `@GET("/photos/{id}")`): six accumulators filled by fluent setters, the
 * path substitution routine, and `build`, which turns the accumulated bindings into a
 * request according to the verb/payload matrix.
 *
 * The generated code inlines the verb and the path template as literals; here they are
 * constant fields of the builder, so that every branch of `build` can be reached.
 */
module Builder {
  import opened Wrappers
  import opened Http
  import Format
  import Strs
  import PathTemplate

  /** The value bound with @BODY, kept opaque until `build` marshals it. */
  datatype Value = Value(repr: string)

  datatype BuildError =
    | ClientNotRegistered  // no rest client has been registered
    | EncodingFailure      // json.Marshal rejected the body
    | InvalidRequest       // http.NewRequest rejected the url
    | NilRequest           // no branch built a request; the Go code dereferences nil here

  /**
   * What `build` obtains from code outside the builder: the registered rest client's base
   * URL (None when no client is registered), json.Marshal, and whether http.NewRequest
   * accepts a url.
   */
  datatype Runtime = Runtime(
    client: Option<string>,
    marshal: Value -> Option<seq<byte>>,
    acceptsUrl: string -> bool)

  /** The builder's six accumulators, as values. */
  datatype Accumulators = Accumulators(
    pathSubstitutions: map<string, string>,
    queryParams: Values,
    postFormParams: Values,
    postBody: Option<Value>,
    postMultiPartParam: map<string, seq<byte>>,
    headerParams: map<string, string>)

  const JsonType := "application/json"
  const FormType := "application/x-www-form-urlencoded"
  const MultipartType := "multipart/form-data"

  /**
   * The request http.NewRequest yields in the branch that the verb and the accumulators
   * select, before Accept and the header bindings are applied.
   */
  function Prepare(verb: Verb, url: string, acc: Accumulators, rt: Runtime): Result<Request, BuildError>
  {
    match verb
    case POST | PUT =>
      if acc.postBody.Some? then
        match rt.marshal(acc.postBody.value)
        case None => Failure(EncodingFailure)
        case Some(content) =>
          if !rt.acceptsUrl(url) then Failure(InvalidRequest)
          else Success(Request(verb, url, JsonBody(content), SetHeader(map[], "Content-Type", JsonType), None))
      else if |acc.postFormParams| > 0 then
        if !rt.acceptsUrl(url) then Failure(InvalidRequest)
        else Success(Request(verb, url, FormBody(acc.postFormParams), SetHeader(map[], "Content-Type", FormType), None))
      else if |acc.postMultiPartParam| > 0 then
        if !rt.acceptsUrl(url) then Failure(InvalidRequest)
        else Success(Request(verb, url, MultipartBody(acc.postMultiPartParam), SetHeader(map[], "Content-Type", MultipartType), None))
      else Failure(NilRequest)
    case GET | DELETE =>
      if !rt.acceptsUrl(url) then Failure(InvalidRequest)
      else Success(Request(verb, url, NoBody, map[], if |acc.queryParams| > 0 then Some(acc.queryParams) else None))
  }

  /**
   * The outcome of `build` when Go's map iteration visits the path substitutions in
   * `pathOrder` and the header bindings in `headerOrder`.
   */
  function Assemble(verb: Verb, template: string, acc: Accumulators, rt: Runtime,
                    pathOrder: seq<string>, headerOrder: seq<string>): Result<Request, BuildError>
    requires forall k :: k in pathOrder ==> k in acc.pathSubstitutions
    requires forall k :: k in headerOrder ==> k in acc.headerParams
  {
    if rt.client.None? then Failure(ClientNotRegistered)
    else
      var url := rt.client.value + PathTemplate.SubstituteInOrder(template, acc.pathSubstitutions, pathOrder);
      match Prepare(verb, url, acc, rt)
      case Failure(e) => Failure(e)
      case Success(req) =>
        Success(req.(header := SetHeaders(SetHeader(req.header, "Accept", JsonType), acc.headerParams, headerOrder)))
  }

  /** The url `build` requests: the client's base URL followed by the substituted path. */
  function RequestUrl(template: string, acc: Accumulators, rt: Runtime, pathOrder: seq<string>): string
    requires rt.client.Some?
    requires forall k :: k in pathOrder ==> k in acc.pathSubstitutions
  {
    rt.client.value + PathTemplate.SubstituteInOrder(template, acc.pathSubstitutions, pathOrder)
  }

  /** `order` lists every key of `m` exactly once. */
  ghost predicate Enumerates<V>(order: seq<string>, m: map<string, V>)
  {
    Elems(order) == m.Keys && Distinct(order)
  }

  class RequestBuilder {
    const verb: Verb
    const pathTemplate: string
    var pathSubstitutions: map<string, string>
    var queryParams: Values
    var postFormParams: Values
    var postBody: Option<Value>
    var postMultiPartParam: map<string, seq<byte>>
    var headerParams: map<string, string>

    function Accumulated(): Accumulators
      reads this
    {
      Accumulators(pathSubstitutions, queryParams, postFormParams, postBody, postMultiPartParam, headerParams)
    }

    /** Every container starts empty (never absent) and no body is bound. */
    constructor (verb: Verb, pathTemplate: string)
      ensures this.verb == verb && this.pathTemplate == pathTemplate
      ensures Accumulated() == Accumulators(map[], map[], map[], None, map[], map[])
    {
      this.verb := verb;
      this.pathTemplate := pathTemplate;
      pathSubstitutions := map[];
      queryParams := map[];
      postFormParams := map[];
      postBody := None;
      postMultiPartParam := map[];
      headerParams := map[];
    }

    /** @PATH("id"): binds the path placeholder "{id}", replacing an earlier binding. */
    method PhotoID(id: string) returns (b: RequestBuilder)
      modifies this
      ensures b == this
      ensures pathSubstitutions == old(pathSubstitutions)["id" := id]
      ensures Accumulated() == old(Accumulated()).(pathSubstitutions := pathSubstitutions)
    {
      pathSubstitutions := pathSubstitutions["id" := id];
      b := this;
    }

    /** @QUERY("image_size"): adds the decimal form of `size` to the values under "image_size". */
    method ImageSize(size: Format.int64) returns (b: RequestBuilder)
      modifies this
      ensures b == this
      ensures queryParams == Add(old(queryParams), "image_size", Format.FormatInt(size as int))
      ensures Accumulated() == old(Accumulated()).(queryParams := queryParams)
    {
      queryParams := Add(queryParams, "image_size", Format.FormatInt(size as int));
      b := this;
    }

    /**
     * Replaces "{key}" by its value for every bound key, visiting the keys in an order
     * the model does not fix; `order` reports the order used.
     */
    method ApplyPathSubstitutions(api: string) returns (r: string, ghost order: seq<string>)
      ensures Enumerates(order, pathSubstitutions)
      ensures r == PathTemplate.SubstituteInOrder(api, pathSubstitutions, order)
      ensures |pathSubstitutions| == 0 ==> r == api
    {
      if |pathSubstitutions| == 0 {
        return api, [];
      }
      r, order := api, [];
      ElemsEmpty(order);
      var remaining := pathSubstitutions.Keys;
      while remaining != {}
        invariant remaining <= pathSubstitutions.Keys
        invariant Elems(order) == pathSubstitutions.Keys - remaining
        invariant Distinct(order)
        invariant forall k :: k in order ==> k in pathSubstitutions
        invariant r == PathTemplate.SubstituteInOrder(api, pathSubstitutions, order)
        decreases remaining
      {
        var key :| key in remaining;
        r := Strs.ReplaceAll(r, PathTemplate.Braced(key), pathSubstitutions[key]);
        AppendFresh(order, key);
        PathTemplate.SubstituteSnoc(api, pathSubstitutions, order, key);
        order := order + [key];
        remaining := remaining - {key};
      }
    }

    /** The payload branch of `build`: the request of the branch the accumulators select. */
    method NewRequest(url: string, rt: Runtime) returns (r: Result<Request, BuildError>)
      ensures r == Prepare(verb, url, Accumulated(), rt)
    {
      var req: Option<Request> := None;
      match verb {
        case POST | PUT =>
          if postBody.Some? {
            var content := rt.marshal(postBody.value);
            if content.None? {
              return Failure(EncodingFailure);
            }
            if !rt.acceptsUrl(url) {
              return Failure(InvalidRequest);
            }
            req := Some(Request(verb, url, JsonBody(content.value), SetHeader(map[], "Content-Type", JsonType), None));
          } else if |postFormParams| > 0 {
            if !rt.acceptsUrl(url) {
              return Failure(InvalidRequest);
            }
            req := Some(Request(verb, url, FormBody(postFormParams), SetHeader(map[], "Content-Type", FormType), None));
          } else if |postMultiPartParam| > 0 {
            if !rt.acceptsUrl(url) {
              return Failure(InvalidRequest);
            }
            req := Some(Request(verb, url, MultipartBody(postMultiPartParam), SetHeader(map[], "Content-Type", MultipartType), None));
          }
        case GET | DELETE =>
          if !rt.acceptsUrl(url) {
            return Failure(InvalidRequest);
          }
          var rawQuery: Option<Values> := None;
          if |queryParams| > 0 {
            rawQuery := Some(queryParams);
          }
          req := Some(Request(verb, url, NoBody, map[], rawQuery));
      }
      if req.None? {
        return Failure(NilRequest);
      }
      r := Success(req.value);
    }

    /**
     * The header loop of `build`: Set for every header binding, visiting the keys in an
     * order the model does not fix; `order` reports the order used.
     */
    method SetHeaderParams(h: Header) returns (header: Header, ghost order: seq<string>)
      ensures Enumerates(order, headerParams)
      ensures forall k :: k in order ==> k in headerParams
      ensures header == SetHeaders(h, headerParams, order)
    {
      header, order := h, [];
      ElemsEmpty(order);
      var remaining := headerParams.Keys;
      while remaining != {}
        invariant remaining <= headerParams.Keys
        invariant Elems(order) == headerParams.Keys - remaining
        invariant Distinct(order)
        invariant forall k :: k in order ==> k in headerParams
        invariant header == SetHeaders(h, headerParams, order)
        decreases remaining
      {
        var key :| key in remaining;
        header := SetHeader(header, key, headerParams[key]);
        AppendFresh(order, key);
        SetHeadersSnoc(h, headerParams, order, key);
        order := order + [key];
        remaining := remaining - {key};
      }
    }

    /**
     * `build`: the request for the accumulated bindings, or the error that stops it.
     * `pathOrder` and `headerOrder` report the order in which the two map iterations
     * visited their keys.
     */
    method Build(rt: Runtime) returns (r: Result<Request, BuildError>,
                                       ghost pathOrder: seq<string>, ghost headerOrder: seq<string>)
      ensures rt.client.None? ==> r == Failure(ClientNotRegistered)
      ensures rt.client.Some? ==> Enumerates(pathOrder, pathSubstitutions)
      ensures r.Success? ==> Enumerates(headerOrder, headerParams)
      ensures forall k :: k in pathOrder ==> k in pathSubstitutions
      ensures forall k :: k in headerOrder ==> k in headerParams
      ensures r == Assemble(verb, pathTemplate, Accumulated(), rt, pathOrder, headerOrder)
    {
      pathOrder, headerOrder := [], [];
      if rt.client.None? {
        return Failure(ClientNotRegistered), pathOrder, headerOrder;
      }
      var path;
      path, pathOrder := ApplyPathSubstitutions(pathTemplate);
      var url := rt.client.value + path;
      var req := NewRequest(url, rt);
      if req.Failure? {
        return Failure(req.error), pathOrder, headerOrder;
      }
      var header;
      header, headerOrder := SetHeaderParams(SetHeader(req.value.header, "Accept", JsonType));
      r := Success(req.value.(header := header));
    }
  }

  /** The builder of the golden endpoint, `@GET("/photos/{id}")`. */
  method NewGetPhotoDetailsRequestBuilder() returns (b: RequestBuilder)
    ensures fresh(b)
    ensures b.verb == GET && b.pathTemplate == "/photos/{id}"
    ensures b.Accumulated() == Accumulators(map[], map[], map[], None, map[], map[])
  {
    b := new RequestBuilder(GET, "/photos/{id}");
  }

  // ---- What `build` promises ---------------------------------------------------------

  /**
   * POST and PUT: a request exists exactly when some payload is bound, the body (if
   * any) marshals and the url is accepted; the payload is the body if set, else the
   * form, else the multipart fields; the raw query is never set.
   */
  lemma {:induction false} PostOutcome(verb: Verb, template: string, acc: Accumulators, rt: Runtime,
                    pathOrder: seq<string>, headerOrder: seq<string>)
    requires verb == POST || verb == PUT
    requires rt.client.Some?
    requires forall k :: k in pathOrder ==> k in acc.pathSubstitutions
    requires forall k :: k in headerOrder ==> k in acc.headerParams
    ensures var r := Assemble(verb, template, acc, rt, pathOrder, headerOrder);
            var url := RequestUrl(template, acc, rt, pathOrder);
            var payload := acc.postBody.Some? || |acc.postFormParams| > 0 || |acc.postMultiPartParam| > 0;
            var marshalled := acc.postBody.Some? ==> rt.marshal(acc.postBody.value).Some?;
            && (r.Success? <==> payload && marshalled && rt.acceptsUrl(url))
            && (r.Success? ==>
                  && r.value.verb == verb && r.value.url == url && r.value.rawQuery == None
                  && r.value.body == (if acc.postBody.Some? then JsonBody(rt.marshal(acc.postBody.value).value)
                                      else if |acc.postFormParams| > 0 then FormBody(acc.postFormParams)
                                      else MultipartBody(acc.postMultiPartParam)))
            && (r.Failure? ==>
                  r.error == (if !payload then NilRequest
                              else if !marshalled then EncodingFailure
                              else InvalidRequest))
  {
  }

  /**
   * GET and DELETE: the request has no body whatever else is bound, and its raw query
   * is set exactly when some query value is bound.
   */
  lemma {:induction false} GetOutcome(verb: Verb, template: string, acc: Accumulators, rt: Runtime,
                   pathOrder: seq<string>, headerOrder: seq<string>)
    requires verb == GET || verb == DELETE
    requires rt.client.Some?
    requires forall k :: k in pathOrder ==> k in acc.pathSubstitutions
    requires forall k :: k in headerOrder ==> k in acc.headerParams
    ensures var r := Assemble(verb, template, acc, rt, pathOrder, headerOrder);
            var url := RequestUrl(template, acc, rt, pathOrder);
            && (r.Success? <==> rt.acceptsUrl(url))
            && (r.Success? ==>
                  && r.value.verb == verb && r.value.url == url && r.value.body == NoBody
                  && r.value.rawQuery == (if |acc.queryParams| > 0 then Some(acc.queryParams) else None))
            && (r.Failure? ==> r.error == InvalidRequest)
  {
  }

  /** A built request's headers are the prepared ones, then Accept, then the bindings. */
  lemma {:induction false} AssembledFrom(verb: Verb, template: string, acc: Accumulators, rt: Runtime,
                      pathOrder: seq<string>, headerOrder: seq<string>)
    requires forall k :: k in pathOrder ==> k in acc.pathSubstitutions
    requires forall k :: k in headerOrder ==> k in acc.headerParams
    requires Assemble(verb, template, acc, rt, pathOrder, headerOrder).Success?
    ensures rt.client.Some?
    ensures var url := RequestUrl(template, acc, rt, pathOrder);
      Prepare(verb, url, acc, rt).Success? &&
      Assemble(verb, template, acc, rt, pathOrder, headerOrder).value.header ==
      SetHeaders(SetHeader(Prepare(verb, url, acc, rt).value.header, "Accept", JsonType), acc.headerParams, headerOrder)
  {
  }

  /**
   * Setting Accept on a header map and then the bindings, seen key by key. Only the
   * values under the bound keys depend on the bindings naming distinct headers.
   */
  lemma {:induction false} AcceptThenBindings(base: Header, params: map<string, string>, order: seq<string>)
    requires Elems(order) == params.Keys
    ensures var h := SetHeaders(base["Accept" := JsonType], params, order);
            (CanonicallyDistinct(params) ==>
               forall k :: k in params ==> CanonicalKey(k) in h && h[CanonicalKey(k)] == params[k])
            && ("Accept" !in CanonicalKeys(params.Keys) ==> "Accept" in h && h["Accept"] == JsonType)
            && (forall c :: c in base && c != "Accept" && c !in CanonicalKeys(params.Keys) ==> c in h && h[c] == base[c])
            && h.Keys == base.Keys + {"Accept"} + CanonicalKeys(params.Keys)
  {
    SetHeadersKeys(base["Accept" := JsonType], params, order);
    if CanonicallyDistinct(params) {
      SetHeadersEffect(base["Accept" := JsonType], params, order);
    }
  }

  /** AcceptThenBindings on the header map of a freshly prepared request. */
  lemma {:induction false} HeaderResult(base: Header, post: bool, ct: string, params: map<string, string>, order: seq<string>)
    requires base == if post then map["Content-Type" := ct] else map[]
    requires Elems(order) == params.Keys
    ensures var h := SetHeaders(base["Accept" := JsonType], params, order);
            var bound := CanonicalKeys(params.Keys);
            && (CanonicallyDistinct(params) ==>
                  forall k :: k in params ==> CanonicalKey(k) in h && h[CanonicalKey(k)] == params[k])
            && ("Accept" !in bound ==> "Accept" in h && h["Accept"] == JsonType)
            && (post && "Content-Type" !in bound ==> "Content-Type" in h && h["Content-Type"] == ct)
            && h.Keys == {"Accept"} + (if post then {"Content-Type"} else {}) + bound
  {
    AcceptThenBindings(base, params, order);
  }

  /**
   * The headers of a built request: when no two header bindings name the same header,
   * each binding is present under its canonical key; Accept is application/json and
   * a POST/PUT Content-Type names the chosen encoding, unless a binding overrides them;
   * no other header is set.
   */
  lemma {:induction false} AssembledHeaders(verb: Verb, template: string, acc: Accumulators, rt: Runtime,
                         pathOrder: seq<string>, headerOrder: seq<string>)
    requires forall k :: k in pathOrder ==> k in acc.pathSubstitutions
    requires forall k :: k in headerOrder ==> k in acc.headerParams
    requires Elems(headerOrder) == acc.headerParams.Keys
    requires Assemble(verb, template, acc, rt, pathOrder, headerOrder).Success?
    ensures var h := Assemble(verb, template, acc, rt, pathOrder, headerOrder).value.header;
            var bound := CanonicalKeys(acc.headerParams.Keys);
            var post := verb == POST || verb == PUT;
            && (CanonicallyDistinct(acc.headerParams) ==>
                  forall k :: k in acc.headerParams ==> CanonicalKey(k) in h && h[CanonicalKey(k)] == acc.headerParams[k])
            && ("Accept" !in bound ==> "Accept" in h && h["Accept"] == JsonType)
            && (post && "Content-Type" !in bound ==>
                  "Content-Type" in h
                  && h["Content-Type"] == (if acc.postBody.Some? then JsonType
                                           else if |acc.postFormParams| > 0 then FormType
                                           else MultipartType))
            && h.Keys == {"Accept"} + (if post then {"Content-Type"} else {}) + bound
  {
    AssembledFrom(verb, template, acc, rt, pathOrder, headerOrder);
    var url := RequestUrl(template, acc, rt, pathOrder);
    var base := Prepare(verb, url, acc, rt).value.header;
    PrepareHeader(verb, url, acc, rt);
    HeaderSetLiteral(base, "Accept", JsonType);
    var ct := if acc.postBody.Some? then JsonType else if |acc.postFormParams| > 0 then FormType else MultipartType;
    HeaderResult(base, verb == POST || verb == PUT, ct, acc.headerParams, headerOrder);
  }

  /** The only header http.NewRequest's branch sets is a POST/PUT Content-Type. */
  lemma {:induction false} PrepareHeader(verb: Verb, url: string, acc: Accumulators, rt: Runtime)
    requires Prepare(verb, url, acc, rt).Success?
    ensures var h := Prepare(verb, url, acc, rt).value.header;
            h == if verb == POST || verb == PUT then
                   map["Content-Type" := if acc.postBody.Some? then JsonType
                                         else if |acc.postFormParams| > 0 then FormType
                                         else MultipartType]
                 else map[]
  {
    var ct := if acc.postBody.Some? then JsonType else if |acc.postFormParams| > 0 then FormType else MultipartType;
    if verb == POST || verb == PUT {
      HeaderSetLiteral(map[], "Content-Type", ct);
      assert Prepare(verb, url, acc, rt).value.header == SetHeader(map[], "Content-Type", ct);
    }
  }

  /** Setting Content-Type or Accept, both already canonical, writes that very key. */
  lemma {:induction false} HeaderSetLiteral(h: Header, key: string, value: string)
    requires key == "Content-Type" || key == "Accept"
    ensures SetHeader(h, key, value) == h[key := value]
  {
    CanonicalContentType();
    CanonicalAcceptFixed();
  }

  /** `build` outcomes agree when the path and header bindings agree and so does `Prepare`. */
  lemma {:induction false} SamePrepareSameBuild(verb: Verb, template: string, acc: Accumulators, acc2: Accumulators, rt: Runtime,
                             pathOrder: seq<string>, headerOrder: seq<string>)
    requires acc2.pathSubstitutions == acc.pathSubstitutions && acc2.headerParams == acc.headerParams
    requires forall k :: k in pathOrder ==> k in acc.pathSubstitutions
    requires forall k :: k in headerOrder ==> k in acc.headerParams
    requires rt.client.Some? ==>
               var url := RequestUrl(template, acc, rt, pathOrder);
               Prepare(verb, url, acc, rt) == Prepare(verb, url, acc2, rt)
    ensures Assemble(verb, template, acc, rt, pathOrder, headerOrder)
         == Assemble(verb, template, acc2, rt, pathOrder, headerOrder)
  {
  }

  /** A successful `Prepare` is completed by Accept and the header bindings. */
  lemma {:induction false} PreparedBuild(verb: Verb, template: string, acc: Accumulators, rt: Runtime,
                      pathOrder: seq<string>, headerOrder: seq<string>, req: Request)
    requires rt.client.Some?
    requires forall k :: k in pathOrder ==> k in acc.pathSubstitutions
    requires forall k :: k in headerOrder ==> k in acc.headerParams
    requires Prepare(verb, RequestUrl(template, acc, rt, pathOrder), acc, rt) == Success(req)
    ensures Assemble(verb, template, acc, rt, pathOrder, headerOrder)
         == Success(req.(header := SetHeaders(SetHeader(req.header, "Accept", JsonType), acc.headerParams, headerOrder)))
  {
  }

  /** A bound body decides the request: form and multipart bindings are then ignored. */
  lemma {:induction false} BodyTakesPriority(verb: Verb, template: string, acc: Accumulators, rt: Runtime,
                          pathOrder: seq<string>, headerOrder: seq<string>,
                          form: Values, multipart: map<string, seq<byte>>)
    requires acc.postBody.Some?
    requires forall k :: k in pathOrder ==> k in acc.pathSubstitutions
    requires forall k :: k in headerOrder ==> k in acc.headerParams
    ensures Assemble(verb, template, acc, rt, pathOrder, headerOrder)
         == Assemble(verb, template, acc.(postFormParams := form, postMultiPartParam := multipart), rt, pathOrder, headerOrder)
  {
    var acc2 := acc.(postFormParams := form, postMultiPartParam := multipart);
    if rt.client.Some? {
      var url := RequestUrl(template, acc, rt, pathOrder);
      assert Prepare(verb, url, acc, rt) == Prepare(verb, url, acc2, rt);
    }
    SamePrepareSameBuild(verb, template, acc, acc2, rt, pathOrder, headerOrder);
  }

  /** Without a body, bound form values decide the request: multipart fields are ignored. */
  lemma {:induction false} FormBeforeMultipart(verb: Verb, template: string, acc: Accumulators, rt: Runtime,
                            pathOrder: seq<string>, headerOrder: seq<string>,
                            multipart: map<string, seq<byte>>)
    requires acc.postBody.None? && |acc.postFormParams| > 0
    requires forall k :: k in pathOrder ==> k in acc.pathSubstitutions
    requires forall k :: k in headerOrder ==> k in acc.headerParams
    ensures Assemble(verb, template, acc, rt, pathOrder, headerOrder)
         == Assemble(verb, template, acc.(postMultiPartParam := multipart), rt, pathOrder, headerOrder)
  {
    var acc2 := acc.(postMultiPartParam := multipart);
    if rt.client.Some? {
      var url := RequestUrl(template, acc, rt, pathOrder);
      assert Prepare(verb, url, acc, rt) == Prepare(verb, url, acc2, rt);
    }
    SamePrepareSameBuild(verb, template, acc, acc2, rt, pathOrder, headerOrder);
  }

  /** POST and PUT ignore query bindings. */
  lemma {:induction false} PostIgnoresQuery(verb: Verb, template: string, acc: Accumulators, rt: Runtime,
                         pathOrder: seq<string>, headerOrder: seq<string>, query: Values)
    requires verb == POST || verb == PUT
    requires forall k :: k in pathOrder ==> k in acc.pathSubstitutions
    requires forall k :: k in headerOrder ==> k in acc.headerParams
    ensures Assemble(verb, template, acc, rt, pathOrder, headerOrder)
         == Assemble(verb, template, acc.(queryParams := query), rt, pathOrder, headerOrder)
  {
    var acc2 := acc.(queryParams := query);
    if rt.client.Some? {
      var url := RequestUrl(template, acc, rt, pathOrder);
      assert Prepare(verb, url, acc, rt) == Prepare(verb, url, acc2, rt);
    }
    SamePrepareSameBuild(verb, template, acc, acc2, rt, pathOrder, headerOrder);
  }

  /** GET and DELETE ignore body, form and multipart bindings. */
  lemma {:induction false} GetIgnoresPayload(verb: Verb, template: string, acc: Accumulators, rt: Runtime,
                          pathOrder: seq<string>, headerOrder: seq<string>,
                          body: Option<Value>, form: Values, multipart: map<string, seq<byte>>)
    requires verb == GET || verb == DELETE
    requires forall k :: k in pathOrder ==> k in acc.pathSubstitutions
    requires forall k :: k in headerOrder ==> k in acc.headerParams
    ensures Assemble(verb, template, acc, rt, pathOrder, headerOrder)
         == Assemble(verb, template, acc.(postBody := body, postFormParams := form, postMultiPartParam := multipart),
                     rt, pathOrder, headerOrder)
  {
    var acc2 := acc.(postBody := body, postFormParams := form, postMultiPartParam := multipart);
    if rt.client.Some? {
      var url := RequestUrl(template, acc, rt, pathOrder);
      assert Prepare(verb, url, acc, rt) == Prepare(verb, url, acc2, rt);
    }
    SamePrepareSameBuild(verb, template, acc, acc2, rt, pathOrder, headerOrder);
  }

  /** Header bindings applied in any two orders give the same headers. */
  lemma {:induction false} SetHeadersOrderIrrelevant(h: Header, params: map<string, string>, o1: seq<string>, o2: seq<string>)
    requires Elems(o1) == params.Keys && Elems(o2) == params.Keys
    requires CanonicallyDistinct(params)
    ensures SetHeaders(h, params, o1) == SetHeaders(h, params, o2)
  {
    SetHeadersKeys(h, params, o1);
    SetHeadersKeys(h, params, o2);
    SetHeadersEffect(h, params, o1);
    SetHeadersEffect(h, params, o2);
    var h1, h2 := SetHeaders(h, params, o1), SetHeaders(h, params, o2);
    forall c | c in h1
      ensures h1[c] == h2[c]
    {
      if c in CanonicalKeys(Elems(o1)) {
        var k :| k in o1 && CanonicalKey(k) == c;
        assert k in o2;
      }
    }
  }

  /**
   * On a well-formed template, with brace-free path bindings and header bindings that
   * name distinct headers, `build` does not depend on the order of Go's map iteration.
   */
  lemma {:induction false} BuildOrderIrrelevant(verb: Verb, ts: seq<PathTemplate.Segment>, acc: Accumulators, rt: Runtime,
                             p1: seq<string>, h1: seq<string>, p2: seq<string>, h2: seq<string>)
    requires PathTemplate.WellFormed(ts) && PathTemplate.BraceFreeBindings(acc.pathSubstitutions)
    requires CanonicallyDistinct(acc.headerParams)
    requires Elems(p1) == acc.pathSubstitutions.Keys && Elems(p2) == acc.pathSubstitutions.Keys
    requires Elems(h1) == acc.headerParams.Keys && Elems(h2) == acc.headerParams.Keys
    ensures Assemble(verb, PathTemplate.Render(ts), acc, rt, p1, h1)
         == Assemble(verb, PathTemplate.Render(ts), acc, rt, p2, h2)
  {
    if rt.client.Some? {
      PathTemplate.SubstitutionOrderIrrelevant(ts, acc.pathSubstitutions, p1, p2);
      var url := RequestUrl(PathTemplate.Render(ts), acc, rt, p1);
      match Prepare(verb, url, acc, rt)
      case Failure(_) =>
      case Success(req) =>
        SetHeadersOrderIrrelevant(SetHeader(req.header, "Accept", JsonType), acc.headerParams, h1, h2);
    }
  }

  /**
   * The golden endpoint end to end: PhotoID and ImageSize bound, then build with a
   * registered client. The request is a GET of base + "/photos/" + id with the query
   * "image_size" = the decimal form of size, no body, and only Accept set.
   */
  method GetPhotoDetails(rt: Runtime, id: string, size: Format.int64) returns (r: Result<Request, BuildError>)
    requires rt.client.Some? && rt.acceptsUrl(rt.client.value + "/photos/" + id)
    ensures r == Success(Request(GET, rt.client.value + "/photos/" + id, NoBody,
                                 map["Accept" := JsonType],
                                 Some(map["image_size" := [Format.FormatInt(size as int)]])))
  {
    var b := NewGetPhotoDetailsRequestBuilder();
    b := b.PhotoID(id);
    assert b.Accumulated() == Accumulators(map["id" := id], map[], map[], None, map[], map[]);
    b := b.ImageSize(size);
    ghost var query := map["image_size" := [Format.FormatInt(size as int)]];
    assert b.queryParams == query by {
      var e: Values := map[];
      assert "image_size" !in e;
      assert b.queryParams.Keys == {"image_size"};
      assert b.queryParams["image_size"] == [Format.FormatInt(size as int)];
    }
    assert b.Accumulated() == Accumulators(map["id" := id], query, map[], None, map[], map[]);
    ghost var pathOrder, headerOrder;
    r, pathOrder, headerOrder := b.Build(rt);
    DistinctSingleton(pathOrder, "id");
    assert Elems(headerOrder) == {};
    ElemsEmpty(headerOrder);
    GetPhotoDetailsAssembled(rt, id, size);
  }

  /** `build` on the golden endpoint's bindings, as a value. */
  lemma {:induction false} GetPhotoDetailsAssembled(rt: Runtime, id: string, size: Format.int64)
    requires rt.client.Some? && rt.acceptsUrl(rt.client.value + "/photos/" + id)
    ensures var query := map["image_size" := [Format.FormatInt(size as int)]];
            (Assemble(GET, "/photos/{id}", Accumulators(map["id" := id], query, map[], None, map[], map[]), rt, ["id"], [])
             == Success(Request(GET, rt.client.value + "/photos/" + id, NoBody, map["Accept" := JsonType], Some(query))))
  {
    var query := map["image_size" := [Format.FormatInt(size as int)]];
    var acc := Accumulators(map["id" := id], query, map[], None, map[], map[]);
    var url := rt.client.value + "/photos/" + id;
    PathTemplate.PhotosPath(id);
    assert RequestUrl("/photos/{id}", acc, rt, ["id"]) == url;
    var req := Request(GET, url, NoBody, map[], Some(query));
    assert Prepare(GET, url, acc, rt) == Success(req);
    PreparedBuild(GET, "/photos/{id}", acc, rt, ["id"], [], req);
    HeaderSetLiteral(map[], "Accept", JsonType);
    assert SetHeaders(map[]["Accept" := JsonType], map[], []) == map["Accept" := JsonType];
  }

  /** Only the empty sequence has no elements. */
  lemma {:induction false} ElemsEmpty(s: seq<string>)
    ensures Elems(s) == {} <==> s == []
  {
    if s != [] {
      assert s[0] in Elems(s);
    }
  }

  /** A duplicate-free listing has as many elements as the set it lists. */
  lemma {:induction false} DistinctCard(s: seq<string>)
    requires Distinct(s)
    ensures |Elems(s)| == |s|
  {
    if s != [] {
      assert Distinct(s[1..]) by {
        forall i, j | 0 <= i < j < |s[1..]| ensures s[1..][i] != s[1..][j] {
          assert s[1..][i] == s[i + 1] && s[1..][j] == s[j + 1];
        }
      }
      DistinctCard(s[1..]);
      assert s[0] !in Elems(s[1..]);
      assert Elems(s) == {s[0]} + Elems(s[1..]);
    }
  }

  /** A duplicate-free listing of a one-element set has one element. */
  lemma {:induction false} DistinctSingleton(s: seq<string>, x: string)
    requires Elems(s) == {x} && Distinct(s)
    ensures s == [x]
  {
    DistinctCard(s);
    assert |s| == 1;
    assert s[0] in Elems(s);
  }
}
