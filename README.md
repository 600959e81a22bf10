# gorest request builder, in Dafny

gorest reads a Go interface annotated with tags such as `@GET("/photos/{id}")`,
`@PATH("id")` and `@QUERY("image_size")`, and generates a fluent request builder for it.
This project models that generated builder, as the golden output in
`generate/generate_test.go` shows it for the endpoint `GetPhotoDetails`. It also models
the two printers whose table tests share that file: `getParamsList` and `getParamType`.

The builder (module `Builder`) is a class with the six accumulators of the generated
struct:
- path substitutions;
- query values;
- form values;
- the body;
- multipart fields;
- header bindings.

Its setters update the accumulators in place. `applyPathSubstituions` is a loop of
`strings.Replace` calls over the path bindings. `build` checks for a registered rest
client. It then fills the path template, picks the payload branch from the verb and the
accumulators, sets `Accept`, and applies the header bindings.

Go's map iteration order is not fixed. The two loops therefore choose their next key
nondeterministically and report the order they used. The function `Builder.Assemble`
gives the outcome of `build` for given iteration orders; the lemmas about `build` are
stated over it.

The verb and the path template are literals in the generated code. Here they are
constant fields of the builder, so every branch of the verb switch can be reached.
`NewGetPhotoDetailsRequestBuilder` makes the golden builder, with `GET` and
`/photos/{id}`.

Supporting modules:
- `Strs` models `strings.Replace(s, old, new, -1)`, `strings.Join` and
  `strings.Split` on one character.
- `Format` models `fmt.Sprintf("%v", n)` for integers.
- `Http` models `url.Values.Add`, `http.Header.Set` with key canonicalisation
  (`textproto.CanonicalMIMEHeaderKey`), and the request value.
- `PathTemplate` models path substitution. It also gives a segment view of a
  template (literal text and `{key}` holes), over which substitution is
  characterised.
- `ParamRender` models the parameter printers, each with a parser that undoes it.

Outside calls are parameters of `Builder.Runtime`:
- the registered rest client and its base URL;
- `json.Marshal`;
- whether `http.NewRequest` accepts a url.

The generated code behaves as follows:
- The golden builder carries all six accumulators, although only path and query are
  bound on that interface. Nothing makes the accumulators mutually exclusive: `build`
  applies priorities instead. For POST/PUT the priority is body, then form, then
  multipart. GET/DELETE ignore all three.
- POST/PUT discard query bindings.
- A POST/PUT with no payload leaves `req` nil. Line 149 then dereferences it.
- Path substitution is not independent of map order in general. It is order-independent
  for templates whose text, keys and values contain no `{` and no `}`.

## Model

| member | source | states |
|---|---|---|
| Builder.RequestBuilder.constructor | generate/generate_test.go:64-72 | every accumulator starts as an empty container and no body is bound |
| Builder.NewGetPhotoDetailsRequestBuilder | generate/generate_test.go:64-72 | a fresh builder for GET `/photos/{id}` with all accumulators empty |
| Builder.RequestBuilder.PhotoID | generate/generate_test.go:74-77 | binds "id" to the value, overwriting an earlier binding; no other accumulator changes; returns the same builder |
| Builder.RequestBuilder.ImageSize | generate/generate_test.go:79-82 | appends the decimal form of the size to the values under "image_size"; no other accumulator changes; returns the same builder |
| Builder.RequestBuilder.ApplyPathSubstitutions | generate/generate_test.go:84-94 | visits every path binding exactly once. The result is the template after one replace-all per visited key, in visiting order. With no bindings the template comes back unchanged |
| Builder.RequestBuilder.NewRequest | generate/generate_test.go:102-148 | the result is that of the verb/payload matrix `Prepare`, including each error exit |
| Builder.Prepare | generate/generate_test.go:103-148 | the verb/payload switch: for POST/PUT the body, else the form, else the multipart fields, each with its Content-Type, and the error exits; for GET/DELETE no body and the raw query when query values are bound. Characterised by PostOutcome, GetOutcome and PrepareHeader |
| Builder.Assemble | generate/generate_test.go:96-154 | `build` under given iteration orders: the client check, the substituted url, Prepare, then Accept and the header bindings. Characterised by PostOutcome, GetOutcome, AssembledHeaders and BuildOrderIrrelevant; Build's ensures ties the method to it |
| Builder.RequestBuilder.SetHeaderParams | generate/generate_test.go:150-152 | visits every header binding exactly once and returns the headers after Set for each, in visiting order |
| Builder.RequestBuilder.Build | generate/generate_test.go:96-154 | no client gives ClientNotRegistered. Otherwise the path loop visits every path key; when the payload branch succeeds, the header loop visits every header key. The result is `Assemble` of the accumulators under the orders used |
| Builder.PostOutcome | generate/generate_test.go:104-139 | POST/PUT succeed exactly when a payload is bound, a bound body marshals and the url is accepted. The payload is the body if bound, else the form, else the multipart fields. The raw query is never set. Errors come in the order NilRequest, EncodingFailure, InvalidRequest |
| Builder.GetOutcome | generate/generate_test.go:140-148 | GET/DELETE succeed exactly when the url is accepted (otherwise InvalidRequest). There is no body. The raw query is set exactly when query values are bound |
| Builder.AssembledHeaders | generate/generate_test.go:104-152 | Accept is application/json unless a binding names it. A POST/PUT Content-Type names the chosen encoding unless a binding names it. No header other than these and the bound keys is present. When no two bindings share a canonical name, every binding is present under its canonical key with its value |
| Builder.AssembledFrom | generate/generate_test.go:149-152 | step lemma for AssembledHeaders: the built headers are the prepared ones, then Accept, then the header bindings |
| Builder.AcceptThenBindings | generate/generate_test.go:149-152 | after Accept and the bindings, Accept survives unless a binding names it, other headers are untouched, and the key set is the old keys plus Accept plus the bound keys. When no two bindings share a canonical name, each binding's value sits at its canonical key |
| Builder.HeaderResult | generate/generate_test.go:116-152 | AcceptThenBindings on the header map of a freshly prepared request: only Accept, the branch's Content-Type and the bound keys are present; the binding values are stated when no two bindings share a canonical name |
| Builder.PrepareHeader | generate/generate_test.go:103-148 | the only header a payload branch sets is Content-Type: application/json, form-urlencoded or multipart/form-data. GET/DELETE set none |
| Builder.HeaderSetLiteral | generate/generate_test.go:116-149 | Set of the literal keys Content-Type and Accept writes exactly that key |
| Builder.BodyTakesPriority | generate/generate_test.go:105-124 | when a body is bound, the form and multipart bindings have no effect on the result |
| Builder.FormBeforeMultipart | generate/generate_test.go:117-124 | without a body, bound form values make the multipart bindings irrelevant |
| Builder.PostIgnoresQuery | generate/generate_test.go:104-139 | POST/PUT results do not depend on query bindings |
| Builder.GetIgnoresPayload | generate/generate_test.go:140-148 | GET/DELETE results do not depend on body, form or multipart bindings |
| Builder.SetHeadersOrderIrrelevant | generate/generate_test.go:150-152 | with bindings naming distinct headers, any two visiting orders give the same headers |
| Builder.BuildOrderIrrelevant | generate/generate_test.go:84-152 | on a brace-free template with brace-free bindings and distinct header names, `build` gives the same result for any two iteration orders |
| Builder.GetPhotoDetails | generate/generate_test.go:64-154 | the golden endpoint end to end. A fresh builder gets PhotoID(id) and ImageSize(size), then builds with a client whose http.NewRequest accepts base+"/photos/"+id. The result is a GET of that url with no body, only Accept: application/json, and the query image_size=[decimal size] |
| Builder.GetPhotoDetailsAssembled | generate/generate_test.go:96-154 | `Assemble` on the golden endpoint's bindings, as that concrete request |
| Http.Add | generate/generate_test.go:80 | url.Values.Add appends the value to the key's list, creating it if absent; other keys are untouched |
| Http.SetHeader | generate/generate_test.go:149-152 | Header.Set stores the value under the canonical form of the key, replacing that entry only |
| Http.SetHeaders | generate/generate_test.go:150-152 | the header loop: Set for each binding in the visiting order. Characterised by SetHeadersKeys and SetHeadersEffect |
| Http.CanonicalKey | generate/generate_test.go:149-152 | the key canonicalisation of Header.Set: a key of token characters only is brought into canonical case, any other key is kept. Characterised by CanonicalCaseAt and CanonicalKeyIdempotent |
| Http.SetHeadersEffect | generate/generate_test.go:150-152 | when no two bindings share a canonical name, each binding is present under its canonical key after the header loop, whatever the order |
| Http.SetHeadersKeys | generate/generate_test.go:150-152 | after the header loop, headers no binding names keep their values, and the key set is the old one plus the canonical bound keys, even for colliding bindings |
| Http.OverlayEffect | generate/generate_test.go:150-152 | the header loop with any key mapping that keeps the bindings apart: each binding sits under its image |
| Http.OverlayKeys | generate/generate_test.go:150-152 | the header loop with any key mapping: entries no binding maps to keep their values, and the key set is the old one plus the images |
| Http.SetHeadersOverlay | generate/generate_test.go:150-152 | the header loop is that loop with canonicalisation as the key mapping |
| Http.CanonicalKeyIdempotent | generate/generate_test.go:149-152 | canonicalising a header key twice is the same as once |
| Http.CanonicalCaseTwice | generate/generate_test.go:149-152 | the case mapping is idempotent and keeps token characters token characters |
| Http.CanonicalCaseAt | generate/generate_test.go:149-152 | a letter of a canonical key is upper case exactly when it opens the key or follows a '-' |
| Http.CanonicalAccept | generate/generate_test.go:149-152 | a binding for "accept" lands on "Accept", so it overrides the default |
| Http.CanonicalAcceptFixed | generate/generate_test.go:149 | "Accept" is already canonical |
| Http.CanonicalContentType | generate/generate_test.go:116-138 | "Content-Type" is already canonical |
| Format.FormatNat | generate/generate_test.go:80 | decimal digits with no leading zero; one digit exactly below ten |
| Format.FormatInt | generate/generate_test.go:80 | never empty; starts with '-' exactly for negative numbers |
| Format.ParseFormatInt | generate/generate_test.go:80 | the printed integer reads back as itself |
| Format.ParseFormatNat | generate/generate_test.go:80 | the printed natural reads back as itself |
| Format.FormatIntInjective | generate/generate_test.go:80 | distinct sizes print differently, so the query keeps the value |
| Strs.ReplaceAll | generate/generate_test.go:90 | strings.Replace with count -1: left-to-right replacement of non-overlapping occurrences. Characterised by ReplaceAllConcat, ReplaceAllAbsent, ReplaceAllExact and ReplaceAllSelf |
| Strs.ReplaceAllSelf | generate/generate_test.go:90 | replacing a pattern by itself changes nothing |
| Strs.ReplaceAllAbsent | generate/generate_test.go:90 | a string without the pattern's first character is unchanged |
| Strs.ReplaceAllExact | generate/generate_test.go:90 | the pattern alone becomes the replacement |
| Strs.ReplaceAllConcat | generate/generate_test.go:90 | when no occurrence straddles the boundary, replacement distributes over concatenation |
| Strs.SplitJoin | generate/generate_test.go:240-247 | splitting a join whose parts lack the separator gives back the parts |
| Strs.JoinSplit | generate/generate_test.go:240-247 | joining a split gives back the string |
| Strs.Join | generate/generate_test.go:240-247 | strings.Join on one separator character. Characterised by SplitJoin and JoinSplit, which pair it with Split |
| PathTemplate.Braced | generate/generate_test.go:90 | the placeholder is the key between '{' and '}' |
| PathTemplate.SubstituteInOrder | generate/generate_test.go:89-91 | the replace loop: one replace-all per key, in the visiting order. Characterised against the segment semantics Expand by SubstituteRender and SubstituteAllKeys |
| PathTemplate.BracedPrefix | generate/generate_test.go:90 | a text starting with the placeholder of one brace-free key starts with the placeholder of no other brace-free key |
| PathTemplate.SegmentReplace | generate/generate_test.go:90 | one replace-all on a single segment fills it exactly when it is the hole of that key |
| PathTemplate.ReplaceRender | generate/generate_test.go:90 | on a brace-free template with a brace-free key, one replace-all fills exactly the holes of that key |
| PathTemplate.SubstituteRender | generate/generate_test.go:84-94 | on a well-formed template (brace-free text and `{key}` holes) with brace-free keys and values, any visiting order fills exactly the holes of the visited keys, each with its value |
| PathTemplate.SubstituteAllKeys | generate/generate_test.go:84-94 | on a well-formed template with brace-free keys and values, visiting every bound key gives the template with all bound holes filled |
| PathTemplate.SubstitutionOrderIrrelevant | generate/generate_test.go:89-91 | on brace-free templates and bindings, the visiting order does not matter |
| PathTemplate.OrderMattersWithBraces | generate/generate_test.go:89-91 | without the brace-free premises the order matters: "{{a}}" with a→"b" and b→"Y" gives "Y" in the order a, b and "{b}" in the order b, a |
| PathTemplate.SubstituteIdempotent | generate/generate_test.go:84-94 | on a well-formed template with brace-free keys and values, substituting all bound keys a second time, in any order, changes nothing |
| PathTemplate.ExpandAt | generate/generate_test.go:84-94 | a bound hole becomes its value; an unbound hole stays as the literal "{key}" |
| PathTemplate.PhotosPath | generate/generate_test.go:101 | "/photos/{id}" with id bound to v becomes "/photos/" + v |
| ParamRender.ParseRenderType | generate/generate_test.go:260-296 | a printed well-formed type reads back as itself |
| ParamRender.RenderParseType | generate/generate_test.go:260-296 | any text the type parser accepts is the printing of that well-formed type |
| ParamRender.ParseTypeIff | generate/generate_test.go:260-296 | a text reads back as a type exactly when the type is well-formed and prints as that text |
| ParamRender.RenderType | generate/generate_test.go:260-296 | getParamType: an identifier verbatim, a pointer as "*" and its element, a selector as pkg.Name. ParseTypeIff makes it the inverse of ParseType on well-formed types |
| ParamRender.ParseRenderParam | generate/generate_test.go:216-258 | a printed "name type" entry reads back as its parameter |
| ParamRender.RenderParseParam | generate/generate_test.go:216-258 | any entry the parser accepts is the printing of that parameter |
| ParamRender.RenderEach | generate/generate_test.go:216-258 | one entry per parameter, in declaration order |
| ParamRender.RenderParams | generate/generate_test.go:216-258 | getParamsList: the "name type" entries joined by "," without spaces. Characterised by ParseRenderParams and RenderParseParams |
| ParamRender.ParseEachRendered | generate/generate_test.go:216-258 | the printed entries of well-formed parameters read back as those parameters |
| ParamRender.ParseEachSound | generate/generate_test.go:216-258 | entries that read back as parameters are the printing of those well-formed parameters |
| ParamRender.RenderParamsCons | generate/generate_test.go:236-248 | a parameter in front of a nonempty list prints in front of it after a "," |
| ParamRender.ParseRenderParams | generate/generate_test.go:216-258 | a printed list of well-formed parameters reads back as that list, the empty list included |
| ParamRender.RenderParseParams | generate/generate_test.go:216-258 | any text the list parser accepts is the printing of those parameters |
| ParamRender.ParamsListEmpty | generate/generate_test.go:222-227 | no parameters print as "" |
| ParamRender.ParamsListOne | generate/generate_test.go:229-234 | `arg string` prints as "arg string" and reads back |
| ParamRender.ParamsListTwo | generate/generate_test.go:236-241 | two parameters print as "arg1 string,arg2 int" and read back |
| ParamRender.ParamsListFour | generate/generate_test.go:243-248 | four parameters print as "arg1 string,arg2 int,arg3 bool,arg4 string" and read back |
| ParamRender.ParamTypeIdent | generate/generate_test.go:266-271 | `string` prints as "string" and reads back |
| ParamRender.ParamTypePointer | generate/generate_test.go:273-278 | `*Pointer` prints as "*Pointer" and reads back |
| ParamRender.ParamTypeQualifiedPointer | generate/generate_test.go:280-285 | `*some.Pointer` prints as "*some.Pointer" and reads back |

## Left out

- Run and RunAsync (generate/generate_test.go:156-201): they execute the request over the network, log debug output and call callbacks from a goroutine. That is I/O and concurrency.
- The generator's text output (generate/generate_test.go:30-202, 210-213): the model covers the behaviour of the generated builder, not the bytes of the emitted Go source. The generator and its templates are not part of this model.
- Go source parsing with go/parser and the parse package (generate/generate_test.go:203-208, 252-255, 289-293): parameter lists and type expressions are given as datatypes instead.
- Encodings stay abstract, because they are library internals: url.Values.Encode of the query and form (lines 118, 146), the multipart writer (lines 125-134) and json.Marshal (line 107). A form or multipart body carries its unencoded contents, and json.Marshal is a parameter that may fail.
- The multipart writer's error exits (lines 128-134): writing to a bytes.Buffer does not fail.
- The multipart fields' order in the body: it follows Go's map order, and the body is abstract.
- http.NewRequest (lines 112, 120, 135, 141): reduced to a parameter deciding whether the url is accepted. The verb is always one of the four valid methods.
- restclient.GetClient and BaseURL (line 97): the registered client is a parameter.
- Builder.Prepare: a POST or PUT with no payload makes the Go code dereference a nil request at line 149 and panic. The model returns the error NilRequest instead.
- Builder.RequestBuilder.ImageSize: Go's `int` is taken as 64-bit (`Format.int64`); the decimal printing covers that whole range.
- fmt.Sprintf("%v", …) is modelled only for the two types bound here: a string, printed unchanged, and an integer, printed in decimal.
- Http.CanonicalKey: ASCII only, as in net/textproto. Keys with a character outside the token set are left unchanged, as Go does.
- PathTemplate.SubstitutionOrderIrrelevant: claimed only for templates of brace-free text and `{key}` holes, with brace-free keys and values. Without that the order matters, as PathTemplate.OrderMattersWithBraces shows.
- Builder.BuildOrderIrrelevant: same premises as above, and no two header bindings may name the same canonical header. Otherwise the last binding visited wins, and that depends on Go's map order.
- Builder.AssembledHeaders: the value under each bound header is stated only when no two header bindings share a canonical name, for the same reason. The set of headers is stated in every case.
- ParamRender: identifiers are ASCII letters, digits and `_`. Unicode identifiers are not modelled.
- getParamType: only the three forms that the table test prints are modelled; array, map, func and ellipsis types are not.
- getParamsList: only one name per field is modelled. Fields declaring several names (`a, b int`) are not.
