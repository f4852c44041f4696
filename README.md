# Single-route matcher for Koa (index.js), modelled in Dafny

`index.js` turns one configured route (an allowed HTTP method or list of
methods, a path pattern and a middleware) into a Koa v1 generator
middleware. On each request it checks the request method, then runs the
compiled path pattern against `ctx.path`. On a full match it writes the
percent-decoded captures to `ctx.params` and yields to the wrapped
middleware. When the method is not accepted or the path does not match, it
yields to `next` and leaves the context alone. When a non-empty capture is
malformed percent-encoding, `decodeURIComponent` throws `URIError`, which
escapes the route: neither `next` nor the middleware is yielded to, and
`ctx.params` is not written.
`GET`, `POST`, `PUT` and `DELETE` are `route` with a fixed method spec.

The model has four modules:

- `MethodMatch` (`method_match.dfy`): `matches`. The method spec is the datatype
  `Single(token) | Set(tokens)`, and `Accepted` gives the set of methods a spec
  accepts, independent of how the spec is written.
- `PathParams` (`path_params.dfy`): `getParams`. It is an imperative method with a loop,
  proved against the specification function `Fill`.
  The path-to-regexp compiler and its `exec` are the oracle `Exec`. For a pattern
  and a path it gives either `None` or the capture groups in key order, each
  paired with its key's name. `decodeURIComponent` is the oracle `Decoder`, where
  `None` means that it throws `URIError`. A capture is `Undefined` or `Str(s)`. It
  is truthy when it is a non-empty string.
- `Router` (`router.dfy`): `route`, the four bindings and the request context. The
  context is a class whose `Dispatch` method runs the route's generator once. The
  method returns the continuation taken (`Next`, `Yield(handler)` or
  `Throw(URIError)`) and writes `params` only on a match. It is proved against the
  pure function `Dispatched`.
- `Wrappers` (`wrappers.dfy`): `Option` and `Result`.

Behaviour of index.js worth noting:

- An empty-string capture is stored as the empty string. It is not turned into
  an absent value, because the code does `arg ? decodeURIComponent(arg) : arg`
  (index.js:36).
- Duplicate parameter names are not rejected. The later capture overwrites the
  earlier one (index.js:33-37).
- The pattern is compiled on every request whose method is accepted, not once
  at construction (index.js:30, after the check at index.js:57). A pattern that
  path-to-regexp rejects therefore throws on each such request, never when
  `route` builds the route, and never at all on a route whose method never
  matches.
- The route yields the wrapped middleware without passing `next` to it
  (index.js:62). The model only records which continuation is taken.

## Model

| member | source | states |
|---|---|---|
| MethodMatch.IndexOf | index.js:16 | the result is -1 exactly when no element equals the method; otherwise it is the position of the first element equal to it |
| MethodMatch.Matches | index.js:13-19 | a request method matches exactly when it is in the spec's accepted set: equal to the single token, or equal to some element of the list |
| MethodMatch.ListOrderIrrelevant | index.js:15-16 | two lists holding the same elements accept the same methods, so order and duplicates do not matter |
| MethodMatch.SingleIsExact | index.js:17 | for every token and method, a single-token spec matches exactly when the method equals the token; for example "get", "GETS" and "GE" do not match "GET" |
| PathParams.FillOkIffDecodable | index.js:33-37 | filling the params fails exactly when some truthy capture cannot be decoded |
| PathParams.FillPrefixErr | index.js:36 | once a decoding error occurs, it escapes the whole loop |
| PathParams.FillKeys | index.js:33-37 | a successful fill has exactly the key names as keys, including names whose capture is undefined |
| PathParams.FillValue | index.js:33-37 | the value under a name comes from the last group with that name: decoded when truthy, otherwise stored unchanged (undefined or "") |
| PathParams.GetParams | index.js:28-41 | no match gives NoMatch (`false`); otherwise the loop's map equals Fill, keyed by exactly the key names; a zero-capture match gives an empty map, not NoMatch; an undecodable truthy capture makes URIError escape |
| PathParamsExamples.UntruthyCapturesAreNotDecoded | index.js:36 | with a decoder that rejects everything, undefined and empty captures are still stored and a later duplicate name wins, while a non-empty capture throws |
| Router.HandlerFixedAtConstruction | index.js:52-62 | the handler a route yields to is fixed when the route is built: any two requests that reach it yield the same handler, and it is a composition exactly when an array was given |
| Router.Get | index.js:71 | the GET binding accepts exactly GET and HEAD |
| Router.Post | index.js:72 | the POST binding accepts exactly POST |
| Router.Put | index.js:73 | the PUT binding accepts exactly PUT and PATCH |
| Router.Delete | index.js:74 | the DELETE binding accepts exactly DELETE |
| Router.MethodMismatchSkipsPath | index.js:57-65 | when the method is not accepted, the outcome is next with params unchanged, whatever the path, the pattern oracle and the decoder |
| Router.PathMismatchGoesNext | index.js:57-65 | when the method is accepted and the pattern does not match, the outcome is next with params unchanged |
| Router.YieldIffFullMatch | index.js:57-62 | the handler is yielded to exactly when the method is accepted, the pattern matches and every truthy capture decodes; params then become the fresh map Fill builds from the captures, over exactly the key names, possibly empty |
| Router.ThrowIffUndecodable | index.js:57-62 | URIError escapes exactly when the method is accepted, the pattern matches and some truthy capture fails to decode; whenever the handler is not yielded to, params are unchanged |
| Router.Context.Dispatch | index.js:56-66 | one run of the generator: the continuation and the new params are those of Dispatched; only params may change, and only when the handler is yielded to |

## Left out

- path-to-regexp (index.js:2, index.js:30) is not part of this model. Its grammar and `exec` are the oracle `Exec`.
- The oracle pairs each capture with its key's name. This builds in the library's guarantee that the number of captures equals the number of keys. A longer capture list would make `keys[i].name` throw a TypeError, and the model does not represent that case.
- The internals of `decodeURIComponent` (UTF-8 reassembly, which inputs are malformed) are not modelled. It is the oracle `Decoder`.
- koa-compose and the generator/`co` mechanics (index.js:1, index.js:54, index.js:62, index.js:65) are not modelled. The model records only which continuation is taken.
- `debug` logging (index.js:3, index.js:60) is diagnostics only.
- JavaScript property-key quirks of the params object are not modelled. For example, a key named `__proto__` hits the inherited setter, which ignores a string or `undefined` value, so that key is absent from the object. Params are a plain `map`, which does hold it.
- The per-request compile error is not modelled: the oracle `Exec` cannot throw, so a pattern that path-to-regexp rejects at index.js:30 has no counterpart here.
- A method spec that is neither a string nor an array is not modelled. The datatype admits only those two shapes.
