/**
 * The route factory of index.js: `route(method, path, middleware)` gives a
 * middleware that checks the request method, then the path, and on a full
 * match writes the extracted parameters onto the context and hands control
 * to the wrapped middleware instead of `next`. `GET`, `POST`, `PUT` and
 * `DELETE` are `route` with a fixed method spec.
 */
module Router {
  import opened Wrappers
  import opened MethodMatch
  import opened PathParams

  /** What `route` is given to wrap: one middleware, or an array of them (by name). */
  datatype Middleware = One(name: string) | Many(names: seq<string>)

  /** The middleware the route yields to: the one given, or the composition of the array. */
  datatype Handler = Wrapped(name: string) | Composed(chain: seq<string>)

  /** A configured route: allowed methods, path pattern and the middleware to yield to. */
  datatype Route = Route(allowed: MethodSpec, pattern: string, handler: Handler)

  /** Where control goes when the route's generator runs. */
  datatype Continuation = Next | Yield(handler: Handler) | Throw(error: URIError)

  /** The continuation taken and the value of `ctx.params` afterwards (`None`: never set). */
  datatype Outcome = Outcome(cont: Continuation, params: Option<Params>)

  /** `route`: an array of middleware is composed once, at construction; one middleware is used as it is. */
  function MakeRoute(allowed: MethodSpec, pattern: string, middleware: Middleware): Route
  {
    match middleware
    case One(n) => Route(allowed, pattern, Wrapped(n))
    case Many(ns) => Route(allowed, pattern, Composed(ns))
  }

  /** `GET`: the route accepts GET and HEAD requests and nothing else. */
  function Get(pattern: string, middleware: Middleware): (r: Route)
    ensures forall verb :: Matches(r.allowed, verb) <==> verb == "GET" || verb == "HEAD"
  {
    MakeRoute(Set(["GET", "HEAD"]), pattern, middleware)
  }

  /** `POST`: the route accepts POST requests only. */
  function Post(pattern: string, middleware: Middleware): (r: Route)
    ensures forall verb :: Matches(r.allowed, verb) <==> verb == "POST"
  {
    MakeRoute(Single("POST"), pattern, middleware)
  }

  /** `PUT`: the route accepts PUT and PATCH requests and nothing else. */
  function Put(pattern: string, middleware: Middleware): (r: Route)
    ensures forall verb :: Matches(r.allowed, verb) <==> verb == "PUT" || verb == "PATCH"
  {
    MakeRoute(Set(["PUT", "PATCH"]), pattern, middleware)
  }

  /** `DELETE`: the route accepts DELETE requests only. */
  function Delete(pattern: string, middleware: Middleware): (r: Route)
    ensures forall verb :: Matches(r.allowed, verb) <==> verb == "DELETE"
  {
    MakeRoute(Single("DELETE"), pattern, middleware)
  }

  /**
   * One run of the route's generator on a request, as a value: the method
   * check, then `getParams`, then either `next` or the handler.
   */
  function Dispatched(route: Route, verb: string, path: string, prior: Option<Params>,
                      exec: Exec, decode: Decoder): Outcome
  {
    if !Matches(route.allowed, verb) then Outcome(Next, prior)
    else
      match Extract(exec(route.pattern, path), decode)
      case NoMatch => Outcome(Next, prior)
      case Threw(e) => Outcome(Throw(e), prior)
      case Matched(p) => Outcome(Yield(route.handler), Some(p))
  }

  /**
   * When the method is not accepted, the outcome is `next` with the params
   * untouched, whatever the path and whatever the pattern or decoder would do:
   * the path is never examined.
   */
  lemma MethodMismatchSkipsPath(route: Route, verb: string, path: string, path': string,
                                prior: Option<Params>, exec: Exec, exec': Exec,
                                decode: Decoder, decode': Decoder)
    requires !Matches(route.allowed, verb)
    ensures Dispatched(route, verb, path, prior, exec, decode) == Outcome(Next, prior)
    ensures Dispatched(route, verb, path, prior, exec, decode)
         == Dispatched(route, verb, path', prior, exec', decode')
  {
  }

  /** An accepted method with a path the pattern does not match also goes to `next`, params untouched. */
  lemma PathMismatchGoesNext(route: Route, verb: string, path: string, prior: Option<Params>,
                             exec: Exec, decode: Decoder)
    requires Matches(route.allowed, verb) && exec(route.pattern, path).None?
    ensures Dispatched(route, verb, path, prior, exec, decode) == Outcome(Next, prior)
  {
  }

  /**
   * The route yields its handler exactly when the method is accepted, the
   * pattern matches and every truthy capture decodes; then `ctx.params` is
   * the fresh map over exactly the key names (possibly empty), and `next`
   * is not taken.
   */
  lemma YieldIffFullMatch(route: Route, verb: string, path: string, prior: Option<Params>,
                          exec: Exec, decode: Decoder)
    ensures var o := Dispatched(route, verb, path, prior, exec, decode);
            o.cont.Yield? <==>
              Matches(route.allowed, verb) && exec(route.pattern, path).Some?
              && Decodable(exec(route.pattern, path).value, decode)
    ensures var o := Dispatched(route, verb, path, prior, exec, decode);
            o.cont.Yield? ==>
              o.cont.handler == route.handler
              && o.params == Some(Fill(exec(route.pattern, path).value, decode).value)
              && o.params.value.Keys == Names(exec(route.pattern, path).value)
  {
    var m := exec(route.pattern, path);
    if m.Some? {
      FillOkIffDecodable(m.value, decode);
      if Fill(m.value, decode).Ok? {
        FillKeys(m.value, decode);
      }
    }
  }

  /**
   * The middleware a route yields to is fixed when the route is built: any
   * two requests that reach it yield the same handler, whatever their method,
   * path, prior params, pattern oracle and decoder; it is a composition
   * exactly when an array was given.
   */
  lemma HandlerFixedAtConstruction(allowed: MethodSpec, pattern: string, middleware: Middleware,
                                   verb: string, path: string, prior: Option<Params>, exec: Exec, decode: Decoder,
                                   verb': string, path': string, prior': Option<Params>, exec': Exec, decode': Decoder)
    ensures var route := MakeRoute(allowed, pattern, middleware);
            var o := Dispatched(route, verb, path, prior, exec, decode);
            var o' := Dispatched(route, verb', path', prior', exec', decode');
            o.cont.Yield? && o'.cont.Yield? ==> o.cont.handler == o'.cont.handler
    ensures var route := MakeRoute(allowed, pattern, middleware);
            var o := Dispatched(route, verb, path, prior, exec, decode);
            o.cont.Yield? ==> (o.cont.handler.Composed? <==> middleware.Many?)
  {
  }

  /**
   * A decoding error escapes from the route: the method is accepted, the
   * pattern matches, some truthy capture cannot be decoded, and the params
   * are untouched.
   */
  lemma ThrowIffUndecodable(route: Route, verb: string, path: string, prior: Option<Params>,
                            exec: Exec, decode: Decoder)
    ensures var o := Dispatched(route, verb, path, prior, exec, decode);
            o.cont.Throw? <==>
              Matches(route.allowed, verb) && exec(route.pattern, path).Some?
              && !Decodable(exec(route.pattern, path).value, decode)
    ensures var o := Dispatched(route, verb, path, prior, exec, decode);
            !o.cont.Yield? ==> o.params == prior
  {
    var m := exec(route.pattern, path);
    if m.Some? {
      FillOkIffDecodable(m.value, decode);
    }
  }

  /** The request context: its method and path, and the `params` slot a matching route writes. */
  class Context {
    var verb: string
    var path: string
    var params: Option<Params>

    /** A request that no route has matched yet: `params` is unset. */
    constructor(verb: string, path: string)
      ensures this.verb == verb && this.path == path && params == None
    {
      this.verb := verb;
      this.path := path;
      params := None;
    }

    /**
     * The generator `route` returns, run once on this context: only `params`
     * may change, and only when the handler is yielded to.
     */
    method Dispatch(route: Route, exec: Exec, decode: Decoder) returns (c: Continuation)
      modifies this`params
      ensures Outcome(c, params) == Dispatched(route, verb, path, old(params), exec, decode)
      ensures !Matches(route.allowed, verb) ==> c == Next && params == old(params)
      ensures !c.Yield? ==> params == old(params)
    {
      if Matches(route.allowed, verb) {
        var r := GetParams(route.pattern, path, exec, decode);
        match r
        case Threw(e) =>
          return Throw(e);
        case Matched(p) =>
          params := Some(p);
          return Yield(route.handler);
        case NoMatch =>
      }
      c := Next;
    }
  }
}
