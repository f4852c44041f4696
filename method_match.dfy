/**
 * The method check of a route (`matches` in index.js): the request method is
 * compared with the route's allowed method, or looked up in the route's list
 * of allowed methods, by exact string equality.
 */
module MethodMatch {

  /** What a route accepts: one method token, or a list of tokens. */
  datatype MethodSpec = Single(token: string) | Set(tokens: seq<string>)

  /** The set of request methods a spec accepts, independent of how it is written. */
  function Accepted(allowed: MethodSpec): set<string>
  {
    match allowed
    case Single(t) => {t}
    case Set(ts) => set i | 0 <= i < |ts| :: ts[i]
  }

  /**
   * Position of the first element of `list` equal to `verb`, or -1 when
   * there is none: JavaScript's `Array.prototype.indexOf` on strings.
   */
  function IndexOf(list: seq<string>, verb: string): (r: int)
    ensures -1 <= r < |list|
    ensures r == -1 <==> forall i :: 0 <= i < |list| ==> list[i] != verb
    ensures r >= 0 ==> list[r] == verb && forall i :: 0 <= i < r ==> list[i] != verb
    decreases |list|
  {
    if list == [] then -1
    else if list[0] == verb then 0
    else
      var k := IndexOf(list[1..], verb);
      if k == -1 then -1 else k + 1
  }

  /** True when `verb` is `allowed`, or is one of the `allowed` list. */
  predicate Matches(allowed: MethodSpec, verb: string)
    ensures Matches(allowed, verb) <==> verb in Accepted(allowed)
  {
    match allowed
    case Set(ts) =>
      var k := IndexOf(ts, verb);
      assert k != -1 <==> verb in Accepted(allowed) by {
        if verb in Accepted(allowed) {
          var i :| 0 <= i < |ts| && ts[i] == verb;
        }
      }
      k != -1
    case Single(t) => t == verb
  }

  /** Two lists with the same elements accept the same methods: order and duplicates do not matter. */
  lemma ListOrderIrrelevant(ts: seq<string>, us: seq<string>, verb: string)
    requires forall i :: 0 <= i < |ts| ==> ts[i] in us
    requires forall j :: 0 <= j < |us| ==> us[j] in ts
    ensures Matches(Set(ts), verb) == Matches(Set(us), verb)
  {
  }

  /** A single token is compared whole and case-sensitively: no folding, no prefix or substring test. */
  lemma SingleIsExact(token: string, verb: string)
    ensures Matches(Single(token), verb) <==> verb == token
    ensures Matches(Single("GET"), "GET")
    ensures !Matches(Single("GET"), "get")
    ensures !Matches(Single("GET"), "GETS")
    ensures !Matches(Single("GET"), "GE")
  {
  }
}
