/**
 * Parameter assembly (`getParams` in index.js): run the route's compiled
 * path pattern against the request path and, on a match, build a fresh
 * name-to-value map from the captures, percent-decoding every non-empty one.
 *
 * The pattern compiler and its `exec` (the path-to-regexp library) and the
 * decoder (ECMAScript `decodeURIComponent`) are not part of this model: they
 * enter as the oracles `Exec` and `Decoder`.
 */
module PathParams {
  import opened Wrappers

  /** A regex capture as JavaScript sees it: `undefined` (the group took no part) or a string. */
  datatype Capture = Undefined | Str(s: string)

  /** JavaScript truthiness of a capture: a string that is not empty. */
  predicate Truthy(c: Capture)
  {
    c.Str? && c.s != ""
  }

  /** One capture group of a match, paired with the name of the pattern key it belongs to. */
  datatype Group = Group(name: string, capture: Capture)

  /** The params object: parameter name to stored value. */
  type Params = map<string, Capture>

  /** What `decodeURIComponent` throws on malformed percent-encoding. */
  datatype URIError = URIError

  /**
   * The compiled pattern run against a path: `None` for no match, otherwise
   * the capture groups in key order, each paired with its key's name.
   */
  type Exec = (string, string) -> Option<seq<Group>>

  /** `decodeURIComponent`: the decoded string, or `None` where it throws `URIError`. */
  type Decoder = string -> Option<string>

  /** What `getParams` gives back: `false`, a params object, or the error it let escape. */
  datatype ParamsResult = NoMatch | Matched(params: Params) | Threw(error: URIError)

  /** The value stored for one capture: decoded when truthy, unchanged otherwise. */
  function Stored(c: Capture, decode: Decoder): Result<Capture, URIError>
  {
    if Truthy(c) then
      match decode(c.s)
      case Some(d) => Ok(Str(d))
      case None => Err(URIError)
    else Ok(c)
  }

  /**
   * The params object after storing `groups` in order into an empty object,
   * or the first decoding error.
   */
  function Fill(groups: seq<Group>, decode: Decoder): Result<Params, URIError>
    decreases |groups|
  {
    if groups == [] then Ok(map[])
    else
      match Fill(groups[..|groups| - 1], decode)
      case Err(e) => Err(e)
      case Ok(p) =>
        var g := groups[|groups| - 1];
        match Stored(g.capture, decode)
        case Err(e) => Err(e)
        case Ok(v) => Ok(p[g.name := v])
  }

  /** The specification of `getParams` on the outcome of the compiled pattern. */
  function Extract(m: Option<seq<Group>>, decode: Decoder): ParamsResult
  {
    match m
    case None => NoMatch
    case Some(groups) =>
      match Fill(groups, decode)
      case Ok(p) => Matched(p)
      case Err(e) => Threw(e)
  }

  /** The key names of a match. */
  function Names(groups: seq<Group>): set<string>
  {
    set i | 0 <= i < |groups| :: groups[i].name
  }

  /** Every truthy capture of `groups` decodes without error. */
  predicate Decodable(groups: seq<Group>, decode: Decoder)
  {
    forall i :: 0 <= i < |groups| && Truthy(groups[i].capture) ==> decode(groups[i].capture.s).Some?
  }

  /** Group `i` is the last one carrying its name. */
  predicate LastWithName(groups: seq<Group>, i: int)
    requires 0 <= i < |groups|
  {
    forall j :: i < j < |groups| ==> groups[j].name != groups[i].name
  }

  /** Filling fails exactly when some truthy capture cannot be decoded. */
  lemma {:induction false} FillOkIffDecodable(groups: seq<Group>, decode: Decoder)
    ensures Fill(groups, decode).Ok? <==> Decodable(groups, decode)
    decreases |groups|
  {
    if groups != [] {
      var init := groups[..|groups| - 1];
      FillOkIffDecodable(init, decode);
      assert forall i :: 0 <= i < |init| ==> init[i] == groups[i];
    }
  }

  /** A successful fill has exactly the key names as its keys; an `undefined` capture still creates its key. */
  lemma {:induction false} FillKeys(groups: seq<Group>, decode: Decoder)
    requires Fill(groups, decode).Ok?
    ensures Fill(groups, decode).value.Keys == Names(groups)
    decreases |groups|
  {
    if groups != [] {
      var init := groups[..|groups| - 1];
      FillKeys(init, decode);
      assert Names(groups) == Names(init) + {groups[|groups| - 1].name} by {
        assert forall i :: 0 <= i < |init| ==> init[i] == groups[i];
      }
    }
  }

  /**
   * The value stored under a name is that of the last group carrying it:
   * the decoded capture when it is truthy, the capture as it is (`undefined`
   * or the empty string) otherwise.
   */
  lemma {:induction false} FillValue(groups: seq<Group>, decode: Decoder, i: int)
    requires Fill(groups, decode).Ok?
    requires 0 <= i < |groups| && LastWithName(groups, i)
    ensures groups[i].name in Fill(groups, decode).value
    ensures var c := groups[i].capture;
            var v := Fill(groups, decode).value[groups[i].name];
            if Truthy(c) then decode(c.s).Some? && v == Str(decode(c.s).value) else v == c
    decreases |groups|
  {
    var last := |groups| - 1;
    var init := groups[..last];
    if i < last {
      assert LastWithName(init, i) by {
        assert forall j :: 0 <= j < |init| ==> init[j] == groups[j];
      }
      FillValue(init, decode, i);
      assert groups[last].name != groups[i].name;
    }
  }

  /**
   * `getParams`: no match gives `NoMatch`; otherwise the captures are stored
   * one by one, in key order, into a fresh map, and a decoding error ends the
   * loop and escapes.
   */
  method GetParams(pattern: string, path: string, exec: Exec, decode: Decoder) returns (r: ParamsResult)
    ensures r == Extract(exec(pattern, path), decode)
    ensures r.NoMatch? <==> exec(pattern, path).None?
    ensures r.Threw? <==> exec(pattern, path).Some? && !Decodable(exec(pattern, path).value, decode)
    ensures r.Matched? ==> r.params.Keys == Names(exec(pattern, path).value)
    ensures exec(pattern, path) == Some([]) ==> r == Matched(map[])
  {
    var m := exec(pattern, path);
    if m.None? {
      return NoMatch;
    }
    var groups := m.value;
    var params: Params := map[];
    var i := 0;
    while i < |groups|
      invariant 0 <= i <= |groups|
      invariant Fill(groups[..i], decode) == Ok(params)
    {
      var g := groups[i];
      assert groups[..i + 1][..i] == groups[..i];
      var arg: Capture;
      if Truthy(g.capture) {
        var d := decode(g.capture.s);
        if d.None? {
          FillPrefixErr(groups, decode, i + 1);
          return Threw(URIError);
        }
        arg := Str(d.value);
      } else {
        arg := g.capture;
      }
      params := params[g.name := arg];
      i := i + 1;
    }
    assert groups[..i] == groups;
    FillOkIffDecodable(groups, decode);
    FillKeys(groups, decode);
    r := Matched(params);
  }

  /** Once a prefix of the groups fails to fill, so do the whole groups. */
  lemma {:induction false} FillPrefixErr(groups: seq<Group>, decode: Decoder, n: nat)
    requires n <= |groups| && Fill(groups[..n], decode).Err?
    ensures Fill(groups, decode).Err?
    decreases |groups| - n
  {
    if n < |groups| {
      assert groups[..n + 1][..n] == groups[..n];
      FillPrefixErr(groups, decode, n + 1);
    } else {
      assert groups[..n] == groups;
    }
  }
}

/** Worked instances of `getParams` with concrete oracles. */
module PathParamsExamples {
  import opened Wrappers
  import opened PathParams

  /**
   * With a decoder that rejects everything, `undefined` and empty captures
   * are still stored (they are never decoded), a later group with the same
   * name wins, and a non-empty capture makes the error escape.
   */
  lemma UntruthyCapturesAreNotDecoded()
    ensures var reject: Decoder := s => None;
            Extract(Some([Group("a", Str("")), Group("a", Undefined), Group("b", Str(""))]), reject)
              == Matched(map["a" := Undefined, "b" := Str("")])
    ensures var reject: Decoder := s => None;
            Extract(Some([Group("a", Str("x"))]), reject) == Threw(URIError)
    ensures var reject: Decoder := s => None;
            Extract(Some([]), reject) == Matched(map[])
  {
    var reject: Decoder := s => None;
    var gs := [Group("a", Str("")), Group("a", Undefined), Group("b", Str(""))];
    assert gs[..2][..1] == [Group("a", Str(""))];
    assert [Group("a", Str(""))][..0] == [];
    assert Fill([Group("a", Str(""))], reject) == Ok(map["a" := Str("")]);
    assert Fill(gs[..2], reject) == Ok(map["a" := Str("")]["a" := Undefined]);
    assert gs[..|gs| - 1] == gs[..2];
    assert map["a" := Str("")]["a" := Undefined]["b" := Str("")] == map["a" := Undefined, "b" := Str("")];
    assert Fill(gs, reject) == Ok(map["a" := Undefined, "b" := Str("")]);
  }
}
