/**
 * The graph loader (src/ts/components/Loader.tsx): it posts a request, picks the wanted part
 * of the JSON answer along a dotted path, and shows a graph component built from it, a
 * spinner while waiting, or a fixed apology when anything on the way fails.
 *
 * The request itself and `response.json()` are left to the caller: `Load` receives the
 * decoded answer, or `None` when the request or the decoding failed. A `TypeError` thrown by
 * the extraction lands in the same `catch` and is modelled as a `Failure`.
 */
module Loader {
  import opened Wrappers
  import opened JsonValues
  import opened Strings

  // ---------------------------------------------------------------------------------------
  // extractData

  /** `v.hasOwnProperty(key) ? v[key] : …` on a value that is neither null nor undefined:
      an object's own keys; an array's or a string's indices and `length`; nothing on a
      boolean or a number. */
  function OwnProperty(v: Json, key: string): (r: Option<Json>)
    ensures v.Obj? ==> (r.Some? <==> key in v.fields)
    ensures v.Bool? || v.Num? || v.Null? ==> r.None?
    ensures v.Arr? && key == "length" ==> r == Some(Num(|v.items|))
    ensures v.Arr? && key != "length" ==> (r.Some? <==> exists n: nat | n < |v.items| :: key == Decimal(n))
  {
    match v
    case Obj(m) => if key in m then Some(m[key]) else None
    case Arr(items) =>
      if key == "length" then Some(Num(|items|))
      else
        var i := ArrayIndex(key);
        ArrayIndexDecimals(key);
        if i.Some? && i.value < |items| then
          assert key == Decimal(i.value);
          Some(items[i.value])
        else None
    case Str(s) =>
      if key == "length" then Some(Num(|s|))
      else
        var i := ArrayIndex(key);
        if i.Some? && i.value < |s| then Some(Str([s[i.value]])) else None
    case _ => None
  }

  const TypeError: string := "TypeError"

  /** An object that owns a property named `hasOwnProperty`: the call
      `v.hasOwnProperty(key)` then reaches that property, a JSON value and never a function,
      instead of the inherited method, and throws. */
  predicate Shadowed(v: Json) {
    v.Obj? && "hasOwnProperty" in v.fields
  }

  /** The walk along the segments: a `TypeError` on null or undefined or on an object whose
      own `hasOwnProperty` hides the method, `null` as soon as a property is missing,
      otherwise one property per segment. */
  function Walk(cur: Option<Json>, keys: seq<string>): Result<Option<Json>, string>
    decreases |keys|
  {
    if keys == [] then Success(cur)
    else if cur.None? || cur.value.Null? || Shadowed(cur.value) then Failure(TypeError)
    else match OwnProperty(cur.value, keys[0])
      case Some(v) => Walk(Some(v), keys[1..])
      case None => Success(Some(Null))
  }

  /** The value reached when every segment is found without a throw. */
  function Reach(cur: Json, keys: seq<string>): Option<Json>
    decreases |keys|
  {
    if keys == [] then Some(cur)
    else if Shadowed(cur) then None
    else match OwnProperty(cur, keys[0])
      case Some(v) => Reach(v, keys[1..])
      case None => None
  }

  /** A walk whose first segments are all found goes on from where they lead. */
  lemma {:induction false} WalkAppend(j: Json, a: seq<string>, b: seq<string>)
    requires Reach(j, a).Some? && !j.Null?
    ensures Walk(Some(j), a + b) == Walk(Some(Reach(j, a).value), b)
    decreases |a|
  {
    if a != [] {
      assert (a + b)[0] == a[0] && (a + b)[1..] == a[1..] + b;
      var v := OwnProperty(j, a[0]).value;
      assert Walk(Some(j), a + b) == Walk(Some(v), a[1..] + b);
      assert Reach(j, a) == Reach(v, a[1..]);
      if v.Null? {
        assert a[1..] == [];
        assert a[1..] + b == b;
      } else {
        WalkAppend(v, a[1..], b);
      }
    } else {
      assert a + b == b;
    }
  }

  /** A missing segment ends the walk with `null`, whatever segments follow it; an object
      owning `hasOwnProperty` ends it with a `TypeError` whatever the segment. */
  lemma MissingStops(j: Json, a: seq<string>, key: string, b: seq<string>)
    requires Reach(j, a).Some? && !j.Null? && !Reach(j, a).value.Null?
    ensures Shadowed(Reach(j, a).value) ==> Walk(Some(j), a + [key] + b) == Failure(TypeError)
    ensures !Shadowed(Reach(j, a).value) && OwnProperty(Reach(j, a).value, key).None? ==>
              Walk(Some(j), a + [key] + b) == Success(Some(Null))
  {
    WalkAppend(j, a, [key] + b);
    assert a + [key] + b == a + ([key] + b);
  }

  /** Objects nested along `keys` around `v`. */
  function Nest(keys: seq<string>, v: Json): Json
    decreases |keys|
  {
    if keys == [] then v else Obj(map[keys[0] := Nest(keys[1..], v)])
  }

  /** A value stored under a dotted path is what the walk along that path finds, unless a
      segment is `hasOwnProperty`: the object holding that segment makes the walk throw. */
  lemma {:induction false} WalkNest(keys: seq<string>, v: Json)
    ensures "hasOwnProperty" !in keys ==> Walk(Some(Nest(keys, v)), keys) == Success(Some(v))
    ensures "hasOwnProperty" in keys ==> Walk(Some(Nest(keys, v)), keys) == Failure(TypeError)
    decreases |keys|
  {
    if keys != [] {
      assert keys == [keys[0]] + keys[1..];
      WalkNest(keys[1..], v);
    }
  }

  /** `extractData`: split the key on `.` and descend one property per segment. */
  method ExtractData(json: Option<Json>, outputKey: string) returns (r: Result<Option<Json>, string>)
    ensures r == Walk(json, Split(outputKey, '.'))
  {
    var keys := Split(outputKey, '.');
    var extracted := json;
    var i := 0;
    while i < |keys|
      invariant 0 <= i <= |keys|
      invariant Walk(json, keys) == Walk(extracted, keys[i..])
    {
      assert keys[i..][0] == keys[i] && keys[i..][1..] == keys[i + 1..];
      if extracted.None? || extracted.value.Null? || Shadowed(extracted.value) {
        // reading a property of null or undefined, or calling a non-function, throws
        return Failure(TypeError);
      }
      var found := OwnProperty(extracted.value, keys[i]);
      if found.None? {
        // the property is missing: the result is null and the walk stops
        return Success(Some(Null));
      }
      extracted := found;
      i := i + 1;
    }
    assert keys[i..] == [];
    return Success(extracted);
  }

  /** The part of the answer the loader renders: the walk over `response` when `multi` is
      truthy, the whole answer otherwise; `in` on a primitive or null throws. */
  function Select(json: Json, output: string): (r: Result<Option<Json>, string>)
    ensures json.Null? || json.Bool? || json.Num? || json.Str? ==> r.Failure?
    ensures json.Arr? ==> r == Success(Some(json))
    ensures json.Obj? && !(Get(json, "multi").Some? && JsTruthy(Get(json, "multi").value)) ==> r == Success(Some(json))
  {
    match json
    case Obj(m) =>
      if "multi" in m && JsTruthy(m["multi"]) then Walk(Get(json, "response"), Split(output, '.'))
      else Success(Some(json))
    case Arr(_) => Success(Some(json))
    case _ => Failure(TypeError)
  }

  // ---------------------------------------------------------------------------------------
  // initComponent

  /** The component the loader shows. */
  datatype Rendered =
    | NoComponent
    | CoreGraph(figure: Option<Json>)                     // dash_core_components.Graph
    | ExpressGraph(defParams: Option<Json>, plotApi: string) // dash_express_components.Graph

  const UpdatePath: string := "_dash-update-component"

  /** No output ends in both suffixes. */
  lemma SuffixesDiffer(output: string)
    ensures !(EndsWith(output, "figure") && EndsWith(output, "defParams"))
  {
    if EndsWith(output, "figure") {
      LastChar(output, "figure");
    }
    if EndsWith(output, "defParams") {
      LastChar(output, "defParams");
    }
  }

  lemma LastChar(s: string, suffix: string)
    requires EndsWith(s, suffix) && suffix != []
    ensures s[|s| - 1] == suffix[|suffix| - 1]
  {
    assert s[|s| - |suffix|..][|suffix| - 1] == s[|s| - 1];
  }

  /** `initComponent`: the output's suffix picks the component, `figure` before `defParams`;
      the express graph talks to `plotApi` instead of the first update endpoint in the url. */
  function InitComponent(output: string, url: string, extracted: Option<Json>): (r: Rendered)
    ensures r.CoreGraph? <==> EndsWith(output, "figure")
    ensures r.ExpressGraph? <==> EndsWith(output, "defParams")
    ensures r.NoComponent? <==> !EndsWith(output, "figure") && !EndsWith(output, "defParams")
    ensures r.CoreGraph? ==> r.figure == extracted
    ensures r.ExpressGraph? ==> r.defParams == extracted
    ensures r.ExpressGraph? && !Contains(url, UpdatePath) ==> r.plotApi == url
    ensures r.ExpressGraph? && Contains(url, UpdatePath) ==>
              exists k: nat :: && OccursAt(url, UpdatePath, k)
                               && (forall j: nat | j < k :: !OccursAt(url, UpdatePath, j))
                               && r.plotApi == url[..k] + "plotApi" + url[k + |UpdatePath|..]
  {
    SuffixesDiffer(output);
    if EndsWith(output, "figure") then CoreGraph(extracted)
    else if EndsWith(output, "defParams") then ExpressGraph(extracted, ReplaceFirst(url, UpdatePath, "plotApi"))
    else NoComponent
  }

  // ---------------------------------------------------------------------------------------
  // The widget

  const FetchError: string := "Error fetching data. Please try again later."

  /** What a completed load leads to: the component, or the fixed apology. */
  function Loaded(response: Option<Json>, url: string, output: string): (r: Result<Rendered, string>)
    ensures r.Failure? ==> r.error == FetchError
    ensures r.Success? <==> response.Some? && Select(response.value, output).Success?
    ensures r.Success? ==> r.value == InitComponent(output, url, Select(response.value, output).value)
  {
    if response.None? then Failure(FetchError)
    else match Select(response.value, output)
      case Success(x) => Success(InitComponent(output, url, x))
      case Failure(_) => Failure(FetchError)
  }

  /** An answer whose `response` owns a `hasOwnProperty` key ends in the apology, though the
      wanted `figure` is there. */
  lemma ShadowedAnswerFails()
    ensures var inner := Obj(map["hasOwnProperty" := Num(1), "figure" := Num(2)]);
            Loaded(Some(Obj(map["multi" := Bool(true), "response" := inner])), "/u", "figure")
              == Failure(FetchError)
  {
    var inner := Obj(map["hasOwnProperty" := Num(1), "figure" := Num(2)]);
    var answer := Obj(map["multi" := Bool(true), "response" := inner]);
    assert Get(answer, "response") == Some(inner);
    assert Shadowed(inner);
    var keys := Split("figure", '.');
    assert keys != [];
    assert Walk(Some(inner), keys) == Failure(TypeError);
    assert Select(answer, "figure") == Failure(TypeError);
  }

  /** What the widget shows. */
  datatype Display = Spinner | Alert(message: string) | Content(component: Rendered)

  class LoaderWidget {
    const url: string
    const output: string
    var loading: bool
    var data: Rendered
    var error: Option<string>

    /** The first render: a spinner. */
    constructor(url: string, output: string)
      ensures this.url == url && this.output == output
      ensures loading && data == NoComponent && error == None
      ensures View() == Spinner
    {
      this.url := url;
      this.output := output;
      loading := true;
      data := NoComponent;
      error := None;
    }

    /** The spinner while loading, then the error when one is set, else the component. */
    function View(): (d: Display)
      reads this
      ensures d.Spinner? <==> loading
    {
      if loading then Spinner
      else if error.Some? && error.value != "" then Alert(error.value)
      else Content(data)
    }

    /** The answer arrived (or the request failed): the loading flag goes down and either the
        component replaces the previous one and the error is cleared, or the error is set and
        the previous component is kept. */
    method Load(response: Option<Json>)
      modifies this`loading, this`data, this`error
      ensures !loading
      ensures Loaded(response, url, output).Success? ==>
                data == Loaded(response, url, output).value && error == None
                && View() == Content(Loaded(response, url, output).value)
      ensures Loaded(response, url, output).Failure? ==>
                data == old(data) && error == Some(FetchError) && View() == Alert(FetchError)
    {
      if response.None? {
        loading := false;
        error := Some(FetchError);
        return;
      }
      var json := response.value;
      var extracted: Option<Json>;
      if json.Obj? && "multi" in json.fields && JsTruthy(json.fields["multi"]) {
        var walked := ExtractData(Get(json, "response"), output);
        if walked.Failure? {
          loading := false;
          error := Some(FetchError);
          return;
        }
        extracted := walked.value;
      } else if json.Obj? || json.Arr? {
        extracted := response;
      } else {
        // `"multi" in jsonData` on a primitive or null throws
        loading := false;
        error := Some(FetchError);
        return;
      }
      var rendered := InitComponent(output, url, extracted);
      loading := false;
      data := rendered;
      error := None;
    }
  }
}
