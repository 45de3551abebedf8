/** The renderer helper (src/utilities/renderer-helper.ts): how a role becomes a permission
    level and an output format, how a renderer response is cut down before it is stored or
    returned, and how `getProblem` builds the form data it posts to the renderer and
    classifies a failed call. The HTTP call itself is a parameter: the reply it produced. */
module RendererHelper {
  import opened Outcomes
  import opened JsValues

  datatype OutputFormat = Single | Simple | Static | Assess {
    /** The string the renderer expects. */
    function Name(): string {
      match this
      case Single => "single"
      case Simple => "simple"
      case Static => "static"
      case Assess => "nosubmit"
    }
  }

  /** The role of a user; `OtherRole` is any value outside the enumeration. */
  datatype Role = Student | Professor | Admin | OtherRole

  /** Levels below 10 see the single-problem format, all others the simple format. */
  function OutputFormatForPermission(permissionLevel: int): (format: OutputFormat)
    ensures format == Single <==> permissionLevel < 10
    ensures format == Simple <==> permissionLevel >= 10
  {
    if permissionLevel < 10 then Single else Simple
  }

  function PermissionForRole(role: Role): (level: int)
    ensures role == Student ==> level == 0
    ensures role == Professor ==> level == 10
    ensures role == Admin ==> level == 20
    ensures level == -1 <==> role == OtherRole
    ensures level < 10 <==> role == Student || role == OtherRole
  {
    match role
    case Student => 0
    case Professor => 10
    case Admin => 20
    case OtherRole => -1
  }

  function OutputFormatForRole(role: Role): (format: OutputFormat)
    ensures format == Single <==> role == Student || role == OtherRole
    ensures format == Simple <==> role == Professor || role == Admin
  {
    OutputFormatForPermission(PermissionForRole(role))
  }

  const DATABASE_KEYS: seq<string> := ["form_data", "debug"]
  const RESPONSE_KEYS: seq<string> := ["renderedHTML"]

  /** The part of a renderer response that is stored: `form_data` and `debug`, each only when
      the response has it. */
  function CleanForTheDatabase(resp: Object): (cleaned: Object)
    ensures forall k ::
      Lookup(cleaned, k) == (if k == "form_data" || k == "debug" then Lookup(resp, k) else None)
    ensures KeysOf(cleaned) == KeysOf(resp) * {"form_data", "debug"}
  {
    var cleaned := Pick(resp, DATABASE_KEYS);
    forall k
      ensures Lookup(cleaned, k) ==
        (if k == "form_data" || k == "debug" then Lookup(resp, k) else None)
      ensures k in KeysOf(cleaned) <==> k in KeysOf(resp) * {"form_data", "debug"}
    {
      LookupPick(resp, DATABASE_KEYS, k);
    }
    cleaned
  }

  /** The part of a renderer response that goes back to the client: only `renderedHTML`. */
  function CleanForTheResponse(resp: Object): (cleaned: Object)
    ensures forall k :: Lookup(cleaned, k) == (if k == "renderedHTML" then Lookup(resp, k) else None)
    ensures KeysOf(cleaned) == KeysOf(resp) * {"renderedHTML"}
  {
    var cleaned := Pick(resp, RESPONSE_KEYS);
    forall k
      ensures Lookup(cleaned, k) == (if k == "renderedHTML" then Lookup(resp, k) else None)
      ensures k in KeysOf(cleaned) <==> k in KeysOf(resp) * {"renderedHTML"}
    {
      LookupPick(resp, RESPONSE_KEYS, k);
    }
    cleaned
  }

  /** The arguments of `getProblem`; `Undefined` stands for an argument not given. */
  datatype ProblemParameters = ProblemParameters(
    sourceFilePath: JsValue,
    problemSource: JsValue,
    problemSeed: JsValue,
    formURL: JsValue,
    baseURL: JsValue,
    outputformat: JsValue,
    lanugage: JsValue,
    showHints: JsValue,
    showSolutions: JsValue,
    permissionLevel: JsValue,
    problemNumber: JsValue,
    numCorrect: JsValue,
    numIncorrect: JsValue,
    processAnswers: JsValue,
    format: JsValue,
    formData: JsValue,
    showCorrectAnswers: JsValue)

  /** What the parameter types admit: `showHints` and `showSolutions` are booleans or
      numbers, and `formData` is an object, null or undefined. */
  predicate WellTyped(p: ProblemParameters) {
    && BooleanOrNumber(p.showHints)
    && BooleanOrNumber(p.showSolutions)
    && (p.formData.Undefined? || p.formData.Null?
        || (p.formData.Obj? && DistinctKeys(p.formData.fields)))
  }

  /** A destructuring default: it applies only when the argument is undefined. */
  function Default(v: JsValue, default: JsValue): JsValue {
    if v.Undefined? then default else v
  }

  /** The keys of the `params` object of `getProblem`, in the order it lists them. */
  const PARAM_NAMES: seq<string> := [
    "sourceFilePath", "problemSource", "problemSeed", "formURL", "baseURL", "outputformat",
    "format", "lanugage", "showHints", "showSolutions", "permissionLevel", "problemNumber",
    "numCorrect", "numIncorrect", "processAnswers", "showCorrectAnswers"]

  lemma ParamNamesUnique()
    ensures Unique(PARAM_NAMES)
  {
  }

  /** The `params` object of `getProblem`, after the destructuring defaults: each name of
      PARAM_NAMES with the value at the same position of ParamValues. */
  function RequestParams(p: ProblemParameters): (params: Object)
    requires WellTyped(p)
    ensures DistinctKeys(params)
  {
    ParamNamesUnique();
    ZipDistinct(PARAM_NAMES, ParamValues(p));
    Zip(PARAM_NAMES, ParamValues(p))
  }

  /** The i-th parameter looks up the i-th value. */
  lemma RequestParamAt(p: ProblemParameters, i: nat)
    requires WellTyped(p)
    requires i < |PARAM_NAMES|
    ensures Lookup(RequestParams(p), PARAM_NAMES[i]) == Some(ParamValues(p)[i])
  {
    ParamNamesUnique();
    LookupZip(PARAM_NAMES, ParamValues(p), i);
  }

  /** The destructuring defaults and conversions of `getProblem`: `baseURL` defaults to '/',
      `format` to 'json'; `showCorrectAnswers` becomes 'true' when truthy and is undefined
      otherwise; `showHints` is undefined when nil and a number otherwise; `showSolutions`
      is always converted with `Number`. */
  lemma RequestParamsDefaults(p: ProblemParameters)
    requires WellTyped(p)
    ensures Lookup(RequestParams(p), "baseURL") ==
      Some(if p.baseURL.Undefined? then Str("/") else p.baseURL)
    ensures Lookup(RequestParams(p), "format") ==
      Some(if p.format.Undefined? then Str("json") else p.format)
    ensures Lookup(RequestParams(p), "showCorrectAnswers") ==
      Some(if Truthy(p.showCorrectAnswers) then Str("true") else Undefined)
    ensures Lookup(RequestParams(p), "showHints") ==
      Some(if IsNil(p.showHints) then Undefined else ToNumber(p.showHints))
    ensures Lookup(RequestParams(p), "showSolutions") == Some(ToNumber(p.showSolutions))
  {
    RequestParamAt(p, 4);
    RequestParamAt(p, 6);
    RequestParamAt(p, 8);
    RequestParamAt(p, 9);
    RequestParamAt(p, 15);
  }

  /** The values of the `params` object, in the order of PARAM_NAMES. */
  function ParamValues(p: ProblemParameters): (values: seq<JsValue>)
    requires WellTyped(p)
    ensures |values| == |PARAM_NAMES|
  {
    [ p.sourceFilePath,
      p.problemSource,
      p.problemSeed,
      p.formURL,
      Default(p.baseURL, Str("/")),
      p.outputformat,
      Default(p.format, Str("json")),
      p.lanugage,
      if IsNil(p.showHints) then Undefined else ToNumber(p.showHints),
      ToNumber(p.showSolutions),
      p.permissionLevel,
      p.problemNumber,
      p.numCorrect,
      p.numIncorrect,
      p.processAnswers,
      if Truthy(Default(p.showCorrectAnswers, Bool(false))) then Str("true") else Undefined ]
  }

  /** The caller's form fields without their nil values (none when formData is nil). */
  function CallerFields(formData: JsValue): (fields: Object)
    requires formData.Obj? ==> DistinctKeys(formData.fields)
    ensures DistinctKeys(fields)
    ensures forall k ::
      (Lookup(fields, k) ==
       match (if formData.Obj? then Lookup(formData.fields, k) else None)
       case Some(v) => if IsNil(v) then None else Some(v)
       case None => None)
  {
    if formData.Obj? then
      var fields := OmitBy(formData.fields, IsNil);
      LookupOmitBy(formData.fields, IsNil, "");
      forall k
        ensures Lookup(fields, k) ==
          (match Lookup(formData.fields, k)
           case Some(v) => if IsNil(v) then None else Some(v)
           case None => None)
      {
        LookupOmitBy(formData.fields, IsNil, k);
      }
      fields
    else []
  }

  /** `{ ..._(formData).omitBy(_.isNil).value(), ..._(params).omitBy(_.isNil).value() }` */
  function MergedFormData(p: ProblemParameters): Object
    requires WellTyped(p)
  {
    Assign(Assign([], CallerFields(p.formData)), OmitBy(RequestParams(p), IsNil))
  }

  /** In the merged form data a non-nil request parameter overrides the caller's field of the
      same name, the caller's other fields are kept, nil values are absent, and no key is
      repeated. */
  lemma MergedFormDataLookup(p: ProblemParameters, k: string)
    requires WellTyped(p)
    ensures DistinctKeys(MergedFormData(p))
    ensures Lookup(MergedFormData(p), k) ==
      var param := Lookup(RequestParams(p), k);
      var caller := Lookup(CallerFields(p.formData), k);
      if param.Some? && !IsNil(param.value) then param else caller
    ensures Lookup(MergedFormData(p), k).Some? ==> !IsNil(Lookup(MergedFormData(p), k).value)
  {
    var params := RequestParams(p);
    var caller := CallerFields(p.formData);
    LookupOmitBy(params, IsNil, k);
    LookupAssign(Assign([], caller), OmitBy(params, IsNil), k);
    LookupAssign([], caller, k);
    AssignKeepsKeysDistinct([], caller);
    AssignKeepsKeysDistinct(Assign([], caller), OmitBy(params, IsNil));
  }

  /** A request parameter looked up as v reaches the renderer as v unless v is nil; a nil
      one leaves the name to the caller's form data. */
  lemma ParamReachesTheRenderer(p: ProblemParameters, k: string, v: JsValue)
    requires WellTyped(p)
    requires Lookup(RequestParams(p), k) == Some(v)
    ensures Lookup(MergedFormData(p), k) ==
      if IsNil(v) then Lookup(CallerFields(p.formData), k) else Some(v)
  {
    MergedFormDataLookup(p, k);
  }

  /** When no base URL is given the renderer receives '/', whatever the caller's form data
      holds under that name. */
  lemma BaseURLDefaultReachesTheRenderer(p: ProblemParameters)
    requires WellTyped(p)
    requires p.baseURL.Undefined?
    ensures Lookup(MergedFormData(p), "baseURL") == Some(Str("/"))
  {
    RequestParamAt(p, 4);
    ParamReachesTheRenderer(p, PARAM_NAMES[4], Str("/"));
  }

  /** When no format is given the renderer receives 'json', whatever the caller's form data
      holds under that name. */
  lemma FormatDefaultReachesTheRenderer(p: ProblemParameters)
    requires WellTyped(p)
    requires p.format.Undefined?
    ensures Lookup(MergedFormData(p), "format") == Some(Str("json"))
  {
    RequestParamAt(p, 6);
    ParamReachesTheRenderer(p, PARAM_NAMES[6], Str("json"));
  }

  /** `showCorrectAnswers` is posted as 'true' when the argument is truthy; otherwise the
      parameter is dropped and only a caller's own field of that name reaches the renderer. */
  lemma ShowCorrectAnswersReachesTheRenderer(p: ProblemParameters)
    requires WellTyped(p)
    ensures Lookup(MergedFormData(p), "showCorrectAnswers") ==
      if Truthy(p.showCorrectAnswers) then Some(Str("true"))
      else Lookup(CallerFields(p.formData), "showCorrectAnswers")
  {
    RequestParamAt(p, 15);
    ParamReachesTheRenderer(p, PARAM_NAMES[15], ParamValues(p)[15]);
  }

  /** The values appended for one property: none for a nil value, one per element, in
      order, for an array, and the value itself otherwise. */
  function Expand(v: JsValue): (values: seq<JsValue>)
  {
    if IsNil(v) then [] else if v.Arr? then v.items else [v]
  }

  /** The appends `value.forEach(data => append(key, data))` makes. */
  function Spread(key: string, items: seq<JsValue>): (fields: seq<Field>)
  {
    if items == [] then [] else [(key, items[0])] + Spread(key, items[1..])
  }

  /** The appends the loop body makes for one property. */
  function Appends(key: string, value: JsValue): (fields: seq<Field>)
  {
    if IsNil(value) then [] else if value.Arr? then Spread(key, value.items) else [(key, value)]
  }

  /** Every append the `for...in` loop of `getProblem` makes, in order. */
  function Encoded(formData: Object): seq<Field>
  {
    if formData == [] then [] else Appends(formData[0].0, formData[0].1) + Encoded(formData[1..])
  }

  lemma {:induction false} SpreadConcat(key: string, a: seq<JsValue>, b: seq<JsValue>)
    ensures Spread(key, a + b) == Spread(key, a) + Spread(key, b)
  {
    if a == [] {
      assert a + b == b;
    } else {
      assert (a + b)[1..] == a[1..] + b;
      SpreadConcat(key, a[1..], b);
    }
  }

  lemma {:induction false} EncodedConcat(a: Object, b: Object)
    ensures Encoded(a + b) == Encoded(a) + Encoded(b)
  {
    if a == [] {
      assert a + b == b;
    } else {
      assert (a + b)[1..] == a[1..] + b;
      EncodedConcat(a[1..], b);
    }
  }

  /** An array value with a nil element: `append` throws on that element. */
  predicate HoldsNil(v: JsValue) {
    v.Arr? && exists j :: 0 <= j < |v.items| && IsNil(v.items[j])
  }

  /** Some property of the form data makes `append` throw. */
  predicate AppendRejects(formData: Object) {
    exists i :: 0 <= i < |formData| && HoldsNil(formData[i].1)
  }

  /** The loop that appends the merged form data to the FormData body. It stops at the first
      `append` that throws. */
  method EncodeFormData(formData: Object) returns (appended: seq<Field>, failed: bool)
    ensures failed <==> AppendRejects(formData)
    ensures !failed ==> appended == Encoded(formData)
  {
    appended, failed := [], false;
    var i := 0;
    while i < |formData|
      invariant 0 <= i <= |formData|
      invariant !failed
      invariant forall k :: 0 <= k < i ==> !HoldsNil(formData[k].1)
      invariant appended == Encoded(formData[..i])
    {
      var (key, value) := formData[i];
      assert formData[..i + 1] == formData[..i] + [(key, value)];
      EncodedConcat(formData[..i], [(key, value)]);
      appended, failed := AppendProperty(appended, key, value);
      if failed {
        return;
      }
      i := i + 1;
    }
    assert formData[..i] == formData;
  }

  /** The body of the loop for one property: skip a nil value, append each element of an
      array under the key, append any other value once. Appending a nil element throws. */
  method AppendProperty(appended: seq<Field>, key: string, value: JsValue)
    returns (result: seq<Field>, failed: bool)
    ensures failed <==> HoldsNil(value)
    ensures !failed ==> result == appended + Appends(key, value)
  {
    result, failed := appended, false;
    if IsNil(value) {
      return;
    }
    if value.Arr? {
      var j := 0;
      while j < |value.items|
        invariant 0 <= j <= |value.items|
        invariant forall k :: 0 <= k < j ==> !IsNil(value.items[k])
        invariant result == appended + Spread(key, value.items[..j])
      {
        if IsNil(value.items[j]) {
          return result, true;
        }
        assert value.items[..j + 1] == value.items[..j] + [value.items[j]];
        SpreadConcat(key, value.items[..j], [value.items[j]]);
        result := result + [(key, value.items[j])];
        j := j + 1;
      }
      assert value.items[..j] == value.items;
    } else {
      result := result + [(key, value)];
    }
  }

  /** The values appended under one key, in order. */
  function ValuesUnder(fields: seq<Field>, key: string): seq<JsValue>
  {
    if fields == [] then []
    else (if fields[0].0 == key then [fields[0].1] else []) + ValuesUnder(fields[1..], key)
  }

  lemma {:induction false} ValuesUnderConcat(a: seq<Field>, b: seq<Field>, key: string)
    ensures ValuesUnder(a + b, key) == ValuesUnder(a, key) + ValuesUnder(b, key)
  {
    if a == [] {
      assert a + b == b;
    } else {
      var head := if a[0].0 == key then [a[0].1] else [];
      assert (a + b)[0] == a[0];
      assert (a + b)[1..] == a[1..] + b;
      ValuesUnderConcat(a[1..], b, key);
      calc {
        ValuesUnder(a + b, key);
        head + ValuesUnder(a[1..] + b, key);
        head + (ValuesUnder(a[1..], key) + ValuesUnder(b, key));
        (head + ValuesUnder(a[1..], key)) + ValuesUnder(b, key);
        ValuesUnder(a, key) + ValuesUnder(b, key);
      }
    }
  }

  lemma {:induction false} ValuesUnderSpread(k: string, items: seq<JsValue>, key: string)
    ensures ValuesUnder(Spread(k, items), key) == if k == key then items else []
  {
    if items != [] {
      ValuesUnderConcat([(k, items[0])], Spread(k, items[1..]), key);
      ValuesUnderSpread(k, items[1..], key);
    }
  }

  /** Per key, the appends are exactly the expansion of that key's value. */
  lemma {:induction false} EncodedPerKey(formData: Object, key: string)
    requires DistinctKeys(formData)
    ensures ValuesUnder(Encoded(formData), key) ==
      match Lookup(formData, key)
      case Some(v) => Expand(v)
      case None => []
  {
    if formData != [] {
      var (k, v) := formData[0];
      ValuesUnderConcat(Appends(k, v), Encoded(formData[1..]), key);
      EncodedPerKey(formData[1..], key);
      if v.Arr? {
        ValuesUnderSpread(k, v.items, key);
      }
      if k == key {
        assert Lookup(formData[1..], key).None?;
      }
    }
  }

  /** What reaches the renderer under each key: the request parameter's expansion when it is
      set, otherwise the caller's field's. */
  lemma PostedValues(p: ProblemParameters, key: string)
    requires WellTyped(p)
    ensures ValuesUnder(Encoded(MergedFormData(p)), key) ==
      var param := Lookup(RequestParams(p), key);
      var caller := Lookup(CallerFields(p.formData), key);
      if param.Some? && !IsNil(param.value) then Expand(param.value)
      else if caller.Some? then Expand(caller.value)
      else []
  {
    MergedFormDataLookup(p, key);
    EncodedPerKey(MergedFormData(p), key);
  }

  /** A request parameter that is set is posted as its own expansion, whatever the caller's
      form data holds under that name. */
  lemma ParamPosted(p: ProblemParameters, k: string, v: JsValue)
    requires WellTyped(p)
    requires Lookup(RequestParams(p), k) == Some(v)
    requires !IsNil(v)
    ensures ValuesUnder(Encoded(MergedFormData(p)), k) == Expand(v)
  {
    PostedValues(p, k);
  }

  const ERROR_MESSAGE_PREFIX := "Get problem from renderer error"

  /** A 404 answer means the problem path does not exist; every other failure is wrapped. */
  function ClassifyFailure(e: RendererFailure): (r: Error)
    ensures r.NotFound? <==> e.HttpFailure? && e.response.Some? && e.response.value.status == 404
    ensures !r.NotFound? ==> r.Wrapped? && r.cause == RendererCause(e)
    ensures r.Wrapped? && e.ApplicationFailure? ==> r.message == ERROR_MESSAGE_PREFIX
  {
    match e
    case HttpFailure(Some(resp)) =>
      if resp.status == 404 then NotFound("Problem path not found")
      else Wrapped(ERROR_MESSAGE_PREFIX + "; response: " + resp.data, RendererCause(e))
    case HttpFailure(None) =>
      Wrapped(ERROR_MESSAGE_PREFIX + "; response: undefined", RendererCause(e))
    case ApplicationFailure => Wrapped(ERROR_MESSAGE_PREFIX, RendererCause(e))
  }

  /** What the POST to the renderer produced: the response data, or a failure. */
  datatype RendererReply = Answered(data: JsValue) | Rejected(failure: RendererFailure)

  /** `getProblem`: the form data it posts, and what it resolves or rejects with. A throwing
      `append` rejects before anything is posted, outside the `try` that classifies failures. */
  method GetProblem(p: ProblemParameters, reply: RendererReply)
    returns (posted: seq<Field>, r: Result<JsValue>)
    requires WellTyped(p)
    ensures AppendRejects(MergedFormData(p)) ==>
      posted == [] && r == Err(TypeFailure(AppendOfNil))
    ensures !AppendRejects(MergedFormData(p)) ==> posted == Encoded(MergedFormData(p))
    ensures !AppendRejects(MergedFormData(p)) && reply.Answered? ==> r == Ok(reply.data)
    ensures !AppendRejects(MergedFormData(p)) && reply.Rejected? ==>
      r == Err(ClassifyFailure(reply.failure))
  {
    var formData := MergedFormData(p);
    var failed;
    posted, failed := EncodeFormData(formData);
    if failed {
      return [], Err(TypeFailure(AppendOfNil));
    }
    match reply
    case Answered(data) => r := Ok(data);
    case Rejected(failure) => r := Err(ClassifyFailure(failure));
  }
}
