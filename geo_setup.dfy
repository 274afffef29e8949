/**
 * The reader of regionalisation setups (`Setup.read` / `Setup.fromSerialized`):
 * a JSON file is either a serialized setup (an object with the members
 * "setup" and "features") or plain GeoJSON. In the serialized case the
 * arrays `setup.properties` and `setup.bindings` are filtered and mapped
 * element by element. The JSON library and the GeoJSON, parameter and
 * binding parsers are foreign; they enter as the functions of `Parsers`.
 */
module GeoSetup {
  import opened Wrappers

  /** A JSON element, as much of it as the reader inspects. */
  datatype Json =
    | JNull
    | JPrimitive(text: string)
    | JArray(elements: seq<Json>)
    | JObject(members: JsonObject)

  /** The members of a JSON object (Gson's `JsonObject`). */
  type JsonObject = map<string, Json>

  /** The setup that the reader produces. */
  datatype Setup<P, B, F> = Setup(params: seq<P>, bindings: seq<B>, features: F)

  /**
   * The foreign collaborators: `FeatureCollection.fromJson`,
   * `new FeatureCollection()`, `GeoParam.collectFrom`, `GeoParam.fromJson` and
   * `GeoFlowBinding.fromJson` (with the database already bound). A parser
   * result `None` is a Java `null`.
   */
  datatype Parsers<P, B, !F> = Parsers(
    featuresFromJson: JsonObject -> F,
    emptyFeatures: F,
    collectParams: F -> seq<P>,
    paramFromJson: JsonObject -> Option<P>,
    bindingFromJson: JsonObject -> Option<B>)

  /** `Json.getObject`: the member when it is present and an object, else null. */
  function GetObject(obj: JsonObject, key: string): (r: Option<JsonObject>)
  {
    if key in obj && obj[key].JObject? then Some(obj[key].members) else None
  }

  /** `Json.getArray`: the member when it is present and an array, else null. */
  function GetArray(obj: JsonObject, key: string): (r: Option<seq<Json>>)
  {
    if key in obj && obj[key].JArray? then Some(obj[key].elements) else None
  }

  /** `json.has("setup") && json.has("features")`: presence only, of any kind. */
  predicate IsSerialized(json: JsonObject)
  {
    "setup" in json && "features" in json
  }

  /** What one array element contributes: nothing for a non-object or a null parse. */
  function Parsed<T>(e: Json, parse: JsonObject -> Option<T>): (r: seq<T>)
  {
    if e.JObject? then
      match parse(e.members)
      case Some(v) => [v]
      case None => []
    else []
  }

  /**
   * The stream chain `filter(isJsonObject).map(getAsJsonObject).map(parse)
   * .filter(nonNull)` collected into a list.
   */
  function Collect<T>(elements: seq<Json>, parse: JsonObject -> Option<T>): (r: seq<T>)
    ensures |r| <= |elements|
  {
    if elements == [] then [] else Parsed(elements[0], parse) + Collect(elements[1..], parse)
  }

  /** Collecting a concatenation is the concatenation of the collected parts. */
  lemma {:induction false} CollectAppend<T>(a: seq<Json>, b: seq<Json>, parse: JsonObject -> Option<T>)
    ensures Collect(a + b, parse) == Collect(a, parse) + Collect(b, parse)
  {
    if a == [] {
      assert a + b == b;
    } else {
      assert (a + b)[1..] == a[1..] + b;
      CollectAppend(a[1..], b, parse);
    }
  }

  /**
   * Splitting at element `i`: the results of the elements before `i` come
   * first, then what `i` contributes, then the results of those after it.
   */
  lemma {:induction false} CollectAt<T>(elements: seq<Json>, i: nat, parse: JsonObject -> Option<T>)
    requires i < |elements|
    ensures Collect(elements, parse)
         == Collect(elements[..i], parse) + Parsed(elements[i], parse) + Collect(elements[i + 1..], parse)
  {
    var before, after := elements[..i], elements[i + 1..];
    assert elements == before + ([elements[i]] + after);
    CollectAppend(before, [elements[i]] + after, parse);
    assert ([elements[i]] + after)[1..] == after;
    assert Collect([elements[i]] + after, parse) == Parsed(elements[i], parse) + Collect(after, parse);
  }

  /** A non-object element, or one whose parse is null, is dropped without a trace. */
  lemma {:induction false} CollectDrops<T>(elements: seq<Json>, i: nat, parse: JsonObject -> Option<T>)
    requires i < |elements|
    requires !elements[i].JObject? || parse(elements[i].members).None?
    ensures Collect(elements, parse) == Collect(elements[..i] + elements[i + 1..], parse)
  {
    CollectAt(elements, i, parse);
    CollectAppend(elements[..i], elements[i + 1..], parse);
  }

  /** A value is collected exactly when some object element of the array parses to it. */
  lemma {:induction false} CollectMember<T>(elements: seq<Json>, parse: JsonObject -> Option<T>, v: T)
    ensures v in Collect(elements, parse)
        <==> exists i :: 0 <= i < |elements| && elements[i].JObject? && parse(elements[i].members) == Some(v)
  {
    if elements != [] {
      CollectMember(elements[1..], parse, v);
      if v in Collect(elements[1..], parse) {
        var i :| 0 <= i < |elements[1..]| && elements[1..][i].JObject? && parse(elements[1..][i].members) == Some(v);
        assert elements[i + 1] == elements[1..][i];
      }
      if exists i :: 0 <= i < |elements| && elements[i].JObject? && parse(elements[i].members) == Some(v) {
        var i :| 0 <= i < |elements| && elements[i].JObject? && parse(elements[i].members) == Some(v);
        if i > 0 {
          assert elements[1..][i - 1] == elements[i];
        }
      }
    }
  }

  /**
   * `fromSerialized`: the features come from the "features" object (an empty
   * collection when it is missing); params and bindings from the "properties"
   * and "bindings" arrays of the "setup" object, each list independently
   * empty when its array is missing, both empty when "setup" is.
   */
  function FromSerialized<P, B, F>(json: JsonObject, parsers: Parsers<P, B, F>): (r: Setup<P, B, F>)
    ensures GetObject(json, "features").None? ==> r.features == parsers.emptyFeatures
    ensures GetObject(json, "features").Some? ==> r.features == parsers.featuresFromJson(GetObject(json, "features").value)
    ensures GetObject(json, "setup").None? ==> r.params == [] && r.bindings == []
    ensures GetObject(json, "setup").Some? ==>
      var setup := GetObject(json, "setup").value;
      && (GetArray(setup, "properties").None? ==> r.params == [])
      && (GetArray(setup, "bindings").None? ==> r.bindings == [])
      && (GetArray(setup, "properties").Some? ==> r.params == Collect(GetArray(setup, "properties").value, parsers.paramFromJson))
      && (GetArray(setup, "bindings").Some? ==> r.bindings == Collect(GetArray(setup, "bindings").value, parsers.bindingFromJson))
  {
    var features := match GetObject(json, "features")
      case None => parsers.emptyFeatures
      case Some(obj) => parsers.featuresFromJson(obj);
    match GetObject(json, "setup")
    case None => Setup([], [], features)
    case Some(setup) =>
      var params := match GetArray(setup, "properties")
        case None => []
        case Some(properties) => Collect(properties, parsers.paramFromJson);
      var bindings := match GetArray(setup, "bindings")
        case None => []
        case Some(bindings) => Collect(bindings, parsers.bindingFromJson);
      Setup(params, bindings, features)
  }

  /**
   * `read`: null for a missing file or unreadable JSON; a serialized setup
   * when both "setup" and "features" are present; otherwise raw GeoJSON whose
   * params are collected from its features, with no bindings.
   */
  function Read<File, P, B, F>(file: Option<File>, readObject: File -> Option<JsonObject>, parsers: Parsers<P, B, F>)
    : (r: Option<Setup<P, B, F>>)
    ensures r.None? <==> file.None? || readObject(file.value).None?
    ensures r.Some? && !IsSerialized(readObject(file.value).value) ==>
      var json := readObject(file.value).value;
      && r.value.features == parsers.featuresFromJson(json)
      && r.value.params == parsers.collectParams(r.value.features)
      && r.value.bindings == []
    ensures r.Some? && IsSerialized(readObject(file.value).value) ==>
      r.value == FromSerialized(readObject(file.value).value, parsers)
  {
    match file
    case None => None
    case Some(f) =>
      match readObject(f)
      case None => None
      case Some(json) =>
        if IsSerialized(json) then Some(FromSerialized(json, parsers))
        else
          var features := parsers.featuresFromJson(json);
          Some(Setup(parsers.collectParams(features), [], features))
  }
}
