/** The backend registry of models/model_factory.py: an insertion-ordered map
    from model name to backend, filled once from the credentials present in
    the environment, with named lookup and a fixed fallback order. */
module ModelFactory {
  import opened Wrappers
  import opened Http
  import opened Text
  import opened OrderedMap

  /** A generation backend, opaque apart from the values it was built from. */
  datatype Backend =
    | GoogleModel(apiKey: string, modelName: string)
    | BedrockModel(accessKey: string, secretKey: string, region: string, modelId: string)
    | CustomModel(id: string)

  /** The process environment: variable name to value. */
  type Environment = map<string, string>

  type Registry = OrderedMap<string, Backend>

  /** The order in which a default backend is chosen. */
  const PreferenceOrder: seq<string> := ["google", "bedrock"]

  const NoModelsDetail: string := "No AI models are currently available"

  /** The 400 error for an unregistered name, listing the registered names. */
  function NotAvailable(name: string, available: seq<string>): HttpError {
    HttpError(400, "Model '" + name + "' not available. Available models: " + Join(available, ", "))
  }

  /** `_initialize_models`: Google when its key is set, then Bedrock when both
      AWS keys are set, each built with its constructor's defaults. */
  function InitializeModels(reg: Registry, env: Environment): (r: Registry)
    ensures "GOOGLE_API_KEY" in env ==> Get(r, "google") == Some(GoogleModel(env["GOOGLE_API_KEY"], "gemini-1.5-flash"))
    ensures "GOOGLE_API_KEY" !in env ==> Get(r, "google") == Get(reg, "google")
    ensures "AWS_ACCESS_KEY" in env && "AWS_SECRET_KEY" in env ==>
      Get(r, "bedrock") == Some(BedrockModel(env["AWS_ACCESS_KEY"], env["AWS_SECRET_KEY"], "us-west-2", "anthropic.claude-v2"))
    ensures !("AWS_ACCESS_KEY" in env && "AWS_SECRET_KEY" in env) ==> Get(r, "bedrock") == Get(reg, "bedrock")
    ensures forall n :: n != "google" && n != "bedrock" ==> Get(r, n) == Get(reg, n)
  {
    var withGoogle :=
      if "GOOGLE_API_KEY" in env
      then Put(reg, "google", GoogleModel(env["GOOGLE_API_KEY"], "gemini-1.5-flash"))
      else reg;
    assert && ("GOOGLE_API_KEY" in env ==> Get(withGoogle, "google") == Some(GoogleModel(env["GOOGLE_API_KEY"], "gemini-1.5-flash")))
           && forall n :: n != "google" ==> Get(withGoogle, n) == Get(reg, n) by {
      if "GOOGLE_API_KEY" in env {
        PutGetSame(reg, "google", GoogleModel(env["GOOGLE_API_KEY"], "gemini-1.5-flash"));
        PutGetOthers(reg, "google", GoogleModel(env["GOOGLE_API_KEY"], "gemini-1.5-flash"));
      }
    }
    if "AWS_ACCESS_KEY" in env && "AWS_SECRET_KEY" in env
    then
      var bedrock := BedrockModel(env["AWS_ACCESS_KEY"], env["AWS_SECRET_KEY"], "us-west-2", "anthropic.claude-v2");
      PutGetSame(withGoogle, "bedrock", bedrock);
      PutGetOthers(withGoogle, "bedrock", bedrock);
      Put(withGoogle, "bedrock", bedrock)
    else withGoogle
  }

  /** `ModelFactory()`: the shared map is initialised only while it is empty,
      so an existing entry is never replaced. */
  function Construct(reg: Registry, env: Environment): (r: Registry)
    ensures forall n :: n in Keys(reg) ==> Get(r, n) == Get(reg, n)
    ensures |reg| == 0 ==>
      Keys(r) == (if "GOOGLE_API_KEY" in env then ["google"] else [])
                 + (if "AWS_ACCESS_KEY" in env && "AWS_SECRET_KEY" in env then ["bedrock"] else [])
  {
    if |reg| == 0 then
      InitializeModelsKeys(env);
      InitializeModels(reg, env)
    else reg
  }

  /** The first name of `names` that is registered: every name before it in
      the list is unregistered. */
  function FirstRegistered(reg: Registry, names: seq<string>): (r: Option<string>)
    ensures r.Some? ==> r.value in names && r.value in Keys(reg)
    ensures r.Some? ==> exists i :: 0 <= i < |names| && names[i] == r.value
                                    && forall j :: 0 <= j < i ==> names[j] !in Keys(reg)
    ensures r.None? ==> forall n :: n in names ==> n !in Keys(reg)
    decreases |names|
  {
    if |names| == 0 then None
    else if names[0] in Keys(reg) then Some(names[0])
    else
      var r := FirstRegistered(reg, names[1..]);
      assert r.Some? ==> exists i :: 0 <= i < |names| && names[i] == r.value
                                     && forall j :: 0 <= j < i ==> names[j] !in Keys(reg) by {
        if r.Some? {
          var i :| 0 <= i < |names[1..]| && names[1..][i] == r.value
                   && forall j :: 0 <= j < i ==> names[1..][j] !in Keys(reg);
          assert names[i + 1] == r.value;
          forall j | 0 < j < i + 1
            ensures names[j] !in Keys(reg)
          {
            assert names[j] == names[1..][j - 1];
          }
        }
      }
      r
  }

  /** `get_model`: a non-empty name must be registered; otherwise the
      preference order decides. */
  function GetModel(reg: Registry, name: Option<string>): (r: Result<Backend, HttpError>)
    ensures name.Some? && name.value != "" ==> (r.Success? <==> name.value in Keys(reg))
    ensures name.None? || name.value == "" ==> (r.Success? <==> "google" in Keys(reg) || "bedrock" in Keys(reg))
    ensures r.Failure? ==> r.error.status == (if name.Some? && name.value != "" then 400 else 503)
  {
    if name.Some? && name.value != "" then
      match Get(reg, name.value)
      case Some(b) => Success(b)
      case None => Failure(NotAvailable(name.value, Keys(reg)))
    else
      match FirstRegistered(reg, PreferenceOrder)
      case Some(n) => Success(Get(reg, n).value)
      case None =>
        assert PreferenceOrder[0] == "google" && PreferenceOrder[1] == "bedrock";
        Failure(HttpError(503, NoModelsDetail))
  }

  /** `register_model`: insert or overwrite one name. */
  function RegisterModel(reg: Registry, name: string, model: Backend): (r: Registry)
    ensures Get(r, name) == Some(model)
    ensures forall n :: n != name ==> Get(r, n) == Get(reg, n)
  {
    PutGetSame(reg, name, model);
    PutGetOthers(reg, name, model);
    Put(reg, name, model)
  }

  /** `list_available_models`: the registered names in insertion order. */
  function ListAvailableModels(reg: Registry): (names: seq<string>)
    ensures |names| == |reg|
    ensures forall n :: n in names <==> Get(reg, n).Some?
  {
    Keys(reg)
  }

  // ---------------------------------------------------------------------------
  // Properties

  /** A non-empty registered name resolves to exactly its entry; an unknown one
      fails with 400 and lists every registered name, in insertion order. */
  lemma GetModelByName(reg: Registry, name: string)
    requires name != ""
    ensures name in Keys(reg) ==> GetModel(reg, Some(name)) == Success(Get(reg, name).value)
    ensures name !in Keys(reg) ==>
      GetModel(reg, Some(name)) == Failure(NotAvailable(name, ListAvailableModels(reg)))
  {
  }

  /** Without a name (None or the empty string) the result is Google if
      registered, else Bedrock if registered, else a 503 error, whatever else
      has been registered. */
  lemma GetModelDefault(reg: Registry, name: Option<string>)
    requires name.None? || name.value == ""
    ensures "google" in Keys(reg) ==> GetModel(reg, name) == Success(Get(reg, "google").value)
    ensures "google" !in Keys(reg) && "bedrock" in Keys(reg) ==>
      GetModel(reg, name) == Success(Get(reg, "bedrock").value)
    ensures "google" !in Keys(reg) && "bedrock" !in Keys(reg) ==>
      GetModel(reg, name) == Failure(HttpError(503, NoModelsDetail))
  {
    assert PreferenceOrder[1..] == ["bedrock"];
  }

  /** A registered name resolves to the backend registered last under it, and
      the name list only grows by that name when it is new. */
  lemma RegisterThenGet(reg: Registry, name: string, model: Backend)
    requires name != ""
    ensures GetModel(RegisterModel(reg, name, model), Some(name)) == Success(model)
    ensures ListAvailableModels(RegisterModel(reg, name, model)) ==
      if name in Keys(reg) then ListAvailableModels(reg) else ListAvailableModels(reg) + [name]
  {
    PutGetSame(reg, name, model);
    PutKeys(reg, name, model);
  }

  /** Registering one name leaves every other name's lookup unchanged. */
  lemma RegisterKeepsOthers(reg: Registry, name: string, model: Backend, other: string)
    requires other != name && other != ""
    ensures GetModel(RegisterModel(reg, name, model), Some(other)).Success?
        <==> GetModel(reg, Some(other)).Success?
    ensures GetModel(reg, Some(other)).Success? ==>
      GetModel(RegisterModel(reg, name, model), Some(other)) == GetModel(reg, Some(other))
  {
    PutGetOther(reg, name, model, other);
  }

  /** Initialisation from an empty map registers `google` exactly when its key
      is set and `bedrock` exactly when both AWS keys are set, Google first. */
  lemma InitializeModelsKeys(env: Environment)
    ensures ListAvailableModels(InitializeModels([], env)) ==
      (if "GOOGLE_API_KEY" in env then ["google"] else [])
      + (if "AWS_ACCESS_KEY" in env && "AWS_SECRET_KEY" in env then ["bedrock"] else [])
  {
    var g: Registry := if "GOOGLE_API_KEY" in env
      then Put([], "google", GoogleModel(env["GOOGLE_API_KEY"], "gemini-1.5-flash")) else [];
    assert Keys(g) == if "GOOGLE_API_KEY" in env then ["google"] else [];
    if "AWS_ACCESS_KEY" in env && "AWS_SECRET_KEY" in env {
      PutKeys(g, "bedrock",
              BedrockModel(env["AWS_ACCESS_KEY"], env["AWS_SECRET_KEY"], "us-west-2", "anthropic.claude-v2"));
    }
  }

  /** Constructing the factory again neither resets nor re-adds entries once
      the map holds any; with the same environment it is idempotent. */
  lemma ConstructIdempotent(reg: Registry, env: Environment, env': Environment)
    ensures |reg| > 0 ==> Construct(reg, env') == reg
    ensures |Construct(reg, env)| > 0 ==> Construct(Construct(reg, env), env') == Construct(reg, env)
    ensures Construct(Construct(reg, env), env) == Construct(reg, env)
  {
  }

  /** The fallback scenario: Google wins while registered, Bedrock after it is
      gone, and an empty registry has nothing to offer. */
  lemma FallbackScenario(g: Backend, b: Backend)
    ensures GetModel([("google", g), ("bedrock", b)], None) == Success(g)
    ensures GetModel([("bedrock", b)], None) == Success(b)
    ensures GetModel([], None) == Failure(HttpError(503, NoModelsDetail))
  {
    assert Keys([("google", g), ("bedrock", b)]) == ["google", "bedrock"];
    assert Keys([("bedrock", b)]) == ["bedrock"];
  }

  /** An unknown name against a registry holding only Google fails with 400
      and names Google as the one available model. */
  lemma UnknownNameScenario(g: Backend)
    ensures GetModel([("google", g)], Some("unknown")) == Failure(NotAvailable("unknown", ["google"]))
    ensures NotAvailable("unknown", ["google"]).detail[|NotAvailable("unknown", ["google"]).detail| - 6..] == "google"
  {
    assert Keys([("google", g)]) == ["google"];
  }
}
