/** `Settings.load_config` of config/settings.py: the default dictionary,
    shallow-updated by the first configuration file found (when it is truthy),
    then by the entries built from environment variables, then validated into
    an `AppConfig`. The file system, the YAML and JSON parsers and the process
    environment are parameters. */
module Settings {
  import opened Wrappers
  import opened Text
  import opened OrderedMap
  import opened Config
  import FileProcessorFactory
  import FileProcessors
  import ModelFactory

  type Environment = ModelFactory.Environment

  /** Path to file contents; a path is a key exactly when the file exists. */
  type FileSystem = map<string, string>

  /** What a parser makes of a file's text. An empty YAML file parses to `Null`. */
  datatype ParseOutcome = Parsed(doc: Value) | Malformed(message: string)

  type Parser = string -> ParseOutcome

  datatype Format = Yaml | Json

  /** Why loading failed, one case per exception the source can raise. */
  datatype SettingsError =
    | InvalidInteger(variable: string, text: string)   // `int(os.environ[...])` raises ValueError
    | MissingVariable(variable: string)                // `os.environ[...]` raises KeyError
    | UnreadableFile(path: string, message: string)    // the parser raises
    | NotAMapping                                      // `dict.update` of a non-mapping document
    | Invalid(error: ValidationError)                  // pydantic raises ValidationError

  /** The locations searched, in order. */
  const ConfigLocations: seq<string> :=
    ["config.yaml", "config.yml", "config.json", "config/config.yaml", "config/config.json"]

  const YamlSuffixes: seq<string> := [".yaml", ".yml"]

  /** `_load_default_config`. */
  const DefaultConfigDict: OrderedMap<string, Value> := [
    ("app_name", Str("Resume Customization API")),
    ("debug", Bool(false)),
    ("file_processor", Obj([("max_file_size", Int(5 * 1024 * 1024)),
                            ("supported_formats", Arr([Str(".pdf")])),
                            ("temp_dir", Str("temp"))])),
    ("models", Obj([("default_model", Str("google"))]))]

  // ---------------------------------------------------------------------------
  // The file layer

  /** YAML for a `.yaml` or `.yml` suffix (case-sensitive), JSON otherwise. */
  function FormatOf(path: string): Format {
    if FileProcessorFactory.Suffix(FileProcessorFactory.FinalComponent(path)) in YamlSuffixes then Yaml else Json
  }

  /** The index of the first path that exists. */
  function FirstExisting(fs: FileSystem, paths: seq<string>): (r: Option<nat>)
    ensures r.Some? ==> r.value < |paths| && paths[r.value] in fs
    ensures r.Some? ==> forall j :: 0 <= j < r.value ==> paths[j] !in fs
    ensures r.None? ==> forall j :: 0 <= j < |paths| ==> paths[j] !in fs
    decreases |paths|
  {
    if |paths| == 0 then None
    else if paths[0] in fs then Some(0)
    else match FirstExisting(fs, paths[1..])
      case None => None
      case Some(i) => Some(i + 1)
  }

  /** The outcome of parsing the chosen file. */
  function Interpret(outcome: ParseOutcome, path: string): (r: Result<Value, SettingsError>)
    ensures r.Failure? ==> r.error.UnreadableFile? && r.error.path == path
  {
    match outcome
    case Parsed(doc) => Success(doc)
    case Malformed(message) => Failure(UnreadableFile(path, message))
  }

  /** `_load_from_file`: the document of the first existing location, parsed
      by its format; `{}` when no location exists. */
  function LoadFromFile(fs: FileSystem, yaml: Parser, json: Parser): (r: Result<Value, SettingsError>)
    ensures r.Failure? ==> r.error.UnreadableFile? && r.error.path in ConfigLocations && r.error.path in fs
  {
    LoadFirst(fs, ConfigLocations, yaml, json)
  }

  /** The first existing path of `paths`, read with the parser its suffix
      selects; `{}` when none exists. */
  function LoadFirst(fs: FileSystem, paths: seq<string>, yaml: Parser, json: Parser): (r: Result<Value, SettingsError>)
    ensures r.Failure? ==> r.error.UnreadableFile? && r.error.path in paths && r.error.path in fs
  {
    match FirstExisting(fs, paths)
    case None => Success(Obj([]))
    case Some(i) => Read(fs, paths[i], yaml, json)
  }

  /** One existing file, parsed by the parser its suffix selects. */
  function Read(fs: FileSystem, path: string, yaml: Parser, json: Parser): (r: Result<Value, SettingsError>)
    requires path in fs
    ensures r.Failure? ==> r.error.UnreadableFile? && r.error.path == path
  {
    var text := fs[path];
    Interpret(if FormatOf(path) == Yaml then yaml(text) else json(text), path)
  }

  // ---------------------------------------------------------------------------
  // The environment layer

  /** `config.setdefault(outer, {})[key] = value`. */
  function SetNested(config: OrderedMap<string, Value>, outer: string, key: string, value: Value)
    : (r: OrderedMap<string, Value>)
    requires Get(config, outer).None? || Get(config, outer).value.Obj?
    ensures Keys(r) == if outer in Keys(config) then Keys(config) else Keys(config) + [outer]
    ensures Valid(config) ==> Valid(r)
    ensures Get(r, outer) == Some(Obj(Put(if Get(config, outer).Some? then Get(config, outer).value.fields else [], key, value)))
    ensures forall k :: k != outer ==> Get(r, k) == Get(config, k)
  {
    var inner := if Get(config, outer).Some? then Get(config, outer).value.fields else [];
    PutKeys(config, outer, Obj(Put(inner, key, value)));
    PutGetSame(config, outer, Obj(Put(inner, key, value)));
    forall k | k != outer
      ensures Get(Put(config, outer, Obj(Put(inner, key, value))), k) == Get(config, k)
    {
      PutGetOther(config, outer, Obj(Put(inner, key, value)), k);
    }
    assert Valid(config) ==> Valid(Put(config, outer, Obj(Put(inner, key, value)))) by {
      if Valid(config) {
        PutValid(config, outer, Obj(Put(inner, key, value)));
      }
    }
    Put(config, outer, Obj(Put(inner, key, value)))
  }

  /** `os.environ.get(name, default)`. */
  function EnvOr(env: Environment, name: string, default: string): string {
    if name in env then env[name] else default
  }

  function GoogleEntry(env: Environment): Value
    requires "GOOGLE_API_KEY" in env
  {
    Obj([("api_key", Str(env["GOOGLE_API_KEY"])),
         ("model_name", Str(EnvOr(env, "GOOGLE_MODEL_NAME", DefaultGoogleModelName)))])
  }

  function BedrockEntry(env: Environment): Value
    requires "AWS_ACCESS_KEY" in env && "AWS_SECRET_KEY" in env
  {
    Obj([("aws_access_key", Str(env["AWS_ACCESS_KEY"])),
         ("aws_secret_key", Str(env["AWS_SECRET_KEY"])),
         ("region", Str(EnvOr(env, "AWS_REGION", DefaultRegion))),
         ("model_id", Str(EnvOr(env, "BEDROCK_MODEL_ID", DefaultBedrockModelId)))])
  }

  /** The `MAX_FILE_SIZE` step of `_load_from_env`. */
  function SizeLayer(env: Environment): (r: Result<OrderedMap<string, Value>, SettingsError>)
    ensures r.Failure? <==> "MAX_FILE_SIZE" in env && ParseInt(env["MAX_FILE_SIZE"]).None?
    ensures r.Failure? ==> r == Failure(InvalidInteger("MAX_FILE_SIZE", env["MAX_FILE_SIZE"]))
    ensures r.Success? ==> Valid(r.value) && Keys(r.value) == if "MAX_FILE_SIZE" in env then ["file_processor"] else []
    ensures r.Success? && "MAX_FILE_SIZE" in env ==>
      Get(r.value, "file_processor") == Some(Obj([("max_file_size", Int(ParseInt(env["MAX_FILE_SIZE"]).value))]))
  {
    if "MAX_FILE_SIZE" in env then
      match ParseInt(env["MAX_FILE_SIZE"])
      case None => Failure(InvalidInteger("MAX_FILE_SIZE", env["MAX_FILE_SIZE"]))
      case Some(n) => Success(SetNested([], "file_processor", "max_file_size", Int(n)))
    else Success([])
  }

  /** The `models` entry the environment builds: no `default_model`, and a
      `google` (`bedrock`) entry exactly when its variables are set. */
  predicate ModelEntries(fields: OrderedMap<string, Value>, env: Environment) {
    && Get(fields, "default_model") == None
    && Get(fields, "google") == (if "GOOGLE_API_KEY" in env then Some(GoogleEntry(env)) else None)
    && Get(fields, "bedrock") ==
         (if "AWS_ACCESS_KEY" in env && "AWS_SECRET_KEY" in env then Some(BedrockEntry(env)) else None)
  }

  /** The credential steps of `_load_from_env`, on a dictionary without
      `models`. */
  function CredentialLayer(env: Environment, config: OrderedMap<string, Value>)
    : (r: Result<OrderedMap<string, Value>, SettingsError>)
    requires Valid(config) && "models" !in Keys(config)
    ensures r.Failure? <==> "AWS_ACCESS_KEY" in env && "AWS_SECRET_KEY" !in env
    ensures r.Failure? ==> r == Failure(MissingVariable("AWS_SECRET_KEY"))
    ensures r.Success? ==> Valid(r.value)
    ensures r.Success? ==>
      Keys(r.value) == if "GOOGLE_API_KEY" in env || "AWS_ACCESS_KEY" in env then Keys(config) + ["models"] else Keys(config)
    ensures r.Success? ==> forall k :: k != "models" ==> Get(r.value, k) == Get(config, k)
    ensures r.Success? && ("GOOGLE_API_KEY" in env || "AWS_ACCESS_KEY" in env) ==>
      Get(r.value, "models").Some? && Get(r.value, "models").value.Obj?
      && ModelEntries(Get(r.value, "models").value.fields, env)
  {
    var withGoogle :=
      if "GOOGLE_API_KEY" in env then SetNested(config, "models", "google", GoogleEntry(env))
      else config;
    var inner: OrderedMap<string, Value> := if "GOOGLE_API_KEY" in env then [("google", GoogleEntry(env))] else [];
    assert Get(inner, "default_model") == None && Get(inner, "bedrock") == None;
    if "AWS_ACCESS_KEY" in env then
      if "AWS_SECRET_KEY" !in env then Failure(MissingVariable("AWS_SECRET_KEY"))
      else
        assert ModelEntries(Put(inner, "bedrock", BedrockEntry(env)), env) by {
          PutGetSame(inner, "bedrock", BedrockEntry(env));
          PutGetOther(inner, "bedrock", BedrockEntry(env), "google");
          PutGetOther(inner, "bedrock", BedrockEntry(env), "default_model");
        }
        Success(SetNested(withGoogle, "models", "bedrock", BedrockEntry(env)))
    else Success(withGoogle)
  }

  /** `_load_from_env`: a `file_processor` entry holding only the size limit,
      and a `models` entry holding `google` and/or `bedrock`. A bad size is
      reported before a missing secret key. */
  function LoadFromEnv(env: Environment): (r: Result<OrderedMap<string, Value>, SettingsError>)
    ensures r.Failure? <==>
      ("MAX_FILE_SIZE" in env && ParseInt(env["MAX_FILE_SIZE"]).None?)
      || ("AWS_ACCESS_KEY" in env && "AWS_SECRET_KEY" !in env)
    ensures "MAX_FILE_SIZE" in env && ParseInt(env["MAX_FILE_SIZE"]).None? ==>
      r == Failure(InvalidInteger("MAX_FILE_SIZE", env["MAX_FILE_SIZE"]))
    ensures r.Success? ==> Valid(r.value)
    ensures r.Success? ==>
      Keys(r.value) == (if "MAX_FILE_SIZE" in env then ["file_processor"] else [])
                       + (if "GOOGLE_API_KEY" in env || "AWS_ACCESS_KEY" in env then ["models"] else [])
  {
    var sized :- SizeLayer(env);
    CredentialLayer(env, sized)
  }

  /** What the environment layer holds, entry by entry. */
  lemma LoadFromEnvEntries(env: Environment)
    requires LoadFromEnv(env).Success?
    ensures var e := LoadFromEnv(env).value;
      && ("MAX_FILE_SIZE" in env ==>
            Get(e, "file_processor") == Some(Obj([("max_file_size", Int(ParseInt(env["MAX_FILE_SIZE"]).value))])))
      && ("GOOGLE_API_KEY" in env || "AWS_ACCESS_KEY" in env ==>
            Get(e, "models").Some? && Get(e, "models").value.Obj? && ModelEntries(Get(e, "models").value.fields, env))
  {
  }

  // ---------------------------------------------------------------------------
  // Loading

  /** The file layer over the defaults: a falsy document (no file, an empty
      one, `{}`) leaves them alone; `update` replaces whole top-level entries. */
  function WithFile(file: Value): (r: Result<OrderedMap<string, Value>, SettingsError>)
    ensures r.Failure? <==> Truthy(file) && !file.Obj?
    ensures !Truthy(file) ==> r == Success(DefaultConfigDict)
  {
    if !Truthy(file) then Success(DefaultConfigDict)
    else if !file.Obj? then Failure(NotAMapping)
    else Success(Update(DefaultConfigDict, file.fields))
  }

  /** The merged dictionary `load_config` validates. The file is read and
      merged before the environment is read, so a file error wins over an
      environment error. */
  function MergedConfig(env: Environment, fs: FileSystem, yaml: Parser, json: Parser)
    : (r: Result<OrderedMap<string, Value>, SettingsError>)
    ensures r.Success? <==>
      && LoadFromFile(fs, yaml, json).Success?
      && !(Truthy(LoadFromFile(fs, yaml, json).value) && !LoadFromFile(fs, yaml, json).value.Obj?)
      && LoadFromEnv(env).Success?
    ensures LoadFromFile(fs, yaml, json).Failure? ==> r == Failure(LoadFromFile(fs, yaml, json).error)
  {
    var file :- LoadFromFile(fs, yaml, json);
    var withFile :- WithFile(file);
    var envConfig :- LoadFromEnv(env);
    Success(Update(withFile, envConfig))
  }

  /** `load_config`. */
  function LoadConfig(env: Environment, fs: FileSystem, yaml: Parser, json: Parser): (r: Result<AppConfig, SettingsError>)
    ensures MergedConfig(env, fs, yaml, json).Failure? ==> r == Failure(MergedConfig(env, fs, yaml, json).error)
    ensures MergedConfig(env, fs, yaml, json).Success? ==>
      (r.Success? <==> ToAppConfig(MergedConfig(env, fs, yaml, json).value).Success?)
    ensures r.Failure? && MergedConfig(env, fs, yaml, json).Success? ==> r.error.Invalid?
  {
    var merged :- MergedConfig(env, fs, yaml, json);
    match ToAppConfig(merged)
    case Success(c) => Success(c)
    case Failure(e) => Failure(Invalid(e))
  }

  // ---------------------------------------------------------------------------
  // Properties

  /** The default dictionary is exactly the dictionary form of the record
      defaults, so validating it gives `AppConfig()`. */
  lemma DefaultDictAgrees()
    ensures DefaultConfigDict == Encode(DefaultAppConfig)
    ensures ToAppConfig(DefaultConfigDict) == Success(DefaultAppConfig)
  {
    assert DefaultConfigDict == Encode(DefaultAppConfig) by {
      assert StrValues([".pdf"]) == [Str(".pdf")];
      assert EncodeFileProcessor(DefaultFileProcessor) == DefaultConfigDict[2].1;
      assert EncodeModels(DefaultModels) == DefaultConfigDict[3].1;
    }
    AppConfigRoundTrip(DefaultAppConfig);
  }

  lemma FormatOfName(stem: string, ext: string)
    requires stem != "" && ext != "" && '.' !in ext && '/' !in ext && '/' !in stem
    ensures FormatOf(stem + "." + ext) == if "." + ext in YamlSuffixes then Yaml else Json
  {
    FileProcessorFactory.NoSlashInPiece(stem, ext);
    FileProcessorFactory.SuffixOfStemExt(stem, ext);
    FileProcessorFactory.FinalComponentOfPiece(stem + "." + ext);
  }

  lemma FormatOfPath(dir: string, stem: string, ext: string)
    requires stem != "" && ext != "" && '.' !in ext && '/' !in ext && '/' !in stem
    ensures FormatOf(dir + "/" + stem + "." + ext) == if "." + ext in YamlSuffixes then Yaml else Json
  {
    var piece := stem + "." + ext;
    FileProcessorFactory.NoSlashInPiece(stem, ext);
    FileProcessorFactory.SuffixOfStemExt(stem, ext);
    FileProcessorFactory.LastSlashAfterDir(dir, piece);
    assert dir + "/" + stem + "." + ext == dir + "/" + piece;
    assert (dir + "/" + piece)[|dir| + 1..] == piece;
  }

  lemma YamlName(ext: string)
    requires ext == "yaml" || ext == "yml"
    ensures FormatOf("config." + ext) == Yaml
  {
    assert "config" + "." + ext == "config." + ext;
    assert "." + ext == if ext == "yaml" then YamlSuffixes[0] else YamlSuffixes[1];
    FormatOfName("config", ext);
  }

  lemma JsonName(ext: string)
    requires ext == "json"
    ensures FormatOf("config." + ext) == Json
  {
    JsonNotYaml(ext);
    FormatOfName("config", ext);
    assert "config" + "." + ext == "config." + ext;
  }

  lemma JsonNotYaml(ext: string)
    requires ext == "json"
    ensures "." + ext !in YamlSuffixes
  {
    assert ("." + ext)[1] == 'j' && YamlSuffixes[0][1] == 'y';
    assert |"." + ext| != |YamlSuffixes[1]|;
  }

  lemma NestedName(ext: string)
    requires ext == "yaml" || ext == "json"
    ensures FormatOf("config/config." + ext) == if ext == "yaml" then Yaml else Json
  {
    assert "config" + "/" + "config" + "." + ext == "config/config." + ext;
    if ext == "yaml" {
      assert "." + ext == YamlSuffixes[0];
    } else {
      JsonNotYaml(ext);
    }
    FormatOfPath("config", "config", ext);
  }

  /** `config.yaml`, `config.yml` and `config/config.yaml` are read as YAML,
      the two `config.json` locations as JSON. */
  lemma ConfigLocationFormat(i: nat)
    requires i < |ConfigLocations|
    ensures FormatOf(ConfigLocations[i]) == if i == 2 || i == 4 then Json else Yaml
  {
    if i == 0 {
      assert ConfigLocations[0] == "config." + "yaml";
      YamlName("yaml");
    } else if i == 1 {
      assert ConfigLocations[1] == "config." + "yml";
      YamlName("yml");
    } else if i == 2 {
      assert ConfigLocations[2] == "config." + "json";
      JsonName("json");
    } else if i == 3 {
      assert ConfigLocations[3] == "config/config." + "yaml";
      NestedName("yaml");
    } else {
      assert ConfigLocations[4] == "config/config." + "json";
      NestedName("json");
    }
  }

  lemma FirstExistingIs(fs: FileSystem, paths: seq<string>, i: nat)
    requires i < |paths| && paths[i] in fs
    requires forall j :: 0 <= j < i ==> paths[j] !in fs
    ensures FirstExisting(fs, paths) == Some(i)
  {
  }

  /** The first existing location wins, whatever exists after it, and is read
      with the parser its suffix selects; with none, the document is `{}`. */
  lemma FirstLocationWins(fs: FileSystem, yaml: Parser, json: Parser, i: nat)
    requires i < |ConfigLocations| && ConfigLocations[i] in fs
    requires forall j :: 0 <= j < i ==> ConfigLocations[j] !in fs
    ensures var path := ConfigLocations[i];
      LoadFromFile(fs, yaml, json) == Interpret(if i == 2 || i == 4 then json(fs[path]) else yaml(fs[path]), path)
  {
    FirstExistingIs(fs, ConfigLocations, i);
    ConfigLocationFormat(i);
    assert LoadFromFile(fs, yaml, json) == Read(fs, ConfigLocations[i], yaml, json);
  }

  lemma NoLocationEmpty(fs: FileSystem, yaml: Parser, json: Parser)
    requires forall j :: 0 <= j < |ConfigLocations| ==> ConfigLocations[j] !in fs
    ensures LoadFromFile(fs, yaml, json) == Success(Obj([]))
  {
    assert FirstExisting(fs, ConfigLocations).None?;
  }

  /** No configuration variable and no (or a falsy) file: the record defaults. */
  lemma DefaultsWithoutSources(env: Environment, fs: FileSystem, yaml: Parser, json: Parser)
    requires "MAX_FILE_SIZE" !in env && "GOOGLE_API_KEY" !in env && "AWS_ACCESS_KEY" !in env
    requires LoadFromFile(fs, yaml, json).Success? && !Truthy(LoadFromFile(fs, yaml, json).value)
    ensures LoadConfig(env, fs, yaml, json) == Success(DefaultAppConfig)
  {
    DefaultDictAgrees();
    assert LoadFromEnv(env) == Success([]);
    assert MergedConfig(env, fs, yaml, json) == Success(DefaultConfigDict);
  }

  /** Precedence, per top-level key: the environment's entry, else the file's,
      else the default; entries are replaced whole, never merged. */
  lemma Precedence(env: Environment, fs: FileSystem, yaml: Parser, json: Parser, k: string)
    requires MergedConfig(env, fs, yaml, json).Success?
    requires LoadFromFile(fs, yaml, json).value.Obj? ==> Valid(LoadFromFile(fs, yaml, json).value.fields)
    ensures var file := LoadFromFile(fs, yaml, json).value;
      var e := LoadFromEnv(env).value;
      Get(MergedConfig(env, fs, yaml, json).value, k) ==
        if k in Keys(e) then Get(e, k)
        else if Truthy(file) && k in Keys(file.fields) then Get(file.fields, k)
        else Get(DefaultConfigDict, k)
  {
    var file := LoadFromFile(fs, yaml, json).value;
    var withFile := WithFile(file).value;
    var e := LoadFromEnv(env).value;
    UpdateGet(withFile, e, k);
    if Truthy(file) {
      UpdateGet(DefaultConfigDict, file.fields, k);
    }
  }

  /** The merged dictionary after a successful load. */
  lemma MergedEntry(env: Environment, fs: FileSystem, yaml: Parser, json: Parser, k: string)
    requires LoadConfig(env, fs, yaml, json).Success?
    ensures MergedConfig(env, fs, yaml, json).Success?
    ensures LoadFromEnv(env).Success?
    ensures k in Keys(LoadFromEnv(env).value) ==>
      Get(MergedConfig(env, fs, yaml, json).value, k) == Get(LoadFromEnv(env).value, k)
  {
    var file := LoadFromFile(fs, yaml, json).value;
    UpdateGet(WithFile(file).value, LoadFromEnv(env).value, k);
  }

  /** `MAX_FILE_SIZE` replaces the whole `file_processor` entry: the other
      two fields revert to their defaults whatever the file said. */
  lemma EnvSizeOverrides(env: Environment, fs: FileSystem, yaml: Parser, json: Parser, n: int)
    requires "MAX_FILE_SIZE" in env && ParseInt(env["MAX_FILE_SIZE"]) == Some(n)
    requires LoadConfig(env, fs, yaml, json).Success?
    ensures LoadConfig(env, fs, yaml, json).value.fileProcessor == FileProcessorConfig(n, [".pdf"], "temp")
  {
    var merged := MergedConfig(env, fs, yaml, json).value;
    assert Get(merged, "file_processor") == Some(Obj([("max_file_size", Int(n))])) by {
      MergedEntry(env, fs, yaml, json, "file_processor");
      LoadFromEnvEntries(env);
    }
    SizeOnlyRecord(n);
    assert LoadConfig(env, fs, yaml, json).value == ToAppConfig(merged).value;
  }

  /** A `file_processor` entry holding only the size keeps the other defaults. */
  lemma SizeOnlyRecord(n: int)
    ensures ToFileProcessorConfig(Obj([("max_file_size", Int(n))]), ["file_processor"])
         == Success(FileProcessorConfig(n, [".pdf"], "temp"))
  {
  }

  lemma GoogleEntryValid(env: Environment)
    requires "GOOGLE_API_KEY" in env
    ensures ToGoogleModelConfig(GoogleEntry(env), ["models", "google"])
         == Success(GoogleModelConfig(env["GOOGLE_API_KEY"], EnvOr(env, "GOOGLE_MODEL_NAME", DefaultGoogleModelName)))
  {
    var g := GoogleEntry(env).fields;
    GetFirst(g, 0);
    GetFirst(g, 1);
  }

  lemma BedrockEntryValid(env: Environment)
    requires "AWS_ACCESS_KEY" in env && "AWS_SECRET_KEY" in env
    ensures ToBedrockModelConfig(BedrockEntry(env), ["models", "bedrock"])
         == Success(BedrockModelConfig(env["AWS_ACCESS_KEY"], env["AWS_SECRET_KEY"],
                                       EnvOr(env, "AWS_REGION", DefaultRegion),
                                       EnvOr(env, "BEDROCK_MODEL_ID", DefaultBedrockModelId)))
  {
    var b := BedrockEntry(env).fields;
    GetFirst(b, 0);
    GetFirst(b, 1);
    GetFirst(b, 2);
    GetFirst(b, 3);
  }

  /** The record the environment's `models` entry validates to. */
  lemma ModelsFromEnv(fields: OrderedMap<string, Value>, env: Environment)
    requires ModelEntries(fields, env)
    ensures ToModelsConfig(Obj(fields), ["models"]) == Success(ModelsConfig(DefaultModelName,
      if "GOOGLE_API_KEY" in env
      then Some(GoogleModelConfig(env["GOOGLE_API_KEY"], EnvOr(env, "GOOGLE_MODEL_NAME", DefaultGoogleModelName)))
      else None,
      if "AWS_ACCESS_KEY" in env && "AWS_SECRET_KEY" in env
      then Some(BedrockModelConfig(env["AWS_ACCESS_KEY"], env["AWS_SECRET_KEY"],
                                   EnvOr(env, "AWS_REGION", DefaultRegion),
                                   EnvOr(env, "BEDROCK_MODEL_ID", DefaultBedrockModelId)))
      else None))
  {
    assert ["models"] + ["google"] == ["models", "google"];
    assert ["models"] + ["bedrock"] == ["models", "bedrock"];
    if "GOOGLE_API_KEY" in env {
      GoogleEntryValid(env);
    }
    if "AWS_ACCESS_KEY" in env && "AWS_SECRET_KEY" in env {
      BedrockEntryValid(env);
    }
  }

  /** The models record of a successful load when a credential is set. */
  lemma LoadedModels(env: Environment, fs: FileSystem, yaml: Parser, json: Parser)
    requires "GOOGLE_API_KEY" in env || "AWS_ACCESS_KEY" in env
    requires LoadConfig(env, fs, yaml, json).Success?
    ensures LoadFromEnv(env).Success?
    ensures var e := LoadFromEnv(env).value;
      Get(e, "models").Some? && Get(e, "models").value.Obj?
      && ModelEntries(Get(e, "models").value.fields, env)
      && ToModelsConfig(Get(e, "models").value, ["models"]) == Success(LoadConfig(env, fs, yaml, json).value.models)
  {
    MergedEntry(env, fs, yaml, json, "models");
    LoadFromEnvEntries(env);
  }

  /** A Google key yields the Google record from the environment, and since
      the whole `models` entry is replaced, `default_model` is "google" again
      even when the file chose another. */
  lemma EnvGoogle(env: Environment, fs: FileSystem, yaml: Parser, json: Parser)
    requires "GOOGLE_API_KEY" in env
    requires LoadConfig(env, fs, yaml, json).Success?
    ensures var models := LoadConfig(env, fs, yaml, json).value.models;
      && models.defaultModel == DefaultModelName
      && models.google == Some(GoogleModelConfig(env["GOOGLE_API_KEY"],
                                                 EnvOr(env, "GOOGLE_MODEL_NAME", DefaultGoogleModelName)))
      && (models.bedrock.Some? <==> "AWS_ACCESS_KEY" in env)
  {
    LoadedModels(env, fs, yaml, json);
    var e := LoadFromEnv(env).value;
    ModelsFromEnv(Get(e, "models").value.fields, env);
  }

  /** Both AWS keys yield the Bedrock record from the environment. */
  lemma EnvBedrock(env: Environment, fs: FileSystem, yaml: Parser, json: Parser)
    requires "AWS_ACCESS_KEY" in env && "AWS_SECRET_KEY" in env
    requires LoadConfig(env, fs, yaml, json).Success?
    ensures var models := LoadConfig(env, fs, yaml, json).value.models;
      && models.defaultModel == DefaultModelName
      && models.bedrock == Some(BedrockModelConfig(env["AWS_ACCESS_KEY"], env["AWS_SECRET_KEY"],
                                                   EnvOr(env, "AWS_REGION", DefaultRegion),
                                                   EnvOr(env, "BEDROCK_MODEL_ID", DefaultBedrockModelId)))
  {
    LoadedModels(env, fs, yaml, json);
    var e := LoadFromEnv(env).value;
    ModelsFromEnv(Get(e, "models").value.fields, env);
  }

  /** Environment errors, once the file layer has succeeded: a size that is
      not an integer, then an access key without its secret key. */
  lemma EnvErrors(env: Environment, fs: FileSystem, yaml: Parser, json: Parser)
    requires LoadFromFile(fs, yaml, json).Success? && WithFile(LoadFromFile(fs, yaml, json).value).Success?
    ensures "MAX_FILE_SIZE" in env && ParseInt(env["MAX_FILE_SIZE"]).None? ==>
      LoadConfig(env, fs, yaml, json) == Failure(InvalidInteger("MAX_FILE_SIZE", env["MAX_FILE_SIZE"]))
    ensures ("MAX_FILE_SIZE" !in env || ParseInt(env["MAX_FILE_SIZE"]).Some?) &&
            "AWS_ACCESS_KEY" in env && "AWS_SECRET_KEY" !in env ==>
      LoadConfig(env, fs, yaml, json) == Failure(MissingVariable("AWS_SECRET_KEY"))
  {
  }

  /** A truthy file document that is not a mapping makes `update` raise,
      before the environment is read. */
  lemma FileNotMapping(env: Environment, fs: FileSystem, yaml: Parser, json: Parser)
    requires LoadFromFile(fs, yaml, json).Success?
    requires Truthy(LoadFromFile(fs, yaml, json).value) && !LoadFromFile(fs, yaml, json).value.Obj?
    ensures LoadConfig(env, fs, yaml, json) == Failure(NotAMapping)
  {
  }
}
