/** The configuration records of config/config.py and the validation that
    `AppConfig(**config_dict)` performs on a loaded dictionary: a missing
    field takes its declared default, a required field must be present, and
    every present field must have its declared type. */
module Config {
  import opened Wrappers
  import opened Text
  import opened OrderedMap
  import FileProcessors

  /** A loaded configuration document: what YAML and JSON parsers produce,
      without floating-point numbers. Objects keep their keys in order. */
  datatype Value =
    | Null
    | Bool(b: bool)
    | Int(i: int)
    | Str(s: string)
    | Arr(items: seq<Value>)
    | Obj(fields: OrderedMap<string, Value>)

  /** Python truthiness of a loaded document. */
  predicate Truthy(v: Value) {
    match v
    case Null => false
    case Bool(b) => b
    case Int(i) => i != 0
    case Str(s) => s != ""
    case Arr(items) => |items| > 0
    case Obj(fields) => |fields| > 0
  }

  datatype FileProcessorConfig = FileProcessorConfig(maxFileSize: int, supportedFormats: seq<string>, tempDir: string)

  datatype GoogleModelConfig = GoogleModelConfig(apiKey: string, modelName: string)

  datatype BedrockModelConfig = BedrockModelConfig(awsAccessKey: string, awsSecretKey: string, region: string, modelId: string)

  datatype ModelsConfig = ModelsConfig(defaultModel: string, google: Option<GoogleModelConfig>, bedrock: Option<BedrockModelConfig>)

  datatype AppConfig = AppConfig(appName: string, debug: bool, fileProcessor: FileProcessorConfig, models: ModelsConfig)

  const DefaultAppName: string := "Resume Customization API"
  const DefaultGoogleModelName: string := "gemini-1.5-flash"
  const DefaultRegion: string := "us-west-2"
  const DefaultBedrockModelId: string := "anthropic.claude-v2"
  const DefaultModelName: string := "google"

  const DefaultFileProcessor: FileProcessorConfig :=
    FileProcessorConfig(FileProcessors.DefaultMaxFileSize, [".pdf"], "temp")
  const DefaultModels: ModelsConfig := ModelsConfig(DefaultModelName, None, None)
  const DefaultAppConfig: AppConfig := AppConfig(DefaultAppName, false, DefaultFileProcessor, DefaultModels)

  /** Why validation rejected the dictionary, and at which field path. */
  datatype ErrorKind = MissingField | WrongType
  datatype ValidationError = ValidationError(location: seq<string>, kind: ErrorKind)

  // ---------------------------------------------------------------------------
  // Field readers: absent takes the default (or is an error for a required
  // field); present must have the declared type.

  function StrField(m: OrderedMap<string, Value>, key: string, default: Option<string>, loc: seq<string>)
    : (r: Result<string, ValidationError>)
    ensures Get(m, key) == None ==> r == (if default.Some? then Success(default.value) else Failure(ValidationError(loc + [key], MissingField)))
    ensures Get(m, key).Some? ==> (r.Success? <==> Get(m, key).value.Str?)
    ensures r.Success? && Get(m, key).Some? ==> Get(m, key).value == Str(r.value)
  {
    var got: Option<Value> := Get(m, key);
    match got
    case None => if default.Some? then Success(default.value) else Failure(ValidationError(loc + [key], MissingField))
    case Some(Str(s)) => Success(s)
    case Some(_) => Failure(ValidationError(loc + [key], WrongType))
  }

  function IntField(m: OrderedMap<string, Value>, key: string, default: int, loc: seq<string>)
    : (r: Result<int, ValidationError>)
    ensures Get(m, key) == None ==> r == Success(default)
    ensures Get(m, key).Some? ==> (r.Success? <==> Get(m, key).value.Int?)
    ensures r.Success? && Get(m, key).Some? ==> Get(m, key).value == Int(r.value)
  {
    var got: Option<Value> := Get(m, key);
    match got
    case None => Success(default)
    case Some(Int(i)) => Success(i)
    case Some(_) => Failure(ValidationError(loc + [key], WrongType))
  }

  function BoolField(m: OrderedMap<string, Value>, key: string, default: bool, loc: seq<string>)
    : (r: Result<bool, ValidationError>)
    ensures Get(m, key) == None ==> r == Success(default)
    ensures Get(m, key).Some? ==> (r.Success? <==> Get(m, key).value.Bool?)
    ensures r.Success? && Get(m, key).Some? ==> Get(m, key).value == Bool(r.value)
  {
    var got: Option<Value> := Get(m, key);
    match got
    case None => Success(default)
    case Some(Bool(b)) => Success(b)
    case Some(_) => Failure(ValidationError(loc + [key], WrongType))
  }

  predicate AllStr(items: seq<Value>) {
    forall i :: 0 <= i < |items| ==> items[i].Str?
  }

  function Strings(items: seq<Value>): (r: seq<string>)
    requires AllStr(items)
    ensures |r| == |items| && forall i :: 0 <= i < |items| ==> items[i] == Str(r[i])
  {
    seq(|items|, i requires 0 <= i < |items| => items[i].s)
  }

  /** The loaded form of a list of strings. */
  function StrValues(xs: seq<string>): seq<Value> {
    seq(|xs|, i requires 0 <= i < |xs| => Str(xs[i]))
  }

  function StrListField(m: OrderedMap<string, Value>, key: string, default: seq<string>, loc: seq<string>)
    : (r: Result<seq<string>, ValidationError>)
    ensures Get(m, key) == None ==> r == Success(default)
    ensures Get(m, key).Some? ==> (r.Success? <==> Get(m, key).value.Arr? && AllStr(Get(m, key).value.items))
    ensures r.Success? && Get(m, key).Some? ==> Get(m, key).value == Arr(StrValues(r.value))
  {
    var got: Option<Value> := Get(m, key);
    match got
    case None => Success(default)
    case Some(Arr(items)) =>
      if AllStr(items) then Success(Strings(items)) else Failure(ValidationError(loc + [key], WrongType))
    case Some(_) => Failure(ValidationError(loc + [key], WrongType))
  }

  /** The field is absent or holds a value of the declared type. */
  predicate OptStr(m: OrderedMap<string, Value>, key: string) {
    Get(m, key).None? || Get(m, key).value.Str?
  }

  predicate OptInt(m: OrderedMap<string, Value>, key: string) {
    Get(m, key).None? || Get(m, key).value.Int?
  }

  predicate OptBool(m: OrderedMap<string, Value>, key: string) {
    Get(m, key).None? || Get(m, key).value.Bool?
  }

  predicate OptStrList(m: OrderedMap<string, Value>, key: string) {
    Get(m, key).None? || (Get(m, key).value.Arr? && AllStr(Get(m, key).value.items))
  }

  /** The field is present and a string. */
  predicate HasStr(m: OrderedMap<string, Value>, key: string) {
    Get(m, key).Some? && Get(m, key).value.Str?
  }

  /** The string a valid optional field stands for. */
  function StrOr(m: OrderedMap<string, Value>, key: string, default: string): string
    requires OptStr(m, key)
  {
    if Get(m, key).None? then default else Get(m, key).value.s
  }

  // ---------------------------------------------------------------------------
  // Records

  function ToFileProcessorConfig(v: Value, loc: seq<string>): (r: Result<FileProcessorConfig, ValidationError>)
    ensures r.Success? <==>
      v.Obj? && OptInt(v.fields, "max_file_size") && OptStrList(v.fields, "supported_formats") && OptStr(v.fields, "temp_dir")
    ensures r.Success? ==>
      && r.value.maxFileSize == (if Get(v.fields, "max_file_size").None? then DefaultFileProcessor.maxFileSize
                                 else Get(v.fields, "max_file_size").value.i)
      && r.value.tempDir == StrOr(v.fields, "temp_dir", DefaultFileProcessor.tempDir)
      && (Get(v.fields, "supported_formats").None? ==> r.value.supportedFormats == DefaultFileProcessor.supportedFormats)
      && (Get(v.fields, "supported_formats").Some? ==>
            Get(v.fields, "supported_formats").value == Arr(StrValues(r.value.supportedFormats)))
    ensures r.Failure? ==> |loc| <= |r.error.location| && r.error.location[..|loc|] == loc
  {
    if !v.Obj? then Failure(ValidationError(loc, WrongType))
    else
      var size :- IntField(v.fields, "max_file_size", DefaultFileProcessor.maxFileSize, loc);
      var formats :- StrListField(v.fields, "supported_formats", DefaultFileProcessor.supportedFormats, loc);
      var temp :- StrField(v.fields, "temp_dir", Some(DefaultFileProcessor.tempDir), loc);
      Success(FileProcessorConfig(size, formats, temp))
  }

  function ToGoogleModelConfig(v: Value, loc: seq<string>): (r: Result<GoogleModelConfig, ValidationError>)
    ensures r.Success? <==> v.Obj? && HasStr(v.fields, "api_key") && OptStr(v.fields, "model_name")
    ensures r.Success? ==> r.value == GoogleModelConfig(Get(v.fields, "api_key").value.s,
                                                        StrOr(v.fields, "model_name", DefaultGoogleModelName))
    ensures v.Obj? && Get(v.fields, "api_key").None? ==> r == Failure(ValidationError(loc + ["api_key"], MissingField))
  {
    if !v.Obj? then Failure(ValidationError(loc, WrongType))
    else
      var key :- StrField(v.fields, "api_key", None, loc);
      var name :- StrField(v.fields, "model_name", Some(DefaultGoogleModelName), loc);
      Success(GoogleModelConfig(key, name))
  }

  function ToBedrockModelConfig(v: Value, loc: seq<string>): (r: Result<BedrockModelConfig, ValidationError>)
    ensures r.Success? <==>
      v.Obj? && HasStr(v.fields, "aws_access_key") && HasStr(v.fields, "aws_secret_key")
      && OptStr(v.fields, "region") && OptStr(v.fields, "model_id")
    ensures r.Success? ==> r.value == BedrockModelConfig(
      Get(v.fields, "aws_access_key").value.s, Get(v.fields, "aws_secret_key").value.s,
      StrOr(v.fields, "region", DefaultRegion), StrOr(v.fields, "model_id", DefaultBedrockModelId))
    ensures v.Obj? && HasStr(v.fields, "aws_access_key") && Get(v.fields, "aws_secret_key").None? ==>
      r == Failure(ValidationError(loc + ["aws_secret_key"], MissingField))
  {
    if !v.Obj? then Failure(ValidationError(loc, WrongType))
    else
      var access :- StrField(v.fields, "aws_access_key", None, loc);
      var secret :- StrField(v.fields, "aws_secret_key", None, loc);
      var region :- StrField(v.fields, "region", Some(DefaultRegion), loc);
      var id :- StrField(v.fields, "model_id", Some(DefaultBedrockModelId), loc);
      Success(BedrockModelConfig(access, secret, region, id))
  }

  /** An `Optional[...]` sub-record: absent or null is `None`. */
  function OptionalRecord<T>(m: OrderedMap<string, Value>, key: string, loc: seq<string>,
                             validate: (Value, seq<string>) -> Result<T, ValidationError>)
    : (r: Result<Option<T>, ValidationError>)
    ensures Get(m, key) == None || Get(m, key) == Some(Null) ==> r == Success(None)
    ensures Get(m, key).Some? && Get(m, key).value != Null ==>
      (r.Success? <==> validate(Get(m, key).value, loc + [key]).Success?)
      && (r.Success? ==> r.value == Some(validate(Get(m, key).value, loc + [key]).value))
  {
    var got: Option<Value> := Get(m, key);
    match got
    case None => Success(None)
    case Some(Null) => Success(None)
    case Some(v) =>
      var t :- validate(v, loc + [key]);
      Success(Some(t))
  }

  function ToModelsConfig(v: Value, loc: seq<string>): (r: Result<ModelsConfig, ValidationError>)
    ensures r.Success? <==>
      && v.Obj? && OptStr(v.fields, "default_model")
      && (Get(v.fields, "google").None? || Get(v.fields, "google").value == Null
          || ToGoogleModelConfig(Get(v.fields, "google").value, loc + ["google"]).Success?)
      && (Get(v.fields, "bedrock").None? || Get(v.fields, "bedrock").value == Null
          || ToBedrockModelConfig(Get(v.fields, "bedrock").value, loc + ["bedrock"]).Success?)
    ensures r.Success? ==>
      v.Obj? && OptStr(v.fields, "default_model") && r.value.defaultModel == StrOr(v.fields, "default_model", DefaultModelName)
    ensures r.Success? ==>
      (r.value.google.None? <==> Get(v.fields, "google").None? || Get(v.fields, "google") == Some(Null))
    ensures r.Success? ==>
      (r.value.bedrock.None? <==> Get(v.fields, "bedrock").None? || Get(v.fields, "bedrock") == Some(Null))
    ensures r.Success? && r.value.google.Some? ==>
      ToGoogleModelConfig(Get(v.fields, "google").value, loc + ["google"]) == Success(r.value.google.value)
    ensures r.Success? && r.value.bedrock.Some? ==>
      ToBedrockModelConfig(Get(v.fields, "bedrock").value, loc + ["bedrock"]) == Success(r.value.bedrock.value)
  {
    if !v.Obj? then Failure(ValidationError(loc, WrongType))
    else
      var name :- StrField(v.fields, "default_model", Some(DefaultModelName), loc);
      var google :- OptionalRecord(v.fields, "google", loc, ToGoogleModelConfig);
      var bedrock :- OptionalRecord(v.fields, "bedrock", loc, ToBedrockModelConfig);
      Success(ModelsConfig(name, google, bedrock))
  }

  /** A nested record field: absent takes the record's default. */
  function RecordField<T>(m: OrderedMap<string, Value>, key: string, default: T,
                          validate: (Value, seq<string>) -> Result<T, ValidationError>)
    : (r: Result<T, ValidationError>)
    ensures Get(m, key) == None ==> r == Success(default)
    ensures Get(m, key).Some? ==> r == validate(Get(m, key).value, [key])
  {
    match Get(m, key)
    case None => Success(default)
    case Some(v) => validate(v, [key])
  }

  /** `AppConfig(**config_dict)`: keys other than the four fields are ignored. */
  function ToAppConfig(m: OrderedMap<string, Value>): (r: Result<AppConfig, ValidationError>)
    ensures r.Success? ==> OptStr(m, "app_name") && r.value.appName == StrOr(m, "app_name", DefaultAppName)
    ensures r.Success? ==> OptBool(m, "debug") && r.value.debug == (Get(m, "debug").Some? && Get(m, "debug").value.b)
    ensures r.Success? && Get(m, "file_processor").None? ==> r.value.fileProcessor == DefaultFileProcessor
    ensures r.Success? && Get(m, "file_processor").Some? ==>
      ToFileProcessorConfig(Get(m, "file_processor").value, ["file_processor"]) == Success(r.value.fileProcessor)
    ensures r.Success? && Get(m, "models").None? ==> r.value.models == DefaultModels
    ensures r.Success? && Get(m, "models").Some? ==>
      ToModelsConfig(Get(m, "models").value, ["models"]) == Success(r.value.models)
    ensures r.Success? <==>
      && OptStr(m, "app_name") && OptBool(m, "debug")
      && (Get(m, "file_processor").Some? ==> ToFileProcessorConfig(Get(m, "file_processor").value, ["file_processor"]).Success?)
      && (Get(m, "models").Some? ==> ToModelsConfig(Get(m, "models").value, ["models"]).Success?)
  {
    var name :- StrField(m, "app_name", Some(DefaultAppName), []);
    var debug :- BoolField(m, "debug", false, []);
    var fp :- RecordField(m, "file_processor", DefaultFileProcessor, ToFileProcessorConfig);
    var models :- RecordField(m, "models", DefaultModels, ToModelsConfig);
    Success(AppConfig(name, debug, fp, models))
  }

  // ---------------------------------------------------------------------------
  // The dictionary form of a configuration (pydantic's `model_dump`, with the
  // absent optional records left out).

  function EncodeFileProcessor(f: FileProcessorConfig): Value {
    Obj([("max_file_size", Int(f.maxFileSize)),
         ("supported_formats", Arr(StrValues(f.supportedFormats))),
         ("temp_dir", Str(f.tempDir))])
  }

  function EncodeGoogle(g: GoogleModelConfig): Value {
    Obj([("api_key", Str(g.apiKey)), ("model_name", Str(g.modelName))])
  }

  function EncodeBedrock(b: BedrockModelConfig): Value {
    Obj([("aws_access_key", Str(b.awsAccessKey)), ("aws_secret_key", Str(b.awsSecretKey)),
         ("region", Str(b.region)), ("model_id", Str(b.modelId))])
  }

  function EncodeModels(m: ModelsConfig): Value {
    Obj([("default_model", Str(m.defaultModel))]
        + (if m.google.Some? then [("google", EncodeGoogle(m.google.value))] else [])
        + (if m.bedrock.Some? then [("bedrock", EncodeBedrock(m.bedrock.value))] else []))
  }

  function Encode(c: AppConfig): OrderedMap<string, Value> {
    [("app_name", Str(c.appName)), ("debug", Bool(c.debug)),
     ("file_processor", EncodeFileProcessor(c.fileProcessor)), ("models", EncodeModels(c.models))]
  }

  // ---------------------------------------------------------------------------
  // Properties

  /** With nothing set, every field takes its declared default. */
  lemma DefaultsFromEmpty()
    ensures ToAppConfig([]) == Success(DefaultAppConfig)
  {
  }

  lemma StringsRoundTrip(xs: seq<string>)
    ensures AllStr(StrValues(xs)) && Strings(StrValues(xs)) == xs
  {
  }

  lemma FileProcessorRoundTrip(f: FileProcessorConfig, loc: seq<string>)
    ensures ToFileProcessorConfig(EncodeFileProcessor(f), loc) == Success(f)
  {
    var m := EncodeFileProcessor(f).fields;
    StringsRoundTrip(f.supportedFormats);
    GetFirst(m, 0);
    GetFirst(m, 1);
    GetFirst(m, 2);
    assert IntField(m, "max_file_size", DefaultFileProcessor.maxFileSize, loc) == Success(f.maxFileSize);
    assert StrListField(m, "supported_formats", DefaultFileProcessor.supportedFormats, loc) == Success(f.supportedFormats);
    assert StrField(m, "temp_dir", Some(DefaultFileProcessor.tempDir), loc) == Success(f.tempDir);
  }

  lemma GoogleRoundTrip(g: GoogleModelConfig, loc: seq<string>)
    ensures ToGoogleModelConfig(EncodeGoogle(g), loc) == Success(g)
  {
    var m := EncodeGoogle(g).fields;
    GetFirst(m, 1);
  }

  lemma BedrockRoundTrip(b: BedrockModelConfig, loc: seq<string>)
    ensures ToBedrockModelConfig(EncodeBedrock(b), loc) == Success(b)
  {
    var m := EncodeBedrock(b).fields;
    GetFirst(m, 1);
    GetFirst(m, 2);
    GetFirst(m, 3);
  }

  /** The entries an encoded models record holds: the sub-records exactly
      when present. */
  lemma EncodedModelsEntries(c: ModelsConfig)
    ensures Get(EncodeModels(c).fields, "default_model") == Some(Str(c.defaultModel))
    ensures Get(EncodeModels(c).fields, "google") ==
      (if c.google.Some? then Some(EncodeGoogle(c.google.value)) else None)
    ensures Get(EncodeModels(c).fields, "bedrock") ==
      (if c.bedrock.Some? then Some(EncodeBedrock(c.bedrock.value)) else None)
  {
    var m := EncodeModels(c).fields;
    var g: OrderedMap<string, Value> := if c.google.Some? then [("google", EncodeGoogle(c.google.value))] else [];
    var b: OrderedMap<string, Value> := if c.bedrock.Some? then [("bedrock", EncodeBedrock(c.bedrock.value))] else [];
    assert m == [("default_model", Str(c.defaultModel))] + g + b;
    assert m[1..] == g + b;
    assert Get(m, "google") == Get(g + b, "google");
    assert Get(m, "bedrock") == Get(g + b, "bedrock");
    if c.google.Some? {
      assert (g + b)[1..] == b;
      assert Get(g + b, "bedrock") == Get(b, "bedrock");
    } else {
      assert g + b == b;
    }
  }

  lemma ModelsRoundTrip(c: ModelsConfig, loc: seq<string>)
    ensures ToModelsConfig(EncodeModels(c), loc) == Success(c)
  {
    var m := EncodeModels(c).fields;
    EncodedModelsEntries(c);
    assert StrField(m, "default_model", Some(DefaultModelName), loc) == Success(c.defaultModel);
    assert OptionalRecord(m, "google", loc, ToGoogleModelConfig) == Success(c.google) by {
      if c.google.Some? {
        GoogleRoundTrip(c.google.value, loc + ["google"]);
      }
    }
    assert OptionalRecord(m, "bedrock", loc, ToBedrockModelConfig) == Success(c.bedrock) by {
      if c.bedrock.Some? {
        BedrockRoundTrip(c.bedrock.value, loc + ["bedrock"]);
      }
    }
  }

  /** Validation reads back exactly the configuration that was written out:
      `AppConfig(**config.model_dump())` is `config`. */
  lemma AppConfigRoundTrip(c: AppConfig)
    ensures ToAppConfig(Encode(c)) == Success(c)
  {
    var m := Encode(c);
    assert StrField(m, "app_name", Some(DefaultAppName), []) == Success(c.appName) by {
      GetFirst(m, 0);
    }
    assert BoolField(m, "debug", false, []) == Success(c.debug) by {
      GetFirst(m, 1);
    }
    assert RecordField(m, "file_processor", DefaultFileProcessor, ToFileProcessorConfig) == Success(c.fileProcessor) by {
      GetFirst(m, 2);
      FileProcessorRoundTrip(c.fileProcessor, ["file_processor"]);
    }
    assert RecordField(m, "models", DefaultModels, ToModelsConfig) == Success(c.models) by {
      GetFirst(m, 3);
      ModelsRoundTrip(c.models, ["models"]);
    }
  }

  /** A Google record without `api_key` is rejected at that field. */
  lemma MissingApiKeyRejected(name: string)
    ensures ToAppConfig([("models", Obj([("google", Obj([("model_name", Str(name))]))]))])
         == Failure(ValidationError(["models", "google", "api_key"], MissingField))
  {
    var google := Obj([("model_name", Str(name))]);
    var models := Obj([("google", google)]);
    assert Get(google.fields, "api_key") == None;
    assert Get(models.fields, "default_model") == None;
    assert Get(models.fields, "google") == Some(google);
    assert ["models"] + ["google"] == ["models", "google"];
    assert ["models", "google"] + ["api_key"] == ["models", "google", "api_key"];
    assert ToGoogleModelConfig(google, ["models", "google"])
        == Failure(ValidationError(["models", "google", "api_key"], MissingField));
    assert ToModelsConfig(models, ["models"])
        == Failure(ValidationError(["models", "google", "api_key"], MissingField));
  }
}
