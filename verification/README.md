# ZenCV backend core, modelled in Dafny

This project models the core of the ZenCV resume-customisation backend. It covers:

- **The resume renderer** (`DocumentHandler.create_docx`). It turns a structured
  resume into a Word document: the page set-up, a centred name and contact
  header, a horizontal rule, and then the summary, experience, education,
  skills, projects, volunteering and honors sections, in that fixed order.
  The document is modelled as a sequence of paragraphs of runs. Each paragraph
  keeps the facts the renderer sets: bold, font size, alignment, the bullet
  style, the right tab stop and the bottom border.
- **The model registry** (`ModelFactory`). This is an insertion-ordered map
  from backend name to backend. It is filled once from the credentials found
  in the environment. A lookup by name fails with 400 and lists the registered
  names. Without a name, the lookup falls back to Google, then Bedrock, and
  otherwise fails with 503.
- **The shared backend parts** (`models/base.py`): the `ModelResponse` record
  and the prompt template that every backend sends.
- **The file processors**:
  - the extension-to-processor table, keyed by `Path(name).suffix.lower()`;
  - the per-processor size limit and its error message;
  - the PDF page aggregation. Stripped non-blank pages are joined with a blank
    line, and a document without text is rejected.
- **Configuration**:
  - the pydantic records of `config/config.py` and their defaults;
  - `Settings.load_config`. It takes the default dictionary, shallow-updates
    it with the first configuration file found (when that file is truthy),
    then shallow-updates it with the entries built from environment
    variables, and finally validates the result into an `AppConfig`.

Files:

- `wrappers.dfy`: `Option` and `Result`, and the `HTTPException` status and detail.
- `text.dfy`: ASCII case mapping, whitespace stripping, `join`, and integer
  parsing and printing.
- `ordered_map.dfy`: Python's insertion-ordered `dict` as a sequence of pairs.
- `docx.dfy`: the paragraph vocabulary.
- `resume_record.dfy`: the structured resume.
- `document_handler.dfy`: the renderer.
- `document_properties.dfy`: what every rendered document looks like.
- `model_base.dfy`: the shared backend parts.
- `model_factory.dfy`: the model registry.
- `file_processors.dfy`: the file processors.
- `config.dfy`: the configuration records.
- `settings.dfy`: configuration loading.

The file system, the YAML and JSON parsers, the process environment and the
PDF library's per-page text are all parameters. A file system is a map from
path to text. A parser is a function from text to a parsed document or an
error. The environment is a map from variable name to value.

Where the code and its own documentation disagree, the model follows the code:

- **Empty sections.** A section is rendered whenever its key is present, even
  with an empty list or an empty summary. Its heading appears with no entries
  under it. Nothing is omitted for being empty.
- **The contact line.** When `contact` is present, the contact paragraph is
  always added. With no email, phone, location or linkedin it holds an empty
  run.
- **The horizontal rule.** The rule is added whether or not there is a
  contact header.
- **Spacers before headings.** Only the summary heading is added without a
  spacer. Every other heading gets a spacer before it, even when it is the
  first heading in the document.
- **Experience and volunteering spacers.** The spacer after an entry is
  decided by comparing the whole entry dictionary with the last one, keys the
  renderer never shows included. A duplicate of the last entry gets no spacer
  either: the number of spacers is the number of entries minus the number of
  copies of the last one. The entry records therefore keep their unread keys
  (`others`), so that entries differing only there are not copies.
- **Hidden dates.** A project or honor date is hidden when it is absent, when
  it is empty (it is falsy) or when it is the text `None`.
- **The PDF "no text" error.** This 400 error is raised inside the `try`. It
  is caught by the generic `except Exception`, so the caller sees a 500 whose
  detail embeds `400: <detail>`.
- **Configuration precedence.** Sources are merged per top-level key, and
  entries are replaced whole:
  - `MAX_FILE_SIZE` replaces the whole `file_processor` entry, so the
    supported formats and temp dir revert to their defaults.
  - Any credential variable replaces the whole `models` entry, so
    `default_model` reverts to `"google"`.

## Model

| member | source | states |
|---|---|---|
| DocumentHandler.ContactLine | utils/document_handler.py:65-75 | for every combination of present fields, the line equals the one built field by field in the order email, phone, location, linkedin, each present field starting the line or following " \| " and each absent one leaving no slot; so no field gives the empty line, a present email starts it and a present linkedin ends it |
| DocumentHandler.Sections | utils/document_handler.py:82-247 | the part below the rule is empty exactly when no section key is present (its headings, order and spacers are in SectionsShape) |
| DocumentHandler.Render | utils/document_handler.py:11-249 | rendering fails exactly when `contact` is present without `name`; a success is laid out on the letter page |
| DocumentHandler.Header | utils/document_handler.py:55-78 | fails exactly when the contact has no name; otherwise two paragraphs when `contact` is present and none when it is absent, neither a heading nor a spacer |
| DocumentHandler.ShownDate | utils/document_handler.py:174 | a project date is shown exactly when it is present, non-empty and not the text "None", and then unchanged |
| DocumentHandler.ExperienceEntry | utils/document_handler.py:93-112 | the "title - company" line with its dates comes first, followed by exactly one bullet per point, in order and with the point's text |
| DocumentHandler.EducationEntry | utils/document_handler.py:120-146 | degree and dates, then the school; a third, coursework line exactly when `courses` is present and non-empty |
| DocumentHandler.ProjectEntry | utils/document_handler.py:163-193 | the name line with the date only when shown, a technologies line exactly when the key is present, then the points as bullets |
| DocumentHandler.VolunteeringEntry | utils/document_handler.py:201-220 | the "role - organization" line with its dates, then one bullet per point, with none when `points` is absent |
| DocumentHandler.HonorEntry | utils/document_handler.py:228-247 | "title - issuer" with the date only when shown, and a justified description line exactly when the key is present |
| DocumentHandler.EducationBlock | utils/document_handler.py:118-146 | education entries carry no spacer, heading or rule |
| DocumentHandler.SkillLines | utils/document_handler.py:149-158 | skill lines carry no spacer, heading or rule |
| DocumentHandler.ProjectBlock | utils/document_handler.py:161-196 | project entries carry no spacer between them, since that code is commented out |
| DocumentHandler.HonorBlock | utils/document_handler.py:226-247 | honor entries carry no spacer, heading or rule |
| DocumentHandler.ExperienceEntries | utils/document_handler.py:93-115 | experience entries contain no heading and no rule |
| DocumentHandler.ExperienceBlock | utils/document_handler.py:91-115 | the experience body contains no heading and no rule |
| DocumentHandler.VolunteeringEntries | utils/document_handler.py:201-223 | volunteering entries contain no heading and no rule |
| DocumentHandler.VolunteeringBlock | utils/document_handler.py:199-223 | the volunteering body contains no heading and no rule |
| Docx.SectionHeading | utils/document_handler.py:24-33 | a spacer exactly when `space_before`, then one bold 12pt heading whose text is upper case |
| Docx.TabbedLine | utils/document_handler.py:48-52 | a right-tabbed line: the bold 11pt left text, and when there is a right text, a tab run and the 10.5pt right text |
| Docx.LabelledLine | utils/document_handler.py:139-146 | a bold caption run followed by the items joined with ", " |
| Docx.BulletLines | utils/document_handler.py:108-112 | one bullet paragraph per point, in order |
| Docx.BulletLinesTexts | utils/document_handler.py:108-112 | the bullets read back give exactly the points, with no spacer and no heading |
| DocumentProperties.SectionsShape | utils/document_handler.py:82-247 | below the rule, the headings are exactly those of the present sections, upper case and in the fixed order; there is no rule; every non-summary heading follows a spacer |
| DocumentProperties.RenderHeadings | utils/document_handler.py:83-227 | the headings of the rendered document are exactly the titles of the present sections, in fixed order, whatever the field order of the input |
| DocumentProperties.RenderRule | utils/document_handler.py:55-80 | the document has exactly one rule; it sits right after the two header paragraphs, or first when there is no contact |
| DocumentProperties.RenderSpacedHeadings | utils/document_handler.py:24-33 | every heading other than the summary's is immediately preceded by a spacer, including the first heading when there is no summary |
| DocumentProperties.SpacedHeadingsMeans | utils/document_handler.py:24-27 | the recursive spacing predicate implies the index form: a heading other than the summary's is preceded by a spacer |
| DocumentProperties.ExperienceEntriesSpacers | utils/document_handler.py:93-115 | the paragraph right after entry i's bullets is a spacer exactly when entry i differs, as a whole dictionary with unread keys included, from the compared one; so the number of spacers is the number of entries minus the copies of it |
| DocumentProperties.ExperienceSpacers | utils/document_handler.py:91-115 | a spacer follows entry i exactly when it differs from the last entry, so none follows the last entry or an earlier copy of it and the block never ends with a spacer; the count is n minus the copies of the last, n-1 when it is unique; the bullets are all points, in order |
| DocumentProperties.VolunteeringEntriesSpacers | utils/document_handler.py:201-223 | the paragraph right after volunteering entry i is a spacer exactly when the entry differs, over every key, from the compared one; the count follows |
| DocumentProperties.VolunteeringSpacers | utils/document_handler.py:199-223 | a spacer follows volunteering entry i exactly when it differs from the last entry, none follows the last or a copy of it, the block never ends with a spacer, and the count is n minus the copies of the last; the bullets are all points, in order |
| DocumentProperties.ExperienceEntriesAppend | utils/document_handler.py:93-115 | the entries of a + b render as those of a followed by those of b: each entry's paragraphs depend on that entry alone |
| DocumentProperties.ExperienceEntryAt | utils/document_handler.py:93-115 | entry i renders in place between the entries before and after it, followed by a spacer exactly when it differs from the compared entry |
| DocumentProperties.ExperienceBlockEnd | utils/document_handler.py:114-115 | a non-empty experience block ends with the last entry's own paragraphs, never a spacer |
| DocumentProperties.VolunteeringEntriesAppend | utils/document_handler.py:201-223 | the volunteering entries of a + b render as those of a followed by those of b |
| DocumentProperties.VolunteeringEntryAt | utils/document_handler.py:201-223 | volunteering entry i renders in place, followed by a spacer exactly when it differs from the compared entry |
| DocumentProperties.VolunteeringBlockEnd | utils/document_handler.py:222-223 | a non-empty volunteering block never ends with a spacer |
| DocumentProperties.UnreadKeyDistinguishes | utils/document_handler.py:114 | two entries that differ only in a key the renderer never shows are not copies: the first still gets a spacer, for experience and volunteering alike |
| DocumentProperties.NoSpacersBetweenEntries | utils/document_handler.py:118-247 | education, skills, projects and honors put no spacer between entries |
| DocumentProperties.SkillLinesText | utils/document_handler.py:149-158 | one line per category, in insertion order, reading "category: " followed by the skills joined with ", " |
| DocumentProperties.ContactLineAll | utils/document_handler.py:65-75 | with all four fields, the contact line is email, phone, location and linkedin joined with " \| " |
| DocumentProperties.ContactLineFew | utils/document_handler.py:65-75 | with no field the line is empty; with any one field it is that field alone; email and linkedin give "email \| linkedin", and phone, location and linkedin give those three joined, with no slot for the absent fields |
| DocumentProperties.ContactLineAddLinkedin | utils/document_handler.py:73-75 | adding a linkedin to a contact without one appends it to the line of the other fields, after " \| " unless no field precedes it |
| DocumentProperties.RenderHeader | utils/document_handler.py:55-80 | a contact without a name fails; without contact the rule comes first; otherwise the name line and the contact line, both centred, precede the rule |
| DocumentProperties.SingleExperienceScenario | utils/document_handler.py:55-115 | the exact document for a name and one experience with one point: name, empty contact line, rule, spacer, heading, entry line, bullet |
| DocumentProperties.TitlesUpperCase | utils/document_handler.py:84-227 | every section title is already upper case, so upper-casing leaves it unchanged |
| ModelBase.Completed | models/base.py:5-8 | a response built from text alone carries that text and counts as no failure |
| ModelBase.CreatePrompt | models/base.py:27-43 | the prompt begins with the fixed prefix, ends with the fixed instructions, and is the inputs' length plus a fixed overhead |
| ModelBase.PromptRoundTrip | models/base.py:27-43 | both inputs can be read back out of the prompt unchanged, the resume first, with the fixed middle between them |
| ModelBase.PromptInjective | models/base.py:27-43 | equal prompts (for resumes of equal length) come from equal inputs |
| ModelFactory.FirstRegistered | models/model_factory.py:64-67 | a registered name of the list before which every name of the list is unregistered, or none when none of them is registered |
| ModelFactory.GetModel | models/model_factory.py:39-72 | with a non-empty name, success exactly when it is registered; without one, success exactly when google or bedrock is; failures are 400 and 503 respectively |
| ModelFactory.InitializeModels | models/model_factory.py:24-37 | google holds the Google backend exactly when its key is set and bedrock the Bedrock backend exactly when both AWS keys are, with the constructors' defaults; every other name is unchanged |
| ModelFactory.Construct | models/model_factory.py:20-22 | an existing entry is never replaced; from an empty map the names are google then bedrock, each when its credentials are set |
| ModelFactory.RegisterModel | models/model_factory.py:74-76 | the name now holds the new backend and every other name keeps its backend |
| ModelFactory.ListAvailableModels | models/model_factory.py:78-80 | one name per entry, and a name is listed exactly when a lookup of it succeeds |
| ModelFactory.GetModelByName | models/model_factory.py:53-61 | a non-empty registered name resolves to its entry; an unknown one fails with 400, listing every registered name in order |
| ModelFactory.GetModelDefault | models/model_factory.py:63-72 | without a name: Google if registered, else Bedrock if registered, else a 503 error |
| ModelFactory.RegisterThenGet | models/model_factory.py:74-80 | after registering, the name resolves to the new backend, and the name list grows only by a new name |
| ModelFactory.RegisterKeepsOthers | models/model_factory.py:74-76 | registering one name leaves the lookup of every other name unchanged |
| ModelFactory.InitializeModelsKeys | models/model_factory.py:24-37 | from an empty map, `google` is registered exactly when its key is set and `bedrock` exactly when both AWS keys are, Google first |
| ModelFactory.ConstructIdempotent | models/model_factory.py:15-22 | a non-empty map is never re-initialised; constructing twice is the same as once |
| ModelFactory.FallbackScenario | models/model_factory.py:63-72 | with Google and Bedrock registered, Google; with only Bedrock, Bedrock; with neither, 503 |
| ModelFactory.UnknownNameScenario | models/model_factory.py:53-58 | "unknown" against a registry holding only Google fails with 400 naming google |
| FileProcessors.NewProcessor | utils/file_processors/base.py:7-11 | the limit is the default 5 MiB unless an argument is given, and then that argument, 0 included |
| FileProcessors.LimitInMiB | utils/file_processors/base.py:22 | the limit printed in MiB is its floor division by 1024 twice |
| FileProcessors.ValidateSize | utils/file_processors/base.py:18-23 | no error exactly when the content is no longer than the limit; otherwise 400 with the limit in MiB |
| FileProcessors.SizeLimitDetailExamples | utils/file_processors/base.py:22 | any limit in [0, 1 MiB) prints as 0MB; the default prints as 5MB |
| FileProcessors.NonBlankPages | utils/file_processors/pdf_processor.py:16-20 | the kept pages are non-empty with no surrounding whitespace, no more than the pages |
| FileProcessors.NonBlankPagesAppend | utils/file_processors/pdf_processor.py:17-20 | pages are judged independently and kept in page order: the pages kept from a + b are those kept from a followed by those kept from b |
| FileProcessors.NonBlankPagesSingle | utils/file_processors/pdf_processor.py:18-20 | one page contributes its stripped text exactly when it is not all whitespace, and nothing otherwise |
| FileProcessors.NonBlankPagesEmpty | utils/file_processors/pdf_processor.py:17-20 | no page is kept exactly when every page is whitespace |
| FileProcessors.ExtractText | utils/file_processors/pdf_processor.py:9-41 | a success comes from page texts; a failure is 400 exactly for an unreadable PDF, and every other failure, the "no text" one included, is 500 |
| FileProcessors.ExtractTextPages | utils/file_processors/pdf_processor.py:9-41 | success exactly when some page has text; the text is the kept pages joined with a blank line; otherwise the caught "no text" 500 |
| FileProcessors.ExtractTextShape | utils/file_processors/pdf_processor.py:16-30 | a successful text is non-empty, without surrounding whitespace, and its length is that of the kept pages plus two per separator |
| FileProcessorFactory.FinalComponent | utils/file_processors/factory.py:21 | the final path component contains no slash and is never "." |
| FileProcessorFactory.Suffix | utils/file_processors/factory.py:21 | a suffix is empty, or a dot followed by at least one character and no further dot |
| FileProcessorFactory.Extension | utils/file_processors/factory.py:21 | the extension is empty or a single dotted suffix without slash, and has no upper-case letter |
| FileProcessorFactory.ExtensionOfName | utils/file_processors/factory.py:21 | the extension of "stem.ext" is ".ext" lower-cased |
| FileProcessorFactory.ExtensionOfPath | utils/file_processors/factory.py:21 | under any directory, only the final component decides the extension |
| FileProcessorFactory.GetProcessor | utils/file_processors/factory.py:18-30 | a processor is found exactly when the extension is a key, of the class stored there and with the default limit; a miss is a 400 error listing the keys |
| FileProcessorFactory.RegisterProcessor | utils/file_processors/factory.py:32-35 | the lower-cased extension now maps to the class, every other extension keeps its class, and a new extension is appended to the key order |
| FileProcessorFactory.RegisterThenGet | utils/file_processors/factory.py:32-35 | a registered extension is found for a file with that extension in any letter case |
| FileProcessorFactory.DotlessNeverMatches | utils/file_processors/factory.py:32-35 | an extension registered without a leading dot never changes any lookup |
| FileProcessorFactory.EmptyExtensionMatchesSuffixless | utils/file_processors/factory.py:21-35 | registering the empty extension makes every name without a suffix match |
| FileProcessorFactory.DotlessNameSuffixless | utils/file_processors/factory.py:21 | a dot-free name such as "README" has no suffix, under any directory |
| FileProcessorFactory.PdfAccepted | utils/file_processors/factory.py:10-30 | a name "stem.pdf" or "stem.PDF" gets the PDF processor with the default limit, whatever dots precede the suffix ("CV.PDF", "a.docx.pdf"): case is ignored and only the last suffix counts |
| FileProcessorFactory.LastSuffixRejected | utils/file_processors/factory.py:10-30 | any name ending in ".exe" is rejected with the list of supported extensions, whatever precedes it ("a.pdf.exe") |
| FileProcessorFactory.LeadingDotNoSuffix | utils/file_processors/factory.py:21 | a name whose only dot is its first character (".pdf") has no suffix |
| FileProcessorFactory.TrailingDotNoSuffix | utils/file_processors/factory.py:21 | a name ending in a dot ("resume.") has no suffix |
| Config.StrField | config/config.py:50-67 | absent gives the default, or a missing-field error at the key's path; present succeeds exactly for a string, and then that string |
| Config.IntField | config/config.py:5-18 | absent gives the default; present succeeds exactly for an integer, and then that integer |
| Config.BoolField | config/config.py:50-67 | absent gives the default; present succeeds exactly for a boolean, and then that boolean |
| Config.StrListField | config/config.py:5-18 | absent gives the default; present succeeds exactly for a list of strings, and then those strings in order |
| Config.Strings | config/config.py:12 | the strings read are exactly the list's items, in order |
| Config.ToFileProcessorConfig | config/config.py:5-18 | succeeds exactly for a mapping whose fields have the declared types; present fields keep their values and absent ones take 5 MiB, [".pdf"] and "temp"; an error is reported under the record's path |
| Config.ToGoogleModelConfig | config/config.py:20-26 | succeeds exactly for a mapping with a string `api_key` and an optional string `model_name`; a missing `api_key` is reported at that field |
| Config.ToBedrockModelConfig | config/config.py:28-39 | succeeds exactly when both AWS keys are strings and the rest are optional strings; a missing secret key is reported at that field |
| Config.OptionalRecord | config/config.py:46-47 | an absent or null sub-record is `None`; otherwise the sub-record's own validation decides |
| Config.ToModelsConfig | config/config.py:41-48 | succeeds exactly for a mapping with an optional string `default_model` whose google and bedrock entries are absent, null or valid; `default_model` defaults to "google" and the sub-records come from their own entries |
| Config.RecordField | config/config.py:60-67 | an absent nested record takes its default; a present one is validated at its key |
| Config.ToAppConfig | config/config.py:50-67 | succeeds exactly when every field has its declared type; each field is the dictionary's value or its default; other keys are ignored |
| Config.DefaultsFromEmpty | config/config.py:50-67 | an empty dictionary validates to the all-defaults configuration |
| Config.StringsRoundTrip | config/config.py:12 | encoding a string list and reading it back gives the same list |
| Config.FileProcessorRoundTrip | config/config.py:5-18 | a file-processor record survives writing as a dictionary and validating back |
| Config.GoogleRoundTrip | config/config.py:20-26 | a Google record survives writing and validating back |
| Config.BedrockRoundTrip | config/config.py:28-39 | a Bedrock record survives writing and validating back |
| Config.ModelsRoundTrip | config/config.py:41-48 | a models record survives writing (absent sub-records omitted) and validating back |
| Config.AppConfigRoundTrip | config/config.py:50-67 | every configuration survives writing as a dictionary and validating back |
| Config.MissingApiKeyRejected | config/config.py:20-26 | a Google entry without `api_key` is rejected with a missing-field error at models.google.api_key |
| Settings.FirstExisting | config/settings.py:63-64 | the first path that exists; every earlier path is missing; none when none exists |
| Settings.SetNested | config/settings.py:78 | `setdefault(outer, {})[key] = value` sets the key in the nested mapping, adds `outer` last if new, and leaves every other entry alone |
| Settings.SizeLayer | config/settings.py:77-78 | `MAX_FILE_SIZE` yields a `file_processor` entry holding only the parsed size; a non-integer fails with ValueError |
| Settings.CredentialLayer | config/settings.py:80-96 | `models` holds `google` exactly when its key is set and `bedrock` exactly when the AWS keys are; an access key without its secret fails with KeyError |
| Settings.LoadFromEnv | config/settings.py:72-98 | fails exactly on a non-integer size or an access key without its secret, the size first; otherwise exactly the keys the set variables call for |
| Settings.LoadFromEnvEntries | config/settings.py:76-96 | the entries the environment layer holds, entry by entry |
| Settings.LoadFromFile | config/settings.py:52-70 | the file layer fails only with a parse error of an existing configuration location |
| Settings.MergedConfig | config/settings.py:22-32 | merging succeeds exactly when the file parses, is falsy or a mapping, and the environment layer succeeds; a file error wins over any environment error (the merged entries are in Precedence) |
| Settings.LoadConfig | config/settings.py:15-35 | a merge error is the load error; after a successful merge, loading succeeds exactly when validation does, and otherwise fails with the validation error |
| Settings.WithFile | config/settings.py:26-28 | a falsy document leaves the defaults unchanged; a truthy document that is not a mapping fails |
| Settings.DefaultDictAgrees | config/settings.py:37-50 | the default dictionary is the dictionary form of `AppConfig()`'s defaults and validates to them |
| Settings.FormatOfName | config/settings.py:66-68 | ".yaml" and ".yml" select YAML, case-sensitively; every other suffix selects JSON |
| Settings.FormatOfPath | config/settings.py:66-68 | under any directory, only the final component's suffix selects the parser |
| Settings.ConfigLocationFormat | config/settings.py:55-68 | the two `config.json` locations are read as JSON; the other three as YAML |
| Settings.FirstExistingIs | config/settings.py:63-64 | the first existing location is the one before which every location is missing |
| Settings.FirstLocationWins | config/settings.py:52-68 | the first existing location is read with the parser its suffix selects, whatever exists after it |
| Settings.NoLocationEmpty | config/settings.py:70 | with no location present, the file layer is `{}` |
| Settings.DefaultsWithoutSources | config/settings.py:15-35 | with no configuration variable and no truthy file, loading gives the record defaults |
| Settings.Precedence | config/settings.py:22-32 | per top-level key: the environment's entry, else the file's, else the default's, each replacing the whole entry |
| Settings.MergedEntry | config/settings.py:31-32 | after a successful load, every key the environment set holds the environment's entry |
| Settings.SizeOnlyRecord | config/config.py:5-18 | a `file_processor` entry holding only the size keeps the default formats and temp dir |
| Settings.EnvSizeOverrides | config/settings.py:77-78 | `MAX_FILE_SIZE` sets the limit and resets the formats and temp dir to their defaults |
| Settings.GoogleEntryValid | config/settings.py:81-86 | the environment's Google entry validates to the key and the model name, or its default |
| Settings.BedrockEntryValid | config/settings.py:89-96 | the environment's Bedrock entry validates to both keys and the region and model id, or their defaults |
| Settings.ModelsFromEnv | config/settings.py:80-96 | the environment's `models` entry validates with `default_model` "google" and exactly the backends whose variables are set |
| Settings.LoadedModels | config/settings.py:31-35 | when a credential is set, the loaded models record is the environment's |
| Settings.EnvGoogle | config/settings.py:81-86 | a Google key yields the Google record from the environment and `default_model` "google", whatever the file said |
| Settings.EnvBedrock | config/settings.py:89-96 | both AWS keys yield the Bedrock record from the environment |
| Settings.EnvErrors | config/settings.py:72-98 | once the file layer succeeds, a non-integer size fails first, then an access key without its secret key |
| Settings.FileNotMapping | config/settings.py:26-28 | a truthy document that is not a mapping fails, whatever the environment holds |
| OrderedMap.PutGetSame | config/settings.py:78 | after setting a key, the key reads back the new value |
| OrderedMap.PutGetOther | config/settings.py:78 | setting one key leaves every other key's value unchanged |
| OrderedMap.PutKeys | models/model_factory.py:76 | setting a key keeps the key order; a new key is appended |
| OrderedMap.UpdateGet | config/settings.py:28 | after `update`, a key of the other mapping holds its value there, and any other key keeps its old value |
| OrderedMap.UpdateValid | config/settings.py:28 | `update` keeps the keys distinct |
| Text.Strip | utils/file_processors/pdf_processor.py:19-20 | the stripped text is empty exactly when the input is all whitespace, and otherwise starts and ends with a non-whitespace character |
| Text.StripInfix | utils/file_processors/pdf_processor.py:19-20 | the stripped text is the part of the input between a whitespace prefix and a whitespace suffix, so nothing else is removed |
| Text.IntToStringRoundTrip | config/settings.py:78 | `int()` of any printed integer gives that integer back |

## Left out

- **Unread entry keys.** An experience or volunteering entry keeps its unread keys with each value in a printed form, and two values count as equal exactly when their printed forms are. Python's comparison of nested values is not modelled beyond that.
- **I/O.** Opening files, `Path.exists`, `yaml.safe_load`, `json.load`, `os.environ` and the PDF library are parameters. The model assumes nothing about their internals.
- **The `print(content)` call** at the start of rendering. It has no effect on the document.
- **The DOCX XML and byte serialisation.** So are paragraph spacing (`space_before`, `space_after`) and the exact attributes of the border element. The rule is one paragraph with a bottom border.
- **`get_settings`' `lru_cache`.** It is process-level caching of one `load_config` call, and the model has one call.
- **The singleton object identity of `ModelFactory.__new__`.** The shared map is passed explicitly.
- **The backends' network calls** (`customize_resume` in the Google and Bedrock modules). These modules are not part of this model. A backend is a value built from its credentials.
- **Processors other than PDF.** These are only named in comments.
- **`extract_text`'s reading of the PDF structure.** The model takes the library's per-page texts or its error.
- **DocumentHandler.Render: KeyError on required entry keys** (`title`, `company`, `dates`, `points` and the like). The record's types make those keys present. Only `contact.name` is optional, because its absence is the renderer's one documented failure.
- **DocumentHandler.Render: non-list values where a list is expected.** Iterating over a string, for example, is excluded by the types.
- **DocumentHandler.Render: non-string field values.** `create_docx` accepts any JSON value in a field. A null or other non-string scalar behaves in its own way there: a null `email` makes the `" | "` join raise a TypeError (utils/document_handler.py:75), and a null `title` prints as "None - Acme" through the f-string (utils/document_handler.py:98). The record's types make every such field a string, so these inputs are outside the model.
- **Text.Upper: ASCII only.** Upper- and lower-casing cover ASCII letters only, because Python's full Unicode case mapping is out of scope. Every section title is ASCII.
- **Text.ParseInt: only `int()` on ASCII digits.** It accepts an optional sign, surrounding whitespace and single underscores between digits. Non-ASCII Unicode digits are not modelled.
- **Config.ToAppConfig: exact types only.** Validation accepts only values of exactly the declared type. It does not model pydantic's lax coercion, such as `"5"` to `5` or `1` to `True`.
- **Config.ToAppConfig: first error only.** On failure, only the first error found is reported, not pydantic's full list.
- **Config.ToFileProcessorConfig: `temp_dir` kept as text.** The field is a `Path` in the source, and pydantic normalises it: "temp/" and "./temp" both become `temp`, and "" becomes `.`. The model keeps the string as given, since path normalisation is outside the model.
- **Config.Value: no floats.** Parsed documents have no floating-point numbers.
- **Settings.WithFile: mappings only.** `dict.update` of a document that is a list of pairs is treated as a failure, like any other non-mapping.
- **FileProcessors.ExtractText: assumed error rendering.** The 500 detail for a PDF without text assumes the caught exception renders as `"<status>: <detail>"`.
- **FileProcessors.ExtractText: other library failures.** They are represented by their message alone.
- **ModelBase: only the parts backends share.** The abstract `customize_resume` has no body to model. Only the response record and the prompt are modelled.
