/**
 The run-to-document mapper, `dynamic_mlflow_to_tmf` (mlflow_to_tmf.py):
 a run record goes in, a TMF AI model specification comes out. The mapping is
 built in three stages that follow the source: `Build` evaluates every field
 of the document (the dict literal), `Render` lays the fields out as a JSON
 object with `None` sections as nulls, and `Prune` drops the top-level nulls.
 */
module Mapper {
  import opened Base
  import opened Assoc
  import opened Text
  import opened Json
  import opened TagRules

  // ------------------------------------------------------------- input

  /** `run.info`; times are epoch milliseconds and may be missing. */
  datatype RunInfo = RunInfo(
    startTime: Option<int>,
    endTime: Option<int>,
    status: string,
    userId: Option<string>,
    experimentId: string,
    artifactUri: string)

  /** A run as `MlflowClient().get_run` returns it. */
  datatype Run = Run(
    info: RunInfo,
    params: Dict<string, string>,
    metrics: Dict<string, real>,
    tags: Tags)

  /**
   What the mapper takes from outside the run: the string of a fresh
   `uuid.uuid4()`, the reading of `datetime.now().isoformat()`, and
   `datetime.fromtimestamp(ms / 1000).isoformat()` as an uninterpreted formatter.
   */
  datatype Env = Env(newId: string, now: string, isoFormat: int -> string)

  // ------------------------------------------------------------ output

  /** A `validFor` window; a missing end stays in the document as null. */
  datatype Window = Window(startDateTime: string, endDateTime: Option<string>)

  /** A reference section: description, url and, for the data sheet, a MIME type. */
  datatype Reference = Reference(description: string, url: string, mimeType: Option<string>)

  /** The single element of a characteristic's `serviceSpecCharacteristicValue`. */
  datatype CharValue = CharValue(valueType: string, value: string, validFor: Window)

  /** One parameter as a `serviceSpecCharacteristic` entry. */
  datatype Characteristic = Characteristic(
    name: string,
    description: string,
    valueType: string,
    configurable: bool,
    validFor: Window,
    minCardinality: int,
    maxCardinality: int,
    isUnique: bool,
    regex: string,
    extensible: bool,
    value: CharValue)

  /** The single element of `relatedParty`. */
  datatype Party = Party(href: string, id: string, name: string, role: string)

  /** The `mlflowMetadata` extension. */
  datatype Metadata = Metadata(
    runId: string,
    experimentId: string,
    artifactUri: string,
    status: string,
    userId: Option<string>,
    metrics: Dict<string, real>,
    allTags: Tags)

  /** Every field of the document before pruning; `None` sections are Python's `None`. */
  datatype Spec = Spec(
    id: string,
    href: string,
    name: string,
    description: string,
    version: string,
    validFor: Window,
    lastUpdate: string,
    lifecycleStatus: string,
    isBundle: bool,
    history: Reference,
    inheritedModel: Option<Reference>,
    trainingData: Option<Reference>,
    evaluationData: Option<Reference>,
    dataSheet: Option<Reference>,
    deploymentRecord: Option<Reference>,
    contractHistory: Option<Reference>,
    characteristics: seq<Characteristic>,
    owner: Party,
    metadata: Metadata)

  const SpecHrefBase := "https://mycsp.com:8080/tmfapi/serviceCatalogManagement/v4/serviceSpecification/"
  const PartyHrefBase := "https://mycsp.com:8080/tmf-api/partyManagement/v4/individual/"
  const SpecSchema := "https://mycsp.com:8080/tmf-api/schema/AIM/AIModelSpecification.schema.json"
  const ModelSchema := "https://mycsp.com:8080/tmf-api/schema/AIM/AIModel.schema.json"
  const DefaultTrackingUri := "http://localhost:5000"
  const SpecType := "AIModelSpecification"
  const SpecBaseType := "ServiceSpecification"
  const ModelType := "AIModel"

  /** The tags read for the top-level fields, and the defaults used when they are absent. */
  const NameTag := "mlflow.runName"
  const DescriptionTag := "description"
  const VersionTag := "version"
  const LifecycleTag := "lifecycleStatus"
  const BundleTag := "isBundle"
  const NamePrefix := "MLflow Run "
  const DescriptionPrefix := "AI Model specification from MLflow run "
  const DefaultVersion := "1.0"
  const DefaultLifecycle := "Active"

  /**
   A reference section: its key in the document, the tag whose value is its
   url and whose presence decides whether it appears, the tag for its
   description, the description used when that tag is absent, and, for the
   data sheet alone, the tag for its MIME type.
   */
  datatype SectionRule = SectionRule(key: string, urlTag: string, descriptionTag: string,
                                     defaultDescription: string, mimeTag: Option<string>)

  const DataSheetMimeTag := "dataSheet_mimeType"
  const DefaultMimeType := "application/json"

  const InheritedModelRule := SectionRule("inheritedModel", "inheritedModel_url", "inheritedModel_description",
                                          "Reference to parent model used via transfer learning", None)
  const TrainingDataRule := SectionRule("modelTrainingData", "training_dataSource", "trainingData_description",
                                        "Repository link for training data", None)
  const EvaluationDataRule := SectionRule("modelEvaluationData", "evaluation_dataSource", "evaluationData_description",
                                          "Repository link for evaluation data", None)
  const DataSheetRule := SectionRule("modelDataSheet", "dataSheet_url", "dataSheet_description",
                                     "Digital document describing this model", Some(DataSheetMimeTag))
  const DeploymentRecordRule := SectionRule("deploymentRecord", "deploymentRecord_url", "deploymentRecord_description",
                                            "Deployment approval record for this model", None)
  const ContractHistoryRule := SectionRule("modelContractVersionHistory", "contractHistory_url",
                                           "contractHistory_description", "Model contract and version history", None)

  /** The six reference sections in document order. */
  const SectionRules := [InheritedModelRule, TrainingDataRule, EvaluationDataRule, DataSheetRule,
                         DeploymentRecordRule, ContractHistoryRule]

  // ------------------------------------------------------------ fields

  /** Truthiness of an epoch time: missing and zero are both false. */
  predicate IsSetTime(t: Option<int>) {
    t.Some? && t.value != 0
  }

  /** `format_timestamp`: a set time is formatted, anything else reads the clock. */
  function FormatTimestamp(env: Env, t: Option<int>): string {
    if IsSetTime(t) then env.isoFormat(t.value) else env.now
  }

  /** The `validFor` window every part of the document carries. */
  function RunWindow(env: Env, info: RunInfo): Window {
    Window(FormatTimestamp(env, info.startTime),
           if IsSetTime(info.endTime) then Some(FormatTimestamp(env, info.endTime)) else None)
  }

  /** `format_timestamp(end_time or start_time)`. */
  function LastUpdate(env: Env, info: RunInfo): string {
    FormatTimestamp(env, if IsSetTime(info.endTime) then info.endTime else info.startTime)
  }

  /** A reference section: present only when its driving tag is set. */
  function OptionalSection(tags: Tags, rule: SectionRule): Option<Reference> {
    if TagSet(tags, rule.urlTag) then
      Some(Reference(TagOr(tags, rule.descriptionTag, rule.defaultDescription),
                     TagOr(tags, rule.urlTag, ""),
                     if rule.mimeTag.Some? then Some(TagOr(tags, rule.mimeTag.value, DefaultMimeType)) else None))
    else None
  }

  const TrackingUriTag := "mlflow_tracking_uri"
  const HistoryDescription := "Model development history preserved in MLflow"

  /** The history section, always present, pointing at the run in the tracking UI. */
  function HistorySection(runId: string, run: Run): Reference {
    Reference(HistoryDescription,
              TagOr(run.tags, TrackingUriTag, DefaultTrackingUri) + "/#/experiments/" +
              run.info.experimentId + "/runs/" + runId,
              None)
  }

  const UnknownUser := "Unknown"

  /** `run.info.user_id or "Unknown"`. */
  function UserOrUnknown(userId: Option<string>): string {
    if userId.Some? && userId.value != "" then userId.value else UnknownUser
  }

  const OwnerIdTag := "owner_id"
  const OwnerHrefTag := "owner_href"
  const OwnerNameTag := "owner_name"
  const OwnerRoleTag := "owner_role"
  const UnknownOwnerId := "unknown"
  const DefaultOwnerRole := "ModelOwner"

  /** The owning party, from the `owner_*` tags. */
  function OwnerParty(run: Run): Party {
    var ownerId := TagOr(run.tags, OwnerIdTag, UnknownOwnerId);
    Party(TagOr(run.tags, OwnerHrefTag, PartyHrefBase + ownerId),
          ownerId,
          TagOr(run.tags, OwnerNameTag, UserOrUnknown(run.info.userId)),
          TagOr(run.tags, OwnerRoleTag, DefaultOwnerRole))
  }

  // --------------------------------------------------- characteristics

  /** Suffixes of the per-parameter tags: parameter `p` is tuned by tag `p + suffix`. */
  const ValueTypeSuffix := "_valueType"
  const DescriptionSuffix := "_description"
  const ConfigurableSuffix := "_configurable"
  const MinSuffix := "_minCardinality"
  const MaxSuffix := "_maxCardinality"
  const UniqueSuffix := "_isUnique"
  const RegexSuffix := "_regex"
  const ExtensibleSuffix := "_extensible"
  const DefaultValueType := "string"

  /** The error, if any, that parameter `key`'s cardinality tags raise (minimum first). */
  function CardinalityError(tags: Tags, key: string): Option<MapError> {
    var minText := TagOr(tags, key + MinSuffix, "0");
    var maxText := TagOr(tags, key + MaxSuffix, "1");
    if !IsIntLiteral(minText) then Some(InvalidIntLiteral(minText))
    else if !IsIntLiteral(maxText) then Some(InvalidIntLiteral(maxText))
    else None
  }

  /** The characteristic for parameter `key` with value `value`, per-parameter tags applied. */
  function BuildCharacteristic(tags: Tags, window: Window, key: string, value: string)
    : (r: Result<Characteristic, MapError>)
    ensures r.Err? <==> CardinalityError(tags, key).Some?
    ensures r.Err? ==> CardinalityError(tags, key) == Some(r.error)
    ensures r.Ok? ==> r.value.name == key && r.value.value.value == value
  {
    var valueType := TagOr(tags, key + ValueTypeSuffix, DefaultValueType);
    var minCardinality :- TagInt(tags, key + MinSuffix, "0");
    var maxCardinality :- TagInt(tags, key + MaxSuffix, "1");
    Ok(Characteristic(
         key,
         TagOr(tags, key + DescriptionSuffix, "Parameter " + key + " from MLflow"),
         valueType,
         TagFlag(tags, key + ConfigurableSuffix, "false"),
         window,
         minCardinality,
         maxCardinality,
         TagFlag(tags, key + UniqueSuffix, "true"),
         TagOr(tags, key + RegexSuffix, ""),
         TagFlag(tags, key + ExtensibleSuffix, "false"),
         CharValue(valueType, value, window)))
  }

  /** Every parameter's cardinality tags parse as integers. */
  predicate CardinalitiesParse(tags: Tags, params: Dict<string, string>) {
    forall i :: 0 <= i < |params| ==> CardinalityError(tags, params[i].0).None?
  }

  /** `e` is the error of the first parameter whose cardinality tags do not parse. */
  predicate FirstFailure(tags: Tags, params: Dict<string, string>, e: MapError) {
    exists i :: 0 <= i < |params| && CardinalityError(tags, params[i].0) == Some(e) &&
                forall j :: 0 <= j < i ==> CardinalityError(tags, params[j].0).None?
  }

  /**
   The list comprehension over `params.items()`: one characteristic per
   parameter, in parameter order, or the error of the first parameter whose
   cardinality tags do not parse.
   */
  function BuildCharacteristics(tags: Tags, window: Window, params: Dict<string, string>)
    : (r: Result<seq<Characteristic>, MapError>)
    ensures r.Ok? <==> CardinalitiesParse(tags, params)
    ensures r.Ok? ==> |r.value| == |params|
    ensures r.Ok? ==> forall i :: 0 <= i < |params| ==>
              BuildCharacteristic(tags, window, params[i].0, params[i].1) == Ok(r.value[i])
    ensures r.Err? ==> FirstFailure(tags, params, r.error)
    decreases |params|
  {
    if |params| == 0 then Ok([])
    else
      var first :- BuildCharacteristic(tags, window, params[0].0, params[0].1);
      var rest :- BuildCharacteristics(tags, window, params[1..]);
      Ok([first] + rest)
  }

  // ----------------------------------------------------------- the document

  /** Every field of the document, or the error a cardinality tag raises. */
  function Build(runId: string, run: Run, env: Env): (r: Result<Spec, MapError>)
    ensures r.Ok? <==> CardinalitiesParse(run.tags, run.params)
    ensures r.Err? ==> FirstFailure(run.tags, run.params, r.error)
  {
    var built := BuildCharacteristics(run.tags, RunWindow(env, run.info), run.params);
    if built.Err? then Err(built.error) else Ok(Assemble(runId, run, env, built.value))
  }

  /** The document's fields once the characteristics have been built. */
  function Assemble(runId: string, run: Run, env: Env, characteristics: seq<Characteristic>): Spec {
    var tags := run.tags;
    var window := RunWindow(env, run.info);
    Spec(
         env.newId,
         SpecHrefBase + runId,
         TagOr(tags, NameTag, NamePrefix + runId),
         TagOr(tags, DescriptionTag, DescriptionPrefix + runId),
         TagOr(tags, VersionTag, DefaultVersion),
         window,
         LastUpdate(env, run.info),
         TagOr(tags, LifecycleTag, DefaultLifecycle),
         TagFlag(tags, BundleTag, "false"),
         HistorySection(runId, run),
         OptionalSection(tags, InheritedModelRule),
         OptionalSection(tags, TrainingDataRule),
         OptionalSection(tags, EvaluationDataRule),
         OptionalSection(tags, DataSheetRule),
         OptionalSection(tags, DeploymentRecordRule),
         OptionalSection(tags, ContractHistoryRule),
         characteristics,
         OwnerParty(run),
         Metadata(runId, run.info.experimentId, run.info.artifactUri, run.info.status,
                  run.info.userId, run.metrics, tags))
  }

  function OptionalText(s: Option<string>): Json {
    if s.Some? then JStr(s.value) else JNull
  }

  function WindowJson(w: Window): Json {
    JObj([("startDateTime", JStr(w.startDateTime)), ("endDateTime", OptionalText(w.endDateTime))])
  }

  function ReferenceJson(r: Reference): Json {
    JObj([("description", JStr(r.description)), ("url", JStr(r.url))] +
         if r.mimeType.Some? then [("mimeType", JStr(r.mimeType.value))] else [])
  }

  /** A section that is `None` is a null until pruning. */
  function SectionJson(r: Option<Reference>): Json {
    if r.Some? then ReferenceJson(r.value) else JNull
  }

  function CharValueJson(v: CharValue): Json {
    JObj([("valueType", JStr(v.valueType)),
          ("isDefault", JBool(true)),
          ("value", JStr(v.value)),
          ("validFor", WindowJson(v.validFor))])
  }

  /** The keys of a characteristic, in source order. */
  const CharacteristicKeys: seq<string> := [
    "name", "description", "valueType", "configurable", "validFor", "minCardinality",
    "maxCardinality", "isUnique", "regex", "extensible", "serviceSpecCharacteristicValue"]

  function CharacteristicValues(c: Characteristic): (vs: seq<Json>)
    ensures |vs| == |CharacteristicKeys|
  {
    [JStr(c.name),
     JStr(c.description),
     JStr(c.valueType),
     JBool(c.configurable),
     WindowJson(c.validFor),
     JInt(c.minCardinality),
     JInt(c.maxCardinality),
     JBool(c.isUnique),
     JStr(c.regex),
     JBool(c.extensible),
     JArr([CharValueJson(c.value)])]
  }

  function CharacteristicJson(c: Characteristic): Json {
    JObj(Zip(CharacteristicKeys, CharacteristicValues(c)))
  }

  function PartyJson(p: Party): Json {
    JObj([("href", JStr(p.href)), ("id", JStr(p.id)), ("name", JStr(p.name)), ("role", JStr(p.role))])
  }

  /** The keys of `mlflowMetadata`, in source order: the run's parameters are not among them. */
  const MetadataKeys: seq<string> := ["runId", "experimentId", "artifactUri", "status", "userId", "metrics", "allTags"]

  function MetadataValues(m: Metadata): (vs: seq<Json>)
    ensures |vs| == |MetadataKeys|
  {
    [JStr(m.runId),
     JStr(m.experimentId),
     JStr(m.artifactUri),
     JStr(m.status),
     OptionalText(m.userId),
     JObj(seq(|m.metrics|, i requires 0 <= i < |m.metrics| => (m.metrics[i].0, JNum(m.metrics[i].1)))),
     JObj(seq(|m.allTags|, i requires 0 <= i < |m.allTags| => (m.allTags[i].0, JStr(m.allTags[i].1))))]
  }

  function MetadataJson(m: Metadata): Json {
    JObj(Zip(MetadataKeys, MetadataValues(m)))
  }

  /** The keys of the dict literal `tmf_json`, in source order. */
  const DocKeys: seq<string> := [
    "id", "href", "@type", "@baseType", "@schemaLocation", "name", "description", "version",
    "validFor", "lastUpdate", "lifecycleStatus", "isBundle", "modelSpecificationHistory",
    "inheritedModel", "modelTrainingData", "modelEvaluationData", "modelDataSheet",
    "deploymentRecord", "modelContractVersionHistory", "serviceSpecCharacteristic",
    "relatedParty", "targetServiceSchema", "mlflowMetadata"]

  /** The value at position `i` of `tmf_json`, the one paired with `DocKeys[i]`. */
  function DocValue(s: Spec, i: nat): Json
    requires i < |DocKeys|
  {
    match i
    case 0 => JStr(s.id)
    case 1 => JStr(s.href)
    case 2 => JStr(SpecType)
    case 3 => JStr(SpecBaseType)
    case 4 => JStr(SpecSchema)
    case 5 => JStr(s.name)
    case 6 => JStr(s.description)
    case 7 => JStr(s.version)
    case 8 => WindowJson(s.validFor)
    case 9 => JStr(s.lastUpdate)
    case 10 => JStr(s.lifecycleStatus)
    case 11 => JBool(s.isBundle)
    case 12 => ReferenceJson(s.history)
    case 13 => SectionJson(s.inheritedModel)
    case 14 => SectionJson(s.trainingData)
    case 15 => SectionJson(s.evaluationData)
    case 16 => SectionJson(s.dataSheet)
    case 17 => SectionJson(s.deploymentRecord)
    case 18 => SectionJson(s.contractHistory)
    case 19 => JArr(seq(|s.characteristics|, k requires 0 <= k < |s.characteristics| =>
                          CharacteristicJson(s.characteristics[k])))
    case 20 => JArr([PartyJson(s.owner)])
    case 21 => JObj([("@type", JStr(ModelType)), ("@schemaLocation", JStr(ModelSchema))])
    case _ => MetadataJson(s.metadata)
  }

  /** The values of `tmf_json`, position by position with `DocKeys`. */
  function DocValues(s: Spec): (vs: seq<Json>)
    ensures |vs| == |DocKeys|
  {
    seq(|DocKeys|, i requires 0 <= i < |DocKeys| => DocValue(s, i))
  }

  /** The dict literal `tmf_json` before pruning. */
  function Render(s: Spec): Obj {
    Zip(DocKeys, DocValues(s))
  }

  /**
   `{k: v for k, v in d.items() if v is not None}`: the entries kept are
   exactly those whose value is not null, in their original order, with their
   values untouched (nested nulls stay).
   */
  function Prune(o: Obj): (r: Obj)
    ensures forall e :: e in r <==> e in o && e.1 != JNull
    ensures Subsequence(r, o)
    ensures DistinctKeys(o) ==> DistinctKeys(r)
    ensures |r| <= |o|
    decreases |o|
  {
    if |o| == 0 then
      SubsequenceEmpty(o);
      []
    else
      var rest := Prune(o[1..]);
      assert DistinctKeys(o) ==> DistinctKeys(o[1..]) && forall e :: e in rest ==> e.0 != o[0].0 by {
        if DistinctKeys(o) {
          forall e | e in rest ensures e.0 != o[0].0 {
            var j :| 0 <= j < |o[1..]| && o[1..][j] == e;
            assert o[j + 1] == e;
          }
        }
      }
      assert o == [o[0]] + o[1..];
      if o[0].1 == JNull then
        SubsequenceSkip(rest, o[1..], o[0]);
        rest
      else
        SubsequenceKeep(rest, o[1..], o[0]);
        assert DistinctKeys(o) ==> DistinctKeys([o[0]] + rest) by {
          if DistinctKeys(o) {
            forall i, j | 0 <= i < j < |[o[0]] + rest| ensures ([o[0]] + rest)[i].0 != ([o[0]] + rest)[j].0 {
              if i == 0 { assert ([o[0]] + rest)[j] in rest; }
            }
          }
        }
        [o[0]] + rest
  }

  /** `dynamic_mlflow_to_tmf(run_id)` once the run has been fetched. */
  function Convert(runId: string, run: Run, env: Env): (r: Result<Obj, MapError>)
    ensures r.Ok? <==> CardinalitiesParse(run.tags, run.params)
    ensures r.Err? ==> FirstFailure(run.tags, run.params, r.error)
  {
    var built := Build(runId, run, env);
    if built.Err? then Err(built.error) else Ok(Prune(Render(built.value)))
  }
}
