# MLflow run to TMF AI model specification: a Dafny model

This project models two pieces of the MLflow-to-TMF bridge.

- **The mapper** is `dynamic_mlflow_to_tmf` in `mlflow_to_tmf.py`. It takes an MLflow run: its info record, its parameters, its metrics and its tags. It returns a TMF "AIModelSpecification" document. The document has these parts:
  - fixed identity fields and a fresh id;
  - name, description, version and lifecycle status, each taken from a tag or a default;
  - a `validFor` window and a `lastUpdate` time from the run's timestamps;
  - an `isBundle` flag parsed from a tag;
  - a history reference that is always present;
  - six optional reference sections, each present only when its url tag is set and non-empty;
  - one `serviceSpecCharacteristic` per parameter, with its descriptive fields, flags and integer cardinalities read from `<param>_…` tags;
  - a single owner party;
  - a fixed target schema;
  - an `mlflowMetadata` extension.

  Top-level `None` values are finally dropped from the document.
- **The mock TMF receiver** is in `server_tmf.py`. It keeps an in-memory dict of models keyed by model id. It offers three operations:
  - a POST that checks `name` and `modelDataSheet`, then the id, and files the document;
  - a GET of every stored document;
  - a GET by id with an optional `fields` projection, split on commas and stripped.

## Layout

- `base.dfy`: `Option` and `Result`.
- `assoc.dfy`: insertion-ordered dicts, as sequences of key/value pairs, with Python's lookup and assignment.
- `text.dfy`: the Python string operations the source uses. These are `lower`, `strip`, `split`, `replace` and `int`. It also defines `str` of an integer, which the source never applies to an integer; it is there as the inverse of `int`.
- `json.dfy`: JSON values, plus Python truthiness and hashability for decoded values.
- `tags.dfy`: tag lookups with defaults, boolean and integer coercion, and the prefix grouping loop.
- `mapper.dfy`: the mapper in three stages.
  - `Build` evaluates every field and can fail where `int()` would raise.
  - `Render` lays the document out in the source's key order.
  - `Prune` drops the top-level nulls.
  - `Convert` chains the three stages.
- `mapper_facts.dfy`: what a converted document holds, field by field, stated against the run.
- `receiver.dfy` and `receiver_facts.dfy`: the receiver as a pure state machine over its store, and what it promises across calls.
- `pipeline.dfy`: how the receiver treats the mapper's output.

## Model

| member | source | states |
|---|---|---|
| Text.IsTrueTextSpelling | mlflow_to_tmf.py:43 | a boolean tag reads as true exactly when its text spells "true" in some mix of letter cases |
| TagRules.TagFlagDefaults | mlflow_to_tmf.py:43 | with default "false" a flag is true iff the tag is present and spells true; with default "true" it is true iff the tag is absent or spells true |
| Text.SplitFirstPiece | mlflow_to_tmf.py:16 | the first piece of a split on one character holds no separator, is a prefix followed by the separator when one occurs, and is the whole string when none does |
| Text.SplitJoin | mlflow_to_tmf.py:16 | joining the pieces of a split with the same separator gives back the original string |
| Text.SplitPiecesFree | server_tmf.py:49 | no piece of a split on one character contains that character |
| Text.RemoveAllIsConcatOfSplit | mlflow_to_tmf.py:17 | `replace(pat, "")` removes every occurrence of the pattern: it equals the concatenation of the split pieces |
| TagRules.TagPrefixSplitsKey | mlflow_to_tmf.py:15-17 | a key with an underscore is its underscore-free prefix, an underscore and a rest; the clean key is the rest with every "prefix_" removed |
| TagRules.GroupStepLookup | mlflow_to_tmf.py:14-20 | one turn of the grouping loop changes only the slot of that tag's prefix and clean key, and only for keys holding an underscore |
| TagRules.GroupTagsFiled | mlflow_to_tmf.py:13-20 | a prefix and clean key hold a value in the grouping exactly when some tag with an underscore files there |
| TagRules.GroupTagsLastWins | mlflow_to_tmf.py:13-20 | when several tags file under the same prefix and clean key, the grouping keeps the value of the last one |
| TagRules.GroupTagsPrefixes | mlflow_to_tmf.py:13-20 | a prefix appears in the grouping exactly when it is the text before the first underscore of some underscore key, and no prefix appears twice |
| TagRules.CleanKeyCollision | mlflow_to_tmf.py:17-20 | "a_b" and "a_a_b" both clean to "b" under prefix "a", so the later tag overwrites the earlier one |
| Text.ParseInt | mlflow_to_tmf.py:87-88 | `int()` of a tag yields a number exactly when the text is an optionally signed run of decimal digits |
| Text.ParseShowInt | mlflow_to_tmf.py:87-88 | the parser reads back the decimal rendering of every integer |
| Text.ParseIntExamples | mlflow_to_tmf.py:87-88 | the defaults "0" and "1" parse to 0 and 1; "abc", "" and "-" do not parse |
| Mapper.BuildCharacteristic | mlflow_to_tmf.py:78-103 | building one characteristic fails exactly when its minimum or maximum cardinality tag is not an integer literal, with the minimum checked first; on success it carries the parameter's name and value |
| Mapper.BuildCharacteristics | mlflow_to_tmf.py:77-104 | the list comprehension succeeds exactly when every parameter's cardinalities parse; it yields one characteristic per parameter in order, and on failure it reports the first failing parameter's error |
| Mapper.Build | mlflow_to_tmf.py:28-132 | evaluating the document literal succeeds exactly when every cardinality tag parses, and fails with the first error otherwise |
| Mapper.Prune | mlflow_to_tmf.py:135 | the comprehension keeps exactly the non-null entries and never introduces a repeated key; what it keeps is a subsequence of the input, so the original order survives |
| Mapper.Convert | mlflow_to_tmf.py:5-135 | conversion succeeds exactly when every cardinality tag parses; otherwise it fails with the first parameter's error |
| MapperFacts.PruneLookup | mlflow_to_tmf.py:135 | in the pruned object a key maps to its original value when that is not null, and is absent otherwise |
| MapperFacts.DocumentDistinct | mlflow_to_tmf.py:28-135 | a converted document never repeats a key |
| MapperFacts.DocumentKeys | mlflow_to_tmf.py:28-135 | every key of a converted document is one of the 23 literal keys; each of those keys is present unless it is a reference section whose url tag is unset |
| MapperFacts.IdentityFields | mlflow_to_tmf.py:29-33 | the document carries the fresh id, the href built from the run id, and the fixed `@type`, `@baseType` and `@schemaLocation` |
| MapperFacts.NamingFields | mlflow_to_tmf.py:34-42 | name, description, version and lifecycle status come from their tags when present, even when empty, and otherwise from their defaults: a name and a description built from the run id, version "1.0" and status "Active" |
| MapperFacts.TimeFields | mlflow_to_tmf.py:23-41 | the start time is the formatted start, or "now" when the start is missing or zero; the end is null exactly when the end time is missing or zero; `lastUpdate` prefers the end and falls back to the start |
| MapperFacts.BundleFlag | mlflow_to_tmf.py:43 | `isBundle` is true exactly when the tag is present and spells true |
| MapperFacts.HistoryAlwaysPresent | mlflow_to_tmf.py:46-49 | the history section is always present, and its url joins the tracking-uri tag (or the localhost default), the experiment id and the run id |
| MapperFacts.SectionFollowsTag | mlflow_to_tmf.py:50-74 | each of the six optional sections is present exactly when its url tag is set and non-empty; when present it carries that url and its description tag or default |
| MapperFacts.SectionsFollowTags | mlflow_to_tmf.py:50-74 | for all six sections at once: a section is present exactly when its url tag is set, and then its url is that tag and its description is the description tag or the section's default text |
| MapperFacts.DataSheetMimeType | mlflow_to_tmf.py:62-66 | a present data sheet carries the mimeType tag, or "application/json" when that tag is absent |
| MapperFacts.CharacteristicsFollowParams | mlflow_to_tmf.py:77-104 | the characteristic list has one entry per parameter, in order, each the characteristic built from that parameter |
| MapperFacts.ParamCharacteristic | mlflow_to_tmf.py:77-104 | entry i is named after parameter i, shares the run's validity window, and holds exactly one default value, which is the parameter's value |
| MapperFacts.CharacteristicFlags | mlflow_to_tmf.py:82-91 | `configurable` and `extensible` default to false and `isUnique` to true; each reads true exactly as its tag dictates |
| MapperFacts.CharacteristicCardinality | mlflow_to_tmf.py:87-88 | the cardinalities are the integers their tags parse to, or 0 and 1 when the tags are absent |
| MapperFacts.CharacteristicText | mlflow_to_tmf.py:80-90 | the description, value type and regex are their tags, or "Parameter <key> from MLflow", "string" and the empty string when the tags are absent |
| MapperFacts.CharacteristicValue | mlflow_to_tmf.py:92-102 | the value list has one entry: the parameter's value, marked default, with the characteristic's value type and the run's validity window |
| MapperFacts.MalformedCardinalityFails | mlflow_to_tmf.py:87 | a parameter whose minimum-cardinality tag is "abc" makes the whole conversion fail |
| MapperFacts.OwnerFollowsTags | mlflow_to_tmf.py:107-114 | there is exactly one related party; its id, href, name and role come from the owner tags, with the href built from the owner id and the name falling back to the run's user or "Unknown" |
| MapperFacts.MetadataFollowsRun | mlflow_to_tmf.py:123-131 | `mlflowMetadata` has exactly the seven keys in order, with no parameters among them; it carries the run id, experiment id, artifact URI, status and user id (null when unset), and every tag and metric in order |
| Receiver.FirstMissing | server_tmf.py:17-23 | the validation loop finds nothing exactly when no required field is missing or null; otherwise it reports the first one that is |
| Receiver.Post | server_tmf.py:13-34 | a document is accepted exactly when name and data sheet are present and non-null and the id is truthy and hashable; a missing name is reported before a missing data sheet; a refused post leaves the store unchanged; an accepted one files the document under its id and changes nothing else |
| Receiver.GetAll | server_tmf.py:38-40 | the listing holds one document per stored id, in the store's order |
| Receiver.FieldList | server_tmf.py:49 | the field list has one name per comma-separated piece, each stripped of surrounding whitespace; no name contains a comma or starts or ends with whitespace |
| Receiver.Project | server_tmf.py:50 | the projection keeps exactly the entries whose key is listed, and what it keeps is a subsequence of the document, so their order survives |
| Receiver.GetById | server_tmf.py:43-52 | a lookup finds nothing exactly when the id is not stored; without a field list it returns the stored document whole; with one it returns exactly the entries of that document whose key is in the field list |
| ReceiverFacts.PostStatus | server_tmf.py:17-34 | the status is 201 exactly for an accepted post, 400 exactly for a missing field or a falsy id, and 500 for an unhashable id; an acceptance echoes the id, a refusal names the missing field, and a falsy id is answered "Missing model id" |
| ReceiverFacts.LookupStatus | server_tmf.py:44-52 | a lookup answers 404 with detail "Model not found" exactly when the id is not stored |
| ReceiverFacts.PostKeepsValid | server_tmf.py:17-29 | the store invariant holds after every post: distinct ids, each truthy and hashable and filing a validated document that carries that id |
| ReceiverFacts.PostThenGet | server_tmf.py:29-52 | a document accepted under a string id is returned whole by a GET of that id, with no fields or an empty field list |
| ReceiverFacts.ProjectLookup | server_tmf.py:50 | in a document with distinct keys, the projection maps a listed key to its original value and drops every other key |
| ReceiverFacts.PostThenGetFields | server_tmf.py:29-51 | with a non-empty field list, the reply holds exactly the stored fields whose names are listed |
| ReceiverFacts.PostThenGetIdName | server_tmf.py:29-51 | fetched with `fields=id,name`, an accepted document comes back with exactly its id and its name |
| ReceiverFacts.FieldListIdName | server_tmf.py:49 | "id,name" is read as the two names id and name |
| ReceiverFacts.FieldListExample | server_tmf.py:49 | "a, b" is read as a and b: the space after the comma is stripped |
| ReceiverFacts.LastPostWins | server_tmf.py:29 | posting twice under one id keeps the second document in the first one's place: the id now maps to the second document, and the store's keys and their order are unchanged |
| ReceiverFacts.NonStringIdUnreachable | server_tmf.py:29-46 | a document filed under a non-string id, such as an integer, can never be reached by a GET by id |
| ReceiverFacts.ListingMatchesStore | server_tmf.py:38-40 | a document is in the listing exactly when some id maps to it in the store |
| ReceiverFacts.PostListing | server_tmf.py:29-40 | an accepted post appends to the listing only for a new id; a repeated id keeps its place and holds the new document |
| ReceiverFacts.PostNothing | server_tmf.py:17-23 | an empty body is refused for its name |
| ReceiverFacts.PostWithoutDataSheet | server_tmf.py:17-23 | a named document without a data sheet is refused for the data sheet |
| ReceiverFacts.PostEmptyId | server_tmf.py:25-27 | an empty-string id is refused as missing |
| ReceiverFacts.PostEmptyListId | server_tmf.py:25-27 | an empty list id is falsy, so the post is refused with 400 "Missing model id" and files nothing |
| ReceiverFacts.PostListId | server_tmf.py:25-29 | a non-empty list id such as `[1]` passes the truthiness check but cannot be a dict key, so the post fails with 500 and files nothing |
| Pipeline.DataSheetPresence | mlflow_to_tmf.py:62-66 | a converted document lacks its data sheet exactly when the run has no non-empty `dataSheet_url` tag |
| Pipeline.ConvertedDocumentPosting | server_tmf.py:17-34 | a converted document always passes the name check; it is refused for its data sheet without a `dataSheet_url` tag, and refused for its id when the fresh id is empty; otherwise it is accepted under the fresh id and served back whole |
| Pipeline.ConvertedIdAndName | server_tmf.py:48-51 | an accepted converted document fetched with `fields=id,name` comes back with just its fresh id and its name |

## Left out

- The MLflow fetch (`MlflowClient().get_run`, mlflow_to_tmf.py:6-7) is left out. The run record is a parameter of the model.
- `uuid.uuid4()`, `datetime.now()` and `datetime.fromtimestamp(...).isoformat()` become fields of `Env`: the fresh id, one reading of the clock, and an uninterpreted formatter from milliseconds to text. The source reads the clock once per call, so separate calls may see different times. The model uses a single reading for every call.
- The float division `timestamp_ms / 1000` is not modelled; it happens inside the formatter. The formatter is a total function, so the errors `fromtimestamp` raises for out-of-range times are dropped, not represented. In the source such an error is raised while the start and end times are formatted (mlflow_to_tmf.py:38-41), before any cardinality tag is parsed.
- Metric values are modelled as mathematical reals, not IEEE doubles.
- Text.Lower: lower-cases ASCII letters only. Python's `str.lower()` also maps other Unicode letters, which cannot turn a non-"true" text into "true".
- Text.ParseInt: accepts an optional sign followed by ASCII digits. Python's `int()` also accepts surrounding whitespace, underscores between digits and non-ASCII decimal digits. Tags written that way fail in the model where the source would succeed. In the other direction, Python 3.11 and later (and the 3.7.14, 3.8.14, 3.9.14 and 3.10.7 security releases) refuse decimal strings of more than 4300 digits (`sys.get_int_max_str_digits`). The model accepts any length. For a cardinality tag that long, Mapper.BuildCharacteristic, Mapper.Build and Mapper.Convert succeed where the source raises `ValueError`.
- Mapper.BuildCharacteristic, Mapper.Build and Mapper.Convert: their "fails exactly when a cardinality tag does not parse" holds only under two abstractions. They succeed on a cardinality tag of more than 4300 digits, where the source raises `ValueError` (see the Text.ParseInt line above). They also succeed on a start or end time that `fromtimestamp` rejects, where the source raises before reaching any cardinality tag.
- Python's key equality across types (`1 == 1.0 == True`) is not modelled. Store ids are compared as JSON values.
- `receive_model` is modelled for JSON object bodies only. Other bodies are not modelled. Their behaviour in the source is:
  - malformed JSON makes `request.json()` raise, so the reply is a 500;
  - a list or string body is searched with `in` (membership or substring). When `"name"` is not in it, the handler answers its own 400 "Missing required field: name". This covers `[]`, `[1]` and `"abc"`;
  - a list or string body that does contain `"name"` makes `data["name"]` raise a TypeError, so the reply is a 500;
  - a number, boolean or null body makes the `in` test itself raise a TypeError, so the reply is a 500.
- The FastAPI application, the router wiring, the CORS middleware and the `print` of each received document are not modelled (server_tmf.py:1-7, 15, 56-71).
- `mlflow_to_tmf_api.py`, `test.py` and the `test_conversion` driver (mlflow_to_tmf.py:137 onward) are not part of this model.
- Concurrent requests to the receiver are not modelled. Each operation is an atomic step on the store.
- Where the code and the repository's documentation disagree, the model follows the code:
  - the nested `endDateTime` stays in the document as null, because only top-level nulls are pruned;
  - `mlflowMetadata` does not include the run's parameters;
  - the tag grouping (`tag_sections`) is computed but never used in the document;
  - a non-empty list or object id makes the POST fail with an internal error rather than a 400. An empty list or object is falsy and gets the 400 "Missing model id".

