/**
 The mock TMF receiver (server_tmf.py): an in-memory map from model id to
 the posted document, a POST that validates and files a document, a GET of
 every document, and a GET by id with an optional projection onto a
 comma-separated list of fields.
 */
module Receiver {
  import opened Base
  import opened Assoc
  import opened Text
  import opened Json

  /** `models`: each posted document under its id, in order of first insertion. */
  type Store = Dict<Json, Obj>

  /** The fields `receive_model` insists on, checked in this order. */
  const RequiredFields: seq<string> := ["name", "modelDataSheet"]

  /** What `receive_model` answers. */
  datatype PostReply =
    | Accepted(id: Json)
    | MissingField(field: string)
    | MissingId
    | Unhashable

  /** The HTTP status of a reply; an unhashable id escapes as an internal error. */
  function Status(r: PostReply): int {
    match r
    case Accepted(_) => 201
    case MissingField(_) => 400
    case MissingId => 400
    case Unhashable => 500
  }

  /** The JSON content of a reply. */
  function ReplyBody(r: PostReply): Json {
    match r
    case Accepted(id) =>
      JObj([("status", JStr("received")), ("message", JStr("Mock accepted JSON")), ("id", id)])
    case MissingField(f) => JObj([("error", JStr("Missing required field: " + f))])
    case MissingId => JObj([("error", JStr("Missing model id"))])
    case Unhashable => JStr("Internal Server Error")
  }

  /** `field not in data or data[field] is None`. */
  predicate Missing(data: Obj, field: string) {
    Get(data, field).None? || Get(data, field) == Some(JNull)
  }

  /** The first of `fields` that `data` is missing, as the validation loop finds it. */
  function FirstMissing(data: Obj, fields: seq<string>): (r: Option<string>)
    ensures r.None? <==> forall i :: 0 <= i < |fields| ==> !Missing(data, fields[i])
    ensures r.Some? ==> exists i :: 0 <= i < |fields| && fields[i] == r.value && Missing(data, fields[i]) &&
                                    forall j :: 0 <= j < i ==> !Missing(data, fields[j])
  {
    if |fields| == 0 then None
    else if Missing(data, fields[0]) then Some(fields[0])
    else
      var rest := FirstMissing(data, fields[1..]);
      assert rest.Some? ==> exists i :: 0 <= i < |fields| && fields[i] == rest.value && Missing(data, fields[i]) &&
                                        forall j :: 0 <= j < i ==> !Missing(data, fields[j]) by {
        if rest.Some? {
          var i :| 0 <= i < |fields[1..]| && fields[1..][i] == rest.value && Missing(data, fields[1..][i]) &&
                   forall j :: 0 <= j < i ==> !Missing(data, fields[1..][j]);
          assert fields[i + 1] == rest.value;
          assert forall j :: 0 <= j < i + 1 ==> !Missing(data, fields[j]) by {
            forall j | 0 <= j < i + 1 ensures !Missing(data, fields[j]) {
              if j > 0 { assert fields[j] == fields[1..][j - 1]; }
            }
          }
        }
      }
      assert rest.None? ==> forall i :: 0 <= i < |fields| ==> !Missing(data, fields[i]) by {
        if rest.None? {
          forall i | 0 <= i < |fields| ensures !Missing(data, fields[i]) {
            if i > 0 { assert fields[i] == fields[1..][i - 1]; }
          }
        }
      }
      rest
  }

  /** The id `receive_model` reads: a missing id reads as null, which is falsy. */
  function PostedId(data: Obj): Json {
    At(JObj(data), "id")
  }

  /**
   `receive_model`: the required fields are checked first, then the id; an
   accepted document replaces whatever was filed under its id and nothing
   else changes; a rejected one leaves the store as it was.
   */
  function Post(store: Store, data: Obj): (r: (Store, PostReply))
    ensures r.1.Accepted? <==>
            !Missing(data, "name") && !Missing(data, "modelDataSheet") &&
            Truthy(PostedId(data)) && Hashable(PostedId(data))
    ensures r.1.MissingField? <==> Missing(data, "name") || Missing(data, "modelDataSheet")
    ensures r.1.MissingField? ==> Missing(data, r.1.field) && r.1.field in RequiredFields
    ensures r.1.MissingField? && r.1.field == "modelDataSheet" ==> !Missing(data, "name")
    ensures Missing(data, "name") ==> r.1 == MissingField("name")
    ensures r.1.MissingId? <==> !Missing(data, "name") && !Missing(data, "modelDataSheet") && !Truthy(PostedId(data))
    ensures !r.1.Accepted? ==> r.0 == store
    ensures r.1.Accepted? ==> r.1.id == PostedId(data) && Get(data, "id") == Some(r.1.id)
    ensures r.1.Accepted? ==> Get(r.0, r.1.id) == Some(data) &&
                              forall k :: k != r.1.id ==> Get(r.0, k) == Get(store, k)
  {
    var missing := FirstMissing(data, RequiredFields);
    if missing.Some? then (store, MissingField(missing.value))
    else
      assert RequiredFields[0] == "name" && RequiredFields[1] == "modelDataSheet";
      assert !Missing(data, RequiredFields[0]) && !Missing(data, RequiredFields[1]);
      var id := PostedId(data);
      if !Truthy(id) then (store, MissingId)
      else if !Hashable(id) then (store, Unhashable)
      else
        PutGet(store, id, data);
        assert forall k :: k != id ==> Get(Put(store, id, data), k) == Get(store, k) by {
          forall k | k != id ensures Get(Put(store, id, data), k) == Get(store, k) {
            PutOther(store, id, data, k);
          }
        }
        (Put(store, id, data), Accepted(id))
  }

  /** `get_all_models`: the stored documents in the store's order. */
  function GetAll(store: Store): (r: seq<Obj>)
    ensures |r| == |store|
    ensures forall i :: 0 <= i < |store| ==> r[i] == store[i].1
  {
    Values(store)
  }

  /** `[f.strip() for f in fields.split(",")]`. */
  function FieldList(fields: string): (names: seq<string>)
    ensures |names| == |Split(fields, ",")|
    ensures forall i :: 0 <= i < |names| ==> names[i] == Strip(Split(fields, ",")[i])
    ensures forall i :: 0 <= i < |names| ==> ',' !in names[i]
    ensures forall i :: 0 <= i < |names| ==>
              |names[i]| == 0 || (!IsSpace(names[i][0]) && !IsSpace(names[i][|names[i]| - 1]))
  {
    var parts := Split(fields, ",");
    SplitPiecesFree(fields, ',');
    var names := seq(|parts|, i requires 0 <= i < |parts| => Strip(parts[i]));
    names
  }

  /** `{k: v for k, v in model.items() if k in field_list}`. */
  function Project(doc: Obj, names: seq<string>): (r: Obj)
    ensures forall e :: e in r <==> e in doc && e.0 in names
    ensures Subsequence(r, doc)
    ensures DistinctKeys(doc) ==> DistinctKeys(r)
    ensures |r| <= |doc|
    decreases |doc|
  {
    if |doc| == 0 then
      SubsequenceEmpty(doc);
      []
    else
      var rest := Project(doc[1..], names);
      assert DistinctKeys(doc) ==> DistinctKeys(doc[1..]) && forall e :: e in rest ==> e.0 != doc[0].0 by {
        if DistinctKeys(doc) {
          forall e | e in rest ensures e.0 != doc[0].0 {
            var j :| 0 <= j < |doc[1..]| && doc[1..][j] == e;
            assert doc[j + 1] == e;
          }
        }
      }
      assert doc == [doc[0]] + doc[1..];
      if doc[0].0 !in names then
        SubsequenceSkip(rest, doc[1..], doc[0]);
        rest
      else
        SubsequenceKeep(rest, doc[1..], doc[0]);
        assert DistinctKeys(doc) ==> DistinctKeys([doc[0]] + rest) by {
          if DistinctKeys(doc) {
            forall i, j | 0 <= i < j < |[doc[0]] + rest| ensures ([doc[0]] + rest)[i].0 != ([doc[0]] + rest)[j].0 {
              if i == 0 { assert ([doc[0]] + rest)[j] in rest; }
            }
          }
        }
        [doc[0]] + rest
  }

  /** What `get_model_by_id` answers. */
  datatype GetReply = Found(body: Obj) | NotFound

  /** The HTTP status of a lookup: an unknown id raises a 404. */
  function GetStatus(r: GetReply): int {
    if r.Found? then 200 else 404
  }

  /** The JSON content of a lookup; a 404 carries FastAPI's `detail`. */
  function GetBody(r: GetReply): Json {
    match r
    case Found(body) => JObj(body)
    case NotFound => JObj([("detail", JStr("Model not found"))])
  }

  /** `get_model_by_id`: the path id is a string; an empty `fields` means no projection. */
  function GetById(store: Store, id: string, fields: Option<string>): (r: GetReply)
    ensures r.NotFound? <==> !HasKey(store, JStr(id))
    ensures r.Found? && (fields.None? || fields.value == "") ==> Get(store, JStr(id)) == Some(r.body)
    ensures r.Found? ==> forall e :: e in r.body ==> e in Get(store, JStr(id)).value
    ensures r.Found? && fields.Some? && fields.value != "" ==>
              forall e :: e in r.body <==> e in Get(store, JStr(id)).value && e.0 in FieldList(fields.value)
  {
    match Get(store, JStr(id))
    case None => NotFound
    case Some(doc) =>
      if fields.Some? && fields.value != "" then Found(Project(doc, FieldList(fields.value)))
      else Found(doc)
  }
}
