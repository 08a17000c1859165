/** What the mock receiver promises across calls. */
module ReceiverFacts {
  import opened Base
  import opened Assoc
  import opened Text
  import opened Json
  import opened Receiver

  /**
   The store's invariant: ids are distinct, truthy and hashable, and each
   files a well-formed document that passed validation and carries that id.
   */
  predicate Valid(store: Store) {
    DistinctKeys(store) &&
    forall i :: 0 <= i < |store| ==>
      Truthy(store[i].0) && Hashable(store[i].0) && DistinctKeys(store[i].1) &&
      Get(store[i].1, "id") == Some(store[i].0) &&
      !Missing(store[i].1, "name") && !Missing(store[i].1, "modelDataSheet")
  }

  /** The store starts out empty, and the empty store keeps the invariant. */
  lemma EmptyValid()
    ensures Valid([])
  {
  }

  /** Posting a document keeps the invariant, whatever the reply. */
  lemma PostKeepsValid(store: Store, data: Obj)
    requires Valid(store)
    requires DistinctKeys(data)
    ensures Valid(Post(store, data).0)
  {
    var (after, reply) := Post(store, data);
    if reply.Accepted? {
      PutDistinct(store, reply.id, data);
      PutEntries(store, reply.id, data);
      forall i | 0 <= i < |after|
        ensures Truthy(after[i].0) && Hashable(after[i].0) && DistinctKeys(after[i].1) &&
                Get(after[i].1, "id") == Some(after[i].0) &&
                !Missing(after[i].1, "name") && !Missing(after[i].1, "modelDataSheet")
      {
        if after[i] != (reply.id, data) {
          var j :| 0 <= j < |store| && store[j] == after[i];
        }
      }
    }
  }

  /** A document posted under a string id is served back whole by that id. */
  lemma PostThenGet(store: Store, data: Obj, id: string)
    requires Post(store, data).1 == Accepted(JStr(id))
    ensures GetById(Post(store, data).0, id, None) == Found(data)
    ensures GetById(Post(store, data).0, id, Some("")) == Found(data)
  {
  }

  /** In an object with distinct keys, a projection keeps exactly the listed keys, values untouched. */
  lemma ProjectLookup(doc: Obj, names: seq<string>, k: string)
    requires DistinctKeys(doc)
    ensures Get(Project(doc, names), k) == if k in names then Get(doc, k) else None
  {
    var r := Project(doc, names);
    if HasKey(doc, k) && k in names {
      GetEntry(r, k, doc[IndexOf(doc, k)].1);
    } else {
      forall e | e in r ensures e.0 != k {
        var j :| 0 <= j < |doc| && doc[j] == e;
      }
      GetMissing(r, k);
      if HasKey(doc, k) {
        assert k !in names;
      } else {
        GetMissing(doc, k);
      }
    }
  }

  /**
   With a non-empty `fields`, the reply holds exactly the stored fields whose
   names appear, stripped, in the comma-separated list.
   */
  lemma PostThenGetFields(store: Store, data: Obj, id: string, fields: string, k: string)
    requires DistinctKeys(data)
    requires Post(store, data).1 == Accepted(JStr(id))
    requires fields != ""
    ensures GetById(Post(store, data).0, id, Some(fields)).Found?
    ensures Get(GetById(Post(store, data).0, id, Some(fields)).body, k) ==
            if k in FieldList(fields) then Get(data, k) else None
  {
    ProjectLookup(data, FieldList(fields), k);
  }

  /** Fetched with `fields=id,name`, an accepted document comes back with exactly its id and its name. */
  lemma PostThenGetIdName(store: Store, data: Obj, id: string)
    requires DistinctKeys(data)
    requires Post(store, data).1 == Accepted(JStr(id))
    ensures GetById(Post(store, data).0, id, Some("id,name")).Found?
    ensures var body := GetById(Post(store, data).0, id, Some("id,name")).body;
            (forall k :: HasKey(body, k) <==> k == "id" || k == "name") &&
            Get(body, "id") == Some(JStr(id)) && Get(body, "name") == Get(data, "name")
  {
    FieldListIdName();
    assert Get(data, "name").Some?;
    var body := GetById(Post(store, data).0, id, Some("id,name")).body;
    PostThenGetFields(store, data, id, "id,name", "id");
    PostThenGetFields(store, data, id, "id,name", "name");
    forall k ensures HasKey(body, k) <==> k == "id" || k == "name" {
      PostThenGetFields(store, data, id, "id,name", k);
    }
  }

  /** Of two documents posted under the same id, the second is the one kept, in the first one's place. */
  lemma LastPostWins(store: Store, first: Obj, second: Obj)
    requires Post(store, first).1.Accepted?
    requires Post(Post(store, first).0, second).1 == Post(store, first).1
    ensures var after := Post(Post(store, first).0, second).0;
            Get(after, Post(store, first).1.id) == Some(second) &&
            |after| == |Post(store, first).0|
    ensures Keys(Post(Post(store, first).0, second).0) == Keys(Post(store, first).0)
  {
    PutGet(store, Post(store, first).1.id, first);
  }

  /**
   Ids are not coerced: a document filed under a non-string id, such as the
   integer 5, is out of reach of every GET by id, which looks up the path
   string.
   */
  lemma NonStringIdUnreachable(store: Store, data: Obj, id: string, fields: Option<string>)
    requires Post(store, data).1.Accepted?
    requires !Post(store, data).1.id.JStr?
    ensures GetById(Post(store, data).0, id, fields) == GetById(store, id, fields)
  {
  }

  /** Listing returns each stored document once, in the store's order. */
  lemma ListingMatchesStore(store: Store, d: Obj)
    requires Valid(store)
    ensures d in GetAll(store) <==> exists id :: Get(store, id) == Some(d)
  {
    if d in GetAll(store) {
      var i :| 0 <= i < |store| && store[i].1 == d;
      GetEntry(store, store[i].0, d);
    }
    if exists id :: Get(store, id) == Some(d) {
      var id :| Get(store, id) == Some(d);
      assert store[IndexOf(store, id)].1 == d;
    }
  }

  /**
   An accepted post lengthens the listing only for a new id; a repeated id
   keeps its place, with the new document in it.
   */
  lemma PostListing(store: Store, data: Obj)
    requires Post(store, data).1.Accepted?
    ensures var id := Post(store, data).1.id;
            var listing := GetAll(Post(store, data).0);
            |listing| == |GetAll(store)| + (if HasKey(store, id) then 0 else 1) &&
            (HasKey(store, id) ==> listing[IndexOf(store, id)] == data) &&
            (!HasKey(store, id) ==> listing == GetAll(store) + [data])
  {
  }

  /**
   The status `receive_model` answers with: 201 for an accepted document,
   400 for a missing field or id, and 500 when the id cannot be a dict key;
   an acceptance echoes the id, a refusal names the missing field or the id.
   */
  lemma PostStatus(store: Store, data: Obj)
    ensures Status(Post(store, data).1) == 201 <==>
            !Missing(data, "name") && !Missing(data, "modelDataSheet") &&
            Truthy(PostedId(data)) && Hashable(PostedId(data))
    ensures Status(Post(store, data).1) == 400 <==>
            Missing(data, "name") || Missing(data, "modelDataSheet") || !Truthy(PostedId(data))
    ensures Status(Post(store, data).1) == 500 <==>
            !Missing(data, "name") && !Missing(data, "modelDataSheet") &&
            Truthy(PostedId(data)) && !Hashable(PostedId(data))
    ensures Post(store, data).1.Accepted? ==> At(ReplyBody(Post(store, data).1), "id") == PostedId(data)
    ensures Post(store, data).1.MissingField? ==>
              At(ReplyBody(Post(store, data).1), "error") ==
              JStr("Missing required field: " + Post(store, data).1.field)
    ensures Post(store, data).1.MissingId? ==> At(ReplyBody(Post(store, data).1), "error") == JStr("Missing model id")
  {
    var reply := Post(store, data).1;
    if reply.Accepted? {
      var body: Obj := [("status", JStr("received")), ("message", JStr("Mock accepted JSON")), ("id", reply.id)];
      assert body[2].0 == "id" && body[0].0 != "id" && body[1].0 != "id";
      GetFirst(body, 2);
    } else if reply.MissingField? {
      var body: Obj := [("error", JStr("Missing required field: " + reply.field))];
      GetFirst(body, 0);
    } else if reply.MissingId? {
      GetFirst([("error", JStr("Missing model id"))], 0);
    }
  }

  /** A lookup answers 404, with detail "Model not found", exactly for an id not in the store. */
  lemma LookupStatus(store: Store, id: string, fields: Option<string>)
    ensures GetStatus(GetById(store, id, fields)) == 404 <==> !HasKey(store, JStr(id))
    ensures !HasKey(store, JStr(id)) ==> At(GetBody(GetById(store, id, fields)), "detail") == JStr("Model not found")
    ensures HasKey(store, JStr(id)) && fields.None? ==> GetBody(GetById(store, id, fields)) == JObj(Get(store, JStr(id)).value)
  {
    if !HasKey(store, JStr(id)) {
      GetFirst([("detail", JStr("Model not found"))], 0);
    }
  }

  /** With nothing posted, the name is reported missing first. */
  lemma PostNothing(store: Store)
    ensures Post(store, []) == (store, MissingField("name"))
  {
  }

  /** A named document without a data sheet is refused for the data sheet. */
  lemma PostWithoutDataSheet(store: Store)
    ensures Post(store, [("name", JStr("m"))]) == (store, MissingField("modelDataSheet"))
  {
    var named: Obj := [("name", JStr("m"))];
    GetFirst(named, 0);
    GetMissing(named, "modelDataSheet");
  }

  /** An empty string is no id. */
  lemma PostEmptyId(store: Store, sheet: Json)
    requires sheet != JNull
    ensures Post(store, [("id", JStr("")), ("name", JStr("m")), ("modelDataSheet", sheet)]) == (store, MissingId)
  {
    var blank: Obj := [("id", JStr("")), ("name", JStr("m")), ("modelDataSheet", sheet)];
    assert blank[0].0 == "id";
    assert blank[1].0 == "name" && blank[0].0 != "name";
    assert blank[2].0 == "modelDataSheet" && blank[0].0 != "modelDataSheet" && blank[1].0 != "modelDataSheet";
    GetFirst(blank, 0);
    GetFirst(blank, 1);
    GetFirst(blank, 2);
  }

  /** An empty list is falsy, so it is refused as a missing id before it could be used as a key. */
  lemma PostEmptyListId(store: Store, sheet: Json)
    requires sheet != JNull
    ensures Post(store, [("id", JArr([])), ("name", JStr("m")), ("modelDataSheet", sheet)]) == (store, MissingId)
    ensures Status(MissingId) == 400
  {
    var listed: Obj := [("id", JArr([])), ("name", JStr("m")), ("modelDataSheet", sheet)];
    assert listed[0].0 == "id";
    assert listed[1].0 == "name" && listed[0].0 != "name";
    assert listed[2].0 == "modelDataSheet" && listed[0].0 != "modelDataSheet" && listed[1].0 != "modelDataSheet";
    GetFirst(listed, 0);
    GetFirst(listed, 1);
    GetFirst(listed, 2);
  }

  /** A non-empty list is truthy but cannot be a dict key: the request fails with an internal error. */
  lemma PostListId(store: Store, sheet: Json)
    requires sheet != JNull
    ensures Post(store, [("id", JArr([JInt(1)])), ("name", JStr("m")), ("modelDataSheet", sheet)]) == (store, Unhashable)
    ensures Status(Unhashable) == 500
  {
    var listed: Obj := [("id", JArr([JInt(1)])), ("name", JStr("m")), ("modelDataSheet", sheet)];
    assert listed[0].0 == "id";
    assert listed[1].0 == "name" && listed[0].0 != "name";
    assert listed[2].0 == "modelDataSheet" && listed[0].0 != "modelDataSheet" && listed[1].0 != "modelDataSheet";
    GetFirst(listed, 0);
    GetFirst(listed, 1);
    GetFirst(listed, 2);
  }

  lemma SplitShort()
    ensures Split("b", ",") == ["b"]
    ensures Split(" b", ",") == [" b"]
  {
    assert Split("", ",") == [""];
    assert "b"[..1] != "," && "b"[1..] == "" && ['b'] + "" == "b";
    assert " b"[..1] != "," && " b"[1..] == "b" && [' '] + "b" == " b";
  }

  lemma SplitExample()
    ensures Split("a, b", ",") == ["a", " b"]
  {
    SplitShort();
    assert ", b"[..1] == "," && ", b"[1..] == " b";
    assert Split(", b", ",") == ["", " b"];
    assert "a, b"[..1] != "," && "a, b"[1..] == ", b" && ['a'] + "" == "a";
  }

  lemma StripExample()
    ensures Strip(" b") == "b"
    ensures Strip("a") == "a"
  {
    assert !IsSpace('a') && !IsSpace('b') && IsSpace(' ');
    assert LeadingSpaces("a") == 0 && TrailingSpaces("a") == 0;
    assert " b"[1..] == "b";
    assert LeadingSpaces(" b") == 1 && TrailingSpaces("b") == 0;
  }

  /** The field list is split on commas and each name stripped. */
  lemma FieldListExample()
    ensures FieldList("a, b") == ["a", "b"]
  {
    SplitExample();
    StripExample();
  }

  lemma SplitIdName()
    ensures Split("id,name", ",") == ["id", "name"]
  {
    assert ',' !in "name";
    SplitFirstPiece("name", ',');
    assert Split("name", ",") == ["name"];
    assert ",name"[..1] == "," && ",name"[1..] == "name";
    assert Split(",name", ",") == ["", "name"];
    assert "d,name"[..1] != "," && "d,name"[1..] == ",name" && ['d'] + "" == "d";
    assert Split("d,name", ",") == ["d", "name"];
    assert "id,name"[..1] != "," && "id,name"[1..] == "d,name" && ['i'] + "d" == "id";
  }

  lemma StripPlain()
    ensures Strip("id") == "id"
    ensures Strip("name") == "name"
  {
    assert !IsSpace('i') && !IsSpace('d') && !IsSpace('n') && !IsSpace('e');
    assert LeadingSpaces("id") == 0 && TrailingSpaces("id") == 0;
    assert LeadingSpaces("name") == 0 && TrailingSpaces("name") == 0;
  }

  /** `fields=id,name` asks for exactly the id and the name. */
  lemma FieldListIdName()
    ensures FieldList("id,name") == ["id", "name"]
  {
    SplitIdName();
    StripPlain();
  }
}
