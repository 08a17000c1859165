/**
 The mapper's output handed to the mock receiver: which converted documents
 the receiver accepts, and what it gives back for them.
 */
module Pipeline {
  import opened Base
  import opened Assoc
  import opened Json
  import opened TagRules
  import opened Mapper
  import opened MapperFacts
  import opened Receiver
  import opened ReceiverFacts

  /** A key present in a converted document never holds null. */
  lemma PresentIsNotNull(runId: string, run: Run, env: Env, doc: Obj, k: string)
    requires Convert(runId, run, env) == Ok(doc)
    requires HasKey(doc, k)
    ensures Get(doc, k).Some? && Get(doc, k).value != JNull
  {
    var s := Converted(runId, run, env, doc);
    assert doc[IndexOf(doc, k)] in Prune(Render(s));
  }

  /** A converted document always carries a non-null name. */
  lemma NamePresent(runId: string, run: Run, env: Env, doc: Obj)
    requires Convert(runId, run, env) == Ok(doc)
    ensures !Missing(doc, "name")
  {
    NamingFields(runId, run, env, doc);
  }

  /** A converted document lacks its data sheet exactly when the run has no `dataSheet_url`. */
  lemma DataSheetPresence(runId: string, run: Run, env: Env, doc: Obj)
    requires Convert(runId, run, env) == Ok(doc)
    ensures Missing(doc, "modelDataSheet") <==> !TagSet(run.tags, DataSheetRule.urlTag)
  {
    SectionFollowsTag(runId, run, env, doc, 3);
    assert SectionRules[3].key == "modelDataSheet";
    if TagSet(run.tags, DataSheetRule.urlTag) {
      PresentIsNotNull(runId, run, env, doc, "modelDataSheet");
    } else {
      GetMissing(doc, "modelDataSheet");
    }
  }

  /** The id the receiver reads from a converted document is the fresh id. */
  lemma PostedIdIsFresh(runId: string, run: Run, env: Env, doc: Obj)
    requires Convert(runId, run, env) == Ok(doc)
    ensures PostedId(doc) == JStr(env.newId)
  {
    IdentityFields(runId, run, env, doc);
  }

  /** How the receiver treats any document with a name, given its data sheet and id. */
  lemma PostingNamedDocument(store: Store, doc: Obj, id: string, sheet: bool)
    requires !Missing(doc, "name")
    requires Missing(doc, "modelDataSheet") <==> !sheet
    requires PostedId(doc) == JStr(id)
    ensures !sheet ==> Post(store, doc) == (store, MissingField("modelDataSheet"))
    ensures sheet && id == "" ==> Post(store, doc) == (store, MissingId)
    ensures sheet && id != "" ==>
              Post(store, doc).1 == Accepted(JStr(id)) && GetById(Post(store, doc).0, id, None) == Found(doc)
  {
  }

  /**
   A converted document always passes the name check; it is accepted exactly
   when the run has a non-empty `dataSheet_url` tag and the fresh id is
   non-empty, is refused for its data sheet otherwise, and once accepted is
   served back whole under the fresh id.
   */
  lemma ConvertedDocumentPosting(runId: string, run: Run, env: Env, doc: Obj, store: Store)
    requires Convert(runId, run, env) == Ok(doc)
    ensures !TagSet(run.tags, DataSheetRule.urlTag) ==> Post(store, doc) == (store, MissingField("modelDataSheet"))
    ensures TagSet(run.tags, DataSheetRule.urlTag) && env.newId == "" ==> Post(store, doc) == (store, MissingId)
    ensures TagSet(run.tags, DataSheetRule.urlTag) && env.newId != "" ==>
              Post(store, doc).1 == Accepted(JStr(env.newId)) &&
              GetById(Post(store, doc).0, env.newId, None) == Found(doc)
  {
    NamePresent(runId, run, env, doc);
    DataSheetPresence(runId, run, env, doc);
    PostedIdIsFresh(runId, run, env, doc);
    PostingNamedDocument(store, doc, env.newId, TagSet(run.tags, DataSheetRule.urlTag));
  }

  /**
   Once accepted, a converted document fetched with `fields=id,name` comes
   back with exactly its id and its name.
   */
  lemma ConvertedIdAndName(runId: string, run: Run, env: Env, doc: Obj, store: Store)
    requires Convert(runId, run, env) == Ok(doc)
    requires Post(store, doc).1.Accepted?
    ensures GetById(Post(store, doc).0, env.newId, Some("id,name")).Found?
    ensures var body := GetById(Post(store, doc).0, env.newId, Some("id,name")).body;
            (forall k :: HasKey(body, k) <==> k == "id" || k == "name") &&
            Get(body, "id") == Some(JStr(env.newId)) && Get(body, "name") == Get(doc, "name")
  {
    PostedIdIsFresh(runId, run, env, doc);
    DocumentDistinct(runId, run, env, doc);
    PostThenGetIdName(store, doc, env.newId);
  }
}
