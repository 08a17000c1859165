/**
 What `dynamic_mlflow_to_tmf` promises about the document it returns, stated
 over the pruned JSON object itself.
 */
module MapperFacts {
  import opened Base
  import opened Assoc
  import opened Text
  import opened Json
  import opened TagRules
  import opened Mapper

  /** Key `k` names a reference section whose driving tag is unset. */
  predicate Dropped(tags: Tags, k: string) {
    exists j :: 0 <= j < |SectionRules| && SectionRules[j].key == k && !TagSet(tags, SectionRules[j].urlTag)
  }

  /** A successful conversion is the pruned rendering of the built fields. */
  lemma Converted(runId: string, run: Run, env: Env, doc: Obj) returns (s: Spec)
    requires Convert(runId, run, env) == Ok(doc)
    ensures Build(runId, run, env) == Ok(s)
    ensures BuildCharacteristics(run.tags, RunWindow(env, run.info), run.params) == Ok(s.characteristics)
    ensures s == Assemble(runId, run, env, s.characteristics)
    ensures doc == Prune(Render(s))
  {
    s := Build(runId, run, env).value;
  }

  // ------------------------------------------------------- lookups

  lemma DocKeysDistinct()
    ensures forall a, b :: 0 <= a < b < |DocKeys| ==> DocKeys[a] != DocKeys[b]
  {
  }

  lemma CharacteristicKeysDistinct()
    ensures forall a, b :: 0 <= a < b < |CharacteristicKeys| ==> CharacteristicKeys[a] != CharacteristicKeys[b]
  {
  }

  /** The keys of the dict literal by position, first half. */
  lemma DocKeyNamesHead()
    ensures DocKeys[0] == "id"
    ensures DocKeys[1] == "href"
    ensures DocKeys[2] == "@type"
    ensures DocKeys[3] == "@baseType"
    ensures DocKeys[4] == "@schemaLocation"
    ensures DocKeys[5] == "name"
    ensures DocKeys[6] == "description"
    ensures DocKeys[7] == "version"
    ensures DocKeys[8] == "validFor"
    ensures DocKeys[9] == "lastUpdate"
    ensures DocKeys[10] == "lifecycleStatus"
    ensures DocKeys[11] == "isBundle"
  {
  }

  /** The keys of the dict literal by position, second half. */
  lemma DocKeyNamesTail()
    ensures DocKeys[12] == "modelSpecificationHistory"
    ensures DocKeys[13] == "inheritedModel"
    ensures DocKeys[14] == "modelTrainingData"
    ensures DocKeys[15] == "modelEvaluationData"
    ensures DocKeys[16] == "modelDataSheet"
    ensures DocKeys[17] == "deploymentRecord"
    ensures DocKeys[18] == "modelContractVersionHistory"
    ensures DocKeys[19] == "serviceSpecCharacteristic"
    ensures DocKeys[20] == "relatedParty"
    ensures DocKeys[21] == "targetServiceSchema"
    ensures DocKeys[22] == "mlflowMetadata"
  {
  }

  /** In an object with distinct keys, pruning removes exactly the null entries. */
  lemma PruneLookup(o: Obj, k: string)
    requires DistinctKeys(o)
    ensures Get(Prune(o), k) == if Get(o, k).Some? && Get(o, k).value != JNull then Get(o, k) else None
  {
    var r := Prune(o);
    if HasKey(o, k) {
      var i := IndexOf(o, k);
      if o[i].1 != JNull {
        GetEntry(r, k, o[i].1);
      } else {
        forall e | e in r ensures e.0 != k {
          var j :| 0 <= j < |o| && o[j] == e;
          assert j != i;
        }
        GetMissing(r, k);
      }
    } else {
      forall e | e in r ensures e.0 != k {
        var j :| 0 <= j < |o| && o[j] == e;
      }
      GetMissing(r, k);
    }
  }

  /** A converted document never repeats a key. */
  lemma DocumentDistinct(runId: string, run: Run, env: Env, doc: Obj)
    requires Convert(runId, run, env) == Ok(doc)
    ensures DistinctKeys(doc)
  {
    var s := Converted(runId, run, env, doc);
    var r := Render(s);
    DocKeysDistinct();
    forall i, j | 0 <= i < j < |r| ensures r[i].0 != r[j].0 {
      assert r[i].0 == Keys(r)[i] && r[j].0 == Keys(r)[j];
    }
  }

  /** Entry `i` of `tmf_json` survives pruning exactly when its value is not null, and unchanged. */
  lemma Kept(s: Spec, i: nat)
    requires i < |DocKeys|
    ensures HasKey(Prune(Render(s)), DocKeys[i]) <==> DocValue(s, i) != JNull
    ensures At(JObj(Prune(Render(s))), DocKeys[i]) == DocValue(s, i)
  {
    DocKeysDistinct();
    ZipGet(DocKeys, DocValues(s), i);
    PruneLookup(Render(s), DocKeys[i]);
  }

  /** Every key of the pruned document is one of the constructed keys. */
  lemma PrunedKeysAreDocKeys(s: Spec, k: string)
    requires HasKey(Prune(Render(s)), k)
    ensures k in DocKeys
  {
    var r := Prune(Render(s));
    var j :| 0 <= j < |r| && r[j].0 == k;
    assert r[j] in Render(s);
    var i :| 0 <= i < |Render(s)| && Render(s)[i] == r[j];
    assert DocKeys[i] == k;
  }

  /** The field `CharacteristicKeys[i]` of a rendered characteristic. */
  lemma CharacteristicField(c: Characteristic, i: nat)
    requires i < |CharacteristicKeys|
    ensures At(CharacteristicJson(c), CharacteristicKeys[i]) == CharacteristicValues(c)[i]
  {
    CharacteristicKeysDistinct();
    ZipGet(CharacteristicKeys, CharacteristicValues(c), i);
  }

  /** The keys of a characteristic by position. */
  lemma CharacteristicKeyNames()
    ensures CharacteristicKeys[0] == "name"
    ensures CharacteristicKeys[1] == "description"
    ensures CharacteristicKeys[2] == "valueType"
    ensures CharacteristicKeys[3] == "configurable"
    ensures CharacteristicKeys[4] == "validFor"
    ensures CharacteristicKeys[5] == "minCardinality"
    ensures CharacteristicKeys[6] == "maxCardinality"
    ensures CharacteristicKeys[7] == "isUnique"
    ensures CharacteristicKeys[8] == "regex"
    ensures CharacteristicKeys[9] == "extensible"
    ensures CharacteristicKeys[10] == "serviceSpecCharacteristicValue"
  {
  }

  /** The lone entry for `k` in a small object is what lookup returns. */
  lemma ObjEntry(o: Obj, k: string, v: Json)
    requires (k, v) in o
    requires forall e :: e in o && e.0 == k ==> e.1 == v
    ensures At(JObj(o), k) == v
    ensures HasKey(o, k)
  {
    GetOnly(o, k, v);
  }

  lemma ReferenceFields(r: Reference)
    ensures At(ReferenceJson(r), "url") == JStr(r.url)
    ensures At(ReferenceJson(r), "description") == JStr(r.description)
    ensures HasKey(ReferenceJson(r).fields, "mimeType") <==> r.mimeType.Some?
    ensures r.mimeType.Some? ==> At(ReferenceJson(r), "mimeType") == JStr(r.mimeType.value)
  {
    var o := ReferenceJson(r).fields;
    ObjEntry(o, "url", JStr(r.url));
    ObjEntry(o, "description", JStr(r.description));
    if r.mimeType.Some? {
      ObjEntry(o, "mimeType", JStr(r.mimeType.value));
    }
  }

  lemma WindowFields(w: Window)
    ensures At(WindowJson(w), "startDateTime") == JStr(w.startDateTime)
    ensures HasKey(WindowJson(w).fields, "endDateTime")
    ensures At(WindowJson(w), "endDateTime") == OptionalText(w.endDateTime)
  {
    var o := WindowJson(w).fields;
    ObjEntry(o, "startDateTime", JStr(w.startDateTime));
    ObjEntry(o, "endDateTime", OptionalText(w.endDateTime));
  }

  lemma CharValueFields(v: CharValue)
    ensures At(CharValueJson(v), "valueType") == JStr(v.valueType)
    ensures At(CharValueJson(v), "isDefault") == JBool(true)
    ensures At(CharValueJson(v), "value") == JStr(v.value)
    ensures At(CharValueJson(v), "validFor") == WindowJson(v.validFor)
  {
    var o := CharValueJson(v).fields;
    assert o[0].0 == "valueType";
    GetFirst(o, 0);
    assert o[1].0 == "isDefault" && o[0].0 != "isDefault";
    GetFirst(o, 1);
    assert o[2].0 == "value" && o[0].0 != "value" && o[1].0 != "value";
    GetFirst(o, 2);
    assert o[3].0 == "validFor" && o[0].0 != "validFor" && o[1].0 != "validFor" && o[2].0 != "validFor";
    GetFirst(o, 3);
  }

  lemma PartyFields(p: Party)
    ensures At(PartyJson(p), "href") == JStr(p.href)
    ensures At(PartyJson(p), "id") == JStr(p.id)
    ensures At(PartyJson(p), "name") == JStr(p.name)
    ensures At(PartyJson(p), "role") == JStr(p.role)
  {
    var o := PartyJson(p).fields;
    assert o[0].0 == "href";
    GetFirst(o, 0);
    assert o[1].0 == "id" && o[0].0 != "id";
    GetFirst(o, 1);
    assert o[2].0 == "name" && o[0].0 != "name" && o[1].0 != "name";
    GetFirst(o, 2);
    assert o[3].0 == "role" && o[0].0 != "role" && o[1].0 != "role" && o[2].0 != "role";
    GetFirst(o, 3);
  }

  // ------------------------------------------------------- pruning

  /** The section rules sit at positions 13 to 18 of the document. */
  lemma SectionRuleKeys()
    ensures forall j :: 0 <= j < |SectionRules| ==> SectionRules[j].key == DocKeys[13 + j]
  {
  }

  /** Only reference-section keys can be dropped. */
  lemma DroppedOnlySections(tags: Tags, i: nat)
    requires i < |DocKeys|
    requires i < 13 || 18 < i
    ensures !Dropped(tags, DocKeys[i])
  {
    DocKeysDistinct();
    SectionRuleKeys();
  }

  /** The value rendered for section `j` is that section, or null. */
  lemma SectionValue(runId: string, run: Run, env: Env, s: Spec, j: nat)
    requires s == Assemble(runId, run, env, s.characteristics)
    requires j < |SectionRules|
    ensures DocValue(s, 13 + j) == SectionJson(OptionalSection(run.tags, SectionRules[j]))
    ensures DocValue(s, 13 + j) == JNull <==> !TagSet(run.tags, SectionRules[j].urlTag)
  {
  }

  /** Outside the reference sections, every value of the dict literal is non-null. */
  lemma FixedValuesNonNull(s: Spec, i: nat)
    requires i < |DocKeys|
    requires i < 13 || 18 < i
    ensures DocValue(s, i) != JNull
  {
  }

  /** A reference section survives pruning exactly when its driving tag is set. */
  lemma SectionKept(runId: string, run: Run, env: Env, s: Spec, j: nat)
    requires s == Assemble(runId, run, env, s.characteristics)
    requires j < |SectionRules|
    ensures HasKey(Prune(Render(s)), SectionRules[j].key) <==> TagSet(run.tags, SectionRules[j].urlTag)
    ensures At(JObj(Prune(Render(s))), SectionRules[j].key) == DocValue(s, 13 + j)
  {
    Kept(s, 13 + j);
    SectionValue(runId, run, env, s, j);
    SectionRuleKeys();
  }

  /** Section keys are distinct, so a section key is dropped exactly when its own tag is unset. */
  lemma DroppedSection(tags: Tags, j: nat)
    requires j < |SectionRules|
    ensures Dropped(tags, SectionRules[j].key) <==> !TagSet(tags, SectionRules[j].urlTag)
  {
    assert forall a, b :: 0 <= a < b < |SectionRules| ==> SectionRules[a].key != SectionRules[b].key;
  }

  /** A section position of the document survives pruning exactly when it is not dropped. */
  lemma SectionKeptUnlessDropped(runId: string, run: Run, env: Env, s: Spec, j: nat)
    requires s == Assemble(runId, run, env, s.characteristics)
    requires j < |SectionRules|
    ensures HasKey(Prune(Render(s)), DocKeys[13 + j]) <==> !Dropped(run.tags, DocKeys[13 + j])
  {
    SectionKept(runId, run, env, s, j);
    DroppedSection(run.tags, j);
    SectionRuleKeys();
  }

  /** Any other position always survives pruning, and is never dropped. */
  lemma FixedKept(tags: Tags, s: Spec, i: nat)
    requires i < |DocKeys|
    requires i < 13 || 18 < i
    ensures HasKey(Prune(Render(s)), DocKeys[i]) && !Dropped(tags, DocKeys[i])
  {
    Kept(s, i);
    FixedValuesNonNull(s, i);
    DroppedOnlySections(tags, i);
  }

  /** Position `i` of the document survives pruning exactly when it is not a dropped section. */
  lemma KeptUnlessDropped(runId: string, run: Run, env: Env, s: Spec, i: nat)
    requires s == Assemble(runId, run, env, s.characteristics)
    requires i < |DocKeys|
    ensures HasKey(Prune(Render(s)), DocKeys[i]) <==> !Dropped(run.tags, DocKeys[i])
  {
    if 13 <= i <= 18 {
      SectionKeptUnlessDropped(runId, run, env, s, i - 13);
    } else {
      FixedKept(run.tags, s, i);
    }
  }

  /**
   Top-level pruning: the document's keys are the constructed keys minus
   exactly the reference sections whose driving tag is unset; every other key,
   `validFor` with its possibly null `endDateTime` included, is kept.
   */
  lemma DocumentKeys(runId: string, run: Run, env: Env, doc: Obj)
    requires Convert(runId, run, env) == Ok(doc)
    ensures forall k :: HasKey(doc, k) ==> k in DocKeys
    ensures forall i :: 0 <= i < |DocKeys| ==> (HasKey(doc, DocKeys[i]) <==> !Dropped(run.tags, DocKeys[i]))
  {
    var s := Converted(runId, run, env, doc);
    forall k | HasKey(doc, k) ensures k in DocKeys {
      PrunedKeysAreDocKeys(s, k);
    }
    forall i | 0 <= i < |DocKeys| ensures HasKey(doc, DocKeys[i]) <==> !Dropped(run.tags, DocKeys[i]) {
      KeptUnlessDropped(runId, run, env, s, i);
    }
  }

  // ---------------------------------------------------- sections

  /** `modelSpecificationHistory` is always present and points at the run in the tracking UI. */
  lemma HistoryAlwaysPresent(runId: string, run: Run, env: Env, doc: Obj)
    requires Convert(runId, run, env) == Ok(doc)
    ensures HasKey(doc, "modelSpecificationHistory")
    ensures At(At(JObj(doc), "modelSpecificationHistory"), "url") ==
            JStr(TagOr(run.tags, TrackingUriTag, DefaultTrackingUri) + "/#/experiments/" +
                 run.info.experimentId + "/runs/" + runId)
  {
    var s := Converted(runId, run, env, doc);
    DocKeyNamesHead();
    DocKeyNamesTail();
    Kept(s, 12);
    ReferenceFields(s.history);
  }

  /** A section's rendered url and description, whichever way the section is built. */
  lemma SectionReference(tags: Tags, j: nat)
    requires j < |SectionRules|
    requires TagSet(tags, SectionRules[j].urlTag)
    ensures var r := OptionalSection(tags, SectionRules[j]).value;
            At(ReferenceJson(r), "url") == JStr(Get(tags, SectionRules[j].urlTag).value) &&
            At(ReferenceJson(r), "description") ==
              JStr(TagOr(tags, SectionRules[j].descriptionTag, SectionRules[j].defaultDescription))
  {
    ReferenceFields(OptionalSection(tags, SectionRules[j]).value);
  }

  /** A present section carries its driving tag as url and its description. */
  lemma SectionContent(runId: string, run: Run, env: Env, s: Spec, j: nat)
    requires s == Assemble(runId, run, env, s.characteristics)
    requires j < |SectionRules|
    requires TagSet(run.tags, SectionRules[j].urlTag)
    ensures At(At(JObj(Prune(Render(s))), SectionRules[j].key), "url") == JStr(Get(run.tags, SectionRules[j].urlTag).value)
    ensures At(At(JObj(Prune(Render(s))), SectionRules[j].key), "description") ==
              JStr(TagOr(run.tags, SectionRules[j].descriptionTag, SectionRules[j].defaultDescription))
  {
    SectionKept(runId, run, env, s, j);
    SectionValue(runId, run, env, s, j);
    SectionReference(run.tags, j);
  }

  /**
   Reference section `j` is in the document exactly when its driving tag is
   present and non-empty; it then carries that tag as its url, and the
   description tag or the rule's default description.
   */
  lemma SectionFollowsTag(runId: string, run: Run, env: Env, doc: Obj, j: nat)
    requires Convert(runId, run, env) == Ok(doc)
    requires j < |SectionRules|
    ensures HasKey(doc, SectionRules[j].key) <==> TagSet(run.tags, SectionRules[j].urlTag)
    ensures TagSet(run.tags, SectionRules[j].urlTag) ==>
              At(At(JObj(doc), SectionRules[j].key), "url") == JStr(Get(run.tags, SectionRules[j].urlTag).value) &&
              At(At(JObj(doc), SectionRules[j].key), "description") ==
                JStr(TagOr(run.tags, SectionRules[j].descriptionTag, SectionRules[j].defaultDescription))
  {
    var s := Converted(runId, run, env, doc);
    SectionKept(runId, run, env, s, j);
    if TagSet(run.tags, SectionRules[j].urlTag) {
      SectionContent(runId, run, env, s, j);
    }
  }

  /** All six reference sections at once. */
  lemma SectionsFollowTags(runId: string, run: Run, env: Env, doc: Obj)
    requires Convert(runId, run, env) == Ok(doc)
    ensures forall j :: 0 <= j < |SectionRules| ==>
              (HasKey(doc, SectionRules[j].key) <==> TagSet(run.tags, SectionRules[j].urlTag))
    ensures forall j :: 0 <= j < |SectionRules| && TagSet(run.tags, SectionRules[j].urlTag) ==>
              At(At(JObj(doc), SectionRules[j].key), "url") == JStr(Get(run.tags, SectionRules[j].urlTag).value)
    ensures forall j :: 0 <= j < |SectionRules| && TagSet(run.tags, SectionRules[j].urlTag) ==>
              At(At(JObj(doc), SectionRules[j].key), "description") ==
                JStr(TagOr(run.tags, SectionRules[j].descriptionTag, SectionRules[j].defaultDescription))
  {
    forall j | 0 <= j < |SectionRules|
      ensures HasKey(doc, SectionRules[j].key) <==> TagSet(run.tags, SectionRules[j].urlTag)
      ensures TagSet(run.tags, SectionRules[j].urlTag) ==>
                At(At(JObj(doc), SectionRules[j].key), "url") == JStr(Get(run.tags, SectionRules[j].urlTag).value)
      ensures TagSet(run.tags, SectionRules[j].urlTag) ==>
                At(At(JObj(doc), SectionRules[j].key), "description") ==
                  JStr(TagOr(run.tags, SectionRules[j].descriptionTag, SectionRules[j].defaultDescription))
    {
      SectionFollowsTag(runId, run, env, doc, j);
    }
  }

  /** The data sheet's MIME type, at the level of the built fields. */
  lemma DataSheetContent(runId: string, run: Run, env: Env, s: Spec)
    requires s == Assemble(runId, run, env, s.characteristics)
    requires TagSet(run.tags, DataSheetRule.urlTag)
    ensures At(At(JObj(Prune(Render(s))), DataSheetRule.key), "mimeType") ==
              JStr(TagOr(run.tags, DataSheetMimeTag, DefaultMimeType))
  {
    assert SectionRules[3] == DataSheetRule;
    SectionKept(runId, run, env, s, 3);
    SectionValue(runId, run, env, s, 3);
    ReferenceFields(OptionalSection(run.tags, DataSheetRule).value);
  }

  /** The data sheet carries a MIME type: the mime tag, or JSON by default. */
  lemma DataSheetMimeType(runId: string, run: Run, env: Env, doc: Obj)
    requires Convert(runId, run, env) == Ok(doc)
    requires TagSet(run.tags, DataSheetRule.urlTag)
    ensures At(At(JObj(doc), DataSheetRule.key), "mimeType") == JStr(TagOr(run.tags, DataSheetMimeTag, DefaultMimeType))
    ensures !HasKey(run.tags, DataSheetMimeTag) ==> At(At(JObj(doc), DataSheetRule.key), "mimeType") == JStr(DefaultMimeType)
  {
    var s := Converted(runId, run, env, doc);
    DataSheetContent(runId, run, env, s);
  }

  // ------------------------------------------------------ scalar fields

  /** The identity fields, at the level of the built fields. */
  lemma IdentityContent(runId: string, run: Run, env: Env, s: Spec)
    requires s == Assemble(runId, run, env, s.characteristics)
    ensures var d := JObj(Prune(Render(s)));
            At(d, "id") == JStr(env.newId) &&
            At(d, "href") == JStr(SpecHrefBase + runId) &&
            At(d, "@type") == JStr(SpecType) &&
            At(d, "@baseType") == JStr(SpecBaseType) &&
            At(d, "@schemaLocation") == JStr(SpecSchema)
  {
    DocKeyNamesHead();
    DocKeyNamesTail();
    Kept(s, 0);
    Kept(s, 1);
    Kept(s, 2);
    Kept(s, 3);
    Kept(s, 4);
  }

  /**
   The document is identified by the fresh id, not by the run: `id` is the
   generated identifier and `href` the catalogue base followed by the run id.
   */
  lemma IdentityFields(runId: string, run: Run, env: Env, doc: Obj)
    requires Convert(runId, run, env) == Ok(doc)
    ensures At(JObj(doc), "id") == JStr(env.newId)
    ensures At(JObj(doc), "href") == JStr(SpecHrefBase + runId)
    ensures At(JObj(doc), "@type") == JStr(SpecType)
    ensures At(JObj(doc), "@baseType") == JStr(SpecBaseType)
    ensures At(JObj(doc), "@schemaLocation") == JStr(SpecSchema)
  {
    var s := Converted(runId, run, env, doc);
    IdentityContent(runId, run, env, s);
  }

  /** The naming fields, at the level of the built fields. */
  lemma NamingContent(runId: string, run: Run, env: Env, s: Spec)
    requires s == Assemble(runId, run, env, s.characteristics)
    ensures var d := JObj(Prune(Render(s)));
            At(d, "name") == JStr(TagOr(run.tags, NameTag, NamePrefix + runId)) &&
            At(d, "description") == JStr(TagOr(run.tags, DescriptionTag, DescriptionPrefix + runId)) &&
            At(d, "version") == JStr(TagOr(run.tags, VersionTag, DefaultVersion)) &&
            At(d, "lifecycleStatus") == JStr(TagOr(run.tags, LifecycleTag, DefaultLifecycle))
  {
    DocKeyNamesHead();
    DocKeyNamesTail();
    Kept(s, 5);
    Kept(s, 6);
    Kept(s, 7);
    Kept(s, 10);
  }

  /**
   Name, description, version and lifecycle status are the tag's value when
   the tag is present, even when it is empty, and the documented default
   otherwise.
   */
  lemma NamingFields(runId: string, run: Run, env: Env, doc: Obj)
    requires Convert(runId, run, env) == Ok(doc)
    ensures At(JObj(doc), "name") == JStr(TagOr(run.tags, NameTag, NamePrefix + runId))
    ensures At(JObj(doc), "description") == JStr(TagOr(run.tags, DescriptionTag, DescriptionPrefix + runId))
    ensures At(JObj(doc), "version") == JStr(TagOr(run.tags, VersionTag, DefaultVersion))
    ensures At(JObj(doc), "lifecycleStatus") == JStr(TagOr(run.tags, LifecycleTag, DefaultLifecycle))
  {
    var s := Converted(runId, run, env, doc);
    NamingContent(runId, run, env, s);
  }

  /** `isBundle` is true exactly when the tag is present and spells "true" in any case. */
  lemma BundleFlag(runId: string, run: Run, env: Env, doc: Obj)
    requires Convert(runId, run, env) == Ok(doc)
    ensures At(JObj(doc), "isBundle") ==
            JBool(HasKey(run.tags, BundleTag) && IsTrueText(Get(run.tags, BundleTag).value))
  {
    var s := Converted(runId, run, env, doc);
    BundleContent(runId, run, env, s);
  }

  lemma BundleContent(runId: string, run: Run, env: Env, s: Spec)
    requires s == Assemble(runId, run, env, s.characteristics)
    ensures At(JObj(Prune(Render(s))), "isBundle") ==
            JBool(HasKey(run.tags, BundleTag) && IsTrueText(Get(run.tags, BundleTag).value))
  {
    DocKeyNamesHead();
    DocKeyNamesTail();
    Kept(s, 11);
    TagFlagDefaults(run.tags, BundleTag);
  }

  // ------------------------------------------------------------ times

  lemma TimeContent(runId: string, run: Run, env: Env, s: Spec)
    requires s == Assemble(runId, run, env, s.characteristics)
    ensures var d := JObj(Prune(Render(s)));
            var w := At(d, "validFor");
            var info := run.info;
            w.JObj? &&
            At(w, "startDateTime") == JStr(FormatTimestamp(env, info.startTime)) &&
            HasKey(w.fields, "endDateTime") &&
            (At(w, "endDateTime") == JNull <==> info.endTime.None? || info.endTime.value == 0) &&
            (info.endTime.Some? && info.endTime.value != 0 ==>
               At(w, "endDateTime") == JStr(env.isoFormat(info.endTime.value))) &&
            At(d, "lastUpdate") ==
              JStr(if info.endTime.Some? && info.endTime.value != 0 then env.isoFormat(info.endTime.value)
                   else FormatTimestamp(env, info.startTime))
  {
    DocKeyNamesHead();
    DocKeyNamesTail();
    Kept(s, 8);
    Kept(s, 9);
    WindowFields(s.validFor);
  }

  /**
   `validFor` always carries both bounds: the start time (or the clock), and
   an `endDateTime` that stays in the document as null when the run has not
   ended, since pruning does not look inside nested objects. `lastUpdate`
   is the end time, else the start time, else the clock.
   */
  lemma TimeFields(runId: string, run: Run, env: Env, doc: Obj)
    requires Convert(runId, run, env) == Ok(doc)
    ensures var w := At(JObj(doc), "validFor");
            var info := run.info;
            w.JObj? &&
            At(w, "startDateTime") == JStr(FormatTimestamp(env, info.startTime)) &&
            HasKey(w.fields, "endDateTime") &&
            (At(w, "endDateTime") == JNull <==> info.endTime.None? || info.endTime.value == 0) &&
            (info.endTime.Some? && info.endTime.value != 0 ==>
               At(w, "endDateTime") == JStr(env.isoFormat(info.endTime.value)))
    ensures At(JObj(doc), "lastUpdate") ==
            JStr(if run.info.endTime.Some? && run.info.endTime.value != 0 then env.isoFormat(run.info.endTime.value)
                 else FormatTimestamp(env, run.info.startTime))
  {
    var s := Converted(runId, run, env, doc);
    TimeContent(runId, run, env, s);
  }

  // --------------------------------------------------- characteristics

  /** A characteristic is named after its parameter and valid over the run's window. */
  lemma CharacteristicNaming(tags: Tags, window: Window, key: string, value: string, c: Characteristic)
    requires BuildCharacteristic(tags, window, key, value) == Ok(c)
    ensures At(CharacteristicJson(c), "name") == JStr(key)
    ensures At(CharacteristicJson(c), "validFor") == WindowJson(window)
  {
    CharacteristicKeyNames();
    CharacteristicField(c, 0);
    CharacteristicField(c, 4);
  }

  /**
   A characteristic holds exactly one value: the parameter's, marked as the
   default, typed like the characteristic and valid over the run's window.
   */
  lemma CharacteristicValue(tags: Tags, window: Window, key: string, value: string, c: Characteristic)
    requires BuildCharacteristic(tags, window, key, value) == Ok(c)
    ensures var vs := Items(At(CharacteristicJson(c), "serviceSpecCharacteristicValue"));
            |vs| == 1 && At(vs[0], "value") == JStr(value) && At(vs[0], "isDefault") == JBool(true) &&
            At(vs[0], "valueType") == JStr(TagOr(tags, key + ValueTypeSuffix, DefaultValueType)) &&
            At(vs[0], "validFor") == WindowJson(window)
  {
    assert c.value == CharValue(TagOr(tags, key + ValueTypeSuffix, DefaultValueType), value, window);
    CharacteristicKeyNames();
    CharacteristicField(c, 10);
    CharValueFields(c.value);
  }

  /**
   The text fields of a characteristic: `description`, `valueType` and
   `regex` come from the parameter's own tags, else from their defaults.
   */
  lemma CharacteristicText(tags: Tags, window: Window, key: string, value: string, c: Characteristic)
    requires BuildCharacteristic(tags, window, key, value) == Ok(c)
    ensures At(CharacteristicJson(c), "description") ==
            JStr(TagOr(tags, key + DescriptionSuffix, "Parameter " + key + " from MLflow"))
    ensures At(CharacteristicJson(c), "valueType") == JStr(TagOr(tags, key + ValueTypeSuffix, DefaultValueType))
    ensures At(CharacteristicJson(c), "regex") == JStr(TagOr(tags, key + RegexSuffix, ""))
  {
    assert c.description == TagOr(tags, key + DescriptionSuffix, "Parameter " + key + " from MLflow");
    assert c.valueType == TagOr(tags, key + ValueTypeSuffix, DefaultValueType);
    assert c.regex == TagOr(tags, key + RegexSuffix, "");
    CharacteristicKeyNames();
    CharacteristicField(c, 1);
    CharacteristicField(c, 2);
    CharacteristicField(c, 8);
  }

  /**
   The flags of a characteristic: `configurable` and `extensible` hold only
   when their tag spells "true", `isUnique` unless its tag spells something
   else.
   */
  lemma CharacteristicFlags(tags: Tags, window: Window, key: string, value: string, c: Characteristic)
    requires BuildCharacteristic(tags, window, key, value) == Ok(c)
    ensures At(CharacteristicJson(c), "configurable") ==
            JBool(HasKey(tags, key + ConfigurableSuffix) && IsTrueText(Get(tags, key + ConfigurableSuffix).value))
    ensures At(CharacteristicJson(c), "extensible") ==
            JBool(HasKey(tags, key + ExtensibleSuffix) && IsTrueText(Get(tags, key + ExtensibleSuffix).value))
    ensures At(CharacteristicJson(c), "isUnique") ==
            JBool(!HasKey(tags, key + UniqueSuffix) || IsTrueText(Get(tags, key + UniqueSuffix).value))
  {
    CharacteristicKeyNames();
    CharacteristicField(c, 3);
    CharacteristicField(c, 7);
    CharacteristicField(c, 9);
    TagFlagDefaults(tags, key + ConfigurableSuffix);
    TagFlagDefaults(tags, key + ExtensibleSuffix);
    TagFlagDefaults(tags, key + UniqueSuffix);
  }

  /** The cardinalities are the parsed tags, 0 and 1 when the tags are absent. */
  lemma CharacteristicCardinality(tags: Tags, window: Window, key: string, value: string, c: Characteristic)
    requires BuildCharacteristic(tags, window, key, value) == Ok(c)
    ensures var j := CharacteristicJson(c);
            At(j, "minCardinality").JInt? && At(j, "maxCardinality").JInt? &&
            ParseInt(TagOr(tags, key + MinSuffix, "0")) == Some(At(j, "minCardinality").integer) &&
            ParseInt(TagOr(tags, key + MaxSuffix, "1")) == Some(At(j, "maxCardinality").integer)
    ensures !HasKey(tags, key + MinSuffix) ==> At(CharacteristicJson(c), "minCardinality") == JInt(0)
    ensures !HasKey(tags, key + MaxSuffix) ==> At(CharacteristicJson(c), "maxCardinality") == JInt(1)
  {
    CharacteristicKeyNames();
    CharacteristicField(c, 5);
    CharacteristicField(c, 6);
    ParseIntExamples();
  }

  /** The characteristics array at the level of the built fields. */
  lemma CharacteristicsContent(runId: string, run: Run, env: Env, s: Spec)
    requires s == Assemble(runId, run, env, s.characteristics)
    ensures At(JObj(Prune(Render(s))), "serviceSpecCharacteristic") ==
            JArr(seq(|s.characteristics|, k requires 0 <= k < |s.characteristics| =>
                       CharacteristicJson(s.characteristics[k])))
  {
    DocKeyNamesHead();
    DocKeyNamesTail();
    Kept(s, 19);
  }

  /** Element `i` of the characteristics array is the one built from parameter `i`. */
  lemma CharacteristicAt(runId: string, run: Run, env: Env, doc: Obj, i: nat) returns (c: Characteristic)
    requires Convert(runId, run, env) == Ok(doc)
    requires i < |run.params|
    ensures BuildCharacteristic(run.tags, RunWindow(env, run.info), run.params[i].0, run.params[i].1) == Ok(c)
    ensures var cs := At(JObj(doc), "serviceSpecCharacteristic");
            cs.JArr? && |cs.items| == |run.params| && cs.items[i] == CharacteristicJson(c)
  {
    var s := Converted(runId, run, env, doc);
    CharacteristicsContent(runId, run, env, s);
    c := s.characteristics[i];
  }

  /**
   One characteristic per parameter, in parameter order: element `i` is the
   characteristic built from parameter `i` with the tags applied.
   */
  lemma CharacteristicsFollowParams(runId: string, run: Run, env: Env, doc: Obj)
    requires Convert(runId, run, env) == Ok(doc)
    ensures var cs := At(JObj(doc), "serviceSpecCharacteristic");
            cs.JArr? && |cs.items| == |run.params|
    ensures forall i :: 0 <= i < |run.params| ==>
              var built := BuildCharacteristic(run.tags, RunWindow(env, run.info), run.params[i].0, run.params[i].1);
              built.Ok? && Items(At(JObj(doc), "serviceSpecCharacteristic"))[i] == CharacteristicJson(built.value)
  {
    var s := Converted(runId, run, env, doc);
    CharacteristicsContent(runId, run, env, s);
    forall i | 0 <= i < |run.params|
      ensures var built := BuildCharacteristic(run.tags, RunWindow(env, run.info), run.params[i].0, run.params[i].1);
              built.Ok? && Items(At(JObj(doc), "serviceSpecCharacteristic"))[i] == CharacteristicJson(built.value)
    {
      var c := CharacteristicAt(runId, run, env, doc, i);
    }
  }

  /**
   Parameter `i` becomes a characteristic named after it, valid over the
   run's window, holding exactly one value: the parameter's value, marked
   as the default.
   */
  lemma ParamCharacteristic(runId: string, run: Run, env: Env, doc: Obj, i: nat)
    requires Convert(runId, run, env) == Ok(doc)
    requires i < |run.params|
    ensures var cs := Items(At(JObj(doc), "serviceSpecCharacteristic"));
            i < |cs| &&
            At(cs[i], "name") == JStr(run.params[i].0) &&
            At(cs[i], "validFor") == WindowJson(RunWindow(env, run.info)) &&
            |Items(At(cs[i], "serviceSpecCharacteristicValue"))| == 1 &&
            At(Items(At(cs[i], "serviceSpecCharacteristicValue"))[0], "value") == JStr(run.params[i].1) &&
            At(Items(At(cs[i], "serviceSpecCharacteristicValue"))[0], "isDefault") == JBool(true)
  {
    var c := CharacteristicAt(runId, run, env, doc, i);
    CharacteristicNaming(run.tags, RunWindow(env, run.info), run.params[i].0, run.params[i].1, c);
    CharacteristicValue(run.tags, RunWindow(env, run.info), run.params[i].0, run.params[i].1, c);
  }

  /** A cardinality tag that is not an integer literal makes the whole conversion fail. */
  lemma MalformedCardinalityFails(runId: string, run: Run, env: Env, i: nat)
    requires i < |run.params|
    requires Get(run.tags, run.params[i].0 + MinSuffix) == Some("abc")
    ensures Convert(runId, run, env).Err?
  {
    ParseIntExamples();
    assert CardinalityError(run.tags, run.params[i].0).Some?;
  }

  // ------------------------------------------------------------ owner

  lemma OwnerContent(runId: string, run: Run, env: Env, s: Spec)
    requires s == Assemble(runId, run, env, s.characteristics)
    ensures var ps := Items(At(JObj(Prune(Render(s))), "relatedParty"));
            var ownerId := TagOr(run.tags, OwnerIdTag, UnknownOwnerId);
            |ps| == 1 &&
            At(ps[0], "id") == JStr(ownerId) &&
            At(ps[0], "href") == JStr(TagOr(run.tags, OwnerHrefTag, PartyHrefBase + ownerId)) &&
            At(ps[0], "name") == JStr(TagOr(run.tags, OwnerNameTag,
                                                 if run.info.userId.Some? && run.info.userId.value != ""
                                                 then run.info.userId.value else UnknownUser)) &&
            At(ps[0], "role") == JStr(TagOr(run.tags, OwnerRoleTag, DefaultOwnerRole))
  {
    DocKeyNamesHead();
    DocKeyNamesTail();
    Kept(s, 20);
    PartyFields(s.owner);
  }

  /**
   `relatedParty` is a single owner built from the `owner_*` tags: the id
   defaults to "unknown", the href to the party base followed by the id, the
   name to the run's user (or "Unknown"), and the role to "ModelOwner".
   */
  lemma OwnerFollowsTags(runId: string, run: Run, env: Env, doc: Obj)
    requires Convert(runId, run, env) == Ok(doc)
    ensures var ps := Items(At(JObj(doc), "relatedParty"));
            var ownerId := TagOr(run.tags, OwnerIdTag, UnknownOwnerId);
            |ps| == 1 &&
            At(ps[0], "id") == JStr(ownerId) &&
            At(ps[0], "href") == JStr(TagOr(run.tags, OwnerHrefTag, PartyHrefBase + ownerId)) &&
            At(ps[0], "name") == JStr(TagOr(run.tags, OwnerNameTag,
                                                 if run.info.userId.Some? && run.info.userId.value != ""
                                                 then run.info.userId.value else UnknownUser)) &&
            At(ps[0], "role") == JStr(TagOr(run.tags, OwnerRoleTag, DefaultOwnerRole))
  {
    var s := Converted(runId, run, env, doc);
    OwnerContent(runId, run, env, s);
  }

  // --------------------------------------------------------- metadata

  lemma MetadataKeysDistinct()
    ensures forall a, b :: 0 <= a < b < |MetadataKeys| ==> MetadataKeys[a] != MetadataKeys[b]
    ensures MetadataKeys[0] == "runId" && MetadataKeys[1] == "experimentId" && MetadataKeys[2] == "artifactUri"
    ensures MetadataKeys[3] == "status" && MetadataKeys[4] == "userId"
    ensures MetadataKeys[5] == "metrics" && MetadataKeys[6] == "allTags"
  {
  }

  lemma MetadataObject(m: Metadata)
    ensures var j := MetadataJson(m);
            j.JObj? && Keys(j.fields) == MetadataKeys &&
            At(j, "runId") == JStr(m.runId) &&
            At(j, "experimentId") == JStr(m.experimentId) &&
            At(j, "artifactUri") == JStr(m.artifactUri) &&
            At(j, "status") == JStr(m.status) &&
            At(j, "userId") == OptionalText(m.userId)
    ensures var j := MetadataJson(m);
            At(j, "allTags").JObj? && |At(j, "allTags").fields| == |m.allTags| &&
            (forall i :: 0 <= i < |m.allTags| ==> At(j, "allTags").fields[i] == (m.allTags[i].0, JStr(m.allTags[i].1))) &&
            At(j, "metrics").JObj? && |At(j, "metrics").fields| == |m.metrics| &&
            (forall i :: 0 <= i < |m.metrics| ==> At(j, "metrics").fields[i] == (m.metrics[i].0, JNum(m.metrics[i].1)))
  {
    MetadataKeysDistinct();
    ZipGet(MetadataKeys, MetadataValues(m), 0);
    ZipGet(MetadataKeys, MetadataValues(m), 1);
    ZipGet(MetadataKeys, MetadataValues(m), 2);
    ZipGet(MetadataKeys, MetadataValues(m), 3);
    ZipGet(MetadataKeys, MetadataValues(m), 4);
    ZipGet(MetadataKeys, MetadataValues(m), 5);
    ZipGet(MetadataKeys, MetadataValues(m), 6);
  }

  lemma MetadataContent(runId: string, run: Run, env: Env, s: Spec)
    requires s == Assemble(runId, run, env, s.characteristics)
    ensures At(JObj(Prune(Render(s))), "mlflowMetadata") == MetadataJson(s.metadata)
    ensures s.metadata.runId == runId && s.metadata.experimentId == run.info.experimentId
    ensures s.metadata.status == run.info.status && s.metadata.allTags == run.tags && s.metadata.metrics == run.metrics
    ensures s.metadata.artifactUri == run.info.artifactUri && s.metadata.userId == run.info.userId
  {
    DocKeyNamesHead();
    DocKeyNamesTail();
    Kept(s, 22);
  }

  /**
   `mlflowMetadata` echoes the run: its id, experiment, artifact location,
   status and user (null when unknown), every
   metric and every tag in order; it has no entry for the parameters.
   */
  lemma MetadataFollowsRun(runId: string, run: Run, env: Env, doc: Obj)
    requires Convert(runId, run, env) == Ok(doc)
    ensures var m := At(JObj(doc), "mlflowMetadata");
            m.JObj? && Keys(m.fields) == MetadataKeys &&
            At(m, "runId") == JStr(runId) &&
            At(m, "experimentId") == JStr(run.info.experimentId) &&
            At(m, "artifactUri") == JStr(run.info.artifactUri) &&
            At(m, "status") == JStr(run.info.status) &&
            At(m, "userId") == OptionalText(run.info.userId) &&
            At(m, "allTags").JObj? && |At(m, "allTags").fields| == |run.tags| &&
            (forall i :: 0 <= i < |run.tags| ==> At(m, "allTags").fields[i] == (run.tags[i].0, JStr(run.tags[i].1))) &&
            At(m, "metrics").JObj? && |At(m, "metrics").fields| == |run.metrics| &&
            (forall i :: 0 <= i < |run.metrics| ==> At(m, "metrics").fields[i] == (run.metrics[i].0, JNum(run.metrics[i].1)))
  {
    var s := Converted(runId, run, env, doc);
    MetadataContent(runId, run, env, s);
    MetadataObject(s.metadata);
  }
}
