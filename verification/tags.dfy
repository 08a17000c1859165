/**
 How the mapper reads MLflow tags: plain lookups with defaults, the
 boolean and integer coercions, and the grouping of `<prefix>_<rest>` keys
 (mlflow_to_tmf.py).
 */
module TagRules {
  import opened Base
  import opened Assoc
  import opened Text

  /** A run's tags: string keys to string values, in insertion order. */
  type Tags = Dict<string, string>

  /** `tags.get(key, default)`: a present tag wins even when it is empty. */
  function TagOr(tags: Tags, key: string, default: string): string {
    Get(tags, key).GetOr(default)
  }

  /** Truthiness of `tags.get(key)`: the tag is present and non-empty. */
  predicate TagSet(tags: Tags, key: string) {
    Get(tags, key).Some? && Get(tags, key).value != ""
  }

  /** `tags.get(key, default).lower() == "true"`. */
  predicate TagFlag(tags: Tags, key: string, default: string) {
    IsTrueText(TagOr(tags, key, default))
  }

  /**
   With default "false" a flag holds exactly when the tag is present and spells
   "true"; with default "true" it holds when the tag is absent or spells "true".
   */
  lemma TagFlagDefaults(tags: Tags, key: string)
    ensures TagFlag(tags, key, "false") <==> HasKey(tags, key) && IsTrueText(Get(tags, key).value)
    ensures TagFlag(tags, key, "true") <==> !HasKey(tags, key) || IsTrueText(Get(tags, key).value)
  {
    IsTrueTextSpelling("false");
    IsTrueTextSpelling("true");
  }

  /** The error `int(text)` raises: Python's `ValueError: invalid literal for int()`. */
  datatype MapError = InvalidIntLiteral(literal: string)

  /** `int(tags.get(key, default))`. */
  function TagInt(tags: Tags, key: string, default: string): Result<int, MapError> {
    var text := TagOr(tags, key, default);
    match ParseInt(text)
    case Some(n) => Ok(n)
    case None => Err(InvalidIntLiteral(text))
  }

  // ------------------------------------------------------ prefix grouping

  /** `tag_key.split("_")[0]`: the text before the first underscore. */
  function TagPrefix(key: string): string {
    Split(key, "_")[0]
  }

  /** `tag_key.replace(f"{prefix}_", "")`: every occurrence is removed, not only the leading one. */
  function CleanKey(key: string): string {
    RemoveAll(key, TagPrefix(key) + "_")
  }

  /** Only keys holding an underscore take part in grouping. */
  predicate Grouped(key: string) {
    '_' in key
  }

  /** A key holding an underscore is its prefix, an underscore, and the rest; the prefix holds none. */
  lemma TagPrefixSplitsKey(key: string)
    requires Grouped(key)
    ensures '_' !in TagPrefix(key)
    ensures |TagPrefix(key)| < |key|
    ensures key == TagPrefix(key) + "_" + key[|TagPrefix(key)| + 1..]
    ensures CleanKey(key) == RemoveAll(key[|TagPrefix(key)| + 1..], TagPrefix(key) + "_")
  {
    SplitFirstPiece(key, '_');
    var p := TagPrefix(key);
    assert key == key[..|p|] + [key[|p|]] + key[|p| + 1..];
    var pat := p + "_";
    assert key[..|pat|] == pat;
  }

  /** `tag_sections`: prefix to (clean key to value), both levels in insertion order. */
  type Groups = Dict<string, Dict<string, string>>

  /** One turn of the grouping loop. */
  function GroupStep(g: Groups, key: string, value: string): Groups {
    if Grouped(key) then
      var p := TagPrefix(key);
      Put(g, p, Put(Get(g, p).GetOr([]), CleanKey(key), value))
    else g
  }

  /** The grouping loop over all tags, in order. */
  function GroupTags(tags: Tags): Groups
    decreases |tags|
  {
    if |tags| == 0 then []
    else
      var last := tags[|tags| - 1];
      GroupStep(GroupTags(tags[..|tags| - 1]), last.0, last.1)
  }

  /** `tag_sections.get(p, {}).get(c)`. */
  function GroupLookup(g: Groups, p: string, c: string): Option<string> {
    match Get(g, p)
    case None => None
    case Some(inner) => Get(inner, c)
  }

  /** Tag `t` is filed under prefix `p` and clean key `c`. */
  predicate FiledUnder(t: (string, string), p: string, c: string) {
    Grouped(t.0) && TagPrefix(t.0) == p && CleanKey(t.0) == c
  }

  /** Tag `i` is the last tag filed under `p` and `c`. */
  predicate LastFiledAt(tags: Tags, i: int, p: string, c: string) {
    0 <= i < |tags| && FiledUnder(tags[i], p, c) &&
    forall j :: i < j < |tags| ==> !FiledUnder(tags[j], p, c)
  }

  lemma GroupStepLookup(g: Groups, key: string, value: string, p: string, c: string)
    ensures GroupLookup(GroupStep(g, key, value), p, c) ==
            if FiledUnder((key, value), p, c) then Some(value) else GroupLookup(g, p, c)
  {
    if Grouped(key) {
      var q := TagPrefix(key);
      var inner := Get(g, q).GetOr([]);
      PutGet(g, q, Put(inner, CleanKey(key), value));
      if q == p {
        if CleanKey(key) == c {
          PutGet(inner, c, value);
        } else {
          PutOther(inner, CleanKey(key), value, c);
        }
      } else {
        PutOther(g, q, Put(inner, CleanKey(key), value), p);
      }
    }
  }

  /** Some tag is filed under `p` and `c`. */
  predicate AnyFiled(tags: Tags, p: string, c: string) {
    exists i :: 0 <= i < |tags| && FiledUnder(tags[i], p, c)
  }

  lemma AnyFiledSnoc(tags: Tags, p: string, c: string)
    requires |tags| > 0
    ensures AnyFiled(tags, p, c) <==>
            AnyFiled(tags[..|tags| - 1], p, c) || FiledUnder(tags[|tags| - 1], p, c)
  {
    var init := tags[..|tags| - 1];
    if AnyFiled(tags, p, c) {
      var i :| 0 <= i < |tags| && FiledUnder(tags[i], p, c);
      if i < |init| {
        assert init[i] == tags[i];
      }
    }
    if AnyFiled(init, p, c) {
      var i :| 0 <= i < |init| && FiledUnder(init[i], p, c);
      assert tags[i] == init[i];
    }
  }

  /** Something sits under a prefix and a clean key exactly when some tag is filed there. */
  lemma {:induction false} GroupTagsFiled(tags: Tags, p: string, c: string)
    ensures GroupLookup(GroupTags(tags), p, c).Some? <==> AnyFiled(tags, p, c)
    decreases |tags|
  {
    if |tags| > 0 {
      var init := tags[..|tags| - 1];
      var last := tags[|tags| - 1];
      GroupTagsFiled(init, p, c);
      GroupStepLookup(GroupTags(init), last.0, last.1, p, c);
      AnyFiledSnoc(tags, p, c);
    }
  }

  /**
   Grouping is last-write-wins: under a prefix and a clean key sits the value
   of the last tag filed there.
   */
  lemma {:induction false} GroupTagsLastWins(tags: Tags, i: int, p: string, c: string)
    requires LastFiledAt(tags, i, p, c)
    ensures GroupLookup(GroupTags(tags), p, c) == Some(tags[i].1)
    decreases |tags|
  {
    var init := tags[..|tags| - 1];
    var last := tags[|tags| - 1];
    GroupStepLookup(GroupTags(init), last.0, last.1, p, c);
    if i < |tags| - 1 {
      assert !FiledUnder(last, p, c);
      assert LastFiledAt(init, i, p, c) by {
        assert init[i] == tags[i];
        forall j | i < j < |init| ensures !FiledUnder(init[j], p, c) {
          assert init[j] == tags[j];
        }
      }
      GroupTagsLastWins(init, i, p, c);
    }
  }

  /** A prefix appears in the grouping exactly when it is the text before the first underscore of some underscore key. */
  lemma {:induction false} GroupTagsPrefixes(tags: Tags, p: string)
    ensures HasKey(GroupTags(tags), p) <==>
            exists i :: 0 <= i < |tags| && Grouped(tags[i].0) && TagPrefix(tags[i].0) == p
    ensures DistinctKeys(GroupTags(tags))
    decreases |tags|
  {
    if |tags| > 0 {
      var init := tags[..|tags| - 1];
      var last := tags[|tags| - 1];
      var g := GroupTags(init);
      GroupTagsPrefixes(init, p);
      assert forall i :: 0 <= i < |init| ==> init[i] == tags[i];
      if Grouped(last.0) {
        var q := TagPrefix(last.0);
        var inner := Put(Get(g, q).GetOr([]), CleanKey(last.0), last.1);
        PutDistinct(g, q, inner);
        PutGet(g, q, inner);
        if q != p {
          PutOther(g, q, inner, p);
        }
      }
      assert (exists i :: 0 <= i < |tags| && Grouped(tags[i].0) && TagPrefix(tags[i].0) == p) <==>
             (exists i :: 0 <= i < |init| && Grouped(init[i].0) && TagPrefix(init[i].0) == p) ||
             (Grouped(last.0) && TagPrefix(last.0) == p) by {
        if exists i :: 0 <= i < |tags| && Grouped(tags[i].0) && TagPrefix(tags[i].0) == p {
          var i :| 0 <= i < |tags| && Grouped(tags[i].0) && TagPrefix(tags[i].0) == p;
          if i < |init| {
            assert Grouped(init[i].0) && TagPrefix(init[i].0) == p;
          }
        }
      }
    }
  }

  /**
   Because every occurrence of `<prefix>_` is removed, `a_b` and `a_a_b` are
   both filed under `a` and `b`, and the later one wins.
   */
  lemma CleanKeyCollision()
    ensures CleanKey("a_b") == "b"
    ensures CleanKey("a_a_b") == "b"
    ensures GroupLookup(GroupTags([("a_b", "1"), ("a_a_b", "2")]), "a", "b") == Some("2")
  {
    assert Split("a_b", "_")[0] == "a" by {
      assert "a_b"[1..] == "_b";
      assert "_b"[..1] == "_";
    }
    assert Split("a_a_b", "_")[0] == "a" by {
      assert "a_a_b"[1..] == "_a_b";
      assert "_a_b"[..1] == "_";
    }
    assert RemoveAll("a_b", "a_") == "b" by {
      assert "a_b"[..2] == "a_";
      assert "a_b"[2..] == "b";
    }
    assert RemoveAll("a_a_b", "a_") == "b" by {
      assert "a_a_b"[..2] == "a_";
      assert "a_a_b"[2..] == "a_b";
      assert "a_b"[..2] == "a_";
      assert "a_b"[2..] == "b";
    }
    var tags := [("a_b", "1"), ("a_a_b", "2")];
    assert LastFiledAt(tags, 1, "a", "b");
    GroupTagsLastWins(tags, 1, "a", "b");
  }
}
