/** webhook.go: updateAnnotation and the meaning of the operations it emits. */
module AnnotationPatch {
  import opened Wrappers
  import opened Text
  import opened JsonPatch
  import opened PodDocument

  const ANNOTATIONS := "/" + "metadata" + "/" + "annotations"

  function AnnotationNode(m: map<string, string>): Node {
    Object(map k | k in m :: Text(m[k]))
  }

  /** The operation for one key of an existing annotation map. */
  function AnnotationOp(target: map<string, string>, key: string, value: string): PatchOp {
    var path := ANNOTATIONS + "/" + Escape(key);
    if key in target && target[key] != "" then Replace(path, Text(value)) else Add(path, Text(value))
  }

  /** The operations for the sorted `keys`; `target` is the map the loop consults, which becomes an
      empty one, not the written one, once the annotations have been created. */
  function AnnotationOps(target: Option<map<string, string>>, keys: seq<string>,
                         added: map<string, string>): seq<PatchOp>
    requires forall k :: k in keys ==> k in added
    decreases |keys|
  {
    if keys == [] then []
    else
      var key, value := keys[0], added[keys[0]];
      if value == "" then AnnotationOps(target, keys[1..], added)
      else if target.None? then
        [Add(ANNOTATIONS, AnnotationNode(map[key := value]))] + AnnotationOps(Some(map[]), keys[1..], added)
      else
        [AnnotationOp(target.value, key, value)] + AnnotationOps(target, keys[1..], added)
  }

  method UpdateAnnotation(target: Option<map<string, string>>, added: map<string, string>) returns (patch: seq<PatchOp>)
    ensures patch == AnnotationOps(target, SortedKeys(added.Keys), added)
  {
    var keys := SortedKeys(added.Keys);
    patch := PatchKeys(target, keys, added);
  }

  lemma KeysHead(target: Option<map<string, string>>, keys: seq<string>, i: nat, added: map<string, string>)
    requires i < |keys| && (forall k :: k in keys[i..] ==> k in added)
    ensures keys[i] in added && forall k :: k in keys[i + 1..] ==> k in added
    ensures var key, value, rest := keys[i], added[keys[i]], keys[i + 1..];
            AnnotationOps(target, keys[i..], added) ==
              if value == "" then AnnotationOps(target, rest, added)
              else if target.None? then
                [Add(ANNOTATIONS, AnnotationNode(map[key := value]))] + AnnotationOps(Some(map[]), rest, added)
              else [AnnotationOp(target.value, key, value)] + AnnotationOps(target, rest, added)
  {
    var todo := keys[i..];
    assert todo[0] == keys[i] && todo[1..] == keys[i + 1..];
    assert forall k :: k in keys[i + 1..] ==> k in todo;
  }

  /** The loop of updateAnnotation over the sorted keys. */
  method PatchKeys(target: Option<map<string, string>>, keys: seq<string>, added: map<string, string>)
    returns (patch: seq<PatchOp>)
    requires forall k :: k in keys ==> k in added
    ensures patch == AnnotationOps(target, keys, added)
  {
    patch := [];
    var current := target;
    assert keys[0..] == keys;
    for i := 0 to |keys|
      invariant forall k :: k in keys[i..] ==> k in added
      invariant patch + AnnotationOps(current, keys[i..], added) == AnnotationOps(target, keys, added)
    {
      KeysHead(current, keys, i, added);
      var key, value := keys[i], added[keys[i]];
      if value != "" {
        if current.None? {
          current := Some(map[]);
          patch := patch + [Add(ANNOTATIONS, AnnotationNode(map[key := value]))];
        } else {
          patch := patch + [AnnotationOp(current.value, key, value)];
        }
      }
    }
  }

  function Entries(keys: seq<string>, added: map<string, string>): map<string, string>
    requires forall k :: k in keys ==> k in added
  {
    map k | k in keys && added[k] != "" :: added[k]
  }

  /** The annotations with every non-empty added entry laid over them. */
  function Overlay(current: Option<map<string, string>>, extra: map<string, string>): Option<map<string, string>> {
    if extra == map[] then current else Some(current.GetOr(map[]) + extra)
  }

  predicate HoldsAnnotations(md: map<string, Node>, a: Option<map<string, string>>) {
    if a.Some? then "annotations" in md && md["annotations"] == AnnotationNode(a.value)
    else "annotations" !in md || md["annotations"] == Null
  }

  lemma AnnotationTokens(key: string)
    ensures Tokens(ANNOTATIONS + "/" + Escape(key)) == Some(["metadata", "annotations", key])
  {
    EscapeIsToken(key);
    UnescapeEscape(key);
    TokensOfThree("metadata", "annotations", Escape(key));
  }

  /** One annotation operation; a replace needs the key to be there. */
  lemma AnnotationStep(top: map<string, Node>, md: map<string, Node>, sp: map<string, Node>,
                       path: string, key: string, current: map<string, string>, op: PatchOp, value: string)
    requires Tokens(path) == Some(["metadata", "annotations", key])
    requires op == Add(path, Text(value)) || op == Replace(path, Text(value))
    requires HoldsAnnotations(md, Some(current))
    ensures Apply(PodDoc(top, md, sp), op) ==
            if op.Replace? && key !in current then Err(NoTarget)
            else Ok(PodDoc(top, md["annotations" := AnnotationNode(current[key := value])], sp))
  {
    ApplyAtMetadata(top, md, sp, "annotations", key, op);
    assert AnnotationNode(current).members[key := Text(value)] == AnnotationNode(current[key := value]).members;
  }

  lemma CreateAnnotations(top: map<string, Node>, md: map<string, Node>, sp: map<string, Node>, v: Node)
    ensures Apply(PodDoc(top, md, sp), Add(ANNOTATIONS, v)) == Ok(PodDoc(top, md["annotations" := v], sp))
  {
    TokensOfTwo("metadata", "annotations");
    UnescapePlain("annotations");
    ApplyAtMetadataMember(top, md, sp, "annotations", Add(ANNOTATIONS, v));
  }

  lemma OverlayCons(current: Option<map<string, string>>, keys: seq<string>, added: map<string, string>)
    requires keys != [] && forall k :: k in keys ==> k in added
    ensures added[keys[0]] == "" ==> Entries(keys, added) == Entries(keys[1..], added)
    ensures added[keys[0]] != "" ==>
              Overlay(Some(current.GetOr(map[])[keys[0] := added[keys[0]]]), Entries(keys[1..], added)) ==
              Overlay(current, Entries(keys, added))
  {
    var key := keys[0];
    var rest := Entries(keys[1..], added);
    assert keys == [key] + keys[1..];
    if added[key] != "" {
      assert Entries(keys, added) == map[key := added[key]] + rest;
      assert key in Entries(keys, added);
      assert current.GetOr(map[])[key := added[key]] + rest == current.GetOr(map[]) + Entries(keys, added);
      if rest == map[] {
        assert current.GetOr(map[])[key := added[key]] + rest == current.GetOr(map[])[key := added[key]];
      }
    }
  }

  /** The first operation writes its entry and nothing else. */
  lemma AnnotationHead(
    top: map<string, Node>, md: map<string, Node>, sp: map<string, Node>,
    target: Option<map<string, string>>, current: Option<map<string, string>>, key: string, value: string, op: PatchOp)
    requires HoldsAnnotations(md, current)
    requires target.Some? <==> current.Some?
    requires target.Some? && key in target.value && target.value[key] != "" ==> key in current.value
    requires op == if target.None? then Add(ANNOTATIONS, AnnotationNode(map[key := value]))
                   else AnnotationOp(target.value, key, value)
    ensures Apply(PodDoc(top, md, sp), op) ==
            Ok(PodDoc(top, md["annotations" := AnnotationNode(current.GetOr(map[])[key := value])], sp))
  {
    if target.None? {
      assert current.GetOr(map[])[key := value] == map[key := value];
      CreateAnnotations(top, md, sp, AnnotationNode(map[key := value]));
    } else {
      AnnotationTokens(key);
      AnnotationStep(top, md, sp, ANNOTATIONS + "/" + Escape(key), key, current.value, op, value);
    }
  }

  /** The annotation operations overlay the non-empty entries, in whatever order the keys come,
      provided every key the loop takes for present is present. */
  lemma {:induction false} AnnotationMeaning(
    top: map<string, Node>, md: map<string, Node>, sp: map<string, Node>,
    target: Option<map<string, string>>, current: Option<map<string, string>>,
    keys: seq<string>, added: map<string, string>) returns (md': map<string, Node>)
    requires forall k :: k in keys ==> k in added
    requires HoldsAnnotations(md, current)
    requires target.Some? <==> current.Some?
    requires target.Some? ==> forall k :: k in keys && k in target.value && target.value[k] != "" ==>
                                            added[k] == "" || k in current.value
    ensures ApplyAll(PodDoc(top, md, sp), AnnotationOps(target, keys, added)) == Ok(PodDoc(top, md', sp))
    ensures HoldsAnnotations(md', Overlay(current, Entries(keys, added)))
    ensures forall f :: f != "annotations" ==> Same(md, md', f)
    decreases |keys|
  {
    md' := md;
    if keys != [] {
      var key, value := keys[0], added[keys[0]];
      var rest := keys[1..];
      assert forall k :: k in rest ==> k in keys;
      OverlayCons(current, keys, added);
      if value == "" {
        md' := AnnotationMeaning(top, md, sp, target, current, rest, added);
      } else {
        var op := if target.None? then Add(ANNOTATIONS, AnnotationNode(map[key := value]))
                  else AnnotationOp(target.value, key, value);
        var next := current.GetOr(map[])[key := value];
        var target1 := if target.None? then Some(map[]) else target;
        assert key in keys;
        AnnotationHead(top, md, sp, target, current, key, value, op);
        ApplyAllCons(PodDoc(top, md, sp), op, AnnotationOps(target1, rest, added));
        var md1 := md["annotations" := AnnotationNode(next)];
        md' := AnnotationMeaning(top, md1, sp, target1, Some(next), rest, added);
        forall f | f != "annotations" ensures Same(md, md', f) {
          assert Same(md, md1, f) && Same(md1, md', f);
        }
      }
    }
  }
}
