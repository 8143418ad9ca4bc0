/** The pod document as the patch sees it: an object with "metadata" and "spec" members, whose spec
    holds the four lists the sidecar is injected into. */
module PodDocument {
  import opened Wrappers
  import opened Text
  import opened JsonPatch

  datatype ListName = InitContainers | Containers | Volumes | ImagePullSecrets

  function Member(l: ListName): (f: string)
    ensures IsPlain(f)
  {
    match l
    case InitContainers => "initContainers"
    case Containers => "containers"
    case Volumes => "volumes"
    case ImagePullSecrets => "imagePullSecrets"
  }

  /** A member name that pointers can spell as it is. */
  predicate IsPlain(f: string) {
    IsToken(f) && '~' !in f
  }

  function Path(f: string): string {
    "/spec/" + f
  }

  function PodDoc(top: map<string, Node>, md: map<string, Node>, sp: map<string, Node>): Node {
    Object(top["metadata" := Object(md)]["spec" := Object(sp)])
  }

  function Nodes(items: seq<Item>): (ns: seq<Node>)
    ensures |ns| == |items|
  {
    seq(|items|, i requires 0 <= i < |items| => Whole(items[i]))
  }

  /** `sp` holds `items` under `f`; an empty list may be left out, null or written out. */
  predicate Holds(sp: map<string, Node>, f: string, items: seq<Item>) {
    || (f in sp && sp[f] == List(Nodes(items)))
    || (items == [] && (f !in sp || sp[f] == Null))
  }

  /** Member `f` is the same in both, present or absent. */
  predicate Same(a: map<string, Node>, b: map<string, Node>, f: string) {
    (f in a <==> f in b) && (f in a ==> a[f] == b[f])
  }

  // ---- Pointers into the document ------------------------------------------------------------

  lemma TokensOfOne(a: string)
    requires IsToken(a)
    ensures Tokens("/" + a) == Some([Unescape(a)])
  {
    var q := "/" + a;
    forall j | 0 < j < |q| ensures q[j] != '/' {
      assert IsTokenChar(a, j - 1);
    }
    assert q[0] == '/' && LastSlash(q) == 0;
    assert q[..0] == "" && q[1..] == a;
    assert Tokens(q) == Some([] + [Unescape(a)]);
    assert [] + [Unescape(a)] == [Unescape(a)];
  }

  lemma TokensOfTwo(a: string, b: string)
    requires IsPlain(a) && IsToken(b)
    ensures Tokens("/" + a + "/" + b) == Some([a, Unescape(b)])
  {
    TokensOfOne(a);
    UnescapePlain(a);
    TokensAppend("/" + a, b);
    assert [a] + [Unescape(b)] == [a, Unescape(b)];
  }

  lemma TokensOfThree(a: string, b: string, c: string)
    requires IsPlain(a) && IsPlain(b) && IsToken(c)
    ensures Tokens("/" + a + "/" + b + "/" + c) == Some([a, b, Unescape(c)])
  {
    TokensOfTwo(a, b);
    TokensAppend("/" + a + "/" + b, c);
    UnescapePlain(b);
    assert [a, b] + [Unescape(c)] == [a, b, Unescape(c)];
  }

  lemma PathSpelled(f: string)
    ensures "/" + "spec" + "/" + f == Path(f)
  {
    assert "/" + "spec" + "/" == "/spec/";
  }

  lemma SpecTokens(f: string)
    requires IsPlain(f)
    ensures Tokens(Path(f)) == Some(["spec", f])
  {
    TokensOfTwo("spec", f);
    UnescapePlain(f);
    PathSpelled(f);
  }

  lemma ElementTokens(f: string, token: string)
    requires IsPlain(f) && IsPlain(token)
    ensures Tokens(Path(f) + "/" + token) == Some(["spec", f, token])
  {
    TokensOfThree("spec", f, token);
    UnescapePlain(token);
    PathSpelled(f);
  }

  lemma IndexTokens(f: string, i: nat)
    requires IsPlain(f)
    ensures Tokens(Path(f) + "/" + Itoa(i)) == Some(["spec", f, Itoa(i)])
    ensures ArrayIndex(Itoa(i)) == Some(i)
  {
    assert IsToken(Itoa(i)) by {
      forall j | 0 <= j < |Itoa(i)| ensures IsTokenChar(Itoa(i), j) {
        assert IsDigit(Itoa(i)[j]);
      }
    }
    assert '~' !in Itoa(i);
    ElementTokens(f, Itoa(i));
    ParseItoa(i);
  }

  // ---- Operations reach exactly their part of the document -----------------------------------

  /** Adding a whole spec member. */
  lemma ApplyAtMember(top: map<string, Node>, md: map<string, Node>, sp: map<string, Node>, f: string, op: PatchOp)
    requires op.Add? && Tokens(op.path) == Some(["spec", f])
    ensures Apply(PodDoc(top, md, sp), op) == Ok(PodDoc(top, md, sp[f := op.value]))
  {
    assert ["spec", f][1..] == [f];
    var m := PodDoc(top, md, sp).members;
    assert EditAt(m["spec"], [f], op) == Ok(Object(sp[f := op.value]));
    assert m["spec" := Object(sp[f := op.value])] == PodDoc(top, md, sp[f := op.value]).members;
  }

  /** An operation on one element of a list in the spec. */
  lemma ApplyAtElement(top: map<string, Node>, md: map<string, Node>, sp: map<string, Node>,
                       f: string, token: string, op: PatchOp)
    requires Tokens(op.path) == Some(["spec", f, token]) && f in sp
    ensures var r := EditMember(sp[f], token, op);
            Apply(PodDoc(top, md, sp), op) == if r.Err? then Err(r.error) else Ok(PodDoc(top, md, sp[f := r.value]))
  {
    assert ["spec", f, token][1..] == [f, token];
    assert [f, token][1..] == [token];
    var m := PodDoc(top, md, sp).members;
    var r := EditMember(sp[f], token, op);
    assert EditAt(sp[f], [token], op) == r;
    assert EditAt(m["spec"], [f, token], op) == if r.Err? then Err(r.error) else Ok(Object(sp[f := r.value]));
    if r.Ok? {
      assert m["spec" := Object(sp[f := r.value])] == PodDoc(top, md, sp[f := r.value]).members;
    }
  }

  lemma RemoveAtIndex(top: map<string, Node>, md: map<string, Node>, sp: map<string, Node>,
                      f: string, token: string, i: nat, path: string)
    requires Tokens(path) == Some(["spec", f, token]) && ArrayIndex(token) == Some(i)
    requires f in sp && sp[f].List? && i < |sp[f].elems|
    ensures Apply(PodDoc(top, md, sp), Remove(path)) ==
            Ok(PodDoc(top, md, sp[f := List(sp[f].elems[..i] + sp[f].elems[i + 1..])]))
  {
    ApplyAtElement(top, md, sp, f, token, Remove(path));
  }

  lemma AddAtEnd(top: map<string, Node>, md: map<string, Node>, sp: map<string, Node>,
                 f: string, path: string, v: Node)
    requires Tokens(path) == Some(["spec", f, "-"])
    requires f in sp && sp[f].List?
    ensures Apply(PodDoc(top, md, sp), Add(path, v)) == Ok(PodDoc(top, md, sp[f := List(sp[f].elems + [v])]))
  {
    ApplyAtElement(top, md, sp, f, "-", Add(path, v));
  }

  lemma WithMetadata(top: map<string, Node>, md: map<string, Node>, sp: map<string, Node>, md': map<string, Node>)
    ensures PodDoc(top, md, sp).members["metadata" := Object(md')] == PodDoc(top, md', sp).members
  {
    assert |"metadata"| != |"spec"|;
  }

  lemma ApplyAtMetadataMember(top: map<string, Node>, md: map<string, Node>, sp: map<string, Node>, f: string,
                              op: PatchOp)
    requires op.Add? && Tokens(op.path) == Some(["metadata", f])
    ensures Apply(PodDoc(top, md, sp), op) == Ok(PodDoc(top, md[f := op.value], sp))
  {
    assert ["metadata", f][1..] == [f];
    var m := PodDoc(top, md, sp).members;
    assert EditAt(m["metadata"], [f], op) == Ok(Object(md[f := op.value]));
    WithMetadata(top, md, sp, md[f := op.value]);
  }

  lemma ApplyAtMetadata(top: map<string, Node>, md: map<string, Node>, sp: map<string, Node>,
                        f: string, token: string, op: PatchOp)
    requires Tokens(op.path) == Some(["metadata", f, token]) && f in md
    ensures var r := EditMember(md[f], token, op);
            Apply(PodDoc(top, md, sp), op) == if r.Err? then Err(r.error) else Ok(PodDoc(top, md[f := r.value], sp))
  {
    assert ["metadata", f, token][1..] == [f, token];
    assert [f, token][1..] == [token];
    var m := PodDoc(top, md, sp).members;
    var r := EditMember(md[f], token, op);
    assert EditAt(md[f], [token], op) == r;
    assert EditAt(m["metadata"], [f, token], op) == if r.Err? then Err(r.error) else Ok(Object(md[f := r.value]));
    if r.Ok? {
      WithMetadata(top, md, sp, md[f := r.value]);
    }
  }
}
