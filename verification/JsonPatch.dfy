/** JSON Pointer (RFC 6901) and the three JSON Patch operations (RFC 6902 sections 4.1 to 4.3) that
    the webhook emits, interpreted over the part of a pod document those operations address. */
module JsonPatch {
  import opened Wrappers
  import opened Text

  // ---- Documents -----------------------------------------------------------------------------

  datatype Mount = Mount(name: string, mountPath: string, subPath: string)
  datatype EnvVar = EnvVar(name: string, value: string)

  /** What the webhook puts into the lists of a pod spec. `payload` stands for all the fields the
      patch code never looks at. */
  datatype Item =
    | Container(name: string, env: seq<EnvVar>, mounts: seq<Mount>, payload: string)
    | Volume(name: string, payload: string)
    | PullSecret(name: string)

  /** A JSON value, with list items and settings the patch never looks into kept whole. */
  datatype Node =
    | Null
    | Text(text: string)
    | Whole(item: Item)
    | List(elems: seq<Node>)
    | Object(members: map<string, Node>)

  // ---- JSON Pointer --------------------------------------------------------------------------

  /** The two replacement passes of escapeJSONPointerValue. */
  function Escape(s: string): string {
    ReplaceAll(ReplaceAll(s, "~", "~0"), "/", "~1")
  }

  /** RFC 6901 section 4: first every "~1" becomes "/", then every "~0" becomes "~". */
  function Unescape(s: string): string {
    ReplaceAll(ReplaceAll(s, "~1", "/"), "~0", "~")
  }

  /** RFC 6901 section 3: a reference token has no "/" and every "~" starts "~0" or "~1". */
  predicate IsToken(s: string) {
    forall i :: 0 <= i < |s| ==> IsTokenChar(s, i)
  }

  predicate IsTokenChar(s: string, i: nat)
    requires i < |s|
  {
    s[i] != '/' && (s[i] == '~' ==> i + 1 < |s| && (s[i + 1] == '0' || s[i + 1] == '1'))
  }

  function EscapeChar(c: char): string {
    if c == '~' then "~0" else if c == '/' then "~1" else [c]
  }

  /** The two passes together rewrite each character on its own. */
  lemma EscapeCons(c: char, s: string)
    ensures ReplaceAll([c] + s, "~", "~0") == (if c == '~' then "~0" else [c]) + ReplaceAll(s, "~", "~0")
    ensures Escape([c] + s) == EscapeChar(c) + Escape(s)
  {
    ReplaceCharConcat([c], s, '~', "~0");
    ReplaceCharConcat(ReplaceAll([c], "~", "~0"), ReplaceAll(s, "~", "~0"), '/', "~1");
    assert ReplaceAll([c], "~", "~0") == if c == '~' then "~0" else [c];
    if c == '~' {
      assert ReplaceAll("~0", "/", "~1") == ['~'] + ReplaceAll("0", "/", "~1");
    }
  }

  /** The two unescaping passes, one escaped character at a time. */
  lemma UnescapeStep(c: char, rest: string, half: string)
    ensures ReplaceAll(EscapeChar(c) + rest, "~1", "/") ==
            (if c == '~' then "~0" else [c]) + ReplaceAll(rest, "~1", "/")
    ensures ReplaceAll((if c == '~' then "~0" else [c]) + half, "~0", "~") ==
            [c] + ReplaceAll(half, "~0", "~")
  {
    if c == '~' {
      OtherPair('~', '0', '1', rest, "/");
      OtherChar('0', '~', '1', rest, "/");
      assert ["~"[0]] + (["0"[0]] + ReplaceAll(rest, "~1", "/")) == "~0" + ReplaceAll(rest, "~1", "/");
      assert "~0" + rest == ['~'] + (['0'] + rest);
      SamePair('~', '0', half, "~");
    } else if c == '/' {
      SamePair('~', '1', rest, "/");
      OtherChar(c, '~', '0', half, "~");
    } else {
      OtherChar(c, '~', '1', rest, "/");
      OtherChar(c, '~', '0', half, "~");
    }
  }

  /** Replacing the pattern `x``y`: at the pattern, at another character, and at `x` before another one. */
  lemma SamePair(x: char, y: char, rest: string, to: string)
    ensures ReplaceAll([x, y] + rest, [x, y], to) == to + ReplaceAll(rest, [x, y], to)
  {
    var s := [x, y] + rest;
    assert s[..2] == [x, y] && s[2..] == rest;
  }

  lemma OtherChar(c: char, x: char, y: char, rest: string, to: string)
    requires c != x
    ensures ReplaceAll([c] + rest, [x, y], to) == [c] + ReplaceAll(rest, [x, y], to)
  {
    var s := [c] + rest;
    assert s[0] == c && s[1..] == rest;
    if |s| >= 2 {
      assert s[..2][0] == c;
    }
  }

  lemma OtherPair(x: char, z: char, y: char, rest: string, to: string)
    requires z != y
    ensures ReplaceAll([x] + ([z] + rest), [x, y], to) == [x] + ReplaceAll([z] + rest, [x, y], to)
  {
    var s := [x] + ([z] + rest);
    assert s[0] == x && s[1..] == [z] + rest && s[..2][1] == z;
  }

  lemma {:induction false} EscapeHalfway(s: string)
    ensures ReplaceAll(Escape(s), "~1", "/") == ReplaceAll(s, "~", "~0")
    ensures ReplaceAll(ReplaceAll(s, "~", "~0"), "~0", "~") == s
  {
    if s != "" {
      EscapeCons(s[0], s[1..]);
      assert [s[0]] + s[1..] == s;
      EscapeHalfway(s[1..]);
      UnescapeStep(s[0], Escape(s[1..]), ReplaceAll(s[1..], "~", "~0"));
    }
  }

  /** Escaping is undone by the unescaping order of RFC 6901. */
  lemma UnescapeEscape(s: string)
    ensures Unescape(Escape(s)) == s
  {
    EscapeHalfway(s);
  }

  lemma EscapeInjective(a: string, b: string)
    requires Escape(a) == Escape(b)
    ensures a == b
  {
    UnescapeEscape(a);
    UnescapeEscape(b);
  }

  lemma IsTokenConcat(a: string, b: string)
    requires IsToken(a) && IsToken(b)
    ensures IsToken(a + b)
  {
    var s := a + b;
    forall i | 0 <= i < |s| ensures IsTokenChar(s, i) {
      assert if i < |a| then IsTokenChar(a, i) else IsTokenChar(b, i - |a|);
    }
  }

  lemma {:induction false} EscapeIsToken(s: string)
    ensures IsToken(Escape(s))
  {
    if s != "" {
      EscapeCons(s[0], s[1..]);
      assert [s[0]] + s[1..] == s;
      EscapeIsToken(s[1..]);
      IsTokenConcat(EscapeChar(s[0]), Escape(s[1..]));
    }
  }

  /** The reference tokens of a pointer, or None when the text is not a pointer. */
  function Tokens(p: string): Option<seq<string>> {
    if p == "" then Some([])
    else
      var i := LastSlash(p);
      if i < 0 || !IsToken(p[i + 1..]) then None
      else match Tokens(p[..i])
        case None => None
        case Some(ts) => Some(ts + [Unescape(p[i + 1..])])
  }

  function LastSlash(p: string): (i: int)
    ensures -1 <= i < |p|
    ensures i >= 0 ==> p[i] == '/'
    ensures forall j :: i < j < |p| ==> p[j] != '/'
  {
    if p == "" then -1
    else if p[|p| - 1] == '/' then |p| - 1
    else LastSlash(p[..|p| - 1])
  }

  lemma TokensAppend(p: string, token: string)
    requires IsToken(token)
    ensures Tokens(p + "/" + token) ==
            if Tokens(p).None? then None else Some(Tokens(p).value + [Unescape(token)])
  {
    var q := p + "/" + token;
    var i := LastSlash(q);
    assert q[|p|] == '/';
    forall j | |p| < j < |q| ensures q[j] != '/' {
      assert IsTokenChar(token, j - |p| - 1);
    }
    assert i == |p|;
    assert q[..i] == p && q[i + 1..] == token;
  }

  /** RFC 6901 section 4: an array index is "0" or digits without a leading zero. */
  function ArrayIndex(token: string): Option<nat> {
    if |token| > 0 && AllDigits(token) && (|token| == 1 || token[0] != '0')
    then Some(ParseNat(token)) else None
  }

  /** A token without "~" means itself. */
  lemma {:induction false} UnescapePlain(s: string)
    requires '~' !in s
    ensures Unescape(s) == s
  {
    ReplacePlain(s, "~1", "/");
    ReplacePlain(s, "~0", "~");
  }

  lemma {:induction false} ReplacePlain(s: string, from: string, to: string)
    requires |from| > 0 && from[0] !in s
    ensures ReplaceAll(s, from, to) == s
  {
    if |s| >= |from| {
      assert s[..|from|][0] == s[0];
      ReplacePlain(s[1..], from, to);
    }
  }

  // ---- JSON Patch ----------------------------------------------------------------------------

  datatype PatchOp =
    | Add(path: string, value: Node)
    | Remove(path: string)
    | Replace(path: string, value: Node)

  datatype PatchError = BadPointer | NoTarget

  /** One operation on the member or element `token` of `n`. */
  function EditMember(n: Node, token: string, op: PatchOp): Result<Node, PatchError> {
    match n
    case Object(m) =>
      if op.Add? then Ok(Object(m[token := op.value]))
      else if token !in m then Err(NoTarget)
      else if op.Remove? then Ok(Object(m - {token}))
      else Ok(Object(m[token := op.value]))
    case List(xs) =>
      if op.Add? && token == "-" then Ok(List(xs + [op.value]))
      else (
        match ArrayIndex(token)
        case None => Err(BadPointer)
        case Some(i) =>
          if op.Add? then
            if i <= |xs| then Ok(List(xs[..i] + [op.value] + xs[i..])) else Err(NoTarget)
          else if i >= |xs| then Err(NoTarget)
          else if op.Remove? then Ok(List(xs[..i] + xs[i + 1..]))
          else Ok(List(xs[i := op.value])))
    case _ => Err(NoTarget)
  }

  function EditAt(n: Node, tokens: seq<string>, op: PatchOp): Result<Node, PatchError>
    decreases |tokens|
  {
    if tokens == [] then (if op.Remove? then Err(NoTarget) else Ok(op.value))
    else if |tokens| == 1 then EditMember(n, tokens[0], op)
    else match n
      case Object(m) =>
        if tokens[0] !in m then Err(NoTarget)
        else (
          match EditAt(m[tokens[0]], tokens[1..], op)
          case Ok(child) => Ok(Object(m[tokens[0] := child]))
          case Err(e) => Err(e))
      case List(xs) => (
        match ArrayIndex(tokens[0])
        case None => Err(BadPointer)
        case Some(i) =>
          if i >= |xs| then Err(NoTarget)
          else match EditAt(xs[i], tokens[1..], op)
            case Ok(child) => Ok(List(xs[i := child]))
            case Err(e) => Err(e))
      case _ => Err(NoTarget)
  }

  function Apply(doc: Node, op: PatchOp): Result<Node, PatchError> {
    match Tokens(op.path)
    case None => Err(BadPointer)
    case Some(ts) => EditAt(doc, ts, op)
  }

  /** RFC 6902 section 3: operations are applied in order, each to the result of the previous one,
      and the first failure fails the patch. */
  function ApplyAll(doc: Node, ops: seq<PatchOp>): Result<Node, PatchError>
    decreases |ops|
  {
    if ops == [] then Ok(doc)
    else match Apply(doc, ops[0])
      case Err(e) => Err(e)
      case Ok(next) => ApplyAll(next, ops[1..])
  }

  lemma ApplyAllCons(doc: Node, op: PatchOp, rest: seq<PatchOp>)
    ensures ApplyAll(doc, [op] + rest) ==
            if Apply(doc, op).Err? then Err(Apply(doc, op).error) else ApplyAll(Apply(doc, op).value, rest)
  {
    assert ([op] + rest)[1..] == rest;
  }

  lemma ApplyFirst(doc: Node, op: PatchOp, mid: Node, rest: seq<PatchOp>, end: Node)
    requires Apply(doc, op) == Ok(mid) && ApplyAll(mid, rest) == Ok(end)
    ensures ApplyAll(doc, [op] + rest) == Ok(end)
  {
    ApplyAllCons(doc, op, rest);
  }

  lemma {:induction false} ApplyAllConcat(doc: Node, a: seq<PatchOp>, b: seq<PatchOp>)
    ensures ApplyAll(doc, a + b) ==
            if ApplyAll(doc, a).Err? then Err(ApplyAll(doc, a).error) else ApplyAll(ApplyAll(doc, a).value, b)
    decreases |a|
  {
    if a == [] {
      assert a + b == b;
    } else {
      assert (a + b)[1..] == a[1..] + b;
      if Apply(doc, a[0]).Ok? {
        ApplyAllConcat(Apply(doc, a[0]).value, a[1..], b);
      }
    }
  }

  lemma ApplyInTurn(doc: Node, a: seq<PatchOp>, mid: Node, b: seq<PatchOp>, end: Node)
    requires ApplyAll(doc, a) == Ok(mid) && ApplyAll(mid, b) == Ok(end)
    ensures ApplyAll(doc, a + b) == Ok(end)
  {
    ApplyAllConcat(doc, a, b);
  }
}
