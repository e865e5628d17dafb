/** Argument templates of workflow steps: JSON trees whose text leaves may be tokens that the draft fills in. */
module Template {
  import opened Json

  // ----- tokens -----

  datatype Token =
    | FieldToken(step: string, field: string)
    | DraftToken(key: string)
    | Literal

  predicate WordChar(c: char) {
    'a' <= c <= 'z' || 'A' <= c <= 'Z' || '0' <= c <= '9' || c == '_'
  }

  predicate Word(s: string) {
    s != "" && forall i :: 0 <= i < |s| ==> WordChar(s[i])
  }

  /** Words and dots in any order. */
  predicate Dotted(s: string) {
    s != "" && forall i :: 0 <= i < |s| ==> WordChar(s[i]) || s[i] == '.'
  }

  predicate WellFormed(t: Token) {
    match t
    case FieldToken(step, field) => Word(step) && Word(field)
    case DraftToken(key) => Dotted(key)
    case Literal => false
  }

  function Render(t: Token): string {
    match t
    case FieldToken(step, field) => "{{field:" + (step + "." + field) + "}}"
    case DraftToken(key) => "{{draft." + key + "}}"
    case Literal => ""
  }

  /** What stands between an opening and the closing braces. */
  function Inner(s: string, opening: string): Option<string> {
    if opening <= s && |s| >= |opening| + 2 && s[|s| - 2..] == "}}" then Some(s[|opening|..|s| - 2]) else None
  }

  /** The position of the first dot. */
  function DotIn(s: string): (i: nat)
    ensures i <= |s| && '.' !in s[..i] && (i < |s| ==> s[i] == '.')
  {
    if s == "" || s[0] == '.' then 0
    else
      var i := DotIn(s[1..]);
      assert s[..1 + i] == [s[0]] + s[1..][..i];
      1 + i
  }

  /** The text the expressions look at: the end anchor also matches before one final newline. */
  function Line(s: string): string {
    if s != "" && s[|s| - 1] == '\n' then s[..|s| - 1] else s
  }

  function Parse(s: string): Token {
    var field := Inner(Line(s), "{{field:");
    var key := Inner(Line(s), "{{draft.");
    if field.Some? then Split(field.value)
    else if key.Some? && Dotted(key.value) then DraftToken(key.value)
    else Literal
  }

  lemma InnerRender(body: string, opening: string)
    ensures Inner(opening + body + "}}", opening) == Some(body)
  {
    var s := opening + body + "}}";
    assert s[..|opening|] == opening && s[|s| - 2..] == "}}" && s[|opening|..|s| - 2] == body;
  }

  lemma InnerText(s: string, opening: string)
    requires Inner(s, opening).Some?
    ensures s == opening + Inner(s, opening).value + "}}"
  {
    assert s == s[..|opening|] + s[|opening|..|s| - 2] + s[|s| - 2..];
  }

  lemma {:induction false} DotAt(a: string, b: string)
    requires '.' !in a
    ensures DotIn(a + "." + b) == |a|
  {
    var s := a + "." + b;
    if a != "" {
      assert s[0] == a[0] && s[1..] == a[1..] + "." + b;
      DotAt(a[1..], b);
    }
  }

  /** The two words of a field token, from what stands between its braces. */
  function Split(body: string): Token {
    var i := DotIn(body);
    if i < |body| && Word(body[..i]) && Word(body[i + 1..]) then FieldToken(body[..i], body[i + 1..]) else Literal
  }

  lemma SplitExactly(body: string, step: string, field: string)
    requires Word(step) && Word(field)
    ensures Split(body) == FieldToken(step, field) <==> body == step + "." + field
  {
    if body == step + "." + field {
      DotAt(step, field);
      assert body[..|step|] == step && body[|step| + 1..] == field;
    }
    var i := DotIn(body);
    if i < |body| {
      assert body == body[..i] + "." + body[i + 1..];
    }
  }

  /** A field token is read back exactly from its text, with or without one final newline. */
  lemma FieldTokenExactly(s: string, step: string, field: string)
    requires Word(step) && Word(field)
    ensures Parse(s) == FieldToken(step, field) <==> Line(s) == "{{field:" + (step + "." + field) + "}}"
  {
    var body := step + "." + field;
    if Line(s) == "{{field:" + body + "}}" {
      InnerRender(body, "{{field:");
    }
    if Inner(Line(s), "{{field:").Some? {
      InnerText(Line(s), "{{field:");
      SplitExactly(Inner(Line(s), "{{field:").value, step, field);
    }
  }

  lemma DraftTokenExactly(s: string, key: string)
    requires Dotted(key)
    ensures Parse(s) == DraftToken(key) <==> Line(s) == "{{draft." + key + "}}"
  {
    if Line(s) == "{{draft." + key + "}}" {
      InnerRender(key, "{{draft.");
      assert Line(s)[2] == 'd';
    }
    if Parse(s) == DraftToken(key) {
      InnerText(Line(s), "{{draft.");
    }
  }

  /** Every text is a literal, or the text of the one token it stands for. */
  lemma ParseExactly(s: string, t: Token)
    requires WellFormed(t)
    ensures Parse(s) == t <==> Line(s) == Render(t)
  {
    match t
    case FieldToken(step, field) => FieldTokenExactly(s, step, field);
    case DraftToken(key) => DraftTokenExactly(s, key);
  }

  // ----- looking a token up -----

  /** str.split on dots. */
  function Parts(key: string): (parts: seq<string>)
    ensures parts != []
    decreases |key|
  {
    var i := DotIn(key);
    if i == |key| then [key] else [key[..i]] + Parts(key[i + 1..])
  }

  /** Follow the parts through nested objects; anything missing on the way is null. */
  function Walk(v: Json, parts: seq<string>): Json
    decreases |parts|
  {
    if parts == [] then v
    else if v.Obj? && Get(v.members, parts[0]).Some? then Walk(Get(v.members, parts[0]).value, parts[1..])
    else Null
  }

  /** The draft's payload and the values only the run knows. */
  datatype Scope = Scope(payload: seq<Member>, runtime: seq<Member>)

  function Lookup(t: Token, sc: Scope): Option<Json> {
    match t
    case FieldToken(step, field) =>
      (match Get(sc.payload, step)
       case Some(Obj(section)) => Get(section, field)
       case _ => None)
    case DraftToken(key) =>
      if Get(sc.runtime, key).Some? then Get(sc.runtime, key)
      else
        var v := Walk(Obj(sc.payload), Parts(key));
        if v == Null then None else Some(v)
    case Literal => None
  }

  /** What a token of the draft finds: a value that the run itself knows, whatever the draft holds, and else the value at
      the path through the draft, if it is one and not null. */
  lemma DraftTokenFinds(key: string, sc: Scope)
    ensures forall v :: Get(sc.runtime, key) == Some(v) ==> Lookup(DraftToken(key), sc) == Some(v)
    ensures Get(sc.runtime, key) == None ==>
              && (Walk(Obj(sc.payload), Parts(key)) == Null <==> Lookup(DraftToken(key), sc) == None)
              && (Lookup(DraftToken(key), sc).Some? ==>
                    Lookup(DraftToken(key), sc).value == Walk(Obj(sc.payload), Parts(key)))
  {
  }

  /** A field token finds what the tab's section holds for the field, a null included, and nothing else. */
  lemma FieldTokenFinds(step: string, field: string, sc: Scope)
    ensures forall v :: Lookup(FieldToken(step, field), sc) == Some(v) <==>
                        exists section :: Get(sc.payload, step) == Some(Obj(section)) && Get(section, field) == Some(v)
  {
  }

  /** One step along a path. */
  lemma WalkStep(ms: seq<Member>, part: string, rest: seq<string>)
    ensures Walk(Obj(ms), [part] + rest) == match Get(ms, part) case None => Null case Some(v) => Walk(v, rest)
    ensures Walk(Obj(ms), []) == Obj(ms)
  {
    assert ([part] + rest)[1..] == rest;
  }

  predicate Unresolved(s: string, sc: Scope) {
    Parse(s) != Literal && Lookup(Parse(s), sc).None?
  }

  /** What a text leaf becomes. */
  function Filled(s: string, sc: Scope): Json {
    if Parse(s) == Literal then Str(s)
    else match Lookup(Parse(s), sc)
         case Some(v) => v
         case None => Null
  }

  // ----- trees -----

  function Width(v: Json): nat {
    match v
    case Arr(items) => |items|
    case Obj(members) => |members|
    case _ => 0
  }

  function Child(v: Json, i: nat): (c: Json)
    requires i < Width(v)
    ensures c < v
  {
    match v
    case Arr(items) => items[i]
    case Obj(members) => members[i].value
  }

  /** The node at a path of child positions. */
  function At(v: Json, path: seq<nat>): Option<Json>
    decreases |path|
  {
    if path == [] then Some(v)
    else if path[0] < Width(v) then At(Child(v, path[0]), path[1..])
    else None
  }

  /** The substitution a template denotes: text leaves are replaced, everything else stays. */
  function Subst(v: Json, sc: Scope): (r: Json) {
    match v
    case Str(s) => Filled(s, sc)
    case Arr(items) => Arr(seq(|items|, i requires 0 <= i < |items| => Subst(items[i], sc)))
    case Obj(members) =>
      Obj(seq(|members|, i requires 0 <= i < |members| => Member(members[i].key, Subst(members[i].value, sc))))
    case _ => v
  }

  /** The text leaves, left to right. */
  function Leaves(v: Json): seq<string>
    decreases v, Width(v) + 1
  {
    if v.Str? then [v.s] else LeavesIn(v, Width(v))
  }

  /** The text leaves under the first n children. */
  function LeavesIn(v: Json, n: nat): seq<string>
    requires n <= Width(v)
    decreases v, n
  {
    if n == 0 then [] else LeavesIn(v, n - 1) + Leaves(Child(v, n - 1))
  }

  /** Those of the texts that the test picks, in order. */
  function Picked(texts: seq<string>, test: string -> bool): seq<string> {
    if texts == [] then []
    else
      var rest, s := Picked(texts[..|texts| - 1], test), texts[|texts| - 1];
      if test(s) then rest + [s] else rest
  }

  lemma {:induction false} PickedConcat(a: seq<string>, b: seq<string>, test: string -> bool)
    ensures Picked(a + b, test) == Picked(a, test) + Picked(b, test)
  {
    if b == [] {
      assert a + b == a;
    } else {
      PickedConcat(a, b[..|b| - 1], test);
      assert (a + b)[..|a + b| - 1] == a + b[..|b| - 1];
    }
  }

  function Unfilled(sc: Scope): string -> bool {
    s => Unresolved(s, sc)
  }

  /** The tokens of a template that have no value, left to right. */
  function Missing(v: Json, sc: Scope): seq<string> {
    Picked(Leaves(v), Unfilled(sc))
  }

  // ----- the resolver -----

  lemma MissingText(s: string, sc: Scope)
    ensures Missing(Str(s), sc) == if Unresolved(s, sc) then [s] else []
  {
    assert [s][..0] == [] && [] + [s] == [s];
    assert Picked([], Unfilled(sc)) == [];
  }

  /** _resolve_value on a text. */
  method ResolveText(s: string, sc: Scope) returns (r: Json, unresolved: seq<string>)
    ensures r == Filled(s, sc) && unresolved == if Unresolved(s, sc) then [s] else []
  {
    var t := Parse(s);
    match t {
      case Literal => return Str(s), [];
      case FieldToken(step, field) =>
        var section := Get(sc.payload, step);
        if section.Some? && section.value.Obj? && Get(section.value.members, field).Some? {
          return Get(section.value.members, field).value, [];
        }
        return Null, [s];
      case DraftToken(key) =>
        var known := Get(sc.runtime, key);
        if known.Some? {
          return known.value, [];
        }
        var v := WalkDraft(key, sc);
        return v, if v == Null then [s] else [];
    }
  }

  /** The loop over the parts of a draft key. */
  method WalkDraft(key: string, sc: Scope) returns (v: Json)
    ensures v == Walk(Obj(sc.payload), Parts(key))
  {
    var parts := Parts(key);
    v := Obj(sc.payload);
    var i := 0;
    while i < |parts|
      invariant i <= |parts| && Walk(Obj(sc.payload), parts) == Walk(v, parts[i..])
    {
      assert parts[i..][1..] == parts[i + 1..];
      if v.Obj? && Get(v.members, parts[i]).Some? {
        v := Get(v.members, parts[i]).value;
      } else {
        return Null;
      }
      i := i + 1;
    }
  }

  /** The tokens without a value under the first n children. */
  function MissingIn(v: Json, n: nat, sc: Scope): seq<string>
    requires n <= Width(v)
  {
    Picked(LeavesIn(v, n), Unfilled(sc))
  }

  lemma MissingNext(v: Json, n: nat, sc: Scope)
    requires n < Width(v)
    ensures MissingIn(v, n + 1, sc) == MissingIn(v, n, sc) + Missing(Child(v, n), sc)
    ensures MissingIn(v, 0, sc) == []
  {
    PickedConcat(LeavesIn(v, n), Leaves(Child(v, n)), Unfilled(sc));
  }

  lemma MissingNode(v: Json, sc: Scope)
    requires !v.Str?
    ensures Missing(v, sc) == MissingIn(v, Width(v), sc) && MissingIn(v, 0, sc) == []
  {
  }

  /** The first n members substituted, each under its own key. */
  function MembersTo(members: seq<Member>, n: nat, sc: Scope): (r: seq<Member>)
    requires n <= |members|
    ensures |r| == n
  {
    if n == 0 then []
    else MembersTo(members, n - 1, sc) + [Member(members[n - 1].key, Subst(members[n - 1].value, sc))]
  }

  function ItemsTo(items: seq<Json>, n: nat, sc: Scope): (r: seq<Json>)
    requires n <= |items|
    ensures |r| == n
  {
    if n == 0 then [] else ItemsTo(items, n - 1, sc) + [Subst(items[n - 1], sc)]
  }

  lemma {:induction false} MembersToAt(members: seq<Member>, n: nat, sc: Scope, j: nat)
    requires j < n <= |members|
    ensures MembersTo(members, n, sc)[j] == Member(members[j].key, Subst(members[j].value, sc))
  {
    if j < n - 1 {
      MembersToAt(members, n - 1, sc, j);
    }
  }

  lemma {:induction false} ItemsToAt(items: seq<Json>, n: nat, sc: Scope, j: nat)
    requires j < n <= |items|
    ensures ItemsTo(items, n, sc)[j] == Subst(items[j], sc)
  {
    if j < n - 1 {
      ItemsToAt(items, n - 1, sc, j);
    }
  }

  lemma AllMembersDone(members: seq<Member>, sc: Scope)
    ensures Obj(MembersTo(members, |members|, sc)) == Subst(Obj(members), sc)
  {
    forall j: nat | j < |members|
      ensures MembersTo(members, |members|, sc)[j] == Member(members[j].key, Subst(members[j].value, sc))
    {
      MembersToAt(members, |members|, sc, j);
    }
  }

  lemma AllItemsDone(items: seq<Json>, sc: Scope)
    ensures Arr(ItemsTo(items, |items|, sc)) == Subst(Arr(items), sc)
  {
    forall j: nat | j < |items| ensures ItemsTo(items, |items|, sc)[j] == Subst(items[j], sc) {
      ItemsToAt(items, |items|, sc, j);
    }
  }

  /** The next child of a node. */
  method ResolveChild(v: Json, i: nat, sc: Scope, before: seq<string>) returns (x: Json, unresolved: seq<string>)
    requires i < Width(v) && before == MissingIn(v, i, sc)
    ensures x == Subst(Child(v, i), sc) && unresolved == MissingIn(v, i + 1, sc)
    decreases v, 0
  {
    MissingNext(v, i, sc);
    x, unresolved := ResolveValue(Child(v, i), sc);
    unresolved := before + unresolved;
  }

  method ResolveMembers(members: seq<Member>, sc: Scope) returns (r: seq<Member>, unresolved: seq<string>)
    ensures Obj(r) == Subst(Obj(members), sc) && unresolved == Missing(Obj(members), sc)
    decreases Obj(members), 1
  {
    r, unresolved := [], [];
    MissingNode(Obj(members), sc);
    for i := 0 to |members|
      invariant r == MembersTo(members, i, sc) && unresolved == MissingIn(Obj(members), i, sc)
    {
      var x;
      x, unresolved := ResolveChild(Obj(members), i, sc, unresolved);
      r := r + [Member(members[i].key, x)];
    }
    AllMembersDone(members, sc);
  }

  method ResolveItems(items: seq<Json>, sc: Scope) returns (r: seq<Json>, unresolved: seq<string>)
    ensures Arr(r) == Subst(Arr(items), sc) && unresolved == Missing(Arr(items), sc)
    decreases Arr(items), 1
  {
    r, unresolved := [], [];
    MissingNode(Arr(items), sc);
    for i := 0 to |items|
      invariant r == ItemsTo(items, i, sc) && unresolved == MissingIn(Arr(items), i, sc)
    {
      var x;
      x, unresolved := ResolveChild(Arr(items), i, sc, unresolved);
      r := r + [x];
    }
    AllItemsDone(items, sc);
  }

  /** _resolve_value: the value a template denotes, and the tokens that have none, in traversal order. */
  method ResolveValue(v: Json, sc: Scope) returns (r: Json, unresolved: seq<string>)
    ensures r == Subst(v, sc) && unresolved == Missing(v, sc)
    decreases v, 2
  {
    match v {
      case Str(s) =>
        MissingText(s, sc);
        r, unresolved := ResolveText(s, sc);
      case Obj(members) =>
        var ms;
        ms, unresolved := ResolveMembers(members, sc);
        r := Obj(ms);
      case Arr(items) =>
        var xs;
        xs, unresolved := ResolveItems(items, sc);
        r := Arr(xs);
      case _ =>
        MissingNode(v, sc);
        r, unresolved := v, [];
    }
  }

  // ----- what substitution does, place by place -----

  /** Below every place of a template, the result is the substitution of what the template has there. */
  lemma {:induction false} SubstAt(v: Json, sc: Scope, path: seq<nat>)
    requires At(v, path).Some?
    ensures At(Subst(v, sc), path) == Some(Subst(At(v, path).value, sc))
    decreases |path|
  {
    if path != [] {
      SubstAt(Child(v, path[0]), sc, path[1..]);
    }
  }

  predicate SameKeys(a: Json, b: Json) {
    match (a, b)
    case (Obj(xs), Obj(ys)) => |xs| == |ys| && forall i :: 0 <= i < |xs| ==> xs[i].key == ys[i].key
    case (Arr(xs), Arr(ys)) => |xs| == |ys|
    case _ => a == b
  }

  /** Every object keeps its keys in order, every list its length, every other value itself; only text leaves change,
      and a token's value is put in as it is in the draft, never looked into for further tokens. */
  lemma SubstKeepsShape(v: Json, sc: Scope, path: seq<nat>)
    requires At(v, path).Some?
    ensures var was, now := At(v, path).value, At(Subst(v, sc), path);
            now.Some? && if was.Str? then now.value == Filled(was.s, sc) else SameKeys(was, now.value)
  {
    SubstAt(v, sc, path);
  }

  /** There is nothing in the result but the template's places and what lies inside the values put in. */
  lemma {:induction false} SubstAddsNothing(v: Json, sc: Scope, path: seq<nat>)
    requires At(Subst(v, sc), path).Some? && At(v, path).None?
    ensures exists k :: 0 <= k < |path| && At(v, path[..k]).Some? && At(v, path[..k]).value.Str?
    decreases |path|
  {
    if v.Str? {
      assert At(v, path[..0]) == Some(v);
    } else {
      SubstAddsNothing(Child(v, path[0]), sc, path[1..]);
      var k :| 0 <= k < |path[1..]| && At(Child(v, path[0]), path[1..][..k]).Some?
               && At(Child(v, path[0]), path[1..][..k]).value.Str?;
      assert path[..k + 1][1..] == path[1..][..k];
      assert At(v, path[..k + 1]) == At(Child(v, path[0]), path[1..][..k]);
    }
  }

  // ----- which tokens are reported -----

  lemma {:induction false} PickedExact(texts: seq<string>, test: string -> bool, s: string)
    ensures s in Picked(texts, test) <==> s in texts && test(s)
  {
    if texts != [] {
      PickedExact(texts[..|texts| - 1], test, s);
      assert texts == texts[..|texts| - 1] + [texts[|texts| - 1]];
    }
  }

  /** A text is among the leaves exactly when it stands at some place. */
  lemma {:induction false} LeafHasPath(v: Json, s: string) returns (path: seq<nat>)
    requires s in Leaves(v)
    ensures At(v, path) == Some(Str(s))
    decreases v
  {
    if v.Str? {
      return [];
    }
    var i := LeafChild(v, Width(v), s);
    var rest := LeafHasPath(Child(v, i), s);
    path := [i] + rest;
    assert path[1..] == rest;
  }

  lemma {:induction false} LeafChild(v: Json, n: nat, s: string) returns (i: nat)
    requires n <= Width(v) && s in LeavesIn(v, n)
    ensures i < n && s in Leaves(Child(v, i))
    decreases n
  {
    if s in Leaves(Child(v, n - 1)) {
      return n - 1;
    }
    i := LeafChild(v, n - 1, s);
  }

  lemma {:induction false} ChildLeaves(v: Json, n: nat, i: nat, s: string)
    requires i < n <= Width(v) && s in Leaves(Child(v, i))
    ensures s in LeavesIn(v, n)
    decreases n
  {
    if i < n - 1 {
      ChildLeaves(v, n - 1, i, s);
    }
  }

  lemma {:induction false} PathIsLeaf(v: Json, path: seq<nat>, s: string)
    requires At(v, path) == Some(Str(s))
    ensures s in Leaves(v)
    decreases |path|
  {
    if path != [] {
      PathIsLeaf(Child(v, path[0]), path[1..], s);
      ChildLeaves(v, Width(v), path[0], s);
    }
  }

  /** The resolver reports exactly the tokens that stand somewhere in the template and have no value. */
  lemma MissingExactly(v: Json, sc: Scope, s: string)
    ensures s in Missing(v, sc) <==> Unresolved(s, sc) && exists path :: At(v, path) == Some(Str(s))
  {
    PickedExact(Leaves(v), Unfilled(sc), s);
    if s in Leaves(v) {
      var path := LeafHasPath(v, s);
    }
    if path :| At(v, path) == Some(Str(s)) {
      PathIsLeaf(v, path, s);
    }
  }

  // ----- growing drafts -----

  /** The draft got richer: objects keep their keys, and nothing that had a value loses it. */
  ghost predicate Grows(a: Json, b: Json)
    decreases a
  {
    if a == Null then true
    else if a.Obj? then
      b.Obj? && forall i :: 0 <= i < |a.members| ==>
                  Get(b.members, a.members[i].key).Some?
                  && Grows(a.members[i].value, Get(b.members, a.members[i].key).value)
    else b != Null
  }

  lemma {:induction false} GrowsGet(ms: seq<Member>, b: Json, key: string)
    requires b.Obj? && Get(ms, key).Some?
    requires forall i :: 0 <= i < |ms| ==>
               Get(b.members, ms[i].key).Some? && Grows(ms[i].value, Get(b.members, ms[i].key).value)
    ensures Get(b.members, key).Some? && Grows(Get(ms, key).value, Get(b.members, key).value)
  {
    if ms[0].key != key {
      GrowsGet(ms[1..], b, key);
    }
  }

  /** Keys are unique all the way down, as in every Python dictionary. */
  ghost predicate WellKeyed(v: Json)
    decreases v
  {
    v.Obj? ==> UniqueKeys(v.members) && forall i :: 0 <= i < |v.members| ==> WellKeyed(v.members[i].value)
  }

  lemma {:induction false} GrowsSelf(v: Json)
    requires WellKeyed(v)
    ensures Grows(v, v)
    decreases v
  {
    if v.Obj? {
      forall i: nat | i < |v.members|
        ensures Get(v.members, v.members[i].key).Some?
             && Grows(v.members[i].value, Get(v.members, v.members[i].key).value)
      {
        GetMember(v.members, i);
        GrowsSelf(v.members[i].value);
      }
    }
  }

  lemma {:induction false} WalkGrows(a: Json, b: Json, parts: seq<string>)
    requires Grows(a, b)
    ensures Walk(a, parts) != Null ==> Walk(b, parts) != Null
    decreases |parts|
  {
    if parts != [] && a.Obj? && Get(a.members, parts[0]).Some? {
      GrowsGet(a.members, b, parts[0]);
      WalkGrows(Get(a.members, parts[0]).value, Get(b.members, parts[0]).value, parts[1..]);
    }
  }

  /** A token that has a value keeps having one while the draft grows. */
  lemma GrowthNeverUnresolves(s: string, before: Scope, after: Scope)
    requires Grows(Obj(before.payload), Obj(after.payload))
    requires forall k :: Get(before.runtime, k).Some? ==> Get(after.runtime, k).Some?
    requires !Unresolved(s, before)
    ensures !Unresolved(s, after)
  {
    match Parse(s) {
      case FieldToken(step, field) =>
        GrowsGet(before.payload, Obj(after.payload), step);
        GrowsGet(Get(before.payload, step).value.members, Get(after.payload, step).value, field);
      case DraftToken(key) =>
        WalkGrows(Obj(before.payload), Obj(after.payload), Parts(key));
      case Literal =>
    }
  }

  /** So a template reports no new token. */
  lemma MissingShrinks(v: Json, before: Scope, after: Scope, s: string)
    requires Grows(Obj(before.payload), Obj(after.payload))
    requires forall k :: Get(before.runtime, k).Some? ==> Get(after.runtime, k).Some?
    ensures s in Missing(v, after) ==> s in Missing(v, before)
  {
    MissingExactly(v, before, s);
    MissingExactly(v, after, s);
    if !Unresolved(s, before) {
      GrowthNeverUnresolves(s, before, after);
    }
  }
}
