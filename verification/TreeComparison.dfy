/** Comparing two observation documents: flatten each tree to dotted leaf paths, then
    compare path by path. */
module TreeComparison {
  import opened Results

  datatype Number = Finite(value: real) | Infinite(negative: bool) | NotANumber

  /** A JSON value as the standard reader delivers it.  The fields of an object are listed
      in the order in which the flattening visits them. */
  datatype Json =
    | Null
    | Boolean(b: bool)
    | Numeric(n: Number)
    | Text(s: string)
    | List(items: Items)
    | Object(fields: Fields)

  datatype Items = NoItems | Item(head: Json, tail: Items)

  datatype Fields = NoFields | Field(key: string, value: Json, rest: Fields)

  function Keys(f: Fields): set<string> {
    if f.NoFields? then {} else {f.key} + Keys(f.rest)
  }

  function Get(f: Fields, key: string): Option<Json> {
    if f.NoFields? then None else if f.key == key then Some(f.value) else Get(f.rest, key)
  }

  lemma {:induction false} GetKeys(f: Fields, key: string)
    ensures Get(f, key).Some? <==> key in Keys(f)
    ensures Get(f, key).Some? ==> Get(f, key).value < f
  {
    if f.Field? {
      GetKeys(f.rest, key);
    }
  }

  // ----- The interpreter's equality

  /** Truth values compare as numbers; a not-a-number compares unequal to everything. */
  function AsNumber(v: Json): Option<Number> {
    match v
    case Boolean(b) => Some(Finite(if b then 1.0 else 0.0))
    case Numeric(n) => Some(n)
    case _ => None
  }

  predicate Equal(a: Json, b: Json)
    decreases a, 1
  {
    if AsNumber(a).Some? || AsNumber(b).Some? then AsNumber(a) == AsNumber(b) && AsNumber(a) != Some(NotANumber)
    else
      match (a, b)
      case (Null, Null) => true
      case (Text(s), Text(t)) => s == t
      case (List(xs), List(ys)) => EqualItems(xs, ys)
      case (Object(f), Object(g)) => Keys(f) == Keys(g) && EqualFields(f, g)
      case (_, _) => false
  }

  /** Inside a container identity is tried first, and the reader hands out one object for
      every not-a-number, so there it does match itself. */
  predicate EqualInside(a: Json, b: Json)
    decreases a, 2
  {
    (a == Numeric(NotANumber) && b == Numeric(NotANumber)) || Equal(a, b)
  }

  predicate EqualItems(xs: Items, ys: Items)
    decreases xs, 0
  {
    match (xs, ys)
    case (NoItems, NoItems) => true
    case (Item(x, more), Item(y, others)) => EqualInside(x, y) && EqualItems(more, others)
    case (_, _) => false
  }

  predicate EqualFields(f: Fields, g: Fields)
    decreases f, 0
  {
    f.NoFields? || (Get(g, f.key).Some? && EqualInside(f.value, Get(g, f.key).value) && EqualFields(f.rest, g))
  }

  // ----- Flattening

  type Flat = map<string, Json>

  function Child(prefix: string, key: string): string {
    if prefix == "" then key else prefix + "." + key
  }

  /** Objects are opened; everything else, lists included, is a leaf at its path. */
  function Flatten(v: Json, prefix: string): Flat
    decreases v, 1
  {
    if v.Object? then FlattenFields(v.fields, prefix) else map[prefix := v]
  }

  /** Later fields win where paths collide. */
  function FlattenFields(f: Fields, prefix: string): Flat
    decreases f, 0
  {
    if f.NoFields? then map[] else Flatten(f.value, Child(prefix, f.key)) + FlattenFields(f.rest, prefix)
  }

  const MISSING := Object(Field("__missing__", Boolean(true), NoFields))

  function At(flat: Flat, path: string): Json {
    if path in flat then flat[path] else MISSING
  }

  predicate Differs(left: Flat, right: Flat, path: string) {
    !Equal(At(left, path), At(right, path))
  }

  datatype Change = Change(field: string, before: Json, after: Json)

  function ChangedPaths(left: Flat, right: Flat): set<string> {
    set path | path in left.Keys + right.Keys && Differs(left, right, path)
  }

  function Named(changes: seq<Change>): set<string> {
    if changes == [] then {} else Named(changes[..|changes| - 1]) + {changes[|changes| - 1].field}
  }

  predicate Faithful(changes: seq<Change>, left: Flat, right: Flat) {
    forall k | 0 <= k < |changes| ::
      changes[k].before == At(left, changes[k].field) && changes[k].after == At(right, changes[k].field)
  }

  /** Each changed path once, with what the two sides have there. */
  predicate Records(changes: seq<Change>, left: Flat, right: Flat, paths: set<string>) {
    Named(changes) == paths && |changes| == |paths| && Faithful(changes, left, right)
  }

  lemma RecordsMore(changes: seq<Change>, left: Flat, right: Flat, paths: set<string>, path: string)
    requires Records(changes, left, right, paths) && path !in paths
    ensures Records(changes + [Change(path, At(left, path), At(right, path))], left, right, paths + {path})
  {
    var more := changes + [Change(path, At(left, path), At(right, path))];
    assert more[..|more| - 1] == changes;
  }

  lemma ChangedIff(left: Flat, right: Flat, path: string)
    requires path in left.Keys + right.Keys
    ensures path in ChangedPaths(left, right) <==> Differs(left, right, path)
  {
  }

  lemma NothingPending(changed: set<string>, all: set<string>)
    requires changed <= all
    ensures changed - all == {} && changed - {} == changed
  {
  }

  lemma Visit(changed: set<string>, pending: set<string>, path: string)
    requires path in pending
    ensures path !in changed - pending
    ensures path in changed ==> changed - (pending - {path}) == changed - pending + {path}
    ensures path !in changed ==> changed - (pending - {path}) == changed - pending
  {
  }

  /** The changes, one for each path whose two sides are not equal. */
  method Diff(a: Json, b: Json, prefix: string) returns (changes: seq<Change>)
    ensures Records(changes, Flatten(a, prefix), Flatten(b, prefix),
                    ChangedPaths(Flatten(a, prefix), Flatten(b, prefix)))
  {
    changes := DiffFlat(Flatten(a, prefix), Flatten(b, prefix));
  }

  method DiffFlat(left: Flat, right: Flat) returns (changes: seq<Change>)
    ensures Records(changes, left, right, ChangedPaths(left, right))
  {
    var pending := left.Keys + right.Keys;
    changes := [];
    ghost var changed := ChangedPaths(left, right);
    NothingPending(changed, pending);
    while pending != {}
      invariant pending <= left.Keys + right.Keys
      invariant Records(changes, left, right, changed - pending)
      decreases pending
    {
      var path :| path in pending;
      ChangedIff(left, right, path);
      Visit(changed, pending, path);
      if Differs(left, right, path) {
        RecordsMore(changes, left, right, changed - pending, path);
        changes := changes + [Change(path, At(left, path), At(right, path))];
      }
      pending := pending - {path};
    }
    NothingPending(changed, left.Keys + right.Keys);
  }

  // ----- Paths as key sequences

  type Path = seq<string>

  predicate DotFree(s: string) {
    '.' !in s
  }

  predicate DotFreePath(p: Path) {
    forall k | k in p :: DotFree(k)
  }

  predicate PlainKeys(v: Json)
    decreases v, 1
  {
    v.Object? ==> PlainFields(v.fields)
  }

  /** Dot-free and pairwise different keys, at every level that flattening opens. */
  predicate PlainFields(f: Fields)
    decreases f, 0
  {
    f.Field? ==> DotFree(f.key) && f.key !in Keys(f.rest) && PlainKeys(f.value) && PlainFields(f.rest)
  }

  function Leaf(v: Json, p: Path): Option<Json>
    decreases v, 1
  {
    if p == [] then if v.Object? then None else Some(v)
    else if v.Object? then LeafOf(v.fields, p)
    else None
  }

  function LeafOf(f: Fields, p: Path): Option<Json>
    requires p != []
    decreases f, 0
  {
    if f.NoFields? then None else if f.key == p[0] then Leaf(f.value, p[1..]) else LeafOf(f.rest, p)
  }

  function Suffix(p: Path): string {
    if p == [] then "" else "." + p[0] + Suffix(p[1..])
  }

  /** How far the text runs before its first dot. */
  function DotAt(s: string): nat {
    if s == "" || s[0] == '.' then 0 else 1 + DotAt(s[1..])
  }

  lemma {:induction false} DotAfter(a: string, x: string)
    requires DotFree(a) && (x == "" || x[0] == '.')
    ensures DotAt(a + x) == |a|
  {
    if a == "" {
      assert a + x == x;
    } else {
      assert a[0] in a && (a + x)[0] == a[0];
      assert forall c | c in a[1..] :: c in a;
      DotAfter(a[1..], x);
      assert (a + x)[1..] == a[1..] + x;
    }
  }

  lemma FirstSegment(a: string, x: string, b: string, y: string)
    requires DotFree(a) && DotFree(b) && a + x == b + y
    requires (x == "" || x[0] == '.') && (y == "" || y[0] == '.')
    ensures a == b && x == y
  {
    DotAfter(a, x);
    DotAfter(b, y);
    assert a == (a + x)[..|a|] && b == (b + y)[..|a|];
    assert x == (a + x)[|a|..] && y == (b + y)[|a|..];
  }

  /** Dotted text determines the dot-free key sequence. */
  lemma {:induction false} SuffixInjective(p: Path, q: Path)
    requires DotFreePath(p) && DotFreePath(q) && Suffix(p) == Suffix(q)
    ensures p == q
  {
    if p != [] && q != [] {
      assert p[0] in p && q[0] in q;
      assert forall k | k in p[1..] :: k in p;
      assert forall k | k in q[1..] :: k in q;
      var x, y := p[0] + Suffix(p[1..]), q[0] + Suffix(q[1..]);
      assert Suffix(p) == "." + x && Suffix(q) == "." + y;
      assert x == Suffix(p)[1..] && y == Suffix(q)[1..];
      FirstSegment(p[0], Suffix(p[1..]), q[0], Suffix(q[1..]));
      SuffixInjective(p[1..], q[1..]);
    }
  }

  lemma SuffixStep(prefix: string, key: string, p: Path)
    requires prefix != ""
    ensures Child(prefix, key) + Suffix(p) == prefix + Suffix([key] + p)
  {
    assert ([key] + p)[1..] == p;
  }

  lemma {:induction false} LeafKeys(f: Fields, p: Path)
    requires p != [] && LeafOf(f, p).Some?
    ensures p[0] in Keys(f)
  {
    if f.key != p[0] {
      LeafKeys(f.rest, p);
    }
  }

  /** Every flattened path spells the key sequence of a leaf, with that leaf as its value. */
  lemma {:induction false} FlattenSound(v: Json, prefix: string, path: string) returns (p: Path)
    requires prefix != "" && PlainKeys(v) && path in Flatten(v, prefix)
    ensures DotFreePath(p) && path == prefix + Suffix(p) && Leaf(v, p) == Some(Flatten(v, prefix)[path])
    decreases v, 1
  {
    if v.Object? {
      p := FieldsSound(v.fields, prefix, path);
    } else {
      p := [];
      assert prefix + "" == prefix;
    }
  }

  lemma {:induction false} FieldsSound(f: Fields, prefix: string, path: string) returns (p: Path)
    requires prefix != "" && PlainFields(f) && path in FlattenFields(f, prefix)
    ensures p != [] && DotFreePath(p) && path == prefix + Suffix(p)
    ensures LeafOf(f, p) == Some(FlattenFields(f, prefix)[path])
    decreases f, 0
  {
    if path in FlattenFields(f.rest, prefix) {
      p := FieldsSound(f.rest, prefix, path);
      LeafKeys(f.rest, p);
    } else {
      var q := FlattenSound(f.value, Child(prefix, f.key), path);
      p := [f.key] + q;
      SuffixStep(prefix, f.key, q);
      assert p[1..] == q;
    }
  }

  lemma PathsTellApart(prefix: string, p: Path, q: Path)
    requires DotFreePath(p) && DotFreePath(q) && prefix + Suffix(p) == prefix + Suffix(q)
    ensures p == q
  {
    assert Suffix(p) == (prefix + Suffix(p))[|prefix|..];
    assert Suffix(q) == (prefix + Suffix(q))[|prefix|..];
    SuffixInjective(p, q);
  }

  /** Every leaf appears at its path: with dot-free keys no leaf overwrites another. */
  lemma {:induction false} FlattenComplete(v: Json, prefix: string, p: Path)
    requires prefix != "" && PlainKeys(v) && Leaf(v, p).Some? && DotFreePath(p)
    ensures prefix + Suffix(p) in Flatten(v, prefix) && Flatten(v, prefix)[prefix + Suffix(p)] == Leaf(v, p).value
    decreases v, 1
  {
    if v.Object? {
      FieldsComplete(v.fields, prefix, p);
    } else {
      assert prefix + Suffix(p) == prefix;
    }
  }

  lemma {:induction false} FieldsComplete(f: Fields, prefix: string, p: Path)
    requires prefix != "" && PlainFields(f) && p != [] && LeafOf(f, p).Some? && DotFreePath(p)
    ensures prefix + Suffix(p) in FlattenFields(f, prefix)
    ensures FlattenFields(f, prefix)[prefix + Suffix(p)] == LeafOf(f, p).value
    decreases f, 0
  {
    var path := prefix + Suffix(p);
    if f.key == p[0] {
      assert forall k | k in p[1..] :: k in p;
      FlattenComplete(f.value, Child(prefix, f.key), p[1..]);
      SuffixStep(prefix, f.key, p[1..]);
      assert [f.key] + p[1..] == p;
      if path in FlattenFields(f.rest, prefix) {
        var q := FieldsSound(f.rest, prefix, path);
        PathsTellApart(prefix, p, q);
        LeafKeys(f.rest, q);
      }
    } else {
      FieldsComplete(f.rest, prefix, p);
    }
  }

  // ----- What an empty difference means

  /** Equal leaves at a key sequence, or no leaf on either side. */
  predicate LeafAgrees(a: Json, b: Json, p: Path) {
    match (Leaf(a, p), Leaf(b, p))
    case (None, None) => true
    case (Some(x), Some(y)) => Equal(x, y)
    case (_, _) => false
  }

  lemma {:induction false} LeafIsNoObject(v: Json, p: Path)
    requires Leaf(v, p).Some?
    ensures !Leaf(v, p).value.Object?
    decreases v, 1
  {
    if p != [] {
      LeafOfIsNoObject(v.fields, p);
    }
  }

  lemma {:induction false} LeafOfIsNoObject(f: Fields, p: Path)
    requires p != [] && LeafOf(f, p).Some?
    ensures !LeafOf(f, p).value.Object?
    decreases f, 0
  {
    if f.key == p[0] {
      LeafIsNoObject(f.value, p[1..]);
    } else {
      LeafOfIsNoObject(f.rest, p);
    }
  }

  lemma LeafPath(v: Json, prefix: string, p: Path)
    requires prefix != "" && PlainKeys(v) && DotFreePath(p)
    ensures At(Flatten(v, prefix), prefix + Suffix(p)) == if Leaf(v, p).Some? then Leaf(v, p).value else MISSING
  {
    var path := prefix + Suffix(p);
    if Leaf(v, p).Some? {
      FlattenComplete(v, prefix, p);
    } else if path in Flatten(v, prefix) {
      var q := FlattenSound(v, prefix, path);
      PathsTellApart(prefix, p, q);
    }
  }

  /** The stand-in for a missing path never equals a leaf, so the comparison of two sides
      at a path is the comparison of what the trees have there. */
  lemma DiffersIff(a: Json, b: Json, prefix: string, p: Path)
    requires prefix != "" && PlainKeys(a) && PlainKeys(b) && DotFreePath(p)
    requires Leaf(a, p).Some? || Leaf(b, p).Some?
    ensures Differs(Flatten(a, prefix), Flatten(b, prefix), prefix + Suffix(p)) <==> !LeafAgrees(a, b, p)
  {
    LeafPath(a, prefix, p);
    LeafPath(b, prefix, p);
    if Leaf(a, p).Some? {
      LeafIsNoObject(a, p);
    }
    if Leaf(b, p).Some? {
      LeafIsNoObject(b, p);
    }
  }

  lemma {:induction false} LeavesAreDotFree(v: Json, p: Path)
    requires PlainKeys(v) && Leaf(v, p).Some?
    ensures DotFreePath(p)
    decreases v, 1
  {
    if p != [] {
      LeavesOfAreDotFree(v.fields, p);
    }
  }

  lemma {:induction false} LeavesOfAreDotFree(f: Fields, p: Path)
    requires PlainFields(f) && p != [] && LeafOf(f, p).Some?
    ensures DotFreePath(p)
    decreases f, 0
  {
    if f.key == p[0] {
      LeavesAreDotFree(f.value, p[1..]);
      assert forall k | k in p :: k == p[0] || k in p[1..];
    } else {
      LeavesOfAreDotFree(f.rest, p);
    }
  }

  lemma NoChangesMeansAgreement(a: Json, b: Json, prefix: string)
    requires prefix != "" && PlainKeys(a) && PlainKeys(b)
    ensures ChangedPaths(Flatten(a, prefix), Flatten(b, prefix)) == {} <==> forall p: Path :: LeafAgrees(a, b, p)
  {
    var left, right := Flatten(a, prefix), Flatten(b, prefix);
    if ChangedPaths(left, right) == {} {
      forall p: Path
        ensures LeafAgrees(a, b, p)
      {
        if Leaf(a, p).Some? || Leaf(b, p).Some? {
          if Leaf(a, p).Some? {
            LeavesAreDotFree(a, p);
          } else {
            LeavesAreDotFree(b, p);
          }
          DiffersIff(a, b, prefix, p);
          LeafPresent(a, b, prefix, p);
          assert prefix + Suffix(p) !in ChangedPaths(left, right);
        }
      }
    }
    if forall p: Path :: LeafAgrees(a, b, p) {
      forall path | path in left.Keys + right.Keys
        ensures !Differs(left, right, path)
      {
        var p := if path in left then FlattenPath(a, prefix, path) else FlattenPath(b, prefix, path);
        assert LeafAgrees(a, b, p);
        DiffersIff(a, b, prefix, p);
      }
    }
  }

  lemma LeafPresent(a: Json, b: Json, prefix: string, p: Path)
    requires prefix != "" && PlainKeys(a) && PlainKeys(b) && DotFreePath(p)
    requires Leaf(a, p).Some? || Leaf(b, p).Some?
    ensures prefix + Suffix(p) in Flatten(a, prefix).Keys + Flatten(b, prefix).Keys
  {
    if Leaf(a, p).Some? {
      FlattenComplete(a, prefix, p);
    } else {
      FlattenComplete(b, prefix, p);
    }
  }

  ghost function FlattenPath(v: Json, prefix: string, path: string): (p: Path)
    requires prefix != "" && PlainKeys(v) && path in Flatten(v, prefix)
    ensures DotFreePath(p) && path == prefix + Suffix(p) && Leaf(v, p) == Some(Flatten(v, prefix)[path])
  {
    assert exists p: Path ::
        DotFreePath(p) && path == prefix + Suffix(p) && Leaf(v, p) == Some(Flatten(v, prefix)[path]) by {
      var p := FlattenSound(v, prefix, path);
    }
    var p: Path :| DotFreePath(p) && path == prefix + Suffix(p) && Leaf(v, p) == Some(Flatten(v, prefix)[path]);
    p
  }

  // ----- Equality up to empty objects

  /** Objects without any leaf are dropped; lists are not opened. */
  function Prune(v: Json): Json
    decreases v, 1
  {
    if v.Object? then Object(PruneFields(v.fields)) else v
  }

  function PruneFields(f: Fields): Fields
    decreases f, 0
  {
    if f.NoFields? then NoFields
    else if Prune(f.value) == Object(NoFields) then PruneFields(f.rest)
    else Field(f.key, Prune(f.value), PruneFields(f.rest))
  }

  /** Object against object by keys, in whatever order; anything else by equality. */
  predicate Same(a: Json, b: Json)
    decreases a, 1
  {
    if a.Object? && b.Object? then Keys(a.fields) == Keys(b.fields) && SameFields(a.fields, b.fields)
    else !a.Object? && !b.Object? && Equal(a, b)
  }

  predicate SameFields(f: Fields, g: Fields)
    decreases f, 0
  {
    f.NoFields? || (Get(g, f.key).Some? && Same(f.value, Get(g, f.key).value) && SameFields(f.rest, g))
  }

  /** What pruning leaves: different keys, and no empty object below the top. */
  predicate Dense(v: Json)
    decreases v, 1
  {
    v.Object? ==> DenseFields(v.fields)
  }

  predicate DenseFields(f: Fields)
    decreases f, 0
  {
    f.Field? ==> f.key !in Keys(f.rest) && f.value != Object(NoFields) && Dense(f.value) && DenseFields(f.rest)
  }

  lemma {:induction false} PruneIsDense(v: Json)
    requires PlainKeys(v)
    ensures Dense(Prune(v))
    decreases v, 1
  {
    if v.Object? {
      PruneFieldsIsDense(v.fields);
    }
  }

  lemma {:induction false} PruneFieldsIsDense(f: Fields)
    requires PlainFields(f)
    ensures DenseFields(PruneFields(f)) && Keys(PruneFields(f)) <= Keys(f)
    decreases f, 0
  {
    if f.Field? {
      PruneIsDense(f.value);
      PruneFieldsIsDense(f.rest);
    }
  }

  lemma {:induction false} NoKeyNoLeaf(f: Fields, p: Path)
    requires p != [] && p[0] !in Keys(f)
    ensures LeafOf(f, p) == None
  {
    if f.Field? {
      NoKeyNoLeaf(f.rest, p);
    }
  }

  lemma {:induction false} PruneKeepsLeaves(v: Json, p: Path)
    requires PlainKeys(v)
    ensures Leaf(Prune(v), p) == Leaf(v, p)
    decreases v, 1
  {
    if v.Object? && p != [] {
      PruneFieldsKeepsLeaves(v.fields, p);
    }
  }

  lemma {:induction false} PruneFieldsKeepsLeaves(f: Fields, p: Path)
    requires PlainFields(f) && p != []
    ensures LeafOf(PruneFields(f), p) == LeafOf(f, p)
    decreases f, 0
  {
    if f.Field? {
      PruneFieldsKeepsLeaves(f.rest, p);
      if f.key == p[0] {
        PruneKeepsLeaves(f.value, p[1..]);
        NoKeyNoLeaf(f.rest, p);
      }
    }
  }

  lemma {:induction false} LeafByKey(f: Fields, p: Path)
    requires p != []
    ensures LeafOf(f, p) == if p[0] in Keys(f) then (GetKeys(f, p[0]); Leaf(Get(f, p[0]).value, p[1..])) else None
  {
    GetKeys(f, p[0]);
    if f.Field? && f.key != p[0] {
      LeafByKey(f.rest, p);
    }
  }

  lemma {:induction false} SameAt(f: Fields, g: Fields, key: string)
    requires SameFields(f, g) && Get(f, key).Some?
    ensures Get(g, key).Some? && Same(Get(f, key).value, Get(g, key).value)
  {
    if f.key != key {
      SameAt(f.rest, g, key);
    }
  }

  lemma {:induction false} SameAgrees(a: Json, b: Json, p: Path)
    requires Same(a, b)
    ensures LeafAgrees(a, b, p)
    decreases |p|
  {
    if a.Object? && p != [] {
      LeafByKey(a.fields, p);
      LeafByKey(b.fields, p);
      if p[0] in Keys(a.fields) {
        GetKeys(a.fields, p[0]);
        SameAt(a.fields, b.fields, p[0]);
        SameAgrees(Get(a.fields, p[0]).value, Get(b.fields, p[0]).value, p[1..]);
      }
    }
  }

  /** Away from the top, a dense tree has a leaf. */
  lemma {:induction false} DenseHasLeaf(v: Json) returns (p: Path)
    requires Dense(v) && v != Object(NoFields)
    ensures Leaf(v, p).Some?
  {
    if v.Object? {
      var q := DenseHasLeaf(v.fields.value);
      p := [v.fields.key] + q;
      assert p[1..] == q;
    } else {
      p := [];
    }
  }

  lemma {:induction false} DenseGet(f: Fields, key: string)
    requires DenseFields(f) && Get(f, key).Some?
    ensures Dense(Get(f, key).value) && Get(f, key).value != Object(NoFields)
  {
    if f.key != key {
      DenseGet(f.rest, key);
    }
  }

  lemma AgreeBelow(a: Json, b: Json, key: string, p: Path)
    requires a.Object? && b.Object? && (forall q: Path :: LeafAgrees(a, b, q))
    requires Get(a.fields, key).Some? && Get(b.fields, key).Some?
    ensures LeafAgrees(Get(a.fields, key).value, Get(b.fields, key).value, p)
  {
    var q := [key] + p;
    assert LeafAgrees(a, b, q) && q[0] == key && q[1..] == p;
    GetKeys(a.fields, key);
    GetKeys(b.fields, key);
    LeafByKey(a.fields, q);
    LeafByKey(b.fields, q);
  }

  lemma AgreeShareKey(a: Json, b: Json, key: string)
    requires a.Object? && b.Object? && Dense(a) && (forall q: Path :: LeafAgrees(a, b, q))
    requires key in Keys(a.fields)
    ensures key in Keys(b.fields)
  {
    GetKeys(a.fields, key);
    DenseGet(a.fields, key);
    var p := DenseHasLeaf(Get(a.fields, key).value);
    var q := [key] + p;
    assert LeafAgrees(a, b, q) && q[0] == key && q[1..] == p;
    LeafByKey(a.fields, q);
    LeafByKey(b.fields, q);
  }

  /** Agreement at every leaf of two dense trees makes them the same, field by field. */
  lemma {:induction false} AgreementIsSame(a: Json, b: Json)
    requires Dense(a) && Dense(b) && (forall q: Path :: LeafAgrees(a, b, q))
    ensures Same(a, b)
    decreases a, 1
  {
    assert LeafAgrees(a, b, []);
    if a.Object? && b.Object? {
      forall key
        ensures key in Keys(a.fields) <==> key in Keys(b.fields)
      {
        KeysShared(a, b, key);
      }
      AgreementFields(a, b, a.fields);
    }
  }

  lemma KeysShared(a: Json, b: Json, key: string)
    requires a.Object? && b.Object? && Dense(a) && Dense(b) && (forall q: Path :: LeafAgrees(a, b, q))
    ensures key in Keys(a.fields) <==> key in Keys(b.fields)
  {
    if key in Keys(a.fields) {
      AgreeShareKey(a, b, key);
    } else if key in Keys(b.fields) {
      GetKeys(b.fields, key);
      DenseGet(b.fields, key);
      var p := DenseHasLeaf(Get(b.fields, key).value);
      var q := [key] + p;
      assert LeafAgrees(a, b, q) && q[0] == key && q[1..] == p;
      LeafByKey(a.fields, q);
      LeafByKey(b.fields, q);
    }
  }

  ghost predicate Within(f: Fields, g: Fields) {
    forall key :: key in Keys(f) ==> Get(f, key) == Get(g, key)
  }

  lemma {:induction false} AgreementFields(a: Json, b: Json, f: Fields)
    requires a.Object? && b.Object? && DenseFields(a.fields) && DenseFields(b.fields)
    requires forall q: Path :: LeafAgrees(a, b, q)
    requires Keys(a.fields) == Keys(b.fields) && Within(f, a.fields) && DenseFields(f) && f < a
    ensures SameFields(f, b.fields)
    decreases a, 0, f
  {
    if f.Field? {
      var key := f.key;
      assert key in Keys(f) && Get(a.fields, key) == Some(f.value);
      GetKeys(a.fields, key);
      GetKeys(b.fields, key);
      DenseGet(b.fields, key);
      forall q: Path
        ensures LeafAgrees(f.value, Get(b.fields, key).value, q)
      {
        AgreeBelow(a, b, key, q);
      }
      AgreementIsSame(f.value, Get(b.fields, key).value);
      RestWithin(f, a.fields);
      AgreementFields(a, b, f.rest);
    }
  }

  lemma RestWithin(f: Fields, g: Fields)
    requires f.Field? && f.key !in Keys(f.rest) && Within(f, g)
    ensures Within(f.rest, g)
  {
    forall key | key in Keys(f.rest)
      ensures Get(f.rest, key) == Get(g, key)
    {
      assert key in Keys(f) && Get(f, key) == Get(f.rest, key);
    }
  }

  /** With dot-free keys and a prefix, the difference is empty exactly when the two trees
      are the same once empty objects are pruned. */
  lemma DiffEmptyIff(a: Json, b: Json, prefix: string)
    requires prefix != "" && PlainKeys(a) && PlainKeys(b)
    ensures ChangedPaths(Flatten(a, prefix), Flatten(b, prefix)) == {} <==> Same(Prune(a), Prune(b))
  {
    NoChangesMeansAgreement(a, b, prefix);
    PruneIsDense(a);
    PruneIsDense(b);
    if forall p: Path :: LeafAgrees(a, b, p) {
      forall p: Path
        ensures LeafAgrees(Prune(a), Prune(b), p)
      {
        PrunedAgreement(a, b, p);
        assert LeafAgrees(a, b, p);
      }
      AgreementIsSame(Prune(a), Prune(b));
    }
    if Same(Prune(a), Prune(b)) {
      forall p: Path
        ensures LeafAgrees(a, b, p)
      {
        PrunedAgreement(a, b, p);
        SameAgrees(Prune(a), Prune(b), p);
      }
    }
  }

  lemma PrunedAgreement(a: Json, b: Json, p: Path)
    requires PlainKeys(a) && PlainKeys(b)
    ensures LeafAgrees(Prune(a), Prune(b), p) <==> LeafAgrees(a, b, p)
  {
    PruneKeepsLeaves(a, p);
    PruneKeepsLeaves(b, p);
  }

  // ----- Where a tree differs from itself

  /** Every object, also inside a list, has different keys: what the reader delivers. */
  predicate Readable(v: Json)
    decreases v, 1
  {
    match v
    case List(items) => ReadableItems(items)
    case Object(fields) => ReadableFields(fields)
    case _ => true
  }

  predicate ReadableItems(xs: Items)
    decreases xs, 0
  {
    xs.Item? ==> Readable(xs.head) && ReadableItems(xs.tail)
  }

  predicate ReadableFields(f: Fields)
    decreases f, 0
  {
    f.Field? ==> f.key !in Keys(f.rest) && Readable(f.value) && ReadableFields(f.rest)
  }

  lemma {:induction false} EqualToItself(v: Json)
    requires Readable(v)
    ensures Equal(v, v) <==> v != Numeric(NotANumber)
    decreases v, 1
  {
    match v
    case List(items) => ItemsMatch(items);
    case Object(fields) => FieldsMatch(fields, fields);
    case _ =>
  }

  lemma {:induction false} ItemsMatch(xs: Items)
    requires ReadableItems(xs)
    ensures EqualItems(xs, xs)
    decreases xs, 0
  {
    if xs.Item? {
      EqualToItself(xs.head);
      ItemsMatch(xs.tail);
    }
  }

  lemma {:induction false} FieldsMatch(f: Fields, g: Fields)
    requires ReadableFields(f) && Within(f, g)
    ensures EqualFields(f, g)
    decreases f, 0
  {
    if f.Field? {
      assert f.key in Keys(f) && Get(f, f.key) == Some(f.value);
      EqualToItself(f.value);
      RestWithin(f, g);
      FieldsMatch(f.rest, g);
    }
  }

  lemma {:induction false} LeafReadable(v: Json, p: Path)
    requires Readable(v) && Leaf(v, p).Some?
    ensures Readable(Leaf(v, p).value)
    decreases v, 1
  {
    if p != [] {
      LeafOfReadable(v.fields, p);
    }
  }

  lemma {:induction false} LeafOfReadable(f: Fields, p: Path)
    requires p != [] && ReadableFields(f) && LeafOf(f, p).Some?
    ensures Readable(LeafOf(f, p).value)
    decreases f, 0
  {
    if f.key == p[0] {
      LeafReadable(f.value, p[1..]);
    } else {
      LeafOfReadable(f.rest, p);
    }
  }

  ghost predicate AllNumbers(v: Json) {
    forall p: Path :: Leaf(v, p) != Some(Numeric(NotANumber))
  }

  lemma SelfAgreement(v: Json)
    requires Readable(v)
    ensures (forall p: Path :: LeafAgrees(v, v, p)) <==> AllNumbers(v)
  {
    if forall p: Path :: LeafAgrees(v, v, p) {
      forall p: Path
        ensures Leaf(v, p) != Some(Numeric(NotANumber))
      {
        SelfAgreesIff(v, p);
        assert LeafAgrees(v, v, p);
      }
    }
    if AllNumbers(v) {
      forall p: Path
        ensures LeafAgrees(v, v, p)
      {
        SelfAgreesIff(v, p);
      }
    }
  }

  /** A tree differs from itself exactly when one of its leaves is not a number. */
  lemma SelfDiffIff(v: Json, prefix: string)
    requires prefix != "" && PlainKeys(v) && Readable(v)
    ensures ChangedPaths(Flatten(v, prefix), Flatten(v, prefix)) == {} <==> AllNumbers(v)
  {
    NoChangesMeansAgreement(v, v, prefix);
    SelfAgreement(v);
  }

  lemma SelfAgreesIff(v: Json, p: Path)
    requires Readable(v)
    ensures LeafAgrees(v, v, p) <==> Leaf(v, p) != Some(Numeric(NotANumber))
  {
    if Leaf(v, p).Some? {
      LeafReadable(v, p);
      EqualToItself(Leaf(v, p).value);
    }
  }

  /** Dots in keys are not escaped: two different trees with one flat form. */
  lemma DottedKeysCollide(x: string, y: string, leaf: Json, prefix: string)
    requires !leaf.Object? && prefix != ""
    ensures var nested := Object(Field(x, Object(Field(y, leaf, NoFields)), NoFields));
            var dotted := Object(Field(x + "." + y, leaf, NoFields));
            Flatten(nested, prefix) == Flatten(dotted, prefix) && !Same(Prune(nested), Prune(dotted))
  {
    var inner := Field(y, leaf, NoFields);
    var outer := Field(x, Object(inner), NoFields);
    var dotted := Field(x + "." + y, leaf, NoFields);
    Single(inner, Child(prefix, x));
    Single(dotted, prefix);
    Single(outer, prefix);
    assert Child(Child(prefix, x), y) == Child(prefix, x + "." + y);
    assert PruneFields(inner) == inner;
    assert PruneFields(outer) == outer;
    assert PruneFields(dotted) == dotted;
    assert |x + "." + y| != |x|;
    assert x in Keys(outer) && Keys(dotted) == {x + "." + y};
  }

  lemma Single(f: Fields, prefix: string)
    requires f.Field? && f.rest == NoFields
    ensures FlattenFields(f, prefix) == Flatten(f.value, Child(prefix, f.key))
  {
  }

  // ----- The comparison

  datatype Invalid =
    | HealthNotPass(side: string)
    | HealthNotAnObject(side: string)
    | RuntimeInvalid
    | ContainersInvalid
    | ContainerInvalid(service: string)

  datatype Reason = StableDrift | Reboot | Restart | NoBusinessDrift

  datatype Report = Report(
    pass: bool,
    stable: seq<Change>,
    runtime: seq<Change>,
    business: seq<Change>,
    bootUnchanged: bool,
    restarted: seq<string>,
    reasons: seq<Reason>)

  const BUSINESS_PREFIXES: seq<string> := [
    "runtime_observations.sqlite.",
    "runtime_observations.dynsec_counts.",
    "runtime_observations.homeassistant_registry_counts.",
    "runtime_observations.persistent_tree_stats."]

  const SERVICES: seq<string> := ["broker", "homeassistant", "manager"]

  predicate IsBusiness(path: string) {
    exists prefix | prefix in BUSINESS_PREFIXES :: prefix <= path
  }

  /** The field's value, or null when there is none. */
  function Lookup(f: Fields, key: string): Json {
    match Get(f, key)
    case Some(v) => v
    case None => Null
  }

  function HealthFailure(doc: Fields, side: string): Option<Invalid> {
    match Get(doc, "health")
    case None => Some(HealthNotPass(side))
    case Some(health) =>
      if !health.Object? then Some(HealthNotAnObject(side))
      else if Lookup(health.fields, "overall_pass") != Boolean(true) then Some(HealthNotPass(side))
      else None
  }

  predicate Restarted(before: Fields, after: Fields) {
    || !Equal(Lookup(before, "started_at"), Lookup(after, "started_at"))
    || !Equal(Lookup(before, "restart_count"), Lookup(after, "restart_count"))
  }

  function Stable(doc: Fields): Flat {
    Flatten(Lookup(doc, "stable_contracts"), "stable_contracts")
  }

  function Runtime(doc: Fields): Flat {
    Flatten(Lookup(doc, "runtime_observations"), "runtime_observations")
  }

  /** The services, of the first n, whose container was restarted or recreated; or the
      first of them that is not recorded on both sides. */
  function RestartedServices(before: Fields, after: Fields, services: seq<string>): Result<seq<string>, Invalid> {
    if services == [] then Success([])
    else
      var last := |services| - 1;
      var earlier := RestartedServices(before, after, services[..last]);
      if earlier.Failure? then earlier
      else
        var x, y := Lookup(before, services[last]), Lookup(after, services[last]);
        if !x.Object? || !y.Object? then Failure(ContainerInvalid(services[last]))
        else if Restarted(x.fields, y.fields) then Success(earlier.value + [services[last]])
        else earlier
  }

  /** The containers sections of both documents, when every section on the way is there. */
  function Sections(r2: Fields, r3: Fields): Result<(Fields, Fields, Fields, Fields), Invalid> {
    var x, y := Lookup(r2, "runtime_observations"), Lookup(r3, "runtime_observations");
    if !x.Object? || !y.Object? then Failure(RuntimeInvalid)
    else
      var c, d := Lookup(x.fields, "containers"), Lookup(y.fields, "containers");
      if !c.Object? || !d.Object? then Failure(ContainersInvalid)
      else Success((x.fields, y.fields, c.fields, d.fields))
  }

  /** What makes the two documents unfit for comparison, in the order it is noticed. */
  function Unfit(r2: Fields, r3: Fields): Option<Invalid> {
    if HealthFailure(r2, "r2").Some? then HealthFailure(r2, "r2")
    else if HealthFailure(r3, "r3").Some? then HealthFailure(r3, "r3")
    else
      match Sections(r2, r3)
      case Failure(e) => Some(e)
      case Success(parts) =>
        match RestartedServices(parts.2, parts.3, SERVICES)
        case Failure(e) => Some(e)
        case Success(_) => None
  }

  lemma {:induction false} RestartsExactly(before: Fields, after: Fields, services: seq<string>)
    requires RestartedServices(before, after, services).Success?
    ensures forall s | s in services :: Lookup(before, s).Object? && Lookup(after, s).Object?
    ensures forall s :: s in RestartedServices(before, after, services).value <==>
                        s in services && Restarted(Lookup(before, s).fields, Lookup(after, s).fields)
  {
    if services != [] {
      RestartsExactly(before, after, services[..|services| - 1]);
      assert services == services[..|services| - 1] + [services[|services| - 1]];
    }
  }

  method CompareServices(before: Fields, after: Fields) returns (r: Result<seq<string>, Invalid>)
    ensures r == RestartedServices(before, after, SERVICES)
  {
    var restarted: seq<string> := [];
    for i := 0 to |SERVICES|
      invariant RestartedServices(before, after, SERVICES[..i]) == Success(restarted)
    {
      var service := SERVICES[i];
      assert SERVICES[..i + 1][..i] == SERVICES[..i];
      assert SERVICES[..i + 1][i] == service;
      var x, y := Lookup(before, service), Lookup(after, service);
      if !x.Object? || !y.Object? {
        FailureStays(before, after, SERVICES, i + 1);
        return Failure(ContainerInvalid(service));
      }
      if Restarted(x.fields, y.fields) {
        restarted := restarted + [service];
      }
    }
    assert SERVICES[..|SERVICES|] == SERVICES;
    return Success(restarted);
  }

  lemma {:induction false} FailureStays(before: Fields, after: Fields, services: seq<string>, n: nat)
    requires n <= |services| && RestartedServices(before, after, services[..n]).Failure?
    ensures RestartedServices(before, after, services) == RestartedServices(before, after, services[..n])
  {
    if n == |services| {
      assert services[..n] == services;
    } else {
      assert services[..|services| - 1][..n] == services[..n];
      FailureStays(before, after, services[..|services| - 1], n);
    }
  }

  method Business(changes: seq<Change>) returns (business: seq<Change>)
    ensures forall c :: c in business <==> c in changes && IsBusiness(c.field)
  {
    business := [];
    for i := 0 to |changes|
      invariant forall c :: c in business <==> c in changes[..i] && IsBusiness(c.field)
    {
      assert changes[..i + 1] == changes[..i] + [changes[i]];
      if IsBusiness(changes[i].field) {
        business := business + [changes[i]];
      }
    }
    assert changes[..|changes|] == changes;
  }

  function StableChanges(r2: Fields, r3: Fields): set<string> {
    ChangedPaths(Stable(r2), Stable(r3))
  }

  function RuntimeChanges(r2: Fields, r3: Fields): set<string> {
    ChangedPaths(Runtime(r2), Runtime(r3))
  }

  predicate BusinessDrift(paths: set<string>) {
    exists path | path in paths :: IsBusiness(path)
  }

  lemma {:induction false} NamedIff(changes: seq<Change>, field: string)
    ensures field in Named(changes) <==> exists k | 0 <= k < |changes| :: changes[k].field == field
  {
    if changes != [] {
      var last := |changes| - 1;
      NamedIff(changes[..last], field);
      if field in Named(changes[..last]) {
        var k :| 0 <= k < last && changes[..last][k].field == field;
        assert changes[k].field == field;
      }
      if k :| 0 <= k < |changes| && changes[k].field == field {
        assert k < last ==> changes[..last][k].field == field;
      }
    }
  }

  /** The business list is empty exactly when no changed path is a business path. */
  lemma BusinessIff(changes: seq<Change>, business: seq<Change>, left: Flat, right: Flat, paths: set<string>)
    requires Records(changes, left, right, paths)
    requires forall c :: c in business <==> c in changes && IsBusiness(c.field)
    ensures business != [] <==> BusinessDrift(paths)
  {
    if business != [] {
      var c := business[0];
      assert c in business;
      var k :| 0 <= k < |changes| && changes[k] == c;
      NamedIff(changes, c.field);
    }
    if BusinessDrift(paths) {
      var path :| path in paths && IsBusiness(path);
      NamedIff(changes, path);
      var k :| 0 <= k < |changes| && changes[k].field == path;
      assert changes[k] in business;
    }
  }

  lemma NoChanges(changes: seq<Change>, left: Flat, right: Flat, paths: set<string>)
    requires Records(changes, left, right, paths)
    ensures changes == [] <==> paths == {}
  {
  }

  /** The parts of the verdict: each difference, each restart, each reason to stop. */
  ghost predicate ReportFits(r: Report, r2: Fields, r3: Fields, requireDrift: bool)
    requires Sections(r2, r3).Success?
  {
    var (before, after, c, d) := Sections(r2, r3).value;
    && Records(r.stable, Stable(r2), Stable(r3), StableChanges(r2, r3))
    && Records(r.runtime, Runtime(r2), Runtime(r3), RuntimeChanges(r2, r3))
    && (forall x :: x in r.business <==> x in r.runtime && IsBusiness(x.field))
    && r.bootUnchanged == Equal(Lookup(before, "boot_id_sha256"), Lookup(after, "boot_id_sha256"))
    && RestartedServices(c, d, SERVICES) == Success(r.restarted)
    && (StableDrift in r.reasons <==> StableChanges(r2, r3) != {})
    && (Reboot in r.reasons <==> !r.bootUnchanged)
    && (Restart in r.reasons <==> r.restarted != [])
    && (NoBusinessDrift in r.reasons <==> requireDrift && !BusinessDrift(RuntimeChanges(r2, r3)))
    && (r.pass <==> r.reasons == [])
  }

  /** Every finding is a reason to stop; without a reason the comparison passes. */
  method Conclude(stableDrift: bool, bootUnchanged: bool, restarted: bool, driftMissing: bool)
    returns (pass: bool, reasons: seq<Reason>)
    ensures StableDrift in reasons <==> stableDrift
    ensures Reboot in reasons <==> !bootUnchanged
    ensures Restart in reasons <==> restarted
    ensures NoBusinessDrift in reasons <==> driftMissing
    ensures pass <==> reasons == []
  {
    pass, reasons := true, [];
    if stableDrift {
      pass, reasons := false, reasons + [StableDrift];
    }
    if !bootUnchanged {
      pass, reasons := false, reasons + [Reboot];
    }
    if restarted {
      pass, reasons := false, reasons + [Restart];
    }
    if driftMissing {
      pass, reasons := false, reasons + [NoBusinessDrift];
    }
  }

  /** The comparison proper, once every section is there. */
  method CompareSections(r2: Fields, r3: Fields, requireDrift: bool, before: Fields, after: Fields, c: Fields,
                         d: Fields)
    returns (r: Result<Report, Invalid>)
    requires Sections(r2, r3) == Success((before, after, c, d))
    ensures var restarts := RestartedServices(c, d, SERVICES);
            if restarts.Failure? then r == Failure(restarts.error)
            else r.Success? && ReportFits(r.value, r2, r3, requireDrift)
  {
    var stable := Diff(Lookup(r2, "stable_contracts"), Lookup(r3, "stable_contracts"), "stable_contracts");
    var runtime := Diff(Lookup(r2, "runtime_observations"), Lookup(r3, "runtime_observations"), "runtime_observations");
    var bootUnchanged := Equal(Lookup(before, "boot_id_sha256"), Lookup(after, "boot_id_sha256"));
    var restarts := CompareServices(c, d);
    if restarts.Failure? {
      return Failure(restarts.error);
    }
    var business := Business(runtime);
    NoChanges(stable, Stable(r2), Stable(r3), StableChanges(r2, r3));
    BusinessIff(runtime, business, Runtime(r2), Runtime(r3), RuntimeChanges(r2, r3));
    var pass, reasons :=
      Conclude(stable != [], bootUnchanged, restarts.value != [], requireDrift && business == []);
    return Success(Report(pass, stable, runtime, business, bootUnchanged, restarts.value, reasons));
  }

  /** The whole comparison.  It fails exactly when a section it needs is missing; otherwise
      the verdict carries every difference and every reason to stop. */
  method Compare(r2: Fields, r3: Fields, requireDrift: bool) returns (r: Result<Report, Invalid>)
    ensures Unfit(r2, r3).Some? ==> r == Failure(Unfit(r2, r3).value)
    ensures Unfit(r2, r3).None? ==> r.Success? && ReportFits(r.value, r2, r3, requireDrift)
  {
    var health2, health3 := HealthFailure(r2, "r2"), HealthFailure(r3, "r3");
    if health2.Some? {
      return Failure(health2.value);
    }
    if health3.Some? {
      return Failure(health3.value);
    }
    var sections := Sections(r2, r3);
    if sections.Failure? {
      return Failure(sections.error);
    }
    var (before, after, c, d) := sections.value;
    r := CompareSections(r2, r3, requireDrift, before, after, c, d);
  }

  /** With dot-free keys a pass says: the stable contracts are the same up to empty objects,
      no reboot, none of the three services restarted, and, when asked for, business drift. */
  lemma PassIff(r: Report, r2: Fields, r3: Fields, requireDrift: bool)
    requires Unfit(r2, r3).None? && ReportFits(r, r2, r3, requireDrift)
    requires PlainKeys(Lookup(r2, "stable_contracts")) && PlainKeys(Lookup(r3, "stable_contracts"))
    ensures var (before, after, c, d) := Sections(r2, r3).value;
            r.pass <==>
            && Same(Prune(Lookup(r2, "stable_contracts")), Prune(Lookup(r3, "stable_contracts")))
            && Equal(Lookup(before, "boot_id_sha256"), Lookup(after, "boot_id_sha256"))
            && (forall s | s in SERVICES :: Unrestarted(c, d, s))
            && (requireDrift ==> BusinessDrift(RuntimeChanges(r2, r3)))
  {
    DiffEmptyIff(Lookup(r2, "stable_contracts"), Lookup(r3, "stable_contracts"), "stable_contracts");
    NoReason(r.reasons);
    var (before, after, c, d) := Sections(r2, r3).value;
    RestartsExactly(c, d, SERVICES);
    NoRestart(c, d, r.restarted);
  }

  /** Both sides record the service, with equal start time and restart count. */
  predicate Unrestarted(before: Fields, after: Fields, service: string) {
    && Lookup(before, service).Object?
    && Lookup(after, service).Object?
    && !Restarted(Lookup(before, service).fields, Lookup(after, service).fields)
  }

  lemma NoRestart(before: Fields, after: Fields, restarted: seq<string>)
    requires RestartedServices(before, after, SERVICES) == Success(restarted)
    ensures restarted == [] <==> forall s | s in SERVICES :: Unrestarted(before, after, s)
  {
    RestartsExactly(before, after, SERVICES);
    if restarted != [] {
      var s := restarted[0];
      assert s in restarted;
      assert s in SERVICES && !Unrestarted(before, after, s);
    }
  }

  lemma NoReason(reasons: seq<Reason>)
    ensures reasons == [] <==>
              StableDrift !in reasons && Reboot !in reasons && Restart !in reasons && NoBusinessDrift !in reasons
  {
    if reasons != [] {
      assert reasons[0] in reasons;
      match reasons[0] {
        case StableDrift =>
        case Reboot =>
        case Restart =>
        case NoBusinessDrift =>
      }
    }
  }
}
