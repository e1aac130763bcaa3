/** The flow drift normaliser (internal/controller/flow_deployment_drift.go): canonicalisation of
    decoded JSON snapshots by filtering, dropping empties and stable-sorting by identity. */
module Drift {
  import opened Text

  /** A decoded JSON value. `Num` is a json.Number: its literal text together with what its
      Float64 method answers (`None` when the literal overflows a float64). `Float` is the
      float64 that normalisation puts in its place. */
  datatype Json =
    | Null
    | Bool(b: bool)
    | Num(text: string, float: Option<real>)
    | Float(value: real)
    | Str(s: string)
    | List(items: seq<Json>)
    | Obj(fields: map<string, Json>)

  predicate IsNumberChar(c: char) {
    '0' <= c <= '9' || c == '+' || c == '-' || c == '.' || c == 'e' || c == 'E'
  }

  /** What the decoder can produce: number literals use only JSON's number characters, and no
      literal shorter than `1e309` overflows a float64. */
  ghost predicate Decoded(v: Json) {
    match v
    case Num(text, float) =>
      float.None? ==> |text| >= 5 && forall i :: 0 <= i < |text| ==> IsNumberChar(text[i])
    case List(items) => forall i :: 0 <= i < |items| ==> Decoded(items[i])
    case Obj(fields) => forall k :: k in fields ==> Decoded(fields[k])
    case _ => true
  }

  // --- which fields are dropped ----------------------------------------------------------------

  function ChildPath(path: string, key: string): (r: string) {
    if path == "" then key else path + "." + key
  }

  predicate IsVolatile(parentPath: string, key: string) {
    || (parentPath == "" && key in {"snapshotMetadata", "flow", "bucket"})
    || (parentPath == "flowContents" && key == "name")
    || key in {"identifier", "instanceIdentifier", "versionedFlowCoordinates", "componentState"}
  }

  /** Text that no overflowing number literal can have. */
  predicate UnlikeNumber(s: string) {
    |s| < 5 || !IsNumberChar(s[2])
  }

  /** The value NiFi writes when the field was not configured. */
  function DefaultOf(key: string): (r: Option<Json>)
    ensures r.Some? ==> r.value.Num? || r.value.Bool? || (r.value.Str? && UnlikeNumber(r.value.s))
  {
    match key
    case "defaultFlowFileExpiration" => Some(Str("0 sec"))
    case "defaultBackPressureObjectThreshold" => Some(Num("10000", Some(10000.0)))
    case "defaultBackPressureDataSizeThreshold" => Some(Str("1 GB"))
    case "scheduledState" => Some(Str("ENABLED"))
    case "executionEngine" => Some(Str("INHERITED"))
    case "maxConcurrentTasks" => Some(Num("1", Some(1.0)))
    case "statelessFlowTimeout" => Some(Str("1 min"))
    case "flowFileConcurrency" => Some(Str("UNBOUNDED"))
    case "flowFileOutboundPolicy" => Some(Str("STREAM_WHEN_AVAILABLE"))
    case "flowEncodingVersion" => Some(Str("1.0"))
    case "latest" => Some(Bool(false))
    case _ => None
  }

  /** Equality of decoded values; two json.Numbers are equal when their literals are. */
  predicate SameDecoded(a: Json, b: Json) {
    if a.Num? && b.Num? then a.text == b.text else a == b
  }

  predicate IsDefaulted(key: string, value: Json) {
    DefaultOf(key).Some? && SameDecoded(value, DefaultOf(key).value)
  }

  function Trim(s: string, cut: char -> bool): (r: string)
    decreases |s|
  {
    if s == [] then []
    else if cut(s[0]) then Trim(s[1..], cut)
    else if cut(s[|s| - 1]) then Trim(s[..|s| - 1], cut)
    else s
  }

  function TrimPrefix(s: string, prefix: string): (r: string) {
    if prefix <= s then s[|prefix|..] else s
  }

  predicate HasSuffix(s: string, suffix: string) {
    |suffix| <= |s| && s[|s| - |suffix|..] == suffix
  }

  predicate IsDot(c: char) {
    c == '.'
  }

  /** One configured ignore entry covers the path. */
  predicate Covers(configured: string, path: string) {
    var trimmed := Trim(Trim(configured, IsSpace), IsDot);
    trimmed != "" &&
    var field := TrimPrefix(trimmed, "component.");
    path == field || HasSuffix(path, "." + field)
  }

  predicate IsIgnored(path: string, ignored: seq<string>) {
    exists i :: 0 <= i < |ignored| && Covers(ignored[i], path)
  }

  predicate Dropped(path: string, key: string, child: Json, ignored: seq<string>) {
    IsVolatile(path, key) || IsDefaulted(key, child) || IsIgnored(ChildPath(path, key), ignored)
  }

  // --- identities and the stable sort ----------------------------------------------------------

  function FieldIdentity(fields: map<string, Json>, key: string): (r: string) {
    if key in fields && fields[key].Str? && fields[key].s != "" then key + ":" + fields[key].s else ""
  }

  /** The identity lists are ordered by; "" when the value has none. */
  function Identity(v: Json): (r: string) {
    if !v.Obj? then ""
    else if FieldIdentity(v.fields, "identifier") != "" then FieldIdentity(v.fields, "identifier")
    else if FieldIdentity(v.fields, "id") != "" then FieldIdentity(v.fields, "id")
    else FieldIdentity(v.fields, "name")
  }

  predicate Identifiable(items: seq<Json>) {
    |items| >= 2 && forall i :: 0 <= i < |items| ==> Identity(items[i]) != ""
  }

  /** Stable insertion: `x` came before everything in `sorted`, so it goes before its equals. */
  function Insert(x: Json, sorted: seq<Json>): (r: seq<Json>) {
    if sorted == [] || !Less(Identity(sorted[0]), Identity(x)) then [x] + sorted
    else [sorted[0]] + Insert(x, sorted[1..])
  }

  function StableSort(items: seq<Json>): (r: seq<Json>) {
    if items == [] then [] else Insert(items[0], StableSort(items[1..]))
  }

  ghost predicate Sorted(items: seq<Json>) {
    forall i, j :: 0 <= i < j < |items| ==> !Less(Identity(items[j]), Identity(items[i]))
  }

  /** The elements carrying one identity, in their order. */
  ghost function Carrying(items: seq<Json>, id: string): (r: seq<Json>) {
    if items == [] then []
    else if Identity(items[0]) == id then [items[0]] + Carrying(items[1..], id)
    else Carrying(items[1..], id)
  }

  lemma {:induction false} InsertKeepsItems(x: Json, sorted: seq<Json>)
    ensures multiset(Insert(x, sorted)) == multiset(sorted) + multiset{x}
  {
    if sorted != [] {
      assert sorted == [sorted[0]] + sorted[1..];
      InsertKeepsItems(x, sorted[1..]);
    }
  }

  lemma InsertedAfter(x: Json, first: Json, rest: seq<Json>, inserted: seq<Json>, j: nat)
    requires multiset(inserted) == multiset(rest) + multiset{x} && j < |inserted| && Less(Identity(first), Identity(x))
    requires forall i :: 0 <= i < |rest| ==> !Less(Identity(rest[i]), Identity(first))
    ensures !Less(Identity(inserted[j]), Identity(first))
  {
    var y := inserted[j];
    assert y in multiset(inserted);
    if y == x {
      LessAsymmetric(Identity(first), Identity(x));
    } else {
      assert y in multiset(rest);
      assert y in rest;
    }
  }

  lemma InsertedBefore(x: Json, sorted: seq<Json>, j: nat)
    requires Sorted(sorted) && j < |sorted| && !Less(Identity(sorted[0]), Identity(x))
    ensures !Less(Identity(sorted[j]), Identity(x))
  {
    if Less(Identity(sorted[j]), Identity(x)) {
      LessTotal(Identity(sorted[0]), Identity(sorted[j]));
      if Less(Identity(sorted[0]), Identity(sorted[j])) {
        LessTransitive(Identity(sorted[0]), Identity(sorted[j]), Identity(x));
      }
    }
  }

  lemma {:induction false} InsertKeepsOrder(x: Json, sorted: seq<Json>)
    requires Sorted(sorted)
    ensures Sorted(Insert(x, sorted))
  {
    if sorted != [] && Less(Identity(sorted[0]), Identity(x)) {
      var rest := sorted[1..];
      assert sorted == [sorted[0]] + rest;
      InsertKeepsOrder(x, rest);
      InsertKeepsItems(x, rest);
      forall j | 0 <= j < |Insert(x, rest)| ensures !Less(Identity(Insert(x, rest)[j]), Identity(sorted[0])) {
        InsertedAfter(x, sorted[0], rest, Insert(x, rest), j);
      }
    } else if sorted != [] {
      forall j | 0 <= j < |sorted| ensures !Less(Identity(sorted[j]), Identity(x)) {
        InsertedBefore(x, sorted, j);
      }
    }
  }

  lemma {:induction false} InsertIsStable(x: Json, sorted: seq<Json>, id: string)
    requires Sorted(sorted)
    ensures Carrying(Insert(x, sorted), id) == if Identity(x) == id then [x] + Carrying(sorted, id)
            else Carrying(sorted, id)
  {
    if sorted != [] && Less(Identity(sorted[0]), Identity(x)) {
      InsertIsStable(x, sorted[1..], id);
      LessAsymmetric(Identity(sorted[0]), Identity(x));
      assert Insert(x, sorted)[1..] == Insert(x, sorted[1..]);
    } else {
      assert ([x] + sorted)[1..] == sorted;
    }
  }

  /** The sort is an ordering permutation that keeps equal identities in their order. */
  lemma {:induction false} StableSortCorrect(items: seq<Json>)
    ensures Sorted(StableSort(items))
    ensures multiset(StableSort(items)) == multiset(items)
    ensures forall id :: Carrying(StableSort(items), id) == Carrying(items, id)
  {
    if items != [] {
      StableSortCorrect(items[1..]);
      InsertKeepsOrder(items[0], StableSort(items[1..]));
      InsertKeepsItems(items[0], StableSort(items[1..]));
      assert items == [items[0]] + items[1..];
      forall id ensures Carrying(StableSort(items), id) == Carrying(items, id) {
        InsertIsStable(items[0], StableSort(items[1..]), id);
      }
    }
  }

  lemma {:induction false} CarryingHead(items: seq<Json>, id: string)
    requires Sorted(items) && Carrying(items, id) != [] && Less(id, Identity(items[0]))
    ensures false
  {
    LessAsymmetric(id, Identity(items[0]));
    var rest := items[1..];
    assert Carrying(rest, id) != [];
    assert rest != [];
    assert rest[0] == items[1];
    LessTotal(Identity(rest[0]), Identity(items[0]));
    if Identity(rest[0]) != Identity(items[0]) {
      LessTransitive(id, Identity(items[0]), Identity(rest[0]));
    }
    CarryingHead(rest, id);
  }

  /** Sorted lists are determined by what each identity carries. */
  lemma {:induction false} SortedUnique(a: seq<Json>, b: seq<Json>)
    requires Sorted(a) && Sorted(b)
    requires CarryAlike(a, b)
    ensures a == b
    decreases |a|
  {
    assert b == [] || Carrying(b, Identity(b[0])) == Carrying(a, Identity(b[0]));
    if a != [] {
      var ia := Identity(a[0]);
      assert Carrying(a, ia)[0] == a[0];
      assert Carrying(b, ia) != [];
      assert b != [];
      var ib := Identity(b[0]);
      assert Carrying(b, ib)[0] == b[0];
      LessTotal(ia, ib);
      if Less(ia, ib) { CarryingHead(b, ia); }
      if Less(ib, ia) { CarryingHead(a, ib); }
      assert a[0] == b[0];
      forall id ensures Carrying(a[1..], id) == Carrying(b[1..], id) {
        assert Carrying(a, id) == Carrying(b, id);
        if id == ia {
          assert Carrying(a, id)[1..] == Carrying(a[1..], id);
          assert Carrying(b, id)[1..] == Carrying(b[1..], id);
        }
      }
      SortedUnique(a[1..], b[1..]);
      assert a == [a[0]] + a[1..] && b == [b[0]] + b[1..];
    }
  }

  ghost predicate CarryAlike(a: seq<Json>, b: seq<Json>) {
    forall id :: Carrying(a, id) == Carrying(b, id)
  }

  /** Two lists sort to the same list exactly when every identity carries the same elements in
      the same order. */
  lemma SortsAlike(a: seq<Json>, b: seq<Json>)
    ensures StableSort(a) == StableSort(b) <==> CarryAlike(a, b)
  {
    StableSortCorrect(a);
    StableSortCorrect(b);
    if CarryAlike(a, b) {
      SortedUnique(StableSort(a), StableSort(b));
    }
    if StableSort(a) == StableSort(b) {
      forall id ensures Carrying(a, id) == Carrying(b, id) {
        assert Carrying(StableSort(a), id) == Carrying(a, id);
      }
    }
  }

  lemma {:induction false} SortOfSorted(items: seq<Json>)
    requires Sorted(items)
    ensures StableSort(items) == items
  {
    StableSortCorrect(items);
    SortedUnique(StableSort(items), items);
  }

  // --- normalisation ---------------------------------------------------------------------------

  /** The normal form of a value, or `None` when the value is not kept. */
  function Normalize(v: Json, path: string, ignored: seq<string>): (r: Option<Json>)
    decreases v, 1
  {
    match v
    case Obj(fields) =>
      var kept := NormalizeFields(v, path, ignored);
      if kept == map[] then None else Some(Obj(kept))
    case List(items) =>
      var kept := NormalizeItems(items, path, ignored);
      if kept == [] then None else Some(List(Ordered(kept)))
    case Null => None
    case Str(s) => if s == "" then None else Some(v)
    case Num(text, float) => if float.None? then Some(Str(text)) else Some(Float(float.value))
    case _ => Some(v)
  }

  function NormalizeFields(v: Json, path: string, ignored: seq<string>): (r: map<string, Json>)
    requires v.Obj?
    decreases v, 0
  {
    map k | k in v.fields && !Dropped(path, k, v.fields[k], ignored)
            && Normalize(v.fields[k], ChildPath(path, k), ignored).Some?
      :: Normalize(v.fields[k], ChildPath(path, k), ignored).value
  }

  function NormalizeItems(items: seq<Json>, path: string, ignored: seq<string>): (r: seq<Json>)
    decreases items, 0
  {
    if items == [] then [] else Kept(Normalize(items[0], path, ignored)) + NormalizeItems(items[1..], path, ignored)
  }

  function Kept(v: Option<Json>): (r: seq<Json>) {
    if v.Some? then [v.value] else []
  }

  function Ordered(items: seq<Json>): (r: seq<Json>) {
    if Identifiable(items) then StableSort(items) else items
  }

  /** The whole snapshot: a snapshot nothing of which is kept normalises to the empty object. */
  function NormalizeSnapshot(v: Json, ignored: seq<string>): (r: Json) {
    var n := Normalize(v, "", ignored);
    if n.Some? then n.value else Obj(map[])
  }
}
