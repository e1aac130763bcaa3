/** The drift differ (internal/controller/flow_deployment_drift.go): the capped, early-exit tree
    comparison and the full comparison it is a prefix of. */
module DriftDiff {
  import opened Text
  import opened Drift
  import opened DriftLaws

  // --- locations in a tree ---------------------------------------------------------------------

  datatype Step = Field(key: string) | Item(index: nat)

  function StepPath(path: string, step: Step): (r: string) {
    match step
    case Field(key) => ChildPath(path, key)
    case Item(index) => path + "[" + Decimal(index) + "]"
  }

  function Render(at: seq<Step>): (r: string) {
    if at == [] then "" else StepPath(Render(at[..|at| - 1]), at[|at| - 1])
  }

  lemma RenderStep(at: seq<Step>, step: Step)
    ensures Render(at + [step]) == StepPath(Render(at), step)
  {
    assert (at + [step])[..|at|] == at;
  }

  /** How a location is shown: fields after dots, the first without, and indices in brackets. */
  lemma RenderExample()
    ensures Display(Render([])) == "$"
    ensures Display(Render([Field("a"), Item(12), Field("b")])) == "$.a[12].b"
  {
    RenderStep([], Field("a"));
    assert [] + [Field("a")] == [Field("a")] && Render([Field("a")]) == "a";
    RenderStep([Field("a")], Item(12));
    assert Decimal(12) == Decimal(1) + "2" == "12";
    assert Render([Field("a")] + [Item(12)]) == "a[12]";
    RenderStep([Field("a"), Item(12)], Field("b"));
    assert [Field("a"), Item(12)] + [Field("b")] == [Field("a"), Item(12), Field("b")];
    assert Render([Field("a"), Item(12), Field("b")]) == "a[12].b";
  }

  function Display(path: string): (r: string) {
    if path == "" then "$" else "$." + path
  }

  function Displays(locations: seq<seq<Step>>): (r: seq<string>) {
    seq(|locations|, i requires 0 <= i < |locations| => Display(Render(locations[i])))
  }

  /** A missing field reads as null. */
  function Get(o: Json, k: string): (r: Json)
    requires o.Obj?
  {
    if k in o.fields then o.fields[k] else Null
  }

  predicate SameShape(a: Json, b: Json) {
    (a.Obj? && b.Obj?) || (a.List? && b.List? && |a.items| == |b.items|)
  }

  /** The trees disagree at exactly this location: they have the same shape all the way there,
      and there they are unequal and cannot be compared any deeper. */
  ghost predicate Disagree(a: Json, b: Json, at: seq<Step>)
    decreases |at|
  {
    if at == [] then a != b && !SameShape(a, b)
    else match at[0]
      case Field(k) => a.Obj? && b.Obj? && Disagree(Get(a, k), Get(b, k), at[1..])
      case Item(i) =>
        a.List? && b.List? && |a.items| == |b.items| && i < |a.items| && Disagree(a.items[i], b.items[i], at[1..])
  }

  // --- the full comparison ---------------------------------------------------------------------

  ghost function Differences(a: Json, b: Json, at: seq<Step>): (r: seq<seq<Step>>)
    decreases a, 1, 0
  {
    if a == b then []
    else if a.Obj? && b.Obj? then FieldDifferences(a, b, SortedKeys(a.fields.Keys + b.fields.Keys), at)
    else if a.List? && b.List? && |a.items| == |b.items| then ItemDifferences(a, b, 0, at)
    else [at]
  }

  /** Comparing with a missing field ends at once, because null has no children. */
  ghost function FieldDifference(a: Json, b: Json, k: string, at: seq<Step>): (r: seq<seq<Step>>)
    requires a.Obj? && b.Obj?
    decreases a, 0, 0
  {
    if k in a.fields && k in b.fields then Differences(a.fields[k], b.fields[k], at + [Field(k)])
    else if Get(a, k) == Get(b, k) then []
    else [at + [Field(k)]]
  }

  ghost function FieldDifferences(a: Json, b: Json, keys: seq<string>, at: seq<Step>): (r: seq<seq<Step>>)
    requires a.Obj? && b.Obj?
    decreases a, 0, 1 + |keys|
  {
    if keys == [] then []
    else FieldDifference(a, b, keys[0], at) + FieldDifferences(a, b, keys[1..], at)
  }

  ghost function ItemDifferences(a: Json, b: Json, i: nat, at: seq<Step>): (r: seq<seq<Step>>)
    requires a.List? && b.List? && |a.items| == |b.items| && i <= |a.items|
    decreases a, 0, |a.items| - i
  {
    if i == |a.items| then []
    else Differences(a.items[i], b.items[i], at + [Item(i)]) + ItemDifferences(a, b, i + 1, at)
  }

  // --- soundness and completeness --------------------------------------------------------------

  /** `q` is reported below `at` exactly when it extends `at` by a location of disagreement. */
  ghost predicate Reports(found: seq<seq<Step>>, a: Json, b: Json, at: seq<Step>) {
    forall q: seq<Step> :: q in found <==> at <= q && Disagree(a, b, q[|at|..])
  }

  lemma {:induction false} DifferencesExact(a: Json, b: Json, at: seq<Step>)
    ensures Reports(Differences(a, b, at), a, b, at)
    decreases a, 1, 0
  {
    if a == b {
      forall q: seq<Step> | at <= q ensures !Disagree(a, b, q[|at|..]) { EqualNeverDisagree(a, q[|at|..]); }
    } else if a.Obj? && b.Obj? {
      FieldDifferencesExact(a, b, SortedKeys(a.fields.Keys + b.fields.Keys), at);
      forall q: seq<Step> ensures q in Differences(a, b, at) <==> at <= q && Disagree(a, b, q[|at|..]) {
        if at <= q && Disagree(a, b, q[|at|..]) { DisagreeingKey(a, b, q[|at|..]); }
      }
    } else if a.List? && b.List? && |a.items| == |b.items| {
      ItemDifferencesExact(a, b, 0, at);
    } else {
      LeafExact(a, b, at);
    }
  }

  /** Objects that disagree below a field have that field on one side. */
  lemma DisagreeingKey(a: Json, b: Json, at: seq<Step>)
    requires a.Obj? && b.Obj? && Disagree(a, b, at)
    ensures at != [] && at[0].Field? && at[0].key in a.fields.Keys + b.fields.Keys
  {
    EqualNeverDisagree(Null, at[1..]);
  }

  lemma LeafExact(a: Json, b: Json, at: seq<Step>)
    requires a != b && !SameShape(a, b)
    ensures Reports([at], a, b, at)
  {
    forall q: seq<Step> ensures q in [at] <==> at <= q && Disagree(a, b, q[|at|..]) {
      if at <= q && q != at { assert q[|at|..] != []; }
      if at <= q && q[|at|..] == [] { assert q == at; }
    }
  }

  lemma {:induction false} EqualNeverDisagree(a: Json, at: seq<Step>)
    ensures !Disagree(a, a, at)
    decreases |at|
  {
    if at != [] {
      match at[0]
      case Field(k) => if a.Obj? { EqualNeverDisagree(Get(a, k), at[1..]); }
      case Item(i) => if a.List? && i < |a.items| { EqualNeverDisagree(a.items[i], at[1..]); }
    }
  }

  lemma ExtendedPrefix(at: seq<Step>, step: Step, q: seq<Step>)
    ensures at + [step] <= q <==> at <= q && |q| > |at| && q[|at|] == step
    ensures at + [step] <= q ==> q[|at| + 1..] == q[|at|..][1..]
  {
    if at <= q && |q| > |at| && q[|at|] == step {
      assert q[..|at| + 1] == at + [step];
    }
    if at + [step] <= q { assert q[|at|] == (at + [step])[|at|]; assert q[..|at|] == (at + [step])[..|at|]; }
  }

  lemma {:induction false} FieldDifferenceExact(a: Json, b: Json, k: string, at: seq<Step>)
    requires a.Obj? && b.Obj?
    ensures Reports(FieldDifference(a, b, k, at), Get(a, k), Get(b, k), at + [Field(k)])
    decreases a, 0, 0
  {
    var here := at + [Field(k)];
    if k in a.fields && k in b.fields {
      DifferencesExact(a.fields[k], b.fields[k], here);
    } else {
      forall q: seq<Step> ensures q in FieldDifference(a, b, k, at)
      <==> here <= q && Disagree(Get(a, k), Get(b, k), q[|here|..]) {
        if Get(a, k) == Get(b, k) && here <= q {
          EqualNeverDisagree(Get(a, k), q[|here|..]);
        } else if here <= q && q != here {
          assert q[|here|..] != [];
        } else if here <= q {
          assert q == here;
        }
      }
    }
  }

  lemma {:induction false} FieldDifferencesExact(a: Json, b: Json, keys: seq<string>, at: seq<Step>)
    requires a.Obj? && b.Obj?
    ensures forall q: seq<Step> :: q in FieldDifferences(a, b, keys, at) <==>
              at <= q && |q| > |at| && q[|at|].Field? && q[|at|].key in keys && Disagree(a, b, q[|at|..])
    decreases a, 0, 1 + |keys|
  {
    if keys != [] {
      var k := keys[0];
      FieldDifferenceExact(a, b, k, at);
      FieldDifferencesExact(a, b, keys[1..], at);
      assert keys == [k] + keys[1..];
      forall q: seq<Step> ensures q in FieldDifferences(a, b, keys, at) <==>
          at <= q && |q| > |at| && q[|at|].Field? && q[|at|].key in keys && Disagree(a, b, q[|at|..])
      {
        ExtendedPrefix(at, Field(k), q);
        assert q in FieldDifferences(a, b, keys, at)
               <==> q in FieldDifference(a, b, k, at) || q in FieldDifferences(a, b, keys[1..], at);
        if at + [Field(k)] <= q {
          assert q[|at|..][0] == Field(k);
        }
      }
    }
  }

  lemma {:induction false} ItemDifferencesExact(a: Json, b: Json, i: nat, at: seq<Step>)
    requires a.List? && b.List? && |a.items| == |b.items| && i <= |a.items|
    ensures forall q: seq<Step> :: q in ItemDifferences(a, b, i, at) <==>
              at <= q && |q| > |at| && q[|at|].Item? && q[|at|].index >= i && Disagree(a, b, q[|at|..])
    decreases a, 0, |a.items| - i
  {
    if i < |a.items| {
      DifferencesExact(a.items[i], b.items[i], at + [Item(i)]);
      ItemDifferencesExact(a, b, i + 1, at);
      forall q: seq<Step> ensures q in ItemDifferences(a, b, i, at) <==>
          at <= q && |q| > |at| && q[|at|].Item? && q[|at|].index >= i && Disagree(a, b, q[|at|..])
      {
        ExtendedPrefix(at, Item(i), q);
        assert q in ItemDifferences(a, b, i, at)
               <==> q in Differences(a.items[i], b.items[i], at + [Item(i)]) || q in ItemDifferences(a, b, i + 1, at);
        if at + [Item(i)] <= q {
          assert q[|at|..][0] == Item(i);
        }
      }
    } else {
      forall q: seq<Step> | at <= q && |q| > |at| && q[|at|].Item?
      && q[|at|].index >= i ensures !Disagree(a, b, q[|at|..]) {
        assert q[|at|..][0] == q[|at|];
      }
    }
  }

  ghost predicate NoNullFields(v: Json) {
    match v
    case List(items) => forall i :: 0 <= i < |items| ==> NoNullFields(items[i])
    case Obj(fields) => forall k :: k in fields ==> fields[k] != Null && NoNullFields(fields[k])
    case _ => true
  }

  lemma {:induction false} CleanHasNoNulls(v: Json)
    requires Clean(v)
    ensures NoNullFields(v)
  {
    match v
    case List(items) => forall i | 0 <= i < |items| ensures NoNullFields(items[i]) { CleanHasNoNulls(items[i]); }
    case Obj(fields) => forall k | k in fields ensures NoNullFields(fields[k]) { CleanHasNoNulls(fields[k]); }
    case _ =>
  }

  lemma DifferingKey(a: map<string, Json>, b: map<string, Json>) returns (k: string)
    requires a != b
    ensures k in a.Keys + b.Keys && !(k in a && k in b && a[k] == b[k])
  {
    if a.Keys != b.Keys {
      k :| k in (a.Keys - b.Keys) + (b.Keys - a.Keys);
    } else {
      k :| k in a && a[k] != b[k];
    }
  }

  /** Unequal trees without null fields disagree somewhere. */
  lemma {:induction false} UnequalDisagree(a: Json, b: Json) returns (at: seq<Step>)
    requires a != b && NoNullFields(a) && NoNullFields(b)
    ensures Disagree(a, b, at)
  {
    if a.Obj? && b.Obj? {
      var k := DifferingKey(a.fields, b.fields);
      if k in a.fields && k in b.fields {
        var rest := UnequalDisagree(a.fields[k], b.fields[k]);
        at := [Field(k)] + rest;
        assert at[1..] == rest;
      } else {
        at := [Field(k)];
      }
    } else if a.List? && b.List? && |a.items| == |b.items| {
      var i :| 0 <= i < |a.items| && a.items[i] != b.items[i];
      var rest := UnequalDisagree(a.items[i], b.items[i]);
      at := [Item(i)] + rest;
      assert at[1..] == rest;
    } else {
      at := [];
    }
  }

  /** The comparison reports nothing exactly when the trees are equal. */
  lemma NoDifferencesIffEqual(a: Json, b: Json)
    requires NoNullFields(a) && NoNullFields(b)
    ensures Differences(a, b, []) == [] <==> a == b
  {
    if a != b {
      DifferencesExact(a, b, []);
      var at := UnequalDisagree(a, b);
      assert at[0..] == at;
      assert at in Differences(a, b, []);
    }
  }

  /** Null fields are why the invariant is needed: a null field against an absent one is a
      difference the comparison does not report. */
  lemma NullFieldGoesUnreported(k: string)
    ensures var a, b := Obj(map[k := Null]), Obj(map[]);
            a != b && Differences(a, b, []) == []
  {
    var a, b := Obj(map[k := Null]), Obj(map[]);
    assert k in a.fields;
    AbsentReadsAsNull(k, SortedKeys(a.fields.Keys + b.fields.Keys));
  }

  lemma {:induction false} AbsentReadsAsNull(k: string, keys: seq<string>)
    ensures FieldDifferences(Obj(map[k := Null]), Obj(map[]), keys, []) == []
  {
    if keys != [] {
      AbsentReadsAsNull(k, keys[1..]);
    }
  }
}
