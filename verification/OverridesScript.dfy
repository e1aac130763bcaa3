/** The override part of the node start script, as a transformer of the configuration file and of
    the record of applied keys. */
module OverridesScript {
  import opened Text
  import opened Overrides

  /** The persisted configuration file and, when it exists, the record of the keys the last start
      applied. */
  datatype Files = Files(target: seq<string>, record: Option<seq<string>>)

  /** The lines that `grep` and the `sed` address for a key select. The script escapes only dots, so
      this is what it does for names of the validated alphabet. */
  predicate Selects(key: string, line: string) {
    key + "=" <= line
  }

  function Grep(lines: seq<string>, key: string): (r: seq<string>) {
    if lines == [] then []
    else
      var before, last := Grep(lines[..|lines| - 1], key), lines[|lines| - 1];
      if Selects(key, last) then before + [last] else before
  }

  function Without(lines: seq<string>, key: string): (r: seq<string>) {
    if lines == [] then []
    else
      var before, last := Without(lines[..|lines| - 1], key), lines[|lines| - 1];
      if Selects(key, last) then before else before + [last]
  }

  predicate Overridden(overrides: Option<seq<string>>, key: string) {
    overrides.Some? && Grep(overrides.value, key) != []
  }

  function Restore(target: seq<string>, defaults: Option<seq<string>>, key: string): (r: seq<string>) {
    Without(target, key) + if defaults.Some? then Grep(defaults.value, key) else []
  }

  /** Keys of the record that are no longer overridden go back to the image's lines. */
  function RestoreAll(target: seq<string>, record: seq<string>, overrides: Option<seq<string>>,
      defaults: Option<seq<string>>): (r: seq<string>) {
    if record == [] then target
    else
      var before, key := RestoreAll(target, record[..|record| - 1], overrides, defaults), record[|record| - 1];
      if key == "" || Overridden(overrides, key) then before else Restore(before, defaults, key)
  }

  predicate Applies(line: string) {
    KeyOf(line).Some? && KeyOf(line).value != ""
  }

  function AddKey(record: Option<seq<string>>, key: string): (r: Option<seq<string>>) {
    Some((if record.Some? then record.value else []) + [key])
  }

  /** Every override line replaces the lines of its key and is recorded. */
  function ApplyAll(f: Files, lines: seq<string>): (r: Files) {
    if lines == [] then f
    else
      var before, line := ApplyAll(f, lines[..|lines| - 1]), lines[|lines| - 1];
      if !Applies(line) then before
      else Files(Without(before.target, KeyOf(line).value) + [line], AddKey(before.record, KeyOf(line).value))
  }

  /** One start. */
  function Apply(f: Files, overrides: Option<seq<string>>, defaults: Option<seq<string>>): (r: Files) {
    var restored := if f.record.Some? then Files(RestoreAll(f.target, f.record.value, overrides, defaults), None)
                    else f;
    if overrides.Some? then ApplyAll(restored, overrides.value) else restored
  }

  // --- the script --------------------------------------------------------------------------------

  method DeleteLines(lines: seq<string>, key: string) returns (r: seq<string>)
    ensures r == Without(lines, key)
  {
    r := [];
    for i := 0 to |lines|
      invariant r == Without(lines[..i], key)
    {
      assert lines[..i + 1][..i] == lines[..i];
      if !(key + "=" <= lines[i]) { r := r + [lines[i]]; }
    }
    assert lines[..|lines|] == lines;
  }

  method SelectLines(lines: seq<string>, key: string) returns (r: seq<string>)
    ensures r == Grep(lines, key)
  {
    r := [];
    for i := 0 to |lines|
      invariant r == Grep(lines[..i], key)
    {
      assert lines[..i + 1][..i] == lines[..i];
      if key + "=" <= lines[i] { r := r + [lines[i]]; }
    }
    assert lines[..|lines|] == lines;
  }

  class Node {
    const defaults: Option<seq<string>>
    var target: seq<string>
    var record: Option<seq<string>>

    constructor (f: Files, defaults: Option<seq<string>>)
      ensures State() == f && this.defaults == defaults
    {
      this.defaults, target, record := defaults, f.target, f.record;
    }

    function State(): (f: Files)
      reads this
    {
      Files(target, record)
    }

    method RestoreDropped(overrides: Option<seq<string>>)
      requires record.Some?
      modifies this
      ensures State() == Files(RestoreAll(old(target), old(record).value, overrides, defaults), None)
    {
      var keys := record.value;
      for i := 0 to |keys|
        invariant target == RestoreAll(old(target), keys[..i], overrides, defaults)
      {
        assert keys[..i + 1][..i] == keys[..i];
        var key := keys[i];
        if key == "" { continue; }
        if overrides.Some? {
          var found := SelectLines(overrides.value, key);
          if found != [] { continue; }
        }
        var kept := DeleteLines(target, key);
        target := kept;
        if defaults.Some? {
          var shipped := SelectLines(defaults.value, key);
          target := target + shipped;
        }
      }
      assert keys[..|keys|] == keys;
      record := None;
    }

    method ApplyConfigOverrides(overrides: Option<seq<string>>)
      modifies this
      ensures State() == Apply(old(State()), overrides, defaults)
    {
      if record.Some? { RestoreDropped(overrides); }
      if overrides.None? { return; }
      ghost var restored := State();
      var lines := overrides.value;
      for i := 0 to |lines|
        invariant State() == ApplyAll(restored, lines[..i])
      {
        assert lines[..i + 1][..i] == lines[..i];
        var key := KeyOf(lines[i]);
        if key.None? || key.value == "" { continue; }
        var kept := DeleteLines(target, key.value);
        target := kept + [lines[i]];
        record := AddKey(record, key.value);
      }
      assert lines[..|lines|] == lines;
    }
  }

  // --- what a start does to the lines of one kind --------------------------------------------------

  /** The lines with a given key, in order; None stands for the lines without '=', such as comments
      and blanks. */
  function Kind(lines: seq<string>, kind: Option<string>): (r: seq<string>) {
    if lines == [] then []
    else
      var before, last := Kind(lines[..|lines| - 1], kind), lines[|lines| - 1];
      if KeyOf(last) == kind then before + [last] else before
  }

  /** For a name without '=', the prefix match of the script selects exactly the lines of that key. */
  lemma SelectsKey(key: string, line: string)
    requires Overrides.Without(key, '=')
    ensures Selects(key, line) <==> KeyOf(line) == Some(key)
  {
    if Selects(key, line) {
      assert line == Line(key, line[|key| + 1..]);
      KeyOfLine(key, line[|key| + 1..]);
    }
    assert KeyOf(line) == Some(key) ==> line[..|key| + 1] == key + "=";
  }

  lemma {:induction false} GrepIsKind(lines: seq<string>, key: string)
    requires Overrides.Without(key, '=')
    ensures Grep(lines, key) == Kind(lines, Some(key))
  {
    if lines != [] {
      GrepIsKind(lines[..|lines| - 1], key);
      SelectsKey(key, lines[|lines| - 1]);
    }
  }

  lemma {:induction false} KindConcat(a: seq<string>, b: seq<string>, kind: Option<string>)
    ensures Kind(a + b, kind) == Kind(a, kind) + Kind(b, kind)
  {
    if b == [] {
      assert a + b == a;
    } else {
      assert (a + b)[..|a + b| - 1] == a + b[..|b| - 1];
      KindConcat(a, b[..|b| - 1], kind);
    }
  }

  lemma {:induction false} KindWithout(lines: seq<string>, key: string, kind: Option<string>)
    requires Overrides.Without(key, '=')
    ensures Kind(Without(lines, key), kind) == if kind == Some(key) then [] else Kind(lines, kind)
  {
    if lines != [] {
      var n := |lines| - 1;
      KindWithout(lines[..n], key, kind);
      SelectsKey(key, lines[n]);
      if !Selects(key, lines[n]) {
        var before := Without(lines[..n], key);
        assert (before + [lines[n]])[..|before|] == before;
      }
    }
  }

  lemma {:induction false} KindOfKind(lines: seq<string>, one: Option<string>, kind: Option<string>)
    ensures Kind(Kind(lines, one), kind) == if kind == one then Kind(lines, one) else []
  {
    if lines != [] {
      var n := |lines| - 1;
      KindOfKind(lines[..n], one, kind);
      if KeyOf(lines[n]) == one {
        var before := Kind(lines[..n], one);
        assert (before + [lines[n]])[..|before|] == before;
      }
    }
  }

  predicate Named(keys: seq<string>) {
    forall i :: 0 <= i < |keys| ==> keys[i] != "" && Overrides.Without(keys[i], '=')
  }

  lemma {:induction false} RestoreAllKind(target: seq<string>, record: seq<string>, overrides: Option<seq<string>>,
      defaults: seq<string>, kind: Option<string>)
    requires Named(record)
    ensures Kind(RestoreAll(target, record, overrides, Some(defaults)), kind)
         == if kind.Some? && kind.value in record && !Overridden(overrides, kind.value)
            then Kind(defaults, kind) else Kind(target, kind)
  {
    if record != [] {
      var n := |record| - 1;
      var key, before := record[n], RestoreAll(target, record[..n], overrides, Some(defaults));
      RestoreAllKind(target, record[..n], overrides, defaults, kind);
      assert record == record[..n] + [key];
      RestoreKind(before, defaults, key, kind);
    }
  }

  lemma RestoreKind(target: seq<string>, defaults: seq<string>, key: string, kind: Option<string>)
    requires Overrides.Without(key, '=')
    ensures Kind(Restore(target, Some(defaults), key), kind) == if kind == Some(key) then Kind(defaults, kind)
            else Kind(target, kind)
  {
    KindConcat(Without(target, key), Grep(defaults, key), kind);
    KindWithout(target, key, kind);
    GrepIsKind(defaults, key);
    KindOfKind(defaults, Some(key), kind);
  }

  lemma ApplyStep(f: Files, lines: seq<string>, k: string, v: string)
    requires k != "" && Overrides.Without(k, '=')
    ensures var before := ApplyAll(f, lines);
            ApplyAll(f, lines + [Line(k, v)])
            == Files(Without(before.target, k) + [Line(k, v)], AddKey(before.record, k))
  {
    KeyOfLine(k, v);
    assert (lines + [Line(k, v)])[..|lines|] == lines;
  }

  /** A line without a key, blank, comment or '=' first, is neither applied nor recorded. */
  lemma NamelessLineIsSkipped(f: Files, lines: seq<string>, line: string)
    requires Overrides.Without(line, '=') || (line != [] && line[0] == '=')
    ensures ApplyAll(f, lines + [line]) == ApplyAll(f, lines)
  {
    assert (lines + [line])[..|lines|] == lines;
    if line != [] && line[0] == '=' { IndexIs(line, '=', 0); }
  }

  lemma ReplaceKind(target: seq<string>, k: string, v: string, kind: Option<string>)
    requires Overrides.Without(k, '=')
    ensures Kind(Without(target, k) + [Line(k, v)], kind) == if kind == Some(k) then [Line(k, v)]
            else Kind(target, kind)
  {
    KeyOfLine(k, v);
    KindConcat(Without(target, k), [Line(k, v)], kind);
    KindWithout(target, k, kind);
    assert [Line(k, v)][..0] == [];
  }

  lemma ApplyLast(f: Files, keys: seq<string>, m: map<string, string>)
    requires keys != [] && Clean(m) && (forall k :: k in keys ==> k in m)
    ensures var n := |keys| - 1;
            var k := keys[n];
            var before := ApplyAll(f, LinesFor(keys[..n], m));
            ApplyAll(f, LinesFor(keys, m))
            == Files(Without(before.target, k) + [Line(k, m[k])], AddKey(before.record, k))
  {
    var n := |keys| - 1;
    ApplyStep(f, LinesFor(keys[..n], m), keys[n], m[keys[n]]);
  }

  lemma {:induction false} ApplyAllRecord(f: Files, keys: seq<string>, m: map<string, string>)
    requires Clean(m) && f.record.None? && (forall k :: k in keys ==> k in m)
    ensures ApplyAll(f, LinesFor(keys, m)).record == if keys == [] then None else Some(keys)
  {
    if keys != [] {
      var n := |keys| - 1;
      ApplyAllRecord(f, keys[..n], m);
      ApplyLast(f, keys, m);
      assert keys == keys[..n] + [keys[n]];
    }
  }

  lemma {:induction false} ApplyAllKind(f: Files, keys: seq<string>, m: map<string, string>, kind: Option<string>)
    requires Clean(m) && (forall k :: k in keys ==> k in m)
    ensures Kind(ApplyAll(f, LinesFor(keys, m)).target, kind)
         == if kind.Some? && kind.value in keys then [Line(kind.value, m[kind.value])] else Kind(f.target, kind)
  {
    if keys != [] {
      var n := |keys| - 1;
      var k, before := keys[n], ApplyAll(f, LinesFor(keys[..n], m));
      ApplyAllKind(f, keys[..n], m, kind);
      ApplyLast(f, keys, m);
      ReplaceKind(before.target, k, m[k], kind);
      InLast(keys, kind);
    }
  }

  lemma InLast(keys: seq<string>, kind: Option<string>)
    requires keys != []
    ensures kind.Some? && kind.value in keys
            <==> kind == Some(keys[|keys| - 1]) || (kind.Some? && kind.value in keys[..|keys| - 1])
  {
    assert keys == keys[..|keys| - 1] + [keys[|keys| - 1]];
  }

  // --- starts ------------------------------------------------------------------------------------

  /** The mounted override file: absent when there is nothing to override. */
  ghost function Mounted(m: map<string, string>): (r: Option<seq<string>>) {
    if m == map[] then None else Some(Rendered(m))
  }

  lemma GrepStep(lines: seq<string>, k: string, v: string, key: string)
    requires Overrides.Without(k, '=') && Overrides.Without(key, '=')
    ensures Grep(lines + [Line(k, v)], key) == Grep(lines, key) + if k == key then [Line(k, v)] else []
  {
    KeyOfLine(k, v);
    SelectsKey(key, Line(k, v));
    assert (lines + [Line(k, v)])[..|lines|] == lines;
  }

  lemma {:induction false} GrepRendered(keys: seq<string>, m: map<string, string>, key: string)
    requires Clean(m) && (forall k :: k in keys ==> k in m) && Overrides.Without(key, '=')
    ensures Grep(LinesFor(keys, m), key) != [] <==> key in keys
  {
    if keys != [] {
      var n := |keys| - 1;
      GrepRendered(keys[..n], m, key);
      GrepStep(LinesFor(keys[..n], m), keys[n], m[keys[n]], key);
      assert keys == keys[..n] + [keys[n]];
    }
  }

  lemma MountedOverrides(m: map<string, string>, key: string)
    requires Clean(m) && Overrides.Without(key, '=')
    ensures Overridden(Mounted(m), key) <==> key in m
  {
    if m != map[] {
      GrepRendered(SortedKeys(m.Keys), m, key);
    }
  }

  /** The record names exactly the keys of the overrides applied last. */
  ghost predicate RecordIs(record: Option<seq<string>>, m: map<string, string>) {
    record == if m == map[] then None else Some(SortedKeys(m.Keys))
  }

  /** The state a start leaves, seen key by key: overridden keys have their one line, the other keys
      the operator does not write have the image's lines. */
  ghost predicate Settled(f: Files, m: map<string, string>, defaults: seq<string>, written: set<string>) {
    && RecordIs(f.record, m)
    && forall kind :: Kind(f.target, kind) == KindAfter(f.target, kind, m, defaults, written)
  }

  function KindAfter(target: seq<string>, kind: Option<string>, m: map<string, string>, defaults: seq<string>,
      written: set<string>): (r: seq<string>) {
    if kind.Some? && kind.value in m then [Line(kind.value, m[kind.value])]
    else if kind.Some? && kind.value in written then Kind(target, kind)
    else Kind(defaults, kind)
  }

  lemma StartKind(f: Files, last: map<string, string>, m: map<string, string>, defaults: seq<string>,
      kind: Option<string>)
    requires Clean(last) && Clean(m) && RecordIs(f.record, last)
    ensures var r := Apply(f, Mounted(m), Some(defaults));
            && RecordIs(r.record, m)
            && Kind(r.target, kind) == (if kind.Some? && kind.value in m then [Line(kind.value, m[kind.value])]
                                        else if kind.Some? && kind.value in last then Kind(defaults, kind)
                                        else Kind(f.target, kind))
  {
    var restored := if f.record.Some?
                    then Files(RestoreAll(f.target, f.record.value, Mounted(m), Some(defaults)), None) else f;
    if f.record.Some? {
      assert forall k :: k in f.record.value <==> k in last;
      assert Named(f.record.value) by {
        forall i | 0 <= i < |f.record.value| ensures f.record.value[i] in last {
          assert f.record.value[i] in f.record.value;
        }
      }
      RestoreAllKind(f.target, f.record.value, Mounted(m), defaults, kind);
      if kind.Some? && kind.value in last { MountedOverrides(m, kind.value); }
    }
    if m != map[] {
      var keys := SortedKeys(m.Keys);
      assert keys != [] by { var k :| k in m; assert k in keys; }
      ApplyAllKind(restored, keys, m, kind);
      ApplyAllRecord(restored, keys, m);
    }
  }

  /** Before each start the operator rewrites its own keys. */
  ghost predicate OperatorWrites(f: Files, g: Files, written: set<string>) {
    g.record == f.record && forall kind: Option<string> :: !(kind.Some? && kind.value in written) ==>
      Kind(g.target, kind) == Kind(f.target, kind)
  }

  lemma StartSettles(found: Files, f: Files, last: map<string, string>, m: map<string, string>, image: seq<string>,
      written: set<string>)
    requires Clean(last) && Clean(m) && Settled(found, last, image, written) && OperatorWrites(found, f, written)
    ensures Settled(Apply(f, Mounted(m), Some(image)), m, image, written)
  {
    var r := Apply(f, Mounted(m), Some(image));
    StartKind(f, last, m, image, None);
    forall kind ensures Kind(r.target, kind) == KindAfter(r.target, kind, m, image, written) {
      StartKind(f, last, m, image, kind);
      assert Kind(found.target, kind) == KindAfter(found.target, kind, last, image, written);
    }
  }

  /** One complete start with overrides `m`: the script finds `f`, which the operator has made of
      `found`, and leaves `g`. */
  ghost predicate StartFrom(found: Files, f: Files, g: Files, m: map<string, string>, image: seq<string>,
                            written: set<string>) {
    Clean(m) && OperatorWrites(found, f, written) && g == Apply(f, Mounted(m), Some(image))
  }

  ghost predicate CleanlySettled(f: Files, m: map<string, string>, image: seq<string>, written: set<string>) {
    Clean(m) && Settled(f, m, image, written)
  }

  lemma StartFromSettles(found: Files, f: Files, g: Files, last: map<string, string>, m: map<string, string>,
                         image: seq<string>, written: set<string>)
    requires CleanlySettled(found, last, image, written) && StartFrom(found, f, g, m, image, written)
    ensures CleanlySettled(g, m, image, written)
  {
    StartSettles(found, f, last, m, image, written);
  }

  /** A history of complete starts on one image: `before[i]` is what the script finds at start i,
      `after[i]` what it leaves. */
  ghost predicate Starts(image: seq<string>, before: seq<Files>, after: seq<Files>,
                         overrides: seq<map<string, string>>, written: set<string>) {
    && |before| == |after| == |overrides|
    && (|before| > 0 ==> StartFrom(Files(image, None), before[0], after[0], overrides[0], image, written))
    && (forall i :: 1 <= i < |before| ==> StartFrom(after[i - 1], before[i], after[i], overrides[i], image, written))
  }

  /** History independence: whatever was overridden before, after any number of starts the file holds
      the image's lines overridden by the last map, for every key the operator does not write, and
      the record is the domain of the last map. Comments and blank lines are the image's too. */
  lemma HistoryIndependent(image: seq<string>, before: seq<Files>, after: seq<Files>,
                           overrides: seq<map<string, string>>, written: set<string>, i: nat)
    requires Starts(image, before, after, overrides, written) && i < |after|
    ensures Settled(after[i], overrides[i], image, written)
  {
    StartsSettle(image, before, after, overrides, written, i);
  }

  lemma {:induction false} StartsSettle(image: seq<string>, before: seq<Files>, after: seq<Files>,
                                        overrides: seq<map<string, string>>, written: set<string>, i: nat)
    requires Starts(image, before, after, overrides, written) && i < |after|
    ensures CleanlySettled(after[i], overrides[i], image, written)
  {
    if i == 0 {
      FreshSettled(image, written);
      StartFromSettles(Files(image, None), before[0], after[0], map[], overrides[0], image, written);
    } else {
      StartsSettle(image, before, after, overrides, written, i - 1);
      assert StartFrom(after[i - 1], before[i], after[i], overrides[i], image, written);
      StartFromSettles(after[i - 1], before[i], after[i], overrides[i - 1], overrides[i], image, written);
    }
  }

  lemma FreshSettled(image: seq<string>, written: set<string>)
    ensures CleanlySettled(Files(image, None), map[], image, written)
  {
  }

  /** Two nodes with the same last overrides agree on every such key, however they got there. */
  lemma SameLastSameFile(f: Files, g: Files, m: map<string, string>, image: seq<string>, written: set<string>,
      kind: Option<string>)
    requires Settled(f, m, image, written) && Settled(g, m, image, written)
             && !(kind.Some? && kind.value in written && kind.value !in m)
    ensures Kind(f.target, kind) == Kind(g.target, kind) && f.record == g.record
  {
    assert Kind(f.target, kind) == KindAfter(f.target, kind, m, image, written);
    assert Kind(g.target, kind) == KindAfter(g.target, kind, m, image, written);
  }

  /** For a key the operator writes and no longer overridden, the operator's lines survive a start if
      and only if the key was not overridden at the start before (or the image ships those very
      lines): the script restores the image's line after the operator has written its own. */
  lemma DroppedOverrideHidesOperator(f: Files, last: map<string, string>, m: map<string, string>, image: seq<string>,
      key: string)
    requires Clean(last) && Clean(m) && RecordIs(f.record, last) && key !in m
    ensures Kind(Apply(f, Mounted(m), Some(image)).target, Some(key)) == Kind(f.target, Some(key))
            <==> (key in last ==> Kind(image, Some(key)) == Kind(f.target, Some(key)))
  {
    StartKind(f, last, m, image, Some(key));
  }
}
