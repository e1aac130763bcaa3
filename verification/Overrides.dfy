/** Configuration overrides (managed_cluster_overrides.go): validated properties rendered to
    key=value lines, and the start script that merges them into a node's persisted configuration
    and takes dropped keys back to the image's defaults. */
module Overrides {
  import opened Text

  // --- property names and values -----------------------------------------------------------------

  predicate IsAlnum(c: char) {
    'A' <= c <= 'Z' || 'a' <= c <= 'z' || '0' <= c <= '9'
  }

  predicate IsName(s: string) {
    s != [] && IsAlnum(s[0]) && forall i :: 0 <= i < |s| ==> IsAlnum(s[i]) || s[i] == '.' || s[i] == '_' || s[i] == '-'
  }

  predicate Without(s: string, c: char) {
    forall i :: 0 <= i < |s| ==> s[i] != c
  }

  /** The properties the operator manages itself. */
  const MANAGED: set<string> := {
    "nifi.web.http.host", "nifi.web.http.port", "nifi.web.https.host", "nifi.web.https.port", "nifi.security.keystore",
    "nifi.security.keystoreType", "nifi.security.keystorePasswd", "nifi.security.keyPasswd", "nifi.security.truststore",
    "nifi.security.truststoreType", "nifi.security.truststorePasswd", "nifi.security.needClientAuth",
        "nifi.security.user.authorizer",
    "nifi.security.user.login.identity.provider", "nifi.security.allow.anonymous.authentication",
        "nifi.sensitive.props.key",
    "nifi.cluster.is.node", "nifi.cluster.node.address", "nifi.cluster.node.protocol.port",
        "nifi.cluster.protocol.is.secure",
    "nifi.zookeeper.connect.string", "nifi.zookeeper.root.node", "nifi.remote.input.secure"
  }

  datatype Verdict = Accepted | BadName | OperatorManaged | NewlineInValue

  function Validate(key: string, value: string): (r: Verdict) {
    if !IsName(key) then BadName
    else if key in MANAGED then OperatorManaged
    else if !Without(value, '\n') || !Without(value, '\r') then NewlineInValue
    else Accepted
  }

  /** What rendering and the script rely on: names without separators, values on one line. */
  predicate Clean(m: map<string, string>) {
    forall k :: k in m ==> k != "" && Without(k, '=') && Without(k, '\n') && Without(m[k], '\n')
  }

  predicate Unmanaged(m: map<string, string>) {
    forall k :: k in m ==> k !in MANAGED
  }

  /** Validation lets through exactly the maps that are clean, touch nothing the operator manages and
      have proper names and values without a carriage return. */
  lemma ValidatedIsClean(m: map<string, string>)
    ensures AllAccepted(m) <==>
              Clean(m) && Unmanaged(m) && forall k :: k in m ==> IsName(k) && Without(m[k], '\r')
  {
    if Clean(m) && Unmanaged(m) && forall k :: k in m ==> IsName(k) && Without(m[k], '\r') {
      forall k | k in m ensures Validate(k, m[k]) == Accepted {}
    }
  }

  // --- merging the sources -----------------------------------------------------------------------

  /** The Secrets merged in list order: a later one wins. */
  function Layered(secrets: seq<map<string, string>>): (m: map<string, string>) {
    if secrets == [] then map[] else Layered(secrets[..|secrets| - 1]) + secrets[|secrets| - 1]
  }

  predicate AllAccepted(m: map<string, string>) {
    forall k :: k in m ==> Validate(k, m[k]) == Accepted
  }

  method ValidateAll(m: map<string, string>) returns (ok: bool)
    ensures ok == AllAccepted(m)
  {
    var left := m.Keys;
    while left != {}
      invariant left <= m.Keys && forall k :: k in m && k !in left ==> Validate(k, m[k]) == Accepted
      decreases left
    {
      var k :| k in left;
      if Validate(k, m[k]) != Accepted { return false; }
      left := left - {k};
    }
    return true;
  }

  /** resolveConfigOverrides for nifi.properties: Secret entries are validated, inline entries win. */
  method ResolveProperties(secrets: seq<map<string, string>>, inline: map<string, string>)
      returns (r: Option<map<string, string>>)
    ensures r.Some? <==> forall i :: 0 <= i < |secrets| ==> AllAccepted(secrets[i])
    ensures r.Some? ==> r.value == Layered(secrets) + inline
  {
    var properties: map<string, string> := map[];
    for i := 0 to |secrets|
      invariant forall j :: 0 <= j < i ==> AllAccepted(secrets[j])
      invariant properties == Layered(secrets[..i])
    {
      assert secrets[..i + 1][..i] == secrets[..i];
      var ok := ValidateAll(secrets[i]);
      if !ok { return None; }
      properties := properties + secrets[i];
    }
    assert secrets[..|secrets|] == secrets;
    return Some(properties + inline);
  }

  /** Every merged entry comes from the last Secret that has its key. */
  lemma {:induction false} LayeredExact(secrets: seq<map<string, string>>, k: string)
    ensures k in Layered(secrets) <==> exists i :: 0 <= i < |secrets| && k in secrets[i]
    ensures forall i ::
              0 <= i < |secrets| && k in secrets[i] && (forall j :: i < j < |secrets| ==> k !in secrets[j]) ==>
                Layered(secrets)[k] == secrets[i][k]
  {
    if secrets != [] {
      var n := |secrets| - 1;
      LayeredExact(secrets[..n], k);
      assert forall i :: 0 <= i < n ==> secrets[..n][i] == secrets[i];
    }
  }

  lemma MergedIsClean(a: map<string, string>, b: map<string, string>)
    requires Clean(a) && Clean(b)
    ensures Clean(a + b)
  {
  }

  /** What validation lets through, merged with clean inline entries, is safe to render, and only an
      inline entry can name an operator-managed property. */
  lemma ResolvedIsClean(secrets: seq<map<string, string>>, inline: map<string, string>)
    requires (forall i :: 0 <= i < |secrets| ==> AllAccepted(secrets[i])) && Clean(inline)
    ensures Clean(Layered(secrets) + inline)
    ensures Unmanaged(Layered(secrets))
  {
    LayeredAccepted(secrets);
    ValidatedIsClean(Layered(secrets));
    MergedIsClean(Layered(secrets), inline);
  }

  lemma {:induction false} LayeredAccepted(secrets: seq<map<string, string>>)
    requires forall i :: 0 <= i < |secrets| ==> AllAccepted(secrets[i])
    ensures AllAccepted(Layered(secrets))
  {
    if secrets != [] {
      LayeredAccepted(secrets[..|secrets| - 1]);
    }
  }

  // --- rendering and parsing ---------------------------------------------------------------------

  function Line(k: string, v: string): (r: string) { k + "=" + v }

  function LinesFor(keys: seq<string>, m: map<string, string>): (r: seq<string>)
    requires forall k :: k in keys ==> k in m
    ensures |r| == |keys|
  {
    if keys == [] then [] else LinesFor(keys[..|keys| - 1], m) + [Line(keys[|keys| - 1], m[keys[|keys| - 1]])]
  }

  /** Every line ended by a newline. */
  function Joined(lines: seq<string>): (r: string) {
    if lines == [] then "" else Joined(lines[..|lines| - 1]) + lines[|lines| - 1] + "\n"
  }

  ghost function Rendered(m: map<string, string>): (r: seq<string>) {
    LinesFor(SortedKeys(m.Keys), m)
  }

  method RenderPropertiesFileLines(properties: map<string, string>) returns (body: string)
    ensures body == Joined(Rendered(properties))
  {
    if |properties| == 0 {
      assert properties.Keys == {};
      return "";
    }
    var keys := SortKeys(properties.Keys);
    SortedKeysUnique(keys, SortedKeys(properties.Keys), properties.Keys);
    body := "";
    for i := 0 to |keys|
      invariant body == Joined(LinesFor(keys[..i], properties))
    {
      assert keys[..i + 1][..i] == keys[..i];
      assert LinesFor(keys[..i + 1], properties)[..i] == LinesFor(keys[..i], properties);
      ghost var was := body;
      body := body + keys[i];
      body := body + "=";
      body := body + properties[keys[i]];
      body := body + "\n";
      assert body == was + Line(keys[i], properties[keys[i]]) + "\n";
    }
    assert keys[..|keys|] == keys;
  }

  function IndexOf(s: string, c: char): (i: nat)
    ensures i <= |s| && (forall j :: 0 <= j < i ==> s[j] != c) && (i < |s| ==> s[i] == c)
  {
    if s == [] || s[0] == c then 0 else 1 + IndexOf(s[1..], c)
  }

  /** What `while read -r` yields: a last line without a newline counts too. */
  function Lines(text: string): (r: seq<string>)
    decreases |text|
  {
    if text == "" then []
    else
      var i := IndexOf(text, '\n');
      if i == |text| then [text] else [text[..i]] + Lines(text[i + 1..])
  }

  /** The part before the first '=', if there is one. */
  function KeyOf(line: string): (r: Option<string>) {
    var i := IndexOf(line, '=');
    if i < |line| then Some(line[..i]) else None
  }

  function ValueOf(line: string): (r: string) {
    var i := IndexOf(line, '=');
    if i < |line| then line[i + 1..] else ""
  }

  function Parse(lines: seq<string>): (m: map<string, string>) {
    if lines == [] then map[]
    else
      var last, before := lines[|lines| - 1], Parse(lines[..|lines| - 1]);
      if KeyOf(last).Some? && KeyOf(last).value != "" then before[KeyOf(last).value := ValueOf(last)] else before
  }

  lemma IndexIs(s: string, c: char, i: nat)
    requires i < |s| && s[i] == c && forall j :: 0 <= j < i ==> s[j] != c
    ensures IndexOf(s, c) == i
  {
  }

  lemma KeyOfLine(k: string, v: string)
    requires Without(k, '=')
    ensures KeyOf(Line(k, v)) == Some(k) && ValueOf(Line(k, v)) == v
  {
    var line := Line(k, v);
    assert line[..|k|] == k && line[|k|] == '=' && line[|k| + 1..] == v;
    IndexIs(line, '=', |k|);
  }

  lemma {:induction false} JoinedFront(lines: seq<string>)
    requires lines != []
    ensures Joined(lines) == lines[0] + "\n" + Joined(lines[1..])
  {
    var n := |lines| - 1;
    if n > 0 {
      JoinedFront(lines[..n]);
      assert lines[..n][0] == lines[0] && lines[..n][1..] == lines[1..][..n - 1] && lines[1..][n - 1] == lines[n];
    } else {
      assert lines[..n] == [] && lines[1..] == [];
    }
  }

  /** Splitting undoes rendering for lines without newlines. */
  lemma {:induction false} LinesOfJoined(lines: seq<string>)
    requires forall i :: 0 <= i < |lines| ==> Without(lines[i], '\n')
    ensures Lines(Joined(lines)) == lines
  {
    if lines != [] {
      JoinedFront(lines);
      var text, first := Joined(lines), lines[0];
      assert text[..|first|] == first && text[|first|] == '\n';
      IndexIs(text, '\n', |first|);
      assert text[|first| + 1..] == Joined(lines[1..]);
      LinesOfJoined(lines[1..]);
    }
  }

  lemma ParseStep(lines: seq<string>, k: string, v: string)
    requires k != "" && Without(k, '=')
    ensures Parse(lines + [Line(k, v)]) == Parse(lines)[k := v]
  {
    KeyOfLine(k, v);
    assert (lines + [Line(k, v)])[..|lines|] == lines;
  }

  lemma {:induction false} ParseLines(keys: seq<string>, m: map<string, string>)
    requires Clean(m) && forall k :: k in keys ==> k in m
    ensures forall k :: k in Parse(LinesFor(keys, m)) <==> k in keys
    ensures forall k :: k in keys ==> Parse(LinesFor(keys, m))[k] == m[k]
  {
    if keys != [] {
      var n := |keys| - 1;
      ParseLines(keys[..n], m);
      ParseStep(LinesFor(keys[..n], m), keys[n], m[keys[n]]);
      assert keys == keys[..n] + [keys[n]];
    }
  }

  lemma {:induction false} LinesAreClean(keys: seq<string>, m: map<string, string>)
    requires Clean(m) && forall k :: k in keys ==> k in m
    ensures forall i :: 0 <= i < |keys| ==> Without(LinesFor(keys, m)[i], '\n')
  {
    if keys != [] {
      var n := |keys| - 1;
      LinesAreClean(keys[..n], m);
      assert keys[n] in m;
      assert Without(Line(keys[n], m[keys[n]]), '\n');
    }
  }

  /** Parsing the rendered file gives back every clean map. */
  lemma RoundTrip(m: map<string, string>)
    requires Clean(m)
    ensures Lines(Joined(Rendered(m))) == Rendered(m)
    ensures Parse(Lines(Joined(Rendered(m)))) == m
  {
    LinesAreClean(SortedKeys(m.Keys), m);
    LinesOfJoined(Rendered(m));
    ParseLines(SortedKeys(m.Keys), m);
    assert Parse(Rendered(m)) == m;
  }

  /** Equal bodies, hence equal checksums, come from equal maps only. */
  lemma RenderInjective(m: map<string, string>, n: map<string, string>)
    requires Clean(m) && Clean(n) && Joined(Rendered(m)) == Joined(Rendered(n))
    ensures m == n
  {
    RoundTrip(m);
    RoundTrip(n);
  }
}
