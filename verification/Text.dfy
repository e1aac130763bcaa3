/** String facts the controllers rely on: decimal rendering, the byte-wise string order that
    Go's `sort` uses, and the sorted key list of a map. */
module Text {

  datatype Option<+T> = None | Some(value: T)

  /** What strings.TrimSpace and bytes.TrimSpace strip. */
  predicate IsSpace(c: char) {
    var n := c as int;
    || 9 <= n <= 13 || n == 0x20 || n == 0x85 || n == 0xA0 || n == 0x1680
    || 0x2000 <= n <= 0x200A || n == 0x2028 || n == 0x2029 || n == 0x202F || n == 0x205F || n == 0x3000
  }

  // --- decimal rendering (the %d verb on a non-negative integer) ---------------------------

  const DIGITS: string := "0123456789"

  function Decimal(n: nat): (s: string)
    ensures |s| > 0
    ensures forall i :: 0 <= i < |s| ==> s[i] in DIGITS
  {
    if n < 10 then [DIGITS[n]] else Decimal(n / 10) + [DIGITS[n % 10]]
  }

  /** The number a decimal string denotes; the inverse of `Decimal`. */
  function Numeral(s: string): (n: nat) {
    if s == [] then 0 else 10 * Numeral(s[..|s| - 1]) + DigitValue(s[|s| - 1])
  }

  function DigitValue(c: char): (d: nat) {
    if '0' <= c <= '9' then c as int - '0' as int else 0
  }

  lemma {:induction false} DecimalRoundTrip(n: nat)
    ensures Numeral(Decimal(n)) == n
    decreases n
  {
    if n >= 10 {
      DecimalRoundTrip(n / 10);
      var s := Decimal(n);
      assert s[..|s| - 1] == Decimal(n / 10);
    } else {
      assert Numeral(Decimal(n)[..0]) == 0;
    }
  }

  // --- string order ------------------------------------------------------------------------

  /** Strict lexicographic order on code points, which is the byte order of UTF-8 text. */
  predicate Less(a: string, b: string) {
    if b == [] then false
    else if a == [] then true
    else a[0] < b[0] || (a[0] == b[0] && Less(a[1..], b[1..]))
  }

  lemma {:induction false} LessTransitive(a: string, b: string, c: string)
    requires Less(a, b) && Less(b, c)
    ensures Less(a, c)
  {
    if a != [] && a[0] == b[0] && b[0] == c[0] {
      LessTransitive(a[1..], b[1..], c[1..]);
    }
  }

  lemma {:induction false} LessTotal(a: string, b: string)
    ensures a == b || Less(a, b) || Less(b, a)
  {
    if a != [] && b != [] && a[0] == b[0] {
      LessTotal(a[1..], b[1..]);
      assert a == [a[0]] + a[1..] && b == [b[0]] + b[1..];
    }
  }

  lemma {:induction false} LessIrreflexive(a: string)
    ensures !Less(a, a)
  {
    if a != [] {
      LessIrreflexive(a[1..]);
    }
  }

  lemma LessAsymmetric(a: string, b: string)
    requires Less(a, b)
    ensures !Less(b, a) && a != b
  {
    LessIrreflexive(a);
    if Less(b, a) {
      LessTransitive(a, b, a);
    }
  }

  /** The first code point in which two strings differ decides, and a proper prefix comes first. */
  lemma {:induction false} LessAtDifference(p: string, a: string, b: string)
    requires a == [] || b == [] || a[0] != b[0]
    ensures Less(p + a, p + b) <==> b != [] && (a == [] || a[0] < b[0])
  {
    if p == [] {
      assert p + a == a && p + b == b;
    } else {
      LessAtDifference(p[1..], a, b);
      assert (p + a)[1..] == p[1..] + a && (p + b)[1..] == p[1..] + b;
    }
  }

  // --- the sorted keys of a map ---------------------------------------------------------------

  ghost predicate Ascending(s: seq<string>) {
    forall i, j :: 0 <= i < j < |s| ==> Less(s[i], s[j])
  }

  ghost predicate ListsKeys(s: seq<string>, keys: set<string>) {
    Ascending(s) && forall k :: k in s <==> k in keys
  }

  /** Insert a key into an ascending list. */
  function InsertKey(s: seq<string>, k: string): (r: seq<string>) {
    if s == [] || Less(k, s[0]) then [k] + s else [s[0]] + InsertKey(s[1..], k)
  }

  lemma {:induction false} InsertKeyLists(s: seq<string>, k: string, keys: set<string>)
    requires ListsKeys(s, keys) && k !in keys
    ensures ListsKeys(InsertKey(s, k), keys + {k})
  {
    var r := InsertKey(s, k);
    if s != [] && !Less(k, s[0]) {
      assert s[0] in keys;
      LessTotal(s[0], k);
      forall x ensures x in s <==> x == s[0] || x in s[1..] {
        assert s == [s[0]] + s[1..];
      }
      assert forall j :: 1 <= j < |s| ==> Less(s[0], s[j]) && s[0] != s[j] by {
        forall j | 1 <= j < |s| ensures s[0] != s[j] { LessAsymmetric(s[0], s[j]); }
      }
      InsertKeyLists(s[1..], k, keys - {s[0]});
      assert keys - {s[0]} + {k} + {s[0]} == keys + {k};
      var t := InsertKey(s[1..], k);
      forall j | 0 <= j < |t| ensures Less(s[0], t[j]) {
        assert t[j] in t;
        if t[j] != k { assert t[j] in s; }
      }
    } else if s != [] {
      forall j | 0 < j < |s| ensures Less(k, s[j]) { LessTransitive(k, s[0], s[j]); }
    }
  }

  /** Collecting the keys in whatever order the map yields them and sorting them gives the one
      ascending list of those keys. */
  method SortKeys(keys: set<string>) returns (ordered: seq<string>)
    ensures ListsKeys(ordered, keys)
  {
    ordered := [];
    var left := keys;
    while left != {}
      invariant left <= keys
      invariant ListsKeys(ordered, keys - left)
      decreases left
    {
      var k :| k in left;
      InsertKeyLists(ordered, k, keys - left);
      ordered := InsertKey(ordered, k);
      assert keys - left + {k} == keys - (left - {k});
      left := left - {k};
    }
  }

  lemma {:induction false} SortedKeysUnique(s: seq<string>, t: seq<string>, keys: set<string>)
    requires ListsKeys(s, keys) && ListsKeys(t, keys)
    ensures s == t
    decreases |s|
  {
    assert s == [] || s[0] in t;
    assert t == [] || t[0] in s;
    if s != [] {
      assert s[0] in keys && s[0] in t;
      assert t[0] in keys && t[0] in s;
      var j :| 0 <= j < |t| && t[j] == s[0];
      var i :| 0 <= i < |s| && s[i] == t[0];
      if i > 0 { LessAsymmetric(s[0], s[i]); }
      assert s[0] == t[0];
      forall k
        ensures k in s[1..] <==> k in keys - {s[0]}
        ensures k in t[1..] <==> k in keys - {s[0]}
      {
        if k in s[1..] { var a :| 1 <= a < |s| && s[a] == k; LessAsymmetric(s[0], s[a]); assert s[a] in s; }
        if k in t[1..] { var a :| 1 <= a < |t| && t[a] == k; LessAsymmetric(t[0], t[a]); assert t[a] in t; }
        if k in keys && k != s[0] { assert k in s && k in t; }
      }
      SortedKeysUnique(s[1..], t[1..], keys - {s[0]});
    }
  }

  lemma {:induction false} SortedKeysExist(keys: set<string>)
    ensures exists s :: ListsKeys(s, keys)
  {
    if keys == {} {
      assert ListsKeys([], keys);
    } else {
      var k :| k in keys;
      SortedKeysExist(keys - {k});
      var rest :| ListsKeys(rest, keys - {k});
      InsertKeyLists(rest, k, keys - {k});
      assert keys - {k} + {k} == keys;
    }
  }

  ghost function SortedKeys(keys: set<string>): (s: seq<string>)
    ensures ListsKeys(s, keys)
  {
    SortedKeysExist(keys);
    var s :| ListsKeys(s, keys); s
  }
}
