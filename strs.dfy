/** The string operations the core uses on dotted names and file names:
    `str.split(".")`, `".".join`, `pathlib`'s `stem`, and Python's ordering
    of strings. */
module Strs {

  function FirstDot(s: string): (i: nat)
    requires '.' in s
    ensures i < |s| && s[i] == '.' && '.' !in s[..i]
  {
    if s[0] == '.' then 0 else
      assert '.' in s[1..];
      var j := FirstDot(s[1..]);
      assert s[..j + 1] == [s[0]] + s[1..][..j];
      j + 1
  }

  /** `s.split(".")`. */
  function Split(s: string): (parts: seq<string>)
    ensures |parts| >= 1
    ensures forall j :: 0 <= j < |parts| ==> '.' !in parts[j]
    decreases |s|
  {
    if '.' !in s then [s]
    else
      var i := FirstDot(s);
      [s[..i]] + Split(s[i + 1..])
  }

  /** `".".join(parts)`. */
  function Join(parts: seq<string>): string
    requires |parts| >= 1
  {
    if |parts| == 1 then parts[0] else parts[0] + "." + Join(parts[1..])
  }

  /** Splitting on dots and joining back gives the string again. */
  lemma {:induction false} SplitJoin(s: string)
    ensures Join(Split(s)) == s
    decreases |s|
  {
    if '.' in s {
      var i := FirstDot(s);
      var rest := Split(s[i + 1..]);
      var parts := [s[..i]] + rest;
      assert Split(s) == parts;
      assert parts[1..] == rest && |parts| != 1;
      assert Join(parts) == s[..i] + "." + Join(rest);
      SplitJoin(s[i + 1..]);
      assert s[..i] + "." + s[i + 1..] == s;
    }
  }

  /** Joining dot-free parts and splitting gives the parts again. */
  lemma {:induction false} JoinSplit(parts: seq<string>)
    requires |parts| >= 1
    requires forall j :: 0 <= j < |parts| ==> '.' !in parts[j]
    ensures Split(Join(parts)) == parts
    decreases |parts|
  {
    if |parts| > 1 {
      JoinSplit(parts[1..]);
      SplitCons(parts[0], Join(parts[1..]));
      assert [parts[0]] + parts[1..] == parts;
    }
  }

  /** A dot-free head followed by a dot splits off as the first part. */
  lemma SplitCons(head: string, tail: string)
    requires '.' !in head
    ensures Split(head + "." + tail) == [head] + Split(tail)
  {
    var s := head + "." + tail;
    assert s[|head|] == '.';
    assert forall k :: 0 <= k < |head| ==> s[k] == head[k];
    var i := FirstDot(s);
    if i < |head| {
      assert false;
    } else if i > |head| {
      assert false;
    }
    assert s[..i] == head && s[i + 1..] == tail;
  }

  /** `PurePath(name).stem`: the name without its last suffix, where a
      leading dot or a trailing dot does not start a suffix. */
  function Stem(name: string): (r: string)
    ensures r <= name
  {
    var i := LastDot(name);
    if 0 < i < |name| - 1 then name[..i] else name
  }

  /** `name.rfind(".")`. */
  function LastDot(name: string): (i: int)
    ensures -1 <= i < |name|
    ensures i >= 0 ==> name[i] == '.'
    ensures forall k :: i < k < |name| ==> name[k] != '.'
  {
    if name == [] then -1
    else if name[|name| - 1] == '.' then |name| - 1
    else LastDot(name[..|name| - 1])
  }

  /** A module file `m.py` has stem `m`. */
  lemma StemOfModule(m: string)
    requires m != [] && '.' !in m
    ensures Stem(m + ".py") == m
  {
    var name := m + ".py";
    assert name[..|name| - 1] == m + ".p";
    assert (m + ".p")[..|m| + 1] == m + ".";
    assert LastDot(m + ".") == |m|;
    assert LastDot(m + ".p") == |m|;
    assert LastDot(name) == |m|;
    assert name[..|m|] == m;
  }

  /** Python's `<` on strings: code point by code point, a proper prefix
      first. */
  predicate StrLess(a: string, b: string)
    decreases |a|
  {
    if a == [] then b != []
    else if b == [] then false
    else if a[0] != b[0] then a[0] < b[0]
    else StrLess(a[1..], b[1..])
  }

  lemma {:induction false} StrLessIrreflexive(a: string)
    ensures !StrLess(a, a)
    decreases |a|
  {
    if a != [] { StrLessIrreflexive(a[1..]); }
  }

  lemma {:induction false} StrLessTransitive(a: string, b: string, c: string)
    requires StrLess(a, b) && StrLess(b, c)
    ensures StrLess(a, c)
    decreases |a|
  {
    if a != [] && b != [] && c != [] && a[0] == b[0] && b[0] == c[0] {
      StrLessTransitive(a[1..], b[1..], c[1..]);
    }
  }

  lemma {:induction false} StrLessTotal(a: string, b: string)
    requires a != b
    ensures StrLess(a, b) || StrLess(b, a)
    decreases |a|
  {
    if a != [] && b != [] && a[0] == b[0] {
      assert a == [a[0]] + a[1..] && b == [b[0]] + b[1..];
      StrLessTotal(a[1..], b[1..]);
    }
  }

  lemma {:induction false} StrLessAsymmetric(a: string, b: string)
    requires StrLess(a, b)
    ensures !StrLess(b, a)
    decreases |a|
  {
    if a != [] && b != [] && a[0] == b[0] {
      StrLessAsymmetric(a[1..], b[1..]);
    }
  }

  predicate StrictlySorted(s: seq<string>) {
    forall i, j :: 0 <= i < j < |s| ==> StrLess(s[i], s[j])
  }

  /** `sorted(items)` for a set of strings: its elements in increasing
      order, each once. */
  method Sorted(items: set<string>) returns (r: seq<string>)
    ensures StrictlySorted(r)
    ensures |r| == |items|
    ensures forall x :: x in r <==> x in items
  {
    r := [];
    var rest := items;
    while rest != {}
      invariant rest <= items
      invariant StrictlySorted(r)
      invariant forall x :: x in r <==> x in items && x !in rest
      invariant forall i, y :: 0 <= i < |r| && y in rest ==> StrLess(r[i], y)
      invariant |r| + |rest| == |items|
      decreases |rest|
    {
      var m := Least(rest);
      r := r + [m];
      rest := rest - {m};
    }
  }

  /** The least element of a non-empty set of strings. */
  method Least(items: set<string>) returns (m: string)
    requires items != {}
    ensures m in items
    ensures forall y :: y in items && y != m ==> StrLess(m, y)
  {
    m :| m in items;
    var todo := items - {m};
    while todo != {}
      invariant todo <= items && m in items && m !in todo
      invariant forall y :: y in items && y !in todo && y != m ==> StrLess(m, y)
      decreases |todo|
    {
      var y :| y in todo;
      if StrLess(y, m) {
        forall z | z in items && z !in todo && z != y
          ensures StrLess(y, z)
        {
          if z != m { StrLessTransitive(y, m, z); }
        }
        m := y;
      } else if y != m {
        StrLessTotal(y, m);
      }
      todo := todo - {y};
    }
  }
}
