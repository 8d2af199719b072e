/**
  The handful of Go `strings` operations the authorization engine and the
  DaemonSet searcher rely on, over `string` (= `seq<char>`).

  Go works on UTF-8 bytes; every cut set used here is ASCII, and comparing
  code points orders strings exactly as comparing their UTF-8 bytes does,
  so character-level definitions give the same answers.
 */
module StringUtil {

  /** strings.HasPrefix */
  predicate HasPrefix(s: string, prefix: string) {
    |prefix| <= |s| && s[..|prefix|] == prefix
  }

  /** strings.HasSuffix */
  predicate HasSuffix(s: string, suffix: string) {
    |suffix| <= |s| && s[|s| - |suffix|..] == suffix
  }

  /** strings.Contains: `sub` occurs somewhere in `s` (the empty string occurs everywhere). */
  predicate Contains(s: string, sub: string) {
    exists i :: 0 <= i <= |s| - |sub| && OccursAt(s, sub, i)
  }

  /** `sub` appears in `s` starting at index `i`. */
  predicate OccursAt(s: string, sub: string, i: int)
    requires 0 <= i <= |s| - |sub|
  {
    s[i..i + |sub|] == sub
  }

  /**
    strings.TrimLeft: drops every leading character that belongs to the cut set
    (a set of characters, not a prefix string).
   */
  function TrimLeft(s: string, cutset: string): (r: string)
    ensures |r| <= |s| && r == s[|s| - |r|..]
    ensures forall i :: 0 <= i < |s| - |r| ==> s[i] in cutset
    ensures r == [] || r[0] !in cutset
  {
    if |s| > 0 && s[0] in cutset then TrimLeft(s[1..], cutset) else s
  }

  /** strings.TrimRight: drops every trailing character that belongs to the cut set. */
  function TrimRight(s: string, cutset: string): (r: string)
    ensures |r| <= |s| && r == s[..|r|]
    ensures forall i :: |r| <= i < |s| ==> s[i] in cutset
    ensures r == [] || r[|r| - 1] !in cutset
  {
    if |s| > 0 && s[|s| - 1] in cutset then TrimRight(s[..|s| - 1], cutset) else s
  }

  /** The three postconditions of TrimLeft pin its result down: any split of `s`
      into a run of cut characters and a rest not starting with one is the trim. */
  lemma {:induction false} TrimLeftUnique(p: string, q: string, cutset: string)
    requires forall i :: 0 <= i < |p| ==> p[i] in cutset
    requires q == [] || q[0] !in cutset
    ensures TrimLeft(p + q, cutset) == q
  {
    if p == [] {
      assert p + q == q;
    } else {
      assert (p + q)[0] == p[0] && (p + q)[1..] == p[1..] + q;
      TrimLeftUnique(p[1..], q, cutset);
    }
  }

  /** Mirror image of TrimLeftUnique. */
  lemma {:induction false} TrimRightUnique(p: string, q: string, cutset: string)
    requires p == [] || p[|p| - 1] !in cutset
    requires forall i :: 0 <= i < |q| ==> q[i] in cutset
    ensures TrimRight(p + q, cutset) == p
  {
    if q == [] {
      assert p + q == p;
    } else {
      var s := p + q;
      assert s[|s| - 1] == q[|q| - 1] && s[..|s| - 1] == p + q[..|q| - 1];
      TrimRightUnique(p, q[..|q| - 1], cutset);
    }
  }

  /** strings.Compare: -1, 0 or +1 by lexicographic order of the characters. */
  function Compare(a: string, b: string): (c: int)
    ensures c == -1 || c == 0 || c == 1
    ensures c == 0 <==> a == b
  {
    if a == [] then (if b == [] then 0 else -1)
    else if b == [] then 1
    else if a[0] < b[0] then -1
    else if b[0] < a[0] then 1
    else Compare(a[1..], b[1..])
  }

  /** Swapping the operands negates the comparison. */
  lemma {:induction false} CompareAntisymmetric(a: string, b: string)
    ensures Compare(b, a) == -Compare(a, b)
  {
    if a != [] && b != [] && a[0] == b[0] {
      CompareAntisymmetric(a[1..], b[1..]);
    }
  }

  /** `Compare(a, b) <= 0` is a transitive relation. */
  lemma {:induction false} CompareTransitive(a: string, b: string, c: string)
    requires Compare(a, b) <= 0 && Compare(b, c) <= 0
    ensures Compare(a, c) <= 0
  {
    if a != [] && b != [] && c != [] && a[0] == b[0] == c[0] {
      CompareTransitive(a[1..], b[1..], c[1..]);
    }
  }
}
