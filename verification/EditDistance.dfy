/** The edit distance of internal/server/codex_model_guard.go: the two-row table computes the recursive
    distance, and that is the least number of single-character edits and a metric. */
module EditDistance {

  // ---------------------------------------------------------------- the recursive distance

  function Min(a: nat, b: nat): nat {
    if a <= b then a else b
  }

  function Init<T>(s: seq<T>): seq<T>
    requires s != []
  {
    s[..|s| - 1]
  }

  function Last<T>(s: seq<T>): T
    requires s != []
  {
    s[|s| - 1]
  }

  function Dist(a: string, b: string): nat
    decreases |a| + |b|
  {
    if a == [] then |b|
    else if b == [] then |a|
    else
      Min(Dist(Init(a), b) + 1,
          Min(Dist(a, Init(b)) + 1,
              Dist(Init(a), Init(b)) + (if Last(a) == Last(b) then 0 else 1)))
  }

  // ---------------------------------------------------------------- a metric

  lemma {:induction false} DistBounds(a: string, b: string)
    ensures |a| - |b| <= Dist(a, b) && |b| - |a| <= Dist(a, b)
    ensures Dist(a, b) <= if |a| <= |b| then |b| else |a|
    decreases |a| + |b|
  {
    if a != [] && b != [] {
      DistBounds(Init(a), b);
      DistBounds(a, Init(b));
      DistBounds(Init(a), Init(b));
    }
  }

  lemma {:induction false} DistSymmetric(a: string, b: string)
    ensures Dist(a, b) == Dist(b, a)
    decreases |a| + |b|
  {
    if a != [] && b != [] {
      DistSymmetric(Init(a), b);
      DistSymmetric(a, Init(b));
      DistSymmetric(Init(a), Init(b));
    }
  }

  lemma {:induction false} DistZero(a: string, b: string)
    ensures Dist(a, b) == 0 <==> a == b
    decreases |a| + |b|
  {
    if a != [] && b != [] {
      DistZero(Init(a), Init(b));
      assert a == Init(a) + [Last(a)] && b == Init(b) + [Last(b)];
    }
  }

  // The three ways in which a distance between non-empty strings is attained.
  lemma DistSteps(a: string, b: string)
    requires a != [] && b != []
    ensures Dist(a, b) <= Dist(Init(a), b) + 1
    ensures Dist(a, b) <= Dist(a, Init(b)) + 1
    ensures Dist(a, b) <= Dist(Init(a), Init(b)) + (if Last(a) == Last(b) then 0 else 1)
    ensures Dist(a, b) == Dist(Init(a), b) + 1 || Dist(a, b) == Dist(a, Init(b)) + 1 ||
            Dist(a, b) == Dist(Init(a), Init(b)) + (if Last(a) == Last(b) then 0 else 1)
  {
  }

  lemma {:induction false} Triangle(a: string, b: string, c: string)
    ensures Dist(a, c) <= Dist(a, b) + Dist(b, c)
    decreases |a| + |b| + |c|
  {
    if a == [] || b == [] || c == [] {
      DistBounds(a, b);
      DistBounds(b, c);
      DistBounds(a, c);
    } else {
      DistSteps(a, b);
      DistSteps(b, c);
      DistSteps(a, c);
      Triangle(Init(a), b, c);
      Triangle(a, b, Init(c));
      Triangle(a, Init(b), c);
      Triangle(a, Init(b), Init(c));
      Triangle(Init(a), Init(b), c);
      Triangle(Init(a), Init(b), Init(c));
    }
  }

  // ---------------------------------------------------------------- the least number of edits

  predicate Inserts(a: string, b: string, i: nat) {
    i < |b| && a == b[..i] + b[i + 1..]
  }

  predicate Replaces(a: string, b: string, i: nat) {
    i < |a| && |a| == |b| && a[..i] == b[..i] && a[i + 1..] == b[i + 1..]
  }

  // One character inserted, deleted or replaced, at any place.
  ghost predicate OneEdit(a: string, b: string) {
    exists i: nat :: Inserts(a, b, i) || Inserts(b, a, i) || Replaces(a, b, i)
  }

  // A chain of single edits from a to b.
  ghost predicate Edits(a: string, path: seq<string>, b: string) {
    |path| > 0 && path[0] == a && Last(path) == b &&
    forall k | 0 <= k < |path| - 1 :: OneEdit(path[k], path[k + 1])
  }

  lemma {:induction false} InsertCostsOne(a: string, b: string, i: nat)
    requires Inserts(a, b, i)
    ensures Dist(a, b) <= 1
    decreases |b|
  {
    if i == |b| - 1 {
      assert a == Init(b);
      DistZero(a, a);
    } else {
      assert Last(a) == Last(b);
      assert Init(a) == Init(b)[..i] + Init(b)[i + 1..];
      InsertCostsOne(Init(a), Init(b), i);
    }
  }

  lemma {:induction false} ReplaceCostsOne(a: string, b: string, i: nat)
    requires Replaces(a, b, i)
    ensures Dist(a, b) <= 1
    decreases |b|
  {
    if i == |b| - 1 {
      assert Init(a) == Init(b);
      DistZero(Init(a), Init(b));
    } else {
      assert a[i + 1..][|a| - i - 2] == b[i + 1..][|a| - i - 2];
      assert Init(a)[i + 1..] == a[i + 1..][..|a| - i - 2] == Init(b)[i + 1..];
      ReplaceCostsOne(Init(a), Init(b), i);
    }
  }

  lemma OneEditCostsOne(a: string, b: string)
    requires OneEdit(a, b)
    ensures Dist(a, b) <= 1
  {
    var i: nat :| Inserts(a, b, i) || Inserts(b, a, i) || Replaces(a, b, i);
    if Inserts(a, b, i) {
      InsertCostsOne(a, b, i);
    } else if Inserts(b, a, i) {
      InsertCostsOne(b, a, i);
      DistSymmetric(a, b);
    } else {
      ReplaceCostsOne(a, b, i);
    }
  }

  // No chain of edits is shorter than the distance.
  lemma {:induction false} DistIsLowerBound(a: string, path: seq<string>, b: string)
    requires Edits(a, path, b)
    ensures Dist(a, b) <= |path| - 1
    decreases |path|
  {
    if |path| == 1 {
      DistZero(a, b);
    } else {
      var mid := path[1];
      assert OneEdit(path[0], path[0 + 1]);
      OneEditCostsOne(a, mid);
      forall k | 0 <= k < |path[1..]| - 1 ensures OneEdit(path[1..][k], path[1..][k + 1]) {
        assert OneEdit(path[k + 1], path[k + 1 + 1]);
      }
      DistIsLowerBound(mid, path[1..], b);
      Triangle(a, mid, b);
    }
  }

  lemma EditsGrow(a: string, path: seq<string>, m: string, b: string)
    requires Edits(a, path, m) && OneEdit(m, b)
    ensures Edits(a, path + [b], b)
  {
    var p := path + [b];
    forall k | 0 <= k < |p| - 1 ensures OneEdit(p[k], p[k + 1]) {
      if k < |path| - 1 {
        assert OneEdit(path[k], path[k + 1]);
      }
    }
  }

  lemma EditsStart(a: string, m: string, path: seq<string>, b: string)
    requires OneEdit(a, m) && Edits(m, path, b)
    ensures Edits(a, [a] + path, b)
  {
    var p := [a] + path;
    forall k | 0 <= k < |p| - 1 ensures OneEdit(p[k], p[k + 1]) {
      if k > 0 {
        assert OneEdit(path[k - 1], path[k - 1 + 1]);
      }
    }
  }

  lemma SliceBefore(s: string, c: char, i: nat)
    requires i < |s|
    ensures (s + [c])[..i] == s[..i] && (s + [c])[i + 1..] == s[i + 1..] + [c]
  {
  }

  lemma InsertBefore(a: string, b: string, i: nat, c: char)
    requires Inserts(a, b, i)
    ensures Inserts(a + [c], b + [c], i)
  {
    SliceBefore(b, c, i);
    assert a + [c] == b[..i] + (b[i + 1..] + [c]);
  }

  lemma ReplaceBefore(a: string, b: string, i: nat, c: char)
    requires Replaces(a, b, i)
    ensures Replaces(a + [c], b + [c], i)
  {
    SliceBefore(a, c, i);
    SliceBefore(b, c, i);
  }

  lemma OneEditBefore(a: string, b: string, c: char)
    requires OneEdit(a, b)
    ensures OneEdit(a + [c], b + [c])
  {
    var i: nat :| Inserts(a, b, i) || Inserts(b, a, i) || Replaces(a, b, i);
    hide Inserts, Replaces;
    if Inserts(a, b, i) {
      InsertBefore(a, b, i, c);
    } else if Inserts(b, a, i) {
      InsertBefore(b, a, i, c);
    } else {
      ReplaceBefore(a, b, i, c);
    }
  }

  function Suffixed(path: seq<string>, c: char): (r: seq<string>)
    ensures |r| == |path| && forall k | 0 <= k < |path| :: r[k] == path[k] + [c]
  {
    seq(|path|, k requires 0 <= k < |path| => path[k] + [c])
  }

  lemma EditsBefore(a: string, path: seq<string>, b: string, c: char)
    requires Edits(a, path, b)
    ensures Edits(a + [c], Suffixed(path, c), b + [c])
  {
    var p := Suffixed(path, c);
    forall k | 0 <= k < |p| - 1 ensures OneEdit(p[k], p[k + 1]) {
      assert OneEdit(path[k], path[k + 1]);
      OneEditBefore(path[k], path[k + 1], c);
    }
  }

  lemma InitLast(s: string)
    requires s != []
    ensures Inserts(Init(s), s, |s| - 1) && s == Init(s) + [Last(s)]
  {
    assert s[|s|..] == [] && Init(s) + [] == Init(s);
  }

  // And one chain is as short.
  lemma {:induction false} DistIsAttained(a: string, b: string)
    ensures exists path :: Edits(a, path, b) && |path| - 1 == Dist(a, b)
    decreases |a| + |b|
  {
    hide OneEdit, Inserts, Replaces;
    if a == [] && b == [] {
      assert Edits(a, [a], b);
    } else if b != [] && (a == [] || Dist(a, b) == Dist(a, Init(b)) + 1) {
      DistIsAttained(a, Init(b));
      var path :| Edits(a, path, Init(b)) && |path| - 1 == Dist(a, Init(b));
      InitLast(b);
      InsertIsEdit(Init(b), b, |b| - 1);
      EditsGrow(a, path, Init(b), b);
    } else if b == [] || Dist(a, b) == Dist(Init(a), b) + 1 {
      DistIsAttained(Init(a), b);
      var path :| Edits(Init(a), path, b) && |path| - 1 == Dist(Init(a), b);
      InitLast(a);
      DeleteIsEdit(a, Init(a), |a| - 1);
      EditsStart(a, Init(a), path, b);
    } else {
      DistIsAttained(Init(a), Init(b));
      var path :| Edits(Init(a), path, Init(b)) && |path| - 1 == Dist(Init(a), Init(b));
      InitLast(a);
      InitLast(b);
      EditsBefore(Init(a), path, Init(b), Last(a));
      if Last(a) != Last(b) {
        var mid := Init(b) + [Last(a)];
        LastReplaced(mid, b);
        EditsGrow(a, Suffixed(path, Last(a)), mid, b);
      }
    }
  }

  lemma InsertIsEdit(a: string, b: string, i: nat)
    requires Inserts(a, b, i)
    ensures OneEdit(a, b)
  {
  }

  lemma DeleteIsEdit(a: string, b: string, i: nat)
    requires Inserts(b, a, i)
    ensures OneEdit(a, b)
  {
  }

  lemma LastReplaced(a: string, b: string)
    requires a != [] && b != [] && Init(a) == Init(b)
    ensures OneEdit(a, b)
  {
    assert a[|a|..] == b[|b|..];
    assert Replaces(a, b, |b| - 1);
  }

  // Two strings are within distance k exactly when k single edits lead from one to the other.
  lemma DistIsLeastEditCount(a: string, b: string, k: nat)
    ensures Dist(a, b) <= k <==> exists path :: Edits(a, path, b) && |path| - 1 <= k
  {
    if Dist(a, b) <= k {
      DistIsAttained(a, b);
    }
    if exists path :: Edits(a, path, b) && |path| - 1 <= k {
      var path :| Edits(a, path, b) && |path| - 1 <= k;
      DistIsLowerBound(a, path, b);
    }
  }

  // ---------------------------------------------------------------- the two-row table

  // Row i of the table: the distances of a[..i] to the prefixes of b, up to column n.
  ghost predicate Row(row: seq<nat>, a: string, i: nat, b: string, n: nat)
    requires i <= |a|
  {
    |row| == |b| + 1 && n <= |row| && forall j | 0 <= j < n :: row[j] == Dist(a[..i], b[..j])
  }

  lemma Prefixes(s: string, i: nat)
    requires i < |s|
    ensures s[..i + 1] != [] && Init(s[..i + 1]) == s[..i] && Last(s[..i + 1]) == s[i]
  {
  }

  // The entry that three neighbours determine.
  lemma Entry(a: string, i: nat, b: string, j: nat)
    requires i < |a| && j < |b|
    ensures Dist(a[..i + 1], b[..j + 1]) ==
            Min(Dist(a[..i], b[..j + 1]) + 1,
                Min(Dist(a[..i + 1], b[..j]) + 1, Dist(a[..i], b[..j]) + (if a[i] == b[j] then 0 else 1)))
  {
    hide Dist;
    Prefixes(a, i);
    Prefixes(b, j);
    DistSteps(a[..i + 1], b[..j + 1]);
  }

  lemma FirstColumn(a: string, i: nat, b: string)
    requires i <= |a|
    ensures Dist(a[..i], b[..0]) == i
  {
  }

  method FillRow(a: string, i: nat, b: string, prev: array<nat>, cur: array<nat>)
    requires i < |a| && prev != cur && cur.Length == |b| + 1
    requires Row(prev[..], a, i, b, |b| + 1)
    modifies cur
    ensures Row(cur[..], a, i + 1, b, |b| + 1)
  {
    hide Dist;
    FirstColumn(a, i + 1, b);
    cur[0] := i + 1;
    var j := 1;
    while j <= |b|
      invariant 1 <= j <= |b| + 1
      invariant Row(prev[..], a, i, b, |b| + 1) && Row(cur[..], a, i + 1, b, j)
    {
      var cost := if a[i] == b[j - 1] then 0 else 1;
      var m := prev[j] + 1;
      if cur[j - 1] + 1 < m {
        m := cur[j - 1] + 1;
      }
      if prev[j - 1] + cost < m {
        m := prev[j - 1] + cost;
      }
      Entry(a, i, b, j - 1);
      assert prev[..][j] == prev[j] && prev[..][j - 1] == prev[j - 1] && cur[..][j - 1] == cur[j - 1];
      cur[j] := m;
      j := j + 1;
    }
  }

  method Levenshtein(a: string, b: string) returns (d: nat)
    ensures d == Dist(a, b)
  {
    if a == b {
      DistZero(a, b);
      return 0;
    }
    if |a| == 0 {
      return |b|;
    }
    if |b| == 0 {
      return |a|;
    }
    var prev, cur := new nat[|b| + 1], new nat[|b| + 1];
    for j := 0 to |b| + 1
      invariant forall k | 0 <= k < j :: prev[k] == k
    {
      prev[j] := j;
    }
    var i := 0;
    while i < |a|
      invariant 0 <= i <= |a|
      invariant prev != cur && prev.Length == cur.Length == |b| + 1 && fresh(prev) && fresh(cur)
      invariant Row(prev[..], a, i, b, |b| + 1)
    {
      FillRow(a, i, b, prev, cur);
      prev, cur := cur, prev;
      i := i + 1;
    }
    assert a[..|a|] == a && b[..|b|] == b;
    return prev[|b|];
  }
}
