/** Which served model an unknown name stands for, as internal/server/codex_model_guard.go guesses it. */
module ModelName {
  import opened EditDistance

  // ---------------------------------------------------------------- names

  predicate CarriesIdentity(c: char) {
    'a' <= c <= 'z' || '0' <= c <= '9'
  }

  // Case folding is the runtime's; the results hold for any folding of single characters.
  function Normalize(lower: char -> char, s: string): (r: string)
    ensures forall i | 0 <= i < |r| :: CarriesIdentity(r[i])
    ensures |r| <= |s|
  {
    if s == [] then []
    else if CarriesIdentity(lower(s[0])) then [lower(s[0])] + Normalize(lower, s[1..])
    else Normalize(lower, s[1..])
  }

  // What is kept of a name is its letters and digits, in order and folded; everything else separates.
  lemma NormalizeOne(lower: char -> char, c: char)
    ensures Normalize(lower, [c]) ==
            if 'a' <= lower(c) <= 'z' || '0' <= lower(c) <= '9' then [lower(c)] else []
  {
    assert Normalize(lower, []) == [];
  }

  lemma {:induction false} NormalizeJoins(lower: char -> char, a: string, b: string)
    ensures Normalize(lower, a + b) == Normalize(lower, a) + Normalize(lower, b)
  {
    if a == [] {
      assert a + b == b;
    } else {
      assert (a + b)[1..] == a[1..] + b;
      NormalizeJoins(lower, a[1..], b);
    }
  }

  // So names that differ in a letter or a digit are told apart, wherever it is, and names that differ in
  // separators are not.
  lemma IdentityIsKept(lower: char -> char, a: string, c: char, b: string)
    requires 'a' <= lower(c) <= 'z' || '0' <= lower(c) <= '9'
    ensures Normalize(lower, a + [c] + b) == Normalize(lower, a) + [lower(c)] + Normalize(lower, b)
  {
    hide Normalize;
    NormalizeJoins(lower, a + [c], b);
    NormalizeJoins(lower, a, [c]);
    NormalizeOne(lower, c);
  }

  lemma SeparatorsDoNotCount(lower: char -> char, a: string, d: string, b: string)
    requires forall i | 0 <= i < |d| :: !('a' <= lower(d[i]) <= 'z' || '0' <= lower(d[i]) <= '9')
    ensures Normalize(lower, a + d + b) == Normalize(lower, a + b)
  {
    SeparatorsVanish(lower, d);
    hide Normalize;
    NormalizeJoins(lower, a + d, b);
    NormalizeJoins(lower, a, d);
    NormalizeJoins(lower, a, b);
  }

  lemma {:induction false} SeparatorsVanish(lower: char -> char, d: string)
    requires forall i | 0 <= i < |d| :: !('a' <= lower(d[i]) <= 'z' || '0' <= lower(d[i]) <= '9')
    ensures Normalize(lower, d) == []
  {
    if d != [] {
      SeparatorsVanish(lower, d[1..]);
    }
  }

  predicate OccursAt(s: string, sub: string, i: nat) {
    i + |sub| <= |s| && s[i..i + |sub|] == sub
  }

  // strings.Contains
  predicate Contains(s: string, sub: string) {
    exists i | 0 <= i <= |s| :: OccursAt(s, sub, i)
  }

  predicate Matches(lower: char -> char, w: string, exact: bool, m: string) {
    var n := Normalize(lower, m);
    if exact then n == w else Contains(n, w) || Contains(w, n)
  }

  function Distance(lower: char -> char, w: string, m: string): nat {
    Dist(w, Normalize(lower, m))
  }

  function Budget(w: string): nat {
    if |w| / 4 < 2 then 2 else |w| / 4
  }

  // ---------------------------------------------------------------- what a good choice is

  // Place i holds a candidate of least cost, and no earlier candidate is as cheap.
  ghost predicate FirstCheapest(
    names: seq<string>, i: nat, candidate: string -> bool, cost: string -> nat)
  {
    i < |names| && candidate(names[i]) &&
    forall j | 0 <= j < |names| && candidate(names[j]) ::
      cost(names[i]) <= cost(names[j]) && (j < i ==> cost(names[i]) < cost(names[j]))
  }

  ghost predicate NoCandidate(names: seq<string>, candidate: string -> bool) {
    forall j | 0 <= j < |names| :: !candidate(names[j])
  }

  // The first cheapest candidate, or "" if there is none.
  ghost predicate Picks(names: seq<string>, r: string, candidate: string -> bool, cost: string -> nat) {
    (NoCandidate(names, candidate) && r == "") ||
    exists i :: 0 <= i < |names| && FirstCheapest(names, i, candidate, cost) && r == names[i]
  }

  // Equal after normalization beats containment either way, and that beats edit distance; ties go to
  // the shorter name, then to the earlier one.
  ghost predicate Resolves(lower: char -> char, w: string, names: seq<string>, r: string) {
    var exact := m => Matches(lower, w, true, m);
    var near := m => Matches(lower, w, false, m);
    var close := m => Distance(lower, w, m) <= Budget(w);
    var length := m => |Normalize(lower, m)|;
    var distance := m => Distance(lower, w, m);
    if !NoCandidate(names, exact) then Picks(names, r, exact, length)
    else if !NoCandidate(names, near) then Picks(names, r, near, length)
    else Picks(names, r, close, distance)
  }

  // ---------------------------------------------------------------- the scans

  // One pass over the list. A listed "" would be taken for no match; no served model has that name.
  method BestMatch(lower: char -> char, w: string, available: seq<string>, exact: bool) returns (best: string)
    ensures best == "" || best in available
    ensures "" !in available ==>
              Picks(available, best, m => Matches(lower, w, exact, m), m => |Normalize(lower, m)|)
  {
    ghost var candidate := m => Matches(lower, w, exact, m);
    ghost var cost := m => |Normalize(lower, m)|;
    var bestScore := 0;
    best := "";
    assert Picks(available[..0], best, candidate, cost);
    hide Picks, Normalize;
    for i := 0 to |available|
      invariant best == "" || best in available[..i]
      invariant best != "" ==> bestScore == -|Normalize(lower, best)|
      invariant "" !in available ==> Picks(available[..i], best, candidate, cost)
    {
      var m := available[i];
      var n := Normalize(lower, m);
      ghost var before := best;
      if (exact && n == w) || (!exact && (Contains(n, w) || Contains(w, n))) {
        var score := -|n|;
        if best == "" || score > bestScore {
          best, bestScore := m, score;
        }
      }
      if "" !in available {
        Scan(available[..i], m, before, best, candidate, cost);
        assert available[..i + 1] == available[..i] + [m];
      }
    }
    assert available[..|available|] == available;
  }

  method NearestWithin(lower: char -> char, w: string, available: seq<string>, budget: nat) returns (best: string)
    ensures best == "" || best in available
    ensures "" !in available ==>
              Picks(available, best, m => Distance(lower, w, m) <= budget, m => Distance(lower, w, m))
  {
    ghost var candidate := m => Distance(lower, w, m) <= budget;
    ghost var cost := m => Distance(lower, w, m);
    var bestDist := budget + 1;
    best := "";
    assert Picks(available[..0], best, candidate, cost);
    hide Picks, Dist, Normalize;
    for i := 0 to |available|
      invariant best == "" || best in available
      invariant bestDist <= budget + 1
      invariant "" !in available ==> (best == "" <==> bestDist == budget + 1)
      invariant best != "" ==> bestDist == Distance(lower, w, best)
      invariant "" !in available ==> Picks(available[..i], best, candidate, cost)
    {
      var m := available[i];
      var d := Levenshtein(w, Normalize(lower, m));
      ghost var before := best;
      if d < bestDist {
        best, bestDist := m, d;
      }
      if "" !in available {
        assert m != "" && "" !in available[..i];
        Scan(available[..i], m, before, best, candidate, cost);
        assert available[..i + 1] == available[..i] + [m];
      }
    }
    assert available[..|available|] == available;
  }

  // One step of a scan that keeps the first of the cheapest candidates.
  lemma Scan(names: seq<string>, m: string, before: string, after: string,
             candidate: string -> bool, cost: string -> nat)
    requires "" !in names && m != "" && Picks(names, before, candidate, cost)
    requires after == if candidate(m) && (before == "" || cost(m) < cost(before)) then m else before
    ensures Picks(names + [m], after, candidate, cost)
  {
    var all := names + [m];
    if NoCandidate(names, candidate) {
      if candidate(m) {
        assert FirstCheapest(all, |names|, candidate, cost);
      }
    } else {
      var i :| 0 <= i < |names| && FirstCheapest(names, i, candidate, cost) && before == names[i];
      assert names[i] in names;
      if after == m && candidate(m) && cost(m) < cost(before) {
        assert FirstCheapest(all, |names|, candidate, cost);
      } else {
        assert FirstCheapest(all, i, candidate, cost);
        assert after == all[i];
      }
    }
  }

  method ClosestModelName(lower: char -> char, want: string, available: seq<string>) returns (r: string)
    ensures r == "" || r in available
    ensures Normalize(lower, want) == "" ==> r == ""
    ensures Normalize(lower, want) != "" && "" !in available ==>
              Resolves(lower, Normalize(lower, want), available, r)
  {
    if |available| == 0 {
      return "";
    }
    var w := Normalize(lower, want);
    if w == "" {
      return "";
    }
    r := BestMatch(lower, w, available, true);
    if r != "" {
      return;
    }
    r := BestMatch(lower, w, available, false);
    if r != "" {
      return;
    }
    r := NearestWithin(lower, w, available, Budget(w));
  }

  // ---------------------------------------------------------------- what the choice means

  // One name is the other with something before or after it.
  ghost predicate Within(small: string, big: string) {
    exists a, b :: big == a + small + b
  }

  lemma WithinIsContains(small: string, big: string)
    ensures Within(small, big) <==> Contains(big, small)
  {
    if Contains(big, small) {
      var i :| 0 <= i <= |big| && OccursAt(big, small, i);
      assert big == big[..i] + small + big[i + |small|..];
    }
    if Within(small, big) {
      var a, b :| big == a + small + b;
      assert OccursAt(big, small, |a|);
    }
  }

  // Few enough slips for a typo: two, or one in four characters.
  predicate IsTypo(w: string, slips: nat) {
    slips <= 2 || 4 * slips <= |w|
  }

  predicate Same(lower: char -> char, w: string, m: string) {
    Normalize(lower, m) == w
  }

  ghost predicate Related(lower: char -> char, w: string, m: string) {
    Within(w, Normalize(lower, m)) || Within(Normalize(lower, m), w)
  }

  predicate Near(lower: char -> char, w: string, m: string) {
    IsTypo(w, Dist(w, Normalize(lower, m)))
  }

  // The choice in terms of the names: the same letters and digits if a name has them; else the shortest of
  // those that continue the wanted name or are continued by it; else the nearest if it is near enough to be
  // a typo; and nothing only if there is no such name at all.
  lemma ChoiceExplained(lower: char -> char, w: string, names: seq<string>, r: string)
    requires Resolves(lower, w, names, r)
    ensures if exists m :: m in names && Same(lower, w, m) then r in names && Same(lower, w, r)
            else if exists m :: m in names && Related(lower, w, m) then
              r in names && Related(lower, w, r) &&
              forall m | m in names && Related(lower, w, m) :: |Normalize(lower, r)| <= |Normalize(lower, m)|
            else if exists m :: m in names && Near(lower, w, m) then
              r in names && forall m | m in names :: Dist(w, Normalize(lower, r)) <= Dist(w, Normalize(lower, m))
            else r == ""
  {
    var exact := m => Matches(lower, w, true, m);
    var near := m => Matches(lower, w, false, m);
    var close := m => Distance(lower, w, m) <= Budget(w);
    var length := m => |Normalize(lower, m)|;
    var distance := m => Distance(lower, w, m);
    forall m: string ensures exact(m) == Same(lower, w, m) && near(m) == Related(lower, w, m)
                     ensures close(m) == Near(lower, w, m)
    {
      WithinIsContains(w, Normalize(lower, m));
      WithinIsContains(Normalize(lower, m), w);
    }
    hide Contains, Within, Normalize, Dist, Same, Related, Matches, NoCandidate, Picks;
    Candidates(names, exact);
    Candidates(names, near);
    Candidates(names, close);
    if !NoCandidate(names, exact) {
      PickExplained(names, r, exact, length);
    } else if !NoCandidate(names, near) {
      PickExplained(names, r, near, length);
    } else if NoCandidate(names, close) {
      NothingPicked(names, r, close, distance);
    } else {
      PickExplained(names, r, close, distance);
    }
  }

  lemma PickExplained(names: seq<string>, r: string, candidate: string -> bool, cost: string -> nat)
    requires Picks(names, r, candidate, cost) && !NoCandidate(names, candidate)
    ensures r in names && candidate(r) && forall m | m in names && candidate(m) :: cost(r) <= cost(m)
  {
    forall m | m in names && candidate(m) ensures cost(r) <= cost(m) {
      var j :| 0 <= j < |names| && names[j] == m;
      assert candidate(names[j]);
    }
  }

  lemma NothingPicked(names: seq<string>, r: string, candidate: string -> bool, cost: string -> nat)
    requires Picks(names, r, candidate, cost) && NoCandidate(names, candidate)
    ensures r == ""
  {
  }

  lemma Candidates(names: seq<string>, candidate: string -> bool)
    ensures NoCandidate(names, candidate) <==> forall m | m in names :: !candidate(m)
  {
    if NoCandidate(names, candidate) {
      forall m | m in names ensures !candidate(m) {
        var j :| 0 <= j < |names| && names[j] == m;
        assert !candidate(names[j]);
      }
    } else {
      var j :| 0 <= j < |names| && candidate(names[j]);
      assert names[j] in names;
    }
  }

  // The three rules leave no freedom.
  lemma ChoiceIsUnique(lower: char -> char, w: string, names: seq<string>, r1: string, r2: string)
    requires Resolves(lower, w, names, r1) && Resolves(lower, w, names, r2)
    ensures r1 == r2
  {
    var exact := m => Matches(lower, w, true, m);
    var near := m => Matches(lower, w, false, m);
    var close := m => Distance(lower, w, m) <= Budget(w);
    if !NoCandidate(names, exact) {
      PickIsUnique(names, r1, r2, exact, m => |Normalize(lower, m)|);
    } else if !NoCandidate(names, near) {
      PickIsUnique(names, r1, r2, near, m => |Normalize(lower, m)|);
    } else {
      PickIsUnique(names, r1, r2, close, m => Distance(lower, w, m));
    }
  }

  lemma PickIsUnique(names: seq<string>, r1: string, r2: string, candidate: string -> bool, cost: string -> nat)
    requires Picks(names, r1, candidate, cost) && Picks(names, r2, candidate, cost)
    ensures r1 == r2
  {
    if !NoCandidate(names, candidate) {
      var i :| 0 <= i < |names| && FirstCheapest(names, i, candidate, cost) && r1 == names[i];
      var j :| 0 <= j < |names| && FirstCheapest(names, j, candidate, cost) && r2 == names[j];
      assert i == j;
    }
  }

  // A guess by distance is the intended name when every other served name is more than twice as far
  // from it as the typo: the triangle inequality rules the others out.
  lemma TypoOfASeparatedName(lower: char -> char, w: string, names: seq<string>, r: string, k: nat)
    requires Resolves(lower, w, names, r) && k < |names|
    requires NoCandidate(names, m => Matches(lower, w, true, m))
    requires NoCandidate(names, m => Matches(lower, w, false, m))
    requires Distance(lower, w, names[k]) <= Budget(w)
    requires forall j | 0 <= j < |names| && j != k ::
               Dist(Normalize(lower, names[k]), Normalize(lower, names[j])) > 2 * Distance(lower, w, names[k])
    ensures r == names[k]
  {
    var close := m => Distance(lower, w, m) <= Budget(w);
    var cost := m => Distance(lower, w, m);
    assert close(names[k]);
    var i :| 0 <= i < |names| && FirstCheapest(names, i, close, cost) && r == names[i];
    var n := Normalize(lower, names[k]);
    Triangle(n, w, Normalize(lower, names[i]));
    DistSymmetric(n, w);
    assert cost(names[i]) <= cost(names[k]);
  }

  // A listed name without any letter or digit is contained in every name, so it wins every guess that
  // is not an exact one.
  lemma NamelessWinsContainment(lower: char -> char, w: string, names: seq<string>, r: string, k: nat)
    requires Resolves(lower, w, names, r) && k < |names| && Normalize(lower, names[k]) == ""
    requires NoCandidate(names, m => Matches(lower, w, true, m))
    ensures Normalize(lower, r) == ""
  {
    var near := m => Matches(lower, w, false, m);
    assert OccursAt(w, "", 0) by {
      assert w[0..0] == "";
    }
    assert near(names[k]);
    var i :| 0 <= i < |names| && FirstCheapest(names, i, near, m => |Normalize(lower, m)|) && r == names[i];
  }
}
