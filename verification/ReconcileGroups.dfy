/** How reconcile-charges (cmd/server/reconcile_cmd.go) reads its work: dropped rows folded into groups,
    and masked tokens mapped back to the one secret they can stand for. */
module ReconcileGroups {
  datatype DroppedRow = DroppedRow(
    ts: int, token: string, provider: string, model: string, cost: real,
    input: int, output: int, cacheRead: int, cacheCreate: int)

  datatype Dropped = Dropped(
    token: string, provider: string, rows: seq<DroppedRow>, requests: int, cost: real,
    input: int, output: int, cacheRead: int, cacheCreate: int)

  const NUL: char := 0 as char

  // The index key of a group: two strings joined by a NUL.
  function Join(token: string, provider: string): string {
    token + [NUL] + provider
  }

  function RowKey(r: DroppedRow): string {
    Join(r.token, r.provider)
  }

  function GroupKey(g: Dropped): string {
    Join(g.token, g.provider)
  }

  function NewGroup(r: DroppedRow): Dropped {
    Dropped(r.token, r.provider, [], 0, 0.0, 0, 0, 0, 0)
  }

  function Add(g: Dropped, r: DroppedRow): Dropped {
    Dropped(g.token, g.provider, g.rows + [r], g.requests + 1, g.cost + r.cost,
            g.input + r.input, g.output + r.output, g.cacheRead + r.cacheRead, g.cacheCreate + r.cacheCreate)
  }

  // ---------------------------------------------------------------- what a grouping is

  function Select(rows: seq<DroppedRow>, key: string): seq<DroppedRow> {
    if rows == [] then []
    else
      var r := rows[|rows| - 1];
      Select(rows[..|rows| - 1], key) + if RowKey(r) == key then [r] else []
  }

  datatype Sums = Sums(requests: int, cost: real, input: int, output: int, cacheRead: int, cacheCreate: int)

  function Plus(a: Sums, b: Sums): Sums {
    Sums(a.requests + b.requests, a.cost + b.cost, a.input + b.input, a.output + b.output,
         a.cacheRead + b.cacheRead, a.cacheCreate + b.cacheCreate)
  }

  function RowSums(rows: seq<DroppedRow>): Sums {
    if rows == [] then Sums(0, 0.0, 0, 0, 0, 0)
    else
      var r := rows[|rows| - 1];
      Plus(RowSums(rows[..|rows| - 1]), Sums(1, r.cost, r.input, r.output, r.cacheRead, r.cacheCreate))
  }

  function SumsOf(g: Dropped): Sums {
    Sums(g.requests, g.cost, g.input, g.output, g.cacheRead, g.cacheCreate)
  }

  function GroupSums(gs: seq<Dropped>): Sums {
    if gs == [] then Sums(0, 0.0, 0, 0, 0, 0) else Plus(GroupSums(gs[..|gs| - 1]), SumsOf(gs[|gs| - 1]))
  }

  function FirstAt(rows: seq<DroppedRow>, key: string): nat {
    if rows == [] || RowKey(rows[0]) == key then 0 else 1 + FirstAt(rows[1..], key)
  }

  // Each group is the run of rows with its key, in log order, with their totals; every row is in one.
  ghost predicate Grouped(rows: seq<DroppedRow>, gs: seq<Dropped>) {
    (forall i, j | 0 <= i < j < |gs| :: GroupKey(gs[i]) != GroupKey(gs[j])) &&
    (forall i | 0 <= i < |gs| :: gs[i].rows == Select(rows, GroupKey(gs[i])) && gs[i].rows != [] &&
                                 SumsOf(gs[i]) == RowSums(gs[i].rows)) &&
    (forall j | 0 <= j < |rows| :: exists i :: 0 <= i < |gs| && GroupKey(gs[i]) == RowKey(rows[j]))
  }

  ghost predicate FirstSeenOrder(rows: seq<DroppedRow>, gs: seq<Dropped>) {
    forall i, j | 0 <= i < j < |gs| :: FirstAt(rows, GroupKey(gs[i])) < FirstAt(rows, GroupKey(gs[j]))
  }

  lemma {:induction false} FirstAtGrows(rows: seq<DroppedRow>, r: DroppedRow, key: string)
    ensures FirstAt(rows, key) <= |rows|
    ensures FirstAt(rows, key) < |rows| ==> FirstAt(rows + [r], key) == FirstAt(rows, key)
    ensures FirstAt(rows, key) == |rows| ==>
              FirstAt(rows + [r], key) == |rows| + if RowKey(r) == key then 0 else 1
    ensures FirstAt(rows, key) == |rows| <==> Select(rows, key) == []
  {
    if rows != [] {
      FirstAtGrows(rows[1..], r, key);
      assert (rows + [r])[1..] == rows[1..] + [r];
      SelectFront(rows, key);
    }
  }

  lemma {:induction false} SelectFront(rows: seq<DroppedRow>, key: string)
    requires rows != []
    ensures Select(rows, key) == (if RowKey(rows[0]) == key then [rows[0]] else []) + Select(rows[1..], key)
  {
    hide RowKey;
    if |rows| == 1 {
      assert rows[..0] == [] && rows[1..] == [];
    } else {
      SelectFront(rows[..|rows| - 1], key);
      assert rows[1..][..|rows| - 2] == rows[..|rows| - 1][1..];
    }
  }

  lemma SelectGrows(rows: seq<DroppedRow>, r: DroppedRow, key: string)
    ensures Select(rows + [r], key) == Select(rows, key) + if RowKey(r) == key then [r] else []
  {
    assert (rows + [r])[..|rows|] == rows;
  }

  lemma SumsGrow(rows: seq<DroppedRow>, g: Dropped, r: DroppedRow)
    requires SumsOf(g) == RowSums(rows) && g.rows == rows
    ensures SumsOf(Add(g, r)) == RowSums(rows + [r])
  {
    assert (rows + [r])[..|rows|] == rows;
  }

  lemma FirstOfGroup(r: DroppedRow)
    ensures SumsOf(Add(NewGroup(r), r)) == RowSums([r]) && Add(NewGroup(r), r).rows == [r]
  {
    SumsGrow([], NewGroup(r), r);
    assert [] + [r] == [r];
  }

  // One more row, going into group i or opening a new one.
  ghost predicate Takes(gs: seq<Dropped>, r: DroppedRow, i: nat, gs': seq<Dropped>) {
    if i < |gs| then GroupKey(gs[i]) == RowKey(r) && gs' == gs[i := Add(gs[i], r)]
    else i == |gs| && (forall j | 0 <= j < |gs| :: GroupKey(gs[j]) != RowKey(r)) && gs' == gs + [Add(NewGroup(r), r)]
  }

  lemma RowJoins(rows: seq<DroppedRow>, gs: seq<Dropped>, r: DroppedRow, i: nat, gs': seq<Dropped>)
    requires Grouped(rows, gs) && Takes(gs, r, i, gs')
    ensures Grouped(rows + [r], gs')
  {
    hide Select, RowSums, Join;
    var rows' := rows + [r];
    forall j | 0 <= j < |gs'| ensures GroupKey(gs'[j]) == if j < |gs| then GroupKey(gs[j]) else RowKey(r) {
    }
    forall j | 0 <= j < |gs'|
      ensures gs'[j].rows == Select(rows', GroupKey(gs'[j])) && gs'[j].rows != [] &&
                SumsOf(gs'[j]) == RowSums(gs'[j].rows)
    {
      SelectGrows(rows, r, GroupKey(gs'[j]));
      if j == i {
        if i == |gs| {
          NothingSelected(rows, gs, RowKey(r));
          FirstOfGroup(r);
        } else {
          SumsGrow(gs[i].rows, gs[i], r);
        }
      }
    }
    forall j | 0 <= j < |rows'| ensures exists k :: 0 <= k < |gs'| && GroupKey(gs'[k]) == RowKey(rows'[j]) {
      if j < |rows| {
        var k :| 0 <= k < |gs| && GroupKey(gs[k]) == RowKey(rows[j]);
        assert GroupKey(gs'[k]) == RowKey(rows'[j]);
      } else {
        assert GroupKey(gs'[i]) == RowKey(rows'[j]);
      }
    }
  }

  lemma NothingSelected(rows: seq<DroppedRow>, gs: seq<Dropped>, key: string)
    requires Grouped(rows, gs)
    requires forall i | 0 <= i < |gs| :: GroupKey(gs[i]) != key
    ensures Select(rows, key) == []
  {
    hide Select, RowSums, Join;
    forall j | 0 <= j < |rows| ensures RowKey(rows[j]) != key {
      var i :| 0 <= i < |gs| && GroupKey(gs[i]) == RowKey(rows[j]);
    }
    NoneSelected(rows, key);
  }

  lemma {:induction false} NoneSelected(rows: seq<DroppedRow>, key: string)
    requires forall j | 0 <= j < |rows| :: RowKey(rows[j]) != key
    ensures Select(rows, key) == []
  {
    if rows != [] {
      assert RowKey(rows[|rows| - 1]) != key;
      NoneSelected(rows[..|rows| - 1], key);
    }
  }

  lemma OrderKept(rows: seq<DroppedRow>, gs: seq<Dropped>, r: DroppedRow, i: nat, gs': seq<Dropped>)
    requires Grouped(rows, gs) && FirstSeenOrder(rows, gs) && Takes(gs, r, i, gs')
    ensures FirstSeenOrder(rows + [r], gs')
  {
    hide FirstAt, Select, RowSums;
    forall j | 0 <= j < |gs| ensures FirstAt(rows + [r], GroupKey(gs[j])) == FirstAt(rows, GroupKey(gs[j])) < |rows| {
      FirstAtGrows(rows, r, GroupKey(gs[j]));
    }
    if i == |gs| {
      NothingSelected(rows, gs, RowKey(r));
      FirstAtGrows(rows, r, RowKey(r));
    }
    forall j | 0 <= j < |gs'| ensures GroupKey(gs'[j]) == if j < |gs| then GroupKey(gs[j]) else RowKey(r) {
    }
  }

  // Nothing is lost or counted twice: the groups' totals are the rows' totals.
  lemma {:induction false} SumsTaken(gs: seq<Dropped>, r: DroppedRow, i: nat, gs': seq<Dropped>)
    requires Takes(gs, r, i, gs')
    ensures GroupSums(gs') == Plus(GroupSums(gs), Sums(1, r.cost, r.input, r.output, r.cacheRead, r.cacheCreate))
  {
    if i == |gs| {
      assert gs'[..|gs|] == gs;
    } else if i == |gs| - 1 {
      assert gs'[..|gs| - 1] == gs[..|gs| - 1];
    } else {
      assert gs'[..|gs| - 1] == gs[..|gs| - 1][i := Add(gs[i], r)];
      SumsTaken(gs[..|gs| - 1], r, i, gs'[..|gs| - 1]);
    }
  }

  // A group carries the token and provider of its first row …
  ghost predicate NamedByFirst(gs: seq<Dropped>) {
    forall i | 0 <= i < |gs| ::
      gs[i].rows != [] && gs[i].token == gs[i].rows[0].token && gs[i].provider == gs[i].rows[0].provider
  }

  lemma NamesKept(gs: seq<Dropped>, r: DroppedRow, i: nat, gs': seq<Dropped>)
    requires NamedByFirst(gs) && Takes(gs, r, i, gs')
    ensures NamedByFirst(gs')
  {
  }

  // … and of all its rows, if it is to be billed as one.
  ghost predicate OwnRows(g: Dropped) {
    forall j | 0 <= j < |g.rows| :: g.rows[j].token == g.token && g.rows[j].provider == g.provider
  }

  ghost predicate AllOwnRows(gs: seq<Dropped>) {
    forall i | 0 <= i < |gs| :: OwnRows(gs[i])
  }

  // No two rows of different tokens or providers share a key.
  ghost predicate Distinguished(rows: seq<DroppedRow>) {
    forall i, j | 0 <= i < |rows| && 0 <= j < |rows| && RowKey(rows[i]) == RowKey(rows[j]) ::
      rows[i].token == rows[j].token && rows[i].provider == rows[j].provider
  }

  lemma {:induction false} SelectedIsARow(rows: seq<DroppedRow>, key: string, j: nat) returns (k: nat)
    requires j < |Select(rows, key)|
    ensures k < |rows| && rows[k] == Select(rows, key)[j] && RowKey(rows[k]) == key
  {
    hide RowKey;
    var fewer := rows[..|rows| - 1];
    if j < |Select(fewer, key)| {
      k := SelectedIsARow(fewer, key, j);
    } else {
      k := |rows| - 1;
    }
  }

  lemma {:induction false} RowIsSelected(rows: seq<DroppedRow>, k: nat) returns (j: nat)
    requires k < |rows|
    ensures j < |Select(rows, RowKey(rows[k]))| && Select(rows, RowKey(rows[k]))[j] == rows[k]
  {
    hide RowKey;
    var fewer := rows[..|rows| - 1];
    if k < |fewer| {
      j := RowIsSelected(fewer, k);
    } else {
      j := |Select(fewer, RowKey(rows[k]))|;
    }
  }

  lemma DistinguishedGroupsAreOwn(rows: seq<DroppedRow>, gs: seq<Dropped>)
    requires Grouped(rows, gs) && NamedByFirst(gs) && Distinguished(rows)
    ensures AllOwnRows(gs)
  {
    hide Select, RowSums, RowKey;
    forall i, j | 0 <= i < |gs| && 0 <= j < |gs[i].rows|
      ensures gs[i].rows[j].token == gs[i].token && gs[i].rows[j].provider == gs[i].provider
    {
      var first := SelectedIsARow(rows, GroupKey(gs[i]), 0);
      var k := SelectedIsARow(rows, GroupKey(gs[i]), j);
      assert RowKey(rows[first]) == RowKey(rows[k]);
    }
  }

  lemma OwnGroupsAreDistinguished(rows: seq<DroppedRow>, gs: seq<Dropped>)
    requires Grouped(rows, gs) && AllOwnRows(gs)
    ensures Distinguished(rows)
  {
    hide Select, RowSums, RowKey;
    forall i, j | 0 <= i < |rows| && 0 <= j < |rows| && RowKey(rows[i]) == RowKey(rows[j])
      ensures rows[i].token == rows[j].token && rows[i].provider == rows[j].provider
    {
      var g :| 0 <= g < |gs| && GroupKey(gs[g]) == RowKey(rows[i]);
      var a := RowIsSelected(rows, i);
      var b := RowIsSelected(rows, j);
      assert OwnRows(gs[g]) && gs[g].rows[a] == rows[i] && gs[g].rows[b] == rows[j];
    }
  }

  /** One group per key, in the order in which the keys come up. The rows of a group are of its own token
      and provider exactly if the keys of the rows tell their pairs apart. */
  method GroupDropped(rows: seq<DroppedRow>) returns (out: seq<Dropped>)
    ensures Grouped(rows, out) && FirstSeenOrder(rows, out) && GroupSums(out) == RowSums(rows)
    ensures AllOwnRows(out) <==> Distinguished(rows)
  {
    hide Grouped, FirstSeenOrder, GroupSums, Join, NamedByFirst, AllOwnRows, Distinguished;
    var idx: map<string, nat> := map[];
    out := [];
    NoRowsNoGroups();
    for n := 0 to |rows|
      invariant Grouped(rows[..n], out) && FirstSeenOrder(rows[..n], out) && GroupSums(out) == RowSums(rows[..n])
      invariant NamedByFirst(out)
      invariant forall k | k in idx :: idx[k] < |out| && GroupKey(out[idx[k]]) == k
      invariant forall i | 0 <= i < |out| :: GroupKey(out[i]) in idx
    {
      var r := rows[n];
      var k := r.token + [NUL] + r.provider;
      assert k == RowKey(r) by {
        JoinIs(r);
      }
      ghost var was := out;
      var i;
      if k in idx {
        i := idx[k];
      } else {
        i := |out|;
        idx := idx[k := i];
        out := out + [NewGroup(r)];
      }
      assert GroupKey(out[i]) == k;
      var g := Add(out[i], r);
      out := out[i := g];
      assert rows[..n + 1] == rows[..n] + [r];
      assert rows[..n + 1][..n] == rows[..n];
      RowJoins(rows[..n], was, r, i, out);
      OrderKept(rows[..n], was, r, i, out);
      SumsTaken(was, r, i, out);
      NamesKept(was, r, i, out);
    }
    assert rows[..|rows|] == rows;
    if Distinguished(rows) {
      DistinguishedGroupsAreOwn(rows, out);
    }
    if AllOwnRows(out) {
      OwnGroupsAreDistinguished(rows, out);
    }
  }

  lemma JoinIs(r: DroppedRow)
    ensures RowKey(r) == r.token + [NUL] + r.provider
  {
  }

  lemma NoRowsNoGroups()
    ensures Grouped([], []) && FirstSeenOrder([], []) && GroupSums([]) == RowSums([]) && NamedByFirst([])
  {
  }

  // The key of (t, p) reads as that of (t', p'), whose token is longer: it takes in a NUL and a part of p.
  ghost predicate ReadsAs(t: string, p: string, t': string, p': string) {
    exists b :: t' == t + [NUL] + b && p == b + [NUL] + p'
  }

  lemma ReadsAsJoins(t: string, p: string, t': string, p': string)
    requires ReadsAs(t, p, t', p')
    ensures Join(t, p) == Join(t', p')
  {
    var b :| t' == t + [NUL] + b && p == b + [NUL] + p';
    assert Join(t, p) == t + [NUL] + b + [NUL] + p';
  }

  lemma LongerReads(t: string, p: string, t': string, p': string)
    requires Join(t, p) == Join(t', p') && |t| < |t'|
    ensures ReadsAs(t, p, t', p')
  {
    var key := Join(t, p);
    var b := t'[|t| + 1..];
    assert t == key[..|t|] && key[..|t'|] == t' && key[|t|] == NUL;
    assert t' == t + [NUL] + b;
    assert p == key[|t| + 1..] == b + [NUL] + p';
  }

  // When exactly two pairs share a key.
  lemma JoinCollidesExactly(t: string, p: string, t': string, p': string)
    ensures Join(t, p) == Join(t', p') <==>
            (t == t' && p == p') || ReadsAs(t, p, t', p') || ReadsAs(t', p', t, p)
  {
    if ReadsAs(t, p, t', p') {
      ReadsAsJoins(t, p, t', p');
    }
    if ReadsAs(t', p', t, p) {
      ReadsAsJoins(t', p', t, p);
    }
    if Join(t, p) == Join(t', p') {
      if |t| < |t'| {
        LongerReads(t, p, t', p');
      } else if |t'| < |t| {
        LongerReads(t', p', t, p);
      } else {
        assert t == Join(t, p)[..|t|] && t' == Join(t', p')[..|t|];
        assert p == Join(t, p)[|t| + 1..] && p' == Join(t', p')[|t| + 1..];
      }
    }
  }

  // Providers without a NUL never collide, whatever the tokens; neither do tokens without one.
  lemma JoinIsInjective(t: string, p: string, t': string, p': string)
    requires (NUL !in p && NUL !in p') || (NUL !in t && NUL !in t')
    requires Join(t, p) == Join(t', p')
    ensures t == t' && p == p'
  {
    JoinCollidesExactly(t, p, t', p');
    if ReadsAs(t, p, t', p') {
      HasNul(t, p, t', p');
    } else if ReadsAs(t', p', t, p) {
      HasNul(t', p', t, p);
    }
  }

  lemma HasNul(t: string, p: string, t': string, p': string)
    requires ReadsAs(t, p, t', p')
    ensures NUL in p && NUL in t'
  {
    var b :| t' == t + [NUL] + b && p == b + [NUL] + p';
    assert p[|b|] == NUL && t'[|t|] == NUL;
  }

  // The names of the providers the gateway knows hold no NUL.
  lemma PlainProvidersAreDistinguished(rows: seq<DroppedRow>)
    requires forall i | 0 <= i < |rows| :: NUL !in rows[i].provider
    ensures Distinguished(rows)
  {
    hide Join;
    forall i, j | 0 <= i < |rows| && 0 <= j < |rows| && RowKey(rows[i]) == RowKey(rows[j])
      ensures rows[i].token == rows[j].token && rows[i].provider == rows[j].provider
    {
      JoinIsInjective(rows[i].token, rows[i].provider, rows[j].token, rows[j].provider);
    }
  }

  // ---------------------------------------------------------------- unmasking

  // maskClientToken of internal/server/proxy.go.
  function Mask(t: string): string {
    if |t| <= 10 then "***" else t[..6] + "…" + t[|t| - 4..]
  }

  // Two tokens look alike in the log exactly if both are too short to show anything, or both are long and
  // agree in the six characters at the front and the four at the end.
  lemma MasksCollideExactly(s: string, t: string)
    ensures Mask(s) == Mask(t) <==>
      (|s| <= 10 && |t| <= 10) || (|s| > 10 && |t| > 10 && s[..6] == t[..6] && s[|s| - 4..] == t[|t| - 4..])
    ensures |s| <= 10 ==> Mask(s) == "***"
    ensures |s| > 10 ==> |Mask(s)| == 11 && Mask(s)[6] == '…'
  {
    if |s| > 10 && |t| > 10 && Mask(s) == Mask(t) {
      assert s[..6] == Mask(s)[..6] && t[..6] == Mask(t)[..6];
      assert s[|s| - 4..] == Mask(s)[7..] && t[|t| - 4..] == Mask(t)[7..];
    }
  }

  datatype Secret = Known(secret: string) | Unknown | Ambiguous

  datatype Unmasker = Unmasker(byMask: map<string, string>, ambiguous: set<string>) {
    function Unmask(masked: string): Secret {
      if masked in ambiguous then Ambiguous
      else if masked !in byMask then Unknown
      else Known(byMask[masked])
    }
  }

  function Candidates(secrets: seq<string>, masked: string): seq<string> {
    if secrets == [] then []
    else
      var last := secrets[|secrets| - 1];
      Candidates(secrets[..|secrets| - 1], masked) + if Mask(last) == masked then [last] else []
  }

  ghost predicate Answers(u: Unmasker, secrets: seq<string>, masked: string) {
    var all := Candidates(secrets, masked);
    match u.Unmask(masked)
    case Unknown => all == []
    case Known(secret) => all == [secret]
    case Ambiguous => |all| > 1
  }

  // A masked value is mapped to a secret exactly when one listed token masks to it, and to that one.
  method BuildUnmasker(secrets: seq<string>) returns (u: Unmasker)
    ensures forall masked :: Answers(u, secrets, masked)
  {
    var byMask: map<string, string>, ambiguous: set<string> := map[], {};
    for i := 0 to |secrets|
      invariant forall masked :: Answers(Unmasker(byMask, ambiguous), secrets[..i], masked)
      invariant ambiguous <= byMask.Keys
    {
      ghost var before := Unmasker(byMask, ambiguous);
      var sec := secrets[i];
      var m := Mask(sec);
      if m in byMask {
        ambiguous := ambiguous + {m};
      } else {
        byMask := byMask[m := sec];
      }
      ghost var after, listed := Unmasker(byMask, ambiguous), secrets[..i + 1];
      forall masked ensures Answers(after, listed, masked) {
        assert Answers(before, secrets[..i], masked);
        CandidatesGrow(secrets, i, masked);
      }
    }
    assert secrets[..|secrets|] == secrets;
    return Unmasker(byMask, ambiguous);
  }

  lemma CandidatesGrow(secrets: seq<string>, i: nat, masked: string)
    requires i < |secrets|
    ensures Candidates(secrets[..i + 1], masked) ==
            Candidates(secrets[..i], masked) + if Mask(secrets[i]) == masked then [secrets[i]] else []
  {
    assert secrets[..i + 1][..i] == secrets[..i];
  }

  // A known secret is the only listed token with that mask.
  lemma {:induction false} CandidateIsUnique(secrets: seq<string>, masked: string, secret: string, i: nat)
    requires Candidates(secrets, masked) == [secret] && i < |secrets| && Mask(secrets[i]) == masked
    ensures secrets[i] == secret
  {
    hide Mask;
    var fewer, last := secrets[..|secrets| - 1], secrets[|secrets| - 1];
    var before := Candidates(fewer, masked);
    assert Mask(last) == masked ==> |Candidates(secrets, masked)| == |before| + 1;
    if i < |fewer| {
      CandidateListed(fewer, masked, i);
      if Mask(last) != masked {
        assert before + [] == before;
        CandidateIsUnique(fewer, masked, secret, i);
      }
    } else {
      assert (before + [last])[|before|] == last;
    }
  }

  lemma {:induction false} CandidateListed(secrets: seq<string>, masked: string, i: nat)
    requires i < |secrets| && Mask(secrets[i]) == masked
    ensures Candidates(secrets, masked) != []
  {
    if i < |secrets| - 1 {
      CandidateListed(secrets[..|secrets| - 1], masked, i);
    }
  }
}
