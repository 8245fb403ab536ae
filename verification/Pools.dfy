/** Splitting entrants into pools, checking a placement, and counting the pool matches a change adds and removes. */
module Pools {
  import opened Wrappers
  import opened Lists
  import opened Ordering

  // ---------------------------------------------------------------- pool sizes

  function Ceil(a: nat, b: nat): nat
    requires b > 0
  {
    (a + b - 1) / b
  }

  function EvenPoolSizes(entrants: nat, poolSize: nat): (r: seq<nat>)
    requires poolSize > 0
  {
    var pools := Ceil(entrants, poolSize);
    seq(pools, index requires 0 <= index < pools => entrants / pools + if index < entrants % pools then 1 else 0)
  }

  function Sum(sizes: seq<nat>): nat {
    if sizes == [] then 0 else Sum(sizes[..|sizes| - 1]) + sizes[|sizes| - 1]
  }

  lemma {:induction false} SumOfEven(share: nat, extra: nat, sizes: seq<nat>)
    requires forall i | 0 <= i < |sizes| :: sizes[i] == share + if i < extra then 1 else 0
    ensures Sum(sizes) == share * |sizes| + if |sizes| < extra then |sizes| else extra
  {
    if sizes != [] { SumOfEven(share, extra, sizes[..|sizes| - 1]); }
  }

  lemma {:induction false} SumAtMost(sizes: seq<nat>, most: nat)
    requires forall size | size in sizes :: size <= most
    ensures Sum(sizes) <= most * |sizes|
  {
    if sizes != [] {
      var front := sizes[..|sizes| - 1];
      assert forall size :: size in front ==> size in sizes;
      SumAtMost(front, most);
      assert sizes[|sizes| - 1] in sizes;
      assert most * |sizes| == most * (|sizes| - 1) + most;
    }
  }

  lemma Cancel(factor: nat, a: int, b: int)
    requires factor * a < factor * b
    ensures a < b
  {
  }

  lemma CeilBounds(a: nat, b: nat)
    requires a > 0 && b > 0
    ensures Ceil(a, b) > 0 && b * (Ceil(a, b) - 1) < a <= b * Ceil(a, b)
  {
  }

  lemma ShareBounds(entrants: nat, pools: nat, poolSize: nat)
    requires pools > 0 && entrants <= poolSize * pools
    ensures entrants / pools <= poolSize && (entrants % pools > 0 ==> entrants / pools < poolSize)
  {
    var share, extra := entrants / pools, entrants % pools;
    assert entrants == pools * share + extra;
    assert pools * (poolSize + 1) == poolSize * pools + pools;
    Cancel(pools, share, poolSize + 1);
    if extra > 0 { Cancel(pools, share, poolSize); }
  }

  lemma EveryPoolUsed(entrants: nat, pools: nat, poolSize: nat)
    requires pools > 0 && poolSize > 0 && poolSize * (pools - 1) < entrants
    ensures entrants / pools > 0
  {
    assert poolSize * (pools - 1) == (poolSize - 1) * (pools - 1) + (pools - 1);
    assert (poolSize - 1) * (pools - 1) >= 0;
    assert entrants == pools * (entrants / pools) + entrants % pools;
    Cancel(pools, 0, entrants / pools);
  }

  lemma EvenPoolSizesAddUp(entrants: nat, poolSize: nat)
    requires poolSize > 0
    ensures Sum(EvenPoolSizes(entrants, poolSize)) == entrants
  {
    var sizes, pools := EvenPoolSizes(entrants, poolSize), Ceil(entrants, poolSize);
    if entrants > 0 {
      CeilBounds(entrants, poolSize);
      SumOfEven(entrants / pools, entrants % pools, sizes);
      assert entrants == entrants / pools * pools + entrants % pools;
    } else {
      assert pools == 0;
    }
  }

  lemma EvenPoolSizesAreEven(entrants: nat, poolSize: nat)
    requires poolSize > 0
    ensures forall size | size in EvenPoolSizes(entrants, poolSize) :: 0 < size <= poolSize
    ensures forall a, b | a in EvenPoolSizes(entrants, poolSize) && b in EvenPoolSizes(entrants, poolSize) :: a <= b + 1
  {
    if entrants > 0 {
      CeilBounds(entrants, poolSize);
      ShareBounds(entrants, Ceil(entrants, poolSize), poolSize);
      EveryPoolUsed(entrants, Ceil(entrants, poolSize), poolSize);
    }
  }

  lemma EvenPoolSizesAreFewest(entrants: nat, poolSize: nat, other: seq<nat>)
    requires poolSize > 0 && Sum(other) == entrants && forall size | size in other :: size <= poolSize
    ensures |EvenPoolSizes(entrants, poolSize)| <= |other|
  {
    SumAtMost(other, poolSize);
    if entrants > 0 {
      CeilBounds(entrants, poolSize);
      Cancel(poolSize, Ceil(entrants, poolSize) - 1, |other|);
    }
  }

  /** The sizes add up to the entrants, differ by at most one, exceed no pool, and no fewer pools could hold everyone. */
  lemma EvenPoolSizesAreFair(entrants: nat, poolSize: nat)
    requires poolSize > 0
    ensures var sizes := EvenPoolSizes(entrants, poolSize);
            && Sum(sizes) == entrants
            && (forall size | size in sizes :: 0 < size <= poolSize)
            && (forall a, b | a in sizes && b in sizes :: a <= b + 1)
            && (forall i, j | 0 <= i < j < |sizes| :: sizes[i] >= sizes[j])
            && (forall other: seq<nat> | Sum(other) == entrants && (forall size | size in other :: size <= poolSize) ::
                  |sizes| <= |other|)
  {
    EvenPoolSizesAddUp(entrants, poolSize);
    EvenPoolSizesAreEven(entrants, poolSize);
    forall other: seq<nat> | Sum(other) == entrants && (forall size | size in other :: size <= poolSize)
      ensures |EvenPoolSizes(entrants, poolSize)| <= |other|
    {
      EvenPoolSizesAreFewest(entrants, poolSize, other);
    }
  }

  // ---------------------------------------------------------------- checking a placement

  datatype RuleKind = Together | Apart

  datatype Rule = Rule(kind: RuleKind, entrantIds: seq<string>)

  datatype Placed = Placed(entrantId: string, poolId: string)

  datatype Basis = Basis(stageId: string, sizes: seq<nat>, entrantIds: seq<string>, poolIds: seq<string>)

  datatype Finding = RuleBroken | StageMismatch | RosterMismatch | PoolUndeclared | SizeMismatch

  /** The pool of an entrant, as a map built from the list holds it: the last one. */
  function PoolOf(assignments: seq<Placed>, entrantId: string): Option<string> {
    if assignments == [] then None
    else if assignments[|assignments| - 1].entrantId == entrantId then Some(assignments[|assignments| - 1].poolId)
    else PoolOf(assignments[..|assignments| - 1], entrantId)
  }

  predicate Broken(assignments: seq<Placed>, rule: Rule) {
    var pools := Map(rule.entrantIds, id => PoolOf(assignments, id));
    if rule.kind.Together? then |Values(pools)| != 1 else |Values(pools)| != |pools|
  }

  function RuleFindings(assignments: seq<Placed>, rules: seq<Rule>): seq<Finding> {
    if rules == [] then []
    else RuleFindings(assignments, rules[..|rules| - 1]) + if Broken(assignments, rules[|rules| - 1]) then [RuleBroken] else []
  }

  function InPool(assignments: seq<Placed>, poolId: string): seq<Placed> {
    Filter(assignments, (a: Placed) => a.poolId == poolId)
  }

  function PlacedIds(assignments: seq<Placed>): seq<string> {
    Map(assignments, (a: Placed) => a.entrantId)
  }

  predicate RosterDiffers(basis: Basis, assignments: seq<Placed>) {
    var placed := PlacedIds(assignments);
    || |placed| != |basis.entrantIds|
    || |Values(placed)| != |placed|
    || exists id :: id in basis.entrantIds && id !in placed
  }

  predicate Fills(basis: Basis, i: nat, count: nat) {
    i < |basis.sizes| && count == basis.sizes[i]
  }

  predicate SizesDiffer(basis: Basis, assignments: seq<Placed>) {
    exists i :: 0 <= i < |basis.poolIds| && !Fills(basis, i, |InPool(assignments, basis.poolIds[i])|)
  }

  function Findings(basis: Basis, stageId: string, assignments: seq<Placed>, rules: seq<Rule>): seq<Finding> {
    RuleFindings(assignments, rules)
    + (if stageId != basis.stageId then [StageMismatch] else [])
    + (if RosterDiffers(basis, assignments) then [RosterMismatch] else [])
    + (if exists a :: a in assignments && a.poolId !in basis.poolIds then [PoolUndeclared] else [])
    + (if SizesDiffer(basis, assignments) then [SizeMismatch] else [])
  }

  method PoolMembershipFindings(basis: Basis, stageId: string, assignments: seq<Placed>, rules: seq<Rule>)
    returns (findings: seq<Finding>)
    ensures findings == Findings(basis, stageId, assignments, rules)
  {
    findings := CheckRules(assignments, rules);
    if stageId != basis.stageId { findings := findings + [StageMismatch]; }
    if RosterDiffers(basis, assignments) { findings := findings + [RosterMismatch]; }
    if exists a :: a in assignments && a.poolId !in basis.poolIds { findings := findings + [PoolUndeclared]; }
    if SizesDiffer(basis, assignments) { findings := findings + [SizeMismatch]; }
  }

  method CheckRules(assignments: seq<Placed>, rules: seq<Rule>) returns (findings: seq<Finding>)
    ensures findings == RuleFindings(assignments, rules)
  {
    findings := [];
    for i := 0 to |rules|
      invariant findings == RuleFindings(assignments, rules[..i])
    {
      assert rules[..i + 1][..i] == rules[..i];
      if Broken(assignments, rules[i]) { findings := findings + [RuleBroken]; }
    }
    assert rules[..|rules|] == rules;
  }

  /** The entrants a placement puts in a pool. */
  ghost function Members(assignments: seq<Placed>, poolId: string): set<string> {
    set a | a in assignments && a.poolId == poolId :: a.entrantId
  }

  /** Entrants kept together are in one pool; entrants kept apart are in pools of their own. */
  ghost predicate Respects(assignments: seq<Placed>, rule: Rule) {
    match rule.kind
    case Together => rule.entrantIds != [] && forall a, b | a in rule.entrantIds && b in rule.entrantIds ::
        PoolOf(assignments, a) == PoolOf(assignments, b)
    case Apart => forall i, j | 0 <= i < j < |rule.entrantIds| ::
        PoolOf(assignments, rule.entrantIds[i]) != PoolOf(assignments, rule.entrantIds[j])
  }

  /** Every entrant is placed once, in a declared pool, and every declared pool has its declared number of members. */
  ghost predicate Partitions(basis: Basis, assignments: seq<Placed>) {
    && Distinct(PlacedIds(assignments))
    && Values(PlacedIds(assignments)) == Values(basis.entrantIds)
    && (forall a | a in assignments :: a.poolId in basis.poolIds)
    && forall i | 0 <= i < |basis.poolIds| :: Fills(basis, i, |Members(assignments, basis.poolIds[i])|)
  }

  lemma RespectsIffNotBroken(assignments: seq<Placed>, rule: Rule)
    ensures Broken(assignments, rule) <==> !Respects(assignments, rule)
  {
    var pools := Map(rule.entrantIds, id => PoolOf(assignments, id));
    assert Values(pools) == Elements(pools);
    DistinctCount(pools);
    if rule.kind.Together? {
      if Respects(assignments, rule) {
        assert forall p | p in pools :: p == pools[0];
        assert Values(pools) == {pools[0]};
      }
      if |Values(pools)| == 1 {
        SubsetOfSameSize({pools[0]}, Values(pools));
        forall a, b | a in rule.entrantIds && b in rule.entrantIds ensures PoolOf(assignments, a) == PoolOf(assignments, b) {
          var i :| 0 <= i < |rule.entrantIds| && rule.entrantIds[i] == a;
          var j :| 0 <= j < |rule.entrantIds| && rule.entrantIds[j] == b;
          assert pools[i] in Values(pools) && pools[j] in Values(pools);
        }
      }
    }
  }

  lemma {:induction false} NoRuleFindings(assignments: seq<Placed>, rules: seq<Rule>)
    ensures RuleFindings(assignments, rules) == [] <==> forall rule | rule in rules :: Respects(assignments, rule)
  {
    if rules != [] {
      NoRuleFindings(assignments, rules[..|rules| - 1]);
      RespectsIffNotBroken(assignments, rules[|rules| - 1]);
      assert rules == rules[..|rules| - 1] + [rules[|rules| - 1]];
    }
  }

  lemma MembersCount(assignments: seq<Placed>, poolId: string)
    requires Distinct(PlacedIds(assignments))
    ensures |InPool(assignments, poolId)| == |Members(assignments, poolId)|
  {
    var inPool := InPool(assignments, poolId);
    FilterKeepsDistinct(assignments, (a: Placed) => a.poolId == poolId, (a: Placed) => a.entrantId);
    var ids := Map(inPool, (a: Placed) => a.entrantId);
    DistinctCount(ids);
    assert Elements(ids) == Members(assignments, poolId) by {
      forall id | id in Members(assignments, poolId) ensures id in ids {
        var a :| a in inPool && a.entrantId == id;
        var i :| 0 <= i < |inPool| && inPool[i] == a;
        assert ids[i] == id;
      }
      forall id | id in ids ensures id in Members(assignments, poolId) {
        var i :| 0 <= i < |ids| && ids[i] == id;
        assert inPool[i] in inPool;
      }
    }
  }

  lemma RosterMatchesIff(basis: Basis, assignments: seq<Placed>)
    requires Distinct(basis.entrantIds)
    ensures !RosterDiffers(basis, assignments)
            <==> Distinct(PlacedIds(assignments)) && Values(PlacedIds(assignments)) == Values(basis.entrantIds)
  {
    var placed := PlacedIds(assignments);
    assert Values(placed) == Elements(placed) && Values(basis.entrantIds) == Elements(basis.entrantIds);
    DistinctCount(placed);
    DistinctCount(basis.entrantIds);
    if !RosterDiffers(basis, assignments) { DistinctFillsSameLength(basis.entrantIds, placed); }
    if Distinct(placed) && Values(placed) == Values(basis.entrantIds) {
      forall id | id in basis.entrantIds ensures id in placed { assert id in Values(placed); }
    }
  }

  /** A placement has no findings exactly when it names the stage, respects every rule and partitions the roster into the sizes. */
  lemma NoFindingsIffPartition(basis: Basis, stageId: string, assignments: seq<Placed>, rules: seq<Rule>)
    requires Distinct(basis.entrantIds)
    ensures Findings(basis, stageId, assignments, rules) == []
            <==> && stageId == basis.stageId && (forall rule | rule in rules :: Respects(assignments, rule))
                 && Partitions(basis, assignments)
  {
    NoRuleFindings(assignments, rules);
    RosterMatchesIff(basis, assignments);
    if Distinct(PlacedIds(assignments)) { SizesMatchIff(basis, assignments); }
  }

  lemma SizesMatchIff(basis: Basis, assignments: seq<Placed>)
    requires Distinct(PlacedIds(assignments))
    ensures !SizesDiffer(basis, assignments)
            <==> forall i | 0 <= i < |basis.poolIds| :: Fills(basis, i, |Members(assignments, basis.poolIds[i])|)
  {
    forall i | 0 <= i < |basis.poolIds|
      ensures |InPool(assignments, basis.poolIds[i])| == |Members(assignments, basis.poolIds[i])|
    {
      MembersCount(assignments, basis.poolIds[i]);
    }
  }

  // ---------------------------------------------------------------- the matches that a change adds and removes

  /** The pairs of these entrants that meet, each written in sorted order. */
  ghost function Pairs(ids: set<string>): set<(string, string)> {
    set a, b | a in ids && b in ids && a != b && StringLeq(a, b) :: (a, b)
  }

  /** The pool matches of a placement: pairs in sorted order with the same pool. */
  ghost function Meetings(pools: map<string, string>): set<(string, string)> {
    set a, b | a in pools && b in pools && a != b && StringLeq(a, b) && pools[a] == pools[b] :: (a, b)
  }

  method CollectMeetings(pools: map<string, string>, ids: seq<string>) returns (result: set<(string, string)>)
    requires Distinct(ids) && (forall i, j | 0 <= i < j < |ids| :: StringLeq(ids[i], ids[j]))
    requires forall id :: id in pools <==> id in ids
    ensures result == Meetings(pools)
  {
    result := {};
    for i := 0 to |ids|
      invariant forall p :: p in result <==> MeetsFrom(pools, ids, p, i)
    {
      ghost var before := result;
      for j := i + 1 to |ids|
        invariant forall p :: p in result <==> p in before || exists k :: i < k < j && Meets(pools, ids, p, i, k)
      {
        if pools[ids[i]] == pools[ids[j]] {
          assert Meets(pools, ids, (ids[i], ids[j]), i, j);
          result := result + {(ids[i], ids[j])};
        }
      }
    }
    forall p ensures p in result <==> p in Meetings(pools) {
      if p in Meetings(pools) {
        var i :| 0 <= i < |ids| && ids[i] == p.0;
        var j :| 0 <= j < |ids| && ids[j] == p.1;
        if j < i { StringLeqAntisymmetric(p.0, p.1); }
        assert Meets(pools, ids, p, i, j);
      }
    }
  }

  predicate Meets(pools: map<string, string>, ids: seq<string>, p: (string, string), i: int, j: int) {
    0 <= i < j < |ids| && p == (ids[i], ids[j]) && ids[i] in pools && ids[j] in pools && pools[ids[i]] == pools[ids[j]]
  }

  ghost predicate MeetsFrom(pools: map<string, string>, ids: seq<string>, p: (string, string), end: int) {
    exists i, j :: i < end && Meets(pools, ids, p, i, j)
  }

  /** How many pairs `n` entrants make. */
  function Choose2(n: nat): nat {
    if n == 0 then 0 else Choose2(n - 1) + n - 1
  }

  function Chosen(sizes: seq<nat>): nat {
    if sizes == [] then 0 else Chosen(sizes[..|sizes| - 1]) + Choose2(sizes[|sizes| - 1])
  }

  function SortedKey(a: string, b: string): (string, string) {
    if StringLeq(a, b) then (a, b) else (b, a)
  }

  lemma {:induction false} PairsWith(x: string, ids: set<string>)
    requires x !in ids
    ensures |set y | y in ids :: SortedKey(x, y)| == |ids|
  {
    var with := set y | y in ids :: SortedKey(x, y);
    if ids == {} {
      assert with == {};
    } else {
      var y :| y in ids;
      var rest := ids - {y};
      PairsWith(x, rest);
      var others := set z | z in rest :: SortedKey(x, z);
      assert with == others + {SortedKey(x, y)};
      assert SortedKey(x, y) !in others;
    }
  }

  /** One more identity makes a new pair with each of the others. */
  lemma OneMorePairs(rest: set<string>, x: string)
    requires x !in rest
    ensures |Pairs(rest + {x})| == |Pairs(rest)| + |rest|
  {
    PairsWith(x, rest);
    assert rest + {x} - {x} == rest;
    PairsSplit(rest + {x}, x);
    PairsApart(rest, x);
    DisjointSize(Pairs(rest), set y | y in rest :: SortedKey(x, y));
  }

  lemma ChooseOneMore(n: nat)
    ensures Choose2(n + 1) == Choose2(n) + n
  {
  }

  lemma {:induction false} PairsCount(ids: set<string>)
    ensures |Pairs(ids)| == Choose2(|ids|)
  {
    if ids == {} {
      assert Pairs(ids) == {};
    } else {
      var x :| x in ids;
      var rest := ids - {x};
      assert rest + {x} == ids;
      PairsCount(rest);
      OneMorePairs(rest, x);
      ChooseOneMore(|rest|);
    }
  }

  lemma DisjointSize<T>(a: set<T>, b: set<T>)
    requires a !! b
    ensures |a + b| == |a| + |b|
  {
  }

  lemma PairsApart(rest: set<string>, x: string)
    requires x !in rest
    ensures Pairs(rest) !! set y | y in rest :: SortedKey(x, y)
  {
  }

  lemma PairsSplit(ids: set<string>, x: string)
    requires x in ids
    ensures Pairs(ids) == Pairs(ids - {x}) + set y | y in ids - {x} :: SortedKey(x, y)
  {
    forall p ensures p in Pairs(ids) <==> p in Pairs(ids - {x}) || exists y :: y in ids - {x} && p == SortedKey(x, y) {
      if p in Pairs(ids) && p !in Pairs(ids - {x}) {
        if p.0 != x && StringLeq(x, p.0) { StringLeqAntisymmetric(x, p.0); }
        if p.1 == x && StringLeq(x, p.0) { StringLeqAntisymmetric(x, p.0); }
        assert p == SortedKey(x, if p.0 == x then p.1 else p.0);
      }
      if y :| y in ids - {x} && p == SortedKey(x, y) { StringLeqTotal(x, y); }
    }
  }

  // ---------------------------------------------------------------- added and removed matches balance

  /** Each entrant's pool, as a map built from the list holds it. */
  function PoolMap(assignments: seq<Placed>): map<string, string> {
    if assignments == [] then map[]
    else
      var last := assignments[|assignments| - 1];
      PoolMap(assignments[..|assignments| - 1])[last.entrantId := last.poolId]
  }

  lemma {:induction false} PoolMapHolds(assignments: seq<Placed>, id: string, poolId: string)
    requires Distinct(PlacedIds(assignments))
    ensures id in PoolMap(assignments) && PoolMap(assignments)[id] == poolId <==> Placed(id, poolId) in assignments
    ensures id in PoolMap(assignments) <==> id in PlacedIds(assignments)
  {
    if assignments != [] {
      var front, last := assignments[..|assignments| - 1], assignments[|assignments| - 1];
      assert assignments == front + [last];
      assert PlacedIds(assignments) == PlacedIds(front) + [last.entrantId];
      FrontIsDistinct(front, last);
      PoolMapHolds(front, id, poolId);
      if Placed(id, poolId) in front { assert id != last.entrantId; }
    }
  }

  lemma FrontIsDistinct(front: seq<Placed>, last: Placed)
    requires Distinct(PlacedIds(front) + [last.entrantId])
    ensures Distinct(PlacedIds(front)) && forall a | a in front :: a.entrantId != last.entrantId
  {
    var ids := PlacedIds(front) + [last.entrantId];
    forall i, j | 0 <= i < j < |front| ensures PlacedIds(front)[i] != PlacedIds(front)[j] { assert ids[i] != ids[j]; }
    forall a | a in front ensures a.entrantId != last.entrantId {
      var i :| 0 <= i < |front| && front[i] == a;
      assert ids[i] != ids[|front|];
    }
  }

  ghost function PoolMembers(pools: map<string, string>, poolId: string): set<string> {
    set id | id in pools && pools[id] == poolId
  }

  ghost function MeetingsIn(pools: map<string, string>, poolIds: seq<string>): set<(string, string)> {
    set a, b | a in pools && b in pools && a != b && StringLeq(a, b) && pools[a] == pools[b] && pools[a] in poolIds :: (a, b)
  }

  function MemberCounts(pools: map<string, string>, poolIds: seq<string>): seq<nat> {
    Map(poolIds, poolId => |set id | id in pools && pools[id] == poolId|)
  }

  lemma {:induction false} MeetingsCount(pools: map<string, string>, poolIds: seq<string>)
    requires Distinct(poolIds)
    ensures |MeetingsIn(pools, poolIds)| == Chosen(MemberCounts(pools, poolIds))
  {
    var counts := MemberCounts(pools, poolIds);
    if poolIds == [] {
      assert MeetingsIn(pools, poolIds) == {};
    } else {
      var front, last := poolIds[..|poolIds| - 1], poolIds[|poolIds| - 1];
      MeetingsCount(pools, front);
      PairsCount(PoolMembers(pools, last));
      assert counts[..|counts| - 1] == MemberCounts(pools, front);
      assert poolIds == front + [last] && last !in front;
      OnePoolMore(pools, front, last);
    }
  }

  lemma OnePoolMore(pools: map<string, string>, front: seq<string>, last: string)
    requires last !in front
    ensures |MeetingsIn(pools, front + [last])| == |MeetingsIn(pools, front)| + |Pairs(PoolMembers(pools, last))|
  {
    var before, more := MeetingsIn(pools, front), Pairs(PoolMembers(pools, last));
    forall p ensures p in MeetingsIn(pools, front + [last]) <==> p in before || p in more {
    }
    assert MeetingsIn(pools, front + [last]) == before + more;
    assert before !! more;
  }

  /** How many matches a complete placement has depends only on the pool sizes. */
  lemma MeetingsOfPartition(basis: Basis, assignments: seq<Placed>)
    requires Partitions(basis, assignments) && Distinct(basis.poolIds)
    ensures |basis.poolIds| <= |basis.sizes|
    ensures |Meetings(PoolMap(assignments))| == Chosen(basis.sizes[..|basis.poolIds|])
  {
    var pools := PoolMap(assignments);
    if |basis.poolIds| > 0 { assert Fills(basis, |basis.poolIds| - 1, |Members(assignments, basis.poolIds[|basis.poolIds| - 1])|); }
    forall i | 0 <= i < |basis.poolIds| ensures MemberCounts(pools, basis.poolIds)[i] == basis.sizes[i] {
      assert Fills(basis, i, |Members(assignments, basis.poolIds[i])|);
      MembersAreMapped(assignments, basis.poolIds[i]);
    }
    assert MemberCounts(pools, basis.poolIds) == basis.sizes[..|basis.poolIds|];
    MeetingsCount(pools, basis.poolIds);
    forall id | id in pools ensures pools[id] in basis.poolIds {
      PoolMapHolds(assignments, id, pools[id]);
    }
    assert MeetingsIn(pools, basis.poolIds) == Meetings(pools);
  }

  lemma MembersAreMapped(assignments: seq<Placed>, poolId: string)
    requires Distinct(PlacedIds(assignments))
    ensures Members(assignments, poolId) == PoolMembers(PoolMap(assignments), poolId)
  {
    forall id ensures id in Members(assignments, poolId) <==> id in PoolMembers(PoolMap(assignments), poolId) {
      PoolMapHolds(assignments, id, poolId);
      if id in Members(assignments, poolId) {
        var a :| a in assignments && a.poolId == poolId && a.entrantId == id;
        assert a == Placed(id, poolId);
      }
    }
  }

  /** The key a pair is counted under. */
  function Key(p: (string, string)): string {
    p.0 + "|" + p.1
  }

  ghost function MeetingKeys(pools: map<string, string>): set<string> {
    set p | p in Meetings(pools) :: Key(p)
  }

  ghost predicate BarFree(basis: Basis) {
    forall id | id in basis.entrantIds :: '|' !in id
  }

  lemma FirstBar(p: (string, string))
    requires '|' !in p.0
    ensures |p.0| < |Key(p)| && Key(p)[|p.0|] == '|' && forall i | 0 <= i < |p.0| :: Key(p)[i] != '|'
  {
    forall i | 0 <= i < |p.0| ensures Key(p)[i] != '|' {
      assert Key(p)[i] == p.0[i] && p.0[i] in p.0;
    }
  }

  lemma KeyIsInjective(p: (string, string), q: (string, string))
    requires '|' !in p.0 && '|' !in q.0 && Key(p) == Key(q)
    ensures p == q
  {
    FirstBar(p);
    FirstBar(q);
    assert Key(p)[..|p.0|] == p.0 && Key(q)[..|q.0|] == q.0;
    assert Key(p)[|p.0| + 1..] == p.1 && Key(q)[|q.0| + 1..] == q.1;
  }

  /** No two matches are counted under one key. */
  ghost predicate OwnKeys(pairs: set<(string, string)>) {
    forall p, q | p in pairs && q in pairs && Key(p) == Key(q) :: p == q
  }

  lemma {:induction false} KeysCount(pairs: set<(string, string)>)
    ensures |set p | p in pairs :: Key(p)| <= |pairs|
    ensures |set p | p in pairs :: Key(p)| == |pairs| <==> OwnKeys(pairs)
  {
    var keys := set p | p in pairs :: Key(p);
    if pairs == {} {
      assert keys == {};
    } else {
      var p :| p in pairs;
      var rest := pairs - {p};
      KeysCount(rest);
      var others := set q | q in rest :: Key(q);
      assert keys == others + {Key(p)};
      if Key(p) in others {
        var q :| q in rest && Key(q) == Key(p);
        assert keys == others && p != q;
      } else {
        forall q, r | q in pairs && r in pairs && Key(q) == Key(r) && OwnKeys(rest) ensures q == r {
          assert q in rest ==> Key(q) in others;
          assert r in rest ==> Key(r) in others;
        }
      }
      if OwnKeys(pairs) { assert OwnKeys(rest); }
    }
  }

  /** Identities without a bar give every match a key of its own. */
  lemma BarFreeOwnKeys(basis: Basis, assignments: seq<Placed>)
    requires Partitions(basis, assignments) && BarFree(basis)
    ensures OwnKeys(Meetings(PoolMap(assignments)))
  {
    forall p | p in Meetings(PoolMap(assignments)) ensures '|' !in p.0 {
      PoolMapHolds(assignments, p.0, PoolMap(assignments)[p.0]);
      assert p.0 in Values(PlacedIds(assignments));
      assert p.0 in Values(basis.entrantIds);
    }
    forall p, q | p in Meetings(PoolMap(assignments)) && q in Meetings(PoolMap(assignments)) && Key(p) == Key(q) ensures p == q {
      KeyIsInjective(p, q);
    }
  }

  lemma SameSizeDifferences<T>(a: set<T>, b: set<T>)
    requires |a| == |b|
    ensures |a - b| == |b - a|
  {
    assert a == (a - b) + (a * b) && b == (b - a) + (a * b);
    assert |a| == |a - b| + |a * b| && |b| == |b - a| + |a * b|;
  }

  lemma SameDifferencesSameSize<T>(a: set<T>, b: set<T>)
    requires |a - b| == |b - a|
    ensures |a| == |b|
  {
    assert a == (a - b) + (a * b) && b == (b - a) + (a * b);
    assert |a| == |a - b| + |a * b| && |b| == |b - a| + |a * b|;
  }

  /** A preview counts as many added matches as removed ones exactly when both placements have equally many keys. */
  lemma AddedEqualsRemovedIffSameKeys(before: seq<Placed>, after: seq<Placed>)
    ensures var was, will := MeetingKeys(PoolMap(before)), MeetingKeys(PoolMap(after));
            |will - was| == |was - will| <==> |will| == |was|
  {
    var was, will := MeetingKeys(PoolMap(before)), MeetingKeys(PoolMap(after));
    if |will| == |was| { SameSizeDifferences(will, was); }
    if |will - was| == |was - will| { SameDifferencesSameSize(will, was); }
  }

  /**
   * Between two complete placements of one roster, the first with a key for each of its matches, a preview counts
   * as many added matches as removed ones exactly when the second has a key for each of its matches too.
   */
  lemma AddedEqualsRemovedIffKeysAreOwn(basis: Basis, before: seq<Placed>, after: seq<Placed>)
    requires Partitions(basis, before) && Partitions(basis, after) && Distinct(basis.poolIds)
    requires OwnKeys(Meetings(PoolMap(before)))
    ensures var was, will := MeetingKeys(PoolMap(before)), MeetingKeys(PoolMap(after));
            |will - was| == |was - will| <==> OwnKeys(Meetings(PoolMap(after)))
  {
    var was, will := MeetingKeys(PoolMap(before)), MeetingKeys(PoolMap(after));
    MeetingsOfPartition(basis, before);
    MeetingsOfPartition(basis, after);
    KeysCount(Meetings(PoolMap(before)));
    KeysCount(Meetings(PoolMap(after)));
    AddedEqualsRemovedIffSameKeys(before, after);
  }

  /** Between two complete placements of one roster without bars, a preview counts as many added matches as removed ones. */
  lemma AddedEqualsRemoved(basis: Basis, before: seq<Placed>, after: seq<Placed>)
    requires Partitions(basis, before) && Partitions(basis, after) && Distinct(basis.poolIds) && BarFree(basis)
    ensures var was, will := MeetingKeys(PoolMap(before)), MeetingKeys(PoolMap(after));
            |will - was| == |was - will|
  {
    BarFreeOwnKeys(basis, before);
    BarFreeOwnKeys(basis, after);
    AddedEqualsRemovedIffKeysAreOwn(basis, before, after);
  }

  // Identities with bars: both matches of the first placement are counted under one key.

  const BARRED: Basis := Basis("pools", [2, 2], ["a", "a|b", "b|c", "c"], ["first", "second"])

  /** Two pools of two. */
  function TwoByTwo(a: string, b: string, c: string, d: string): seq<Placed> {
    [Placed(a, "first"), Placed(b, "first"), Placed(c, "second"), Placed(d, "second")]
  }

  function TwoByTwoMap(a: string, b: string, c: string, d: string): map<string, string> {
    map[a := "first", b := "first", c := "second", d := "second"]
  }

  lemma TwoByTwoMapped(a: string, b: string, c: string, d: string)
    requires Distinct([a, b, c, d])
    ensures PoolMap(TwoByTwo(a, b, c, d)) == TwoByTwoMap(a, b, c, d)
  {
    var all := TwoByTwo(a, b, c, d);
    assert all[..3] == [Placed(a, "first"), Placed(b, "first"), Placed(c, "second")];
    assert all[..3][..2] == [Placed(a, "first"), Placed(b, "first")];
    assert all[..3][..2][..1] == [Placed(a, "first")];
    assert all[..3][..2][..1][..0] == [];
    assert PoolMap(all[..3][..2][..1]) == map[a := "first"];
    assert PoolMap(all[..3][..2]) == map[a := "first", b := "first"];
    assert PoolMap(all[..3]) == map[a := "first", b := "first", c := "second"];
    DistinctFour(a, b, c, d);
  }

  lemma DistinctFour(a: string, b: string, c: string, d: string)
    requires Distinct([a, b, c, d])
    ensures a != b && a != c && a != d && b != c && b != d && c != d
  {
    var s := [a, b, c, d];
    assert s[0] != s[1] && s[0] != s[2] && s[0] != s[3] && s[1] != s[2] && s[1] != s[3] && s[2] != s[3];
  }

  lemma TwoByTwoPartitions(a: string, b: string, c: string, d: string, ids: seq<string>)
    requires Distinct([a, b, c, d]) && Values(ids) == {a, b, c, d}
    ensures Partitions(Basis("pools", [2, 2], ids, ["first", "second"]), TwoByTwo(a, b, c, d))
  {
    var all := TwoByTwo(a, b, c, d);
    DistinctFour(a, b, c, d);
    assert PlacedIds(all) == [a, b, c, d];
    assert Members(all, "first") == {a, b} by { assert all[0] in all && all[1] in all; }
    assert Members(all, "second") == {c, d} by { assert all[2] in all && all[3] in all; }
  }

  lemma TwoByTwoMeetings(a: string, b: string, c: string, d: string)
    requires Distinct([a, b, c, d]) && StringLeq(a, b) && StringLeq(c, d) && !StringLeq(b, a) && !StringLeq(d, c)
    ensures Meetings(PoolMap(TwoByTwo(a, b, c, d))) == {(a, b), (c, d)}
    ensures MeetingKeys(PoolMap(TwoByTwo(a, b, c, d))) == {Key((a, b)), Key((c, d))}
  {
    TwoByTwoMapped(a, b, c, d);
    DistinctFour(a, b, c, d);
    assert "first" != "second";
  }

  lemma SharedKeyUnbalances(a: string, b: string, c: string, d: string, ids: seq<string>)
    requires Distinct([a, b, c, d]) && Distinct([a, d, c, b]) && Values(ids) == {a, b, c, d}
    requires StringLeq(a, b) && StringLeq(c, d) && StringLeq(a, d) && StringLeq(c, b)
    requires !StringLeq(b, a) && !StringLeq(d, c) && !StringLeq(d, a) && !StringLeq(b, c)
    requires Key((a, b)) == Key((c, d)) && Distinct([Key((a, b)), Key((a, d)), Key((c, b))])
    ensures var basis := Basis("pools", [2, 2], ids, ["first", "second"]);
            var before, after := TwoByTwo(a, b, c, d), TwoByTwo(a, d, c, b);
            var was, will := MeetingKeys(PoolMap(before)), MeetingKeys(PoolMap(after));
            && Partitions(basis, before) && Partitions(basis, after)
            && |will - was| == 2 && |was - will| == 1
  {
    TwoByTwoPartitions(a, b, c, d, ids);
    TwoByTwoPartitions(a, d, c, b, ids);
    TwoByTwoMeetings(a, b, c, d);
    TwoByTwoMeetings(a, d, c, b);
    OneForTwo(Key((a, b)), Key((a, d)), Key((c, b)),
              MeetingKeys(PoolMap(TwoByTwo(a, b, c, d))), MeetingKeys(PoolMap(TwoByTwo(a, d, c, b))));
  }

  lemma OneForTwo(x: string, y: string, z: string, was: set<string>, will: set<string>)
    requires Distinct([x, y, z]) && was == {x, x} && will == {y, z}
    ensures |will - was| == 2 && |was - will| == 1
  {
    var keys := [x, y, z];
    assert keys[0] != keys[1] && keys[0] != keys[2] && keys[1] != keys[2];
    assert will - was == will && was - will == was == {x};
  }

  lemma BarredKeys()
    ensures Key(("a", "b|c")) == Key(("a|b", "c")) && Distinct([Key(("a", "b|c")), Key(("a", "c")), Key(("a|b", "b|c"))])
  {
    assert Key(("a", "b|c")) == "a|b|c" == Key(("a|b", "c"));
    assert |Key(("a", "b|c"))| == 5 && |Key(("a", "c"))| == 3 && |Key(("a|b", "b|c"))| == 7;
  }

  lemma BarredOrder()
    ensures StringLeq("a", "b|c") && StringLeq("a|b", "c") && StringLeq("a", "c") && StringLeq("a|b", "b|c")
    ensures !StringLeq("b|c", "a") && !StringLeq("c", "a|b") && !StringLeq("c", "a") && !StringLeq("b|c", "a|b")
  {
  }

  lemma BarredDistinct()
    ensures Distinct(["a", "b|c", "a|b", "c"]) && Distinct(["a", "c", "a|b", "b|c"])
    ensures Values(BARRED.entrantIds) == {"a", "b|c", "a|b", "c"}
  {
    var a, ab, bc, c := "a", "a|b", "b|c", "c";
    assert a[0] == ab[0] == 'a' && bc[0] == 'b' && c[0] == 'c' && |a| == |c| == 1 && |ab| == 3;
    var ids := BARRED.entrantIds;
    assert ids[0] in ids && ids[1] in ids && ids[2] in ids && ids[3] in ids;
  }

  /** With identities that hold bars, two matches may be added while a preview counts one removed. */
  lemma BarsUnbalanceThePreview()
    ensures var before, after := TwoByTwo("a", "b|c", "a|b", "c"), TwoByTwo("a", "c", "a|b", "b|c");
            var was, will := MeetingKeys(PoolMap(before)), MeetingKeys(PoolMap(after));
            && Partitions(BARRED, before) && Partitions(BARRED, after)
            && |will - was| == 2 && |was - will| == 1
  {
    BarredKeys();
    BarredOrder();
    BarredDistinct();
    SharedKeyUnbalances("a", "b|c", "a|b", "c", BARRED.entrantIds);
  }
}
