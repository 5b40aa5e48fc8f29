/**
 The one-pass matcher behind the `condition` pattern: it walks the simple
 conditions of a compound condition and gives each one to the first pattern
 type that is still unfilled and that the condition is an instance of.
 */
module ConditionMatch {
  import opened Options

  // A single-inheritance record type is the chain of names from its root down
  // to itself, so `t <= u` says that t is u or an ancestor of u.
  type RecordType = seq<nat>

  /** `record?`: a condition of type u is an instance of t. */
  predicate IsA(u: RecordType, t: RecordType) {
    t <= u
  }

  // One variable per pattern type: #f, or the input position of the condition it holds.
  type Slots = seq<Option<nat>>

  /** The first unfilled slot at or after k that accepts a; |types| when there is none. */
  function FirstFit(types: seq<RecordType>, vars: Slots, a: RecordType, k: nat): (r: nat)
    requires |vars| == |types| && k <= |types|
    ensures k <= r <= |types|
    ensures r < |types| ==> vars[r].None? && IsA(a, types[r])
    ensures forall j :: k <= j < r ==> !(vars[j].None? && IsA(a, types[j]))
    decreases |types| - k
  {
    if k == |types| then k
    else if vars[k].None? && IsA(a, types[k]) then k
    else FirstFit(types, vars, a, k + 1)
  }

  /** The loop of `extract`: n slots are unfilled, the first pos conditions have been seen. */
  function Extract(types: seq<RecordType>, input: seq<RecordType>, n: int, pos: nat, vars: Slots): Option<Slots>
    requires |vars| == |types| && pos <= |input|
    decreases |input| - pos
  {
    if n == 0 then Some(vars)
    else if pos == |input| then None
    else
      var k := FirstFit(types, vars, input[pos], 0);
      if k < |types|
      then Extract(types, input, n - 1, pos + 1, vars[k := Some(pos)])
      else Extract(types, input, n, pos + 1, vars)
  }

  function Match(types: seq<RecordType>, input: seq<RecordType>): Option<Slots> {
    Extract(types, input, |types|, 0, seq(|types|, i => None))
  }

  /** g gives every pattern type its own condition, of a suitable type. */
  ghost predicate Assignment(types: seq<RecordType>, input: seq<RecordType>, g: seq<nat>) {
    && |g| == |types|
    && (forall k :: 0 <= k < |g| ==> g[k] < |input| && IsA(input[g[k]], types[k]))
    && (forall i, j :: 0 <= i < j < |g| ==> g[i] != g[j])
  }

  /** More specific types are listed ahead of their ancestors, as the comment in `extract` asks. */
  ghost predicate SpecificFirst(types: seq<RecordType>) {
    forall i, j :: 0 <= i < j < |types| ==> !(types[i] < types[j])
  }

  // ---------- the state of the loop ----------

  function Unfilled(vars: Slots): nat {
    if |vars| == 0 then 0 else Unfilled(vars[..|vars| - 1]) + if vars[|vars| - 1].None? then 1 else 0
  }

  lemma {:induction false} UnfilledZero(vars: Slots)
    ensures Unfilled(vars) == 0 <==> forall k :: 0 <= k < |vars| ==> vars[k].Some?
  {
    if |vars| > 0 {
      var rest := vars[..|vars| - 1];
      UnfilledZero(rest);
      assert forall k :: 0 <= k < |rest| ==> rest[k] == vars[k];
    }
  }

  lemma {:induction false} FillOne(vars: Slots, k: nat, p: nat)
    requires k < |vars| && vars[k].None?
    ensures Unfilled(vars[k := Some(p)]) == Unfilled(vars) - 1
  {
    var n := |vars| - 1;
    var filled := vars[k := Some(p)];
    if k < n {
      FillOne(vars[..n], k, p);
      assert filled[..n] == vars[..n][k := Some(p)];
    } else {
      assert filled[..n] == vars[..n];
    }
  }

  lemma {:induction false} AllUnfilled(n: nat)
    ensures Unfilled(seq(n, i => None)) == n
  {
    if n > 0 {
      var vars: Slots := seq(n, i => None);
      var rest: Slots := seq(n - 1, i => None);
      assert vars[..n - 1] == rest;
      AllUnfilled(n - 1);
    }
  }

  /** g extends the slots filled so far with conditions still to be seen, one each. */
  ghost predicate Completes(types: seq<RecordType>, input: seq<RecordType>, pos: nat, vars: Slots, g: seq<nat>)
    requires |vars| == |types|
  {
    && |g| == |types|
    && (forall k :: 0 <= k < |g| && vars[k].Some? ==> g[k] == vars[k].value)
    && (forall k :: 0 <= k < |g| && vars[k].None? ==> pos <= g[k] < |input| && IsA(input[g[k]], types[k]))
    && (forall i, j :: 0 <= i < j < |g| && vars[i].None? && vars[j].None? ==> g[i] != g[j])
  }

  // ---------- whatever is returned is an assignment ----------

  ghost predicate Distinct(r: Slots) {
    forall x, y :: 0 <= x < y < |r| && r[x].Some? && r[y].Some? ==> r[x].value != r[y].value
  }

  ghost predicate Filled(types: seq<RecordType>, input: seq<RecordType>, pos: nat, vars: Slots)
    requires |vars| == |types|
  {
    && (forall k :: 0 <= k < |vars| && vars[k].Some? ==>
          vars[k].value < pos && vars[k].value < |input| && IsA(input[vars[k].value], types[k]))
    && Distinct(vars)
  }

  /** r fills every slot, keeping those of vars and taking the rest from position pos on. */
  ghost predicate Finishes(types: seq<RecordType>, input: seq<RecordType>, pos: nat, vars: Slots, r: Slots)
    requires |vars| == |types|
  {
    && |r| == |types|
    && Filled(types, input, |input|, r)
    && (forall k :: 0 <= k < |r| ==> r[k].Some?)
    && (forall k :: 0 <= k < |r| && vars[k].Some? ==> r[k] == vars[k])
    && (forall k :: 0 <= k < |r| && vars[k].None? ==> pos <= r[k].value)
  }

  lemma FilledStep(types: seq<RecordType>, input: seq<RecordType>, pos: nat, vars: Slots, k: nat)
    requires |vars| == |types| && pos < |input| && k < |types|
    requires Filled(types, input, pos, vars) && IsA(input[pos], types[k])
    ensures Filled(types, input, pos + 1, vars[k := Some(pos)])
  {}

  lemma FinishesStep(types: seq<RecordType>, input: seq<RecordType>, pos: nat, vars: Slots, k: nat, r: Slots)
    requires |vars| == |types| && k < |types| && vars[k].None?
    requires Finishes(types, input, pos + 1, vars[k := Some(pos)], r)
    ensures Finishes(types, input, pos, vars, r)
  {
    var vars' := vars[k := Some(pos)];
    assert r[k] == vars'[k] == Some(pos);
    forall j | 0 <= j < |r| && vars[j].None? ensures pos <= r[j].value {
      assert j == k || vars'[j].None?;
    }
    forall j | 0 <= j < |r| && vars[j].Some? ensures r[j] == vars[j] {
      assert vars'[j] == vars[j];
    }
  }

  lemma {:induction false} ExtractSound(types: seq<RecordType>, input: seq<RecordType>, n: int, pos: nat, vars: Slots)
    requires |vars| == |types| && pos <= |input| && n == Unfilled(vars)
    requires Filled(types, input, pos, vars)
    ensures var r := Extract(types, input, n, pos, vars);
            r.Some? ==> Finishes(types, input, pos, vars, r.value)
    decreases |input| - pos
  {
    if n == 0 {
      UnfilledZero(vars);
    } else if pos < |input| {
      var k := FirstFit(types, vars, input[pos], 0);
      if k < |types| {
        FillOne(vars, k, pos);
        FilledStep(types, input, pos, vars, k);
        ExtractSound(types, input, n - 1, pos + 1, vars[k := Some(pos)]);
        var r := Extract(types, input, n, pos, vars);
        if r.Some? { FinishesStep(types, input, pos, vars, k, r.value); }
      } else {
        ExtractSound(types, input, n, pos + 1, vars);
      }
    }
  }

  function Positions(r: Slots): seq<nat>
    requires forall k :: 0 <= k < |r| ==> r[k].Some?
  {
    seq(|r|, k requires 0 <= k < |r| => r[k].value)
  }

  /** Whatever the pass returns gives every type its own condition. */
  lemma {:induction false} MatchSound(types: seq<RecordType>, input: seq<RecordType>)
    ensures var r := Match(types, input);
            r.Some? ==> (&& |r.value| == |types|
                         && (forall k :: 0 <= k < |types| ==> r.value[k].Some?)
                         && Assignment(types, input, Positions(r.value)))
  {
    AllUnfilled(|types|);
    ExtractSound(types, input, |types|, 0, seq(|types|, i => None));
  }

  // ---------- which assignment is returned ----------

  ghost predicate Ahead(g: seq<nat>, p: nat, j: nat)
    requires j <= |g|
  {
    exists k :: 0 <= k < j && g[k] == p
  }

  /** No type passes over a condition that fits it, unless a type listed ahead of it takes that one. */
  ghost predicate Greedy(types: seq<RecordType>, input: seq<RecordType>, g: seq<nat>) {
    && Assignment(types, input, g)
    && forall p, j :: 0 <= j < |g| && 0 <= p < g[j] && IsA(input[p], types[j]) ==> Ahead(g, p, j)
  }

  ghost predicate AheadIn(r: Slots, p: nat, j: nat)
    requires j <= |r|
  {
    exists k :: 0 <= k < j && r[k] == Some(p)
  }

  /** The same of the conditions from position pos on and the slots not yet filled. */
  ghost predicate GreedyFrom(types: seq<RecordType>, input: seq<RecordType>, pos: nat, vars: Slots, r: Slots)
    requires |vars| == |types|
  {
    && |r| == |types| && (forall j :: 0 <= j < |r| ==> r[j].Some? && r[j].value < |input|)
    && forall p, j :: 0 <= j < |r| && vars[j].None? && pos <= p < r[j].value && IsA(input[p], types[j])
         ==> AheadIn(r, p, j)
  }

  function Placed(types: seq<RecordType>, input: seq<RecordType>, pos: nat, vars: Slots): (r: Slots)
    requires |vars| == |types| && pos < |input|
    ensures |r| == |vars|
  {
    var k := FirstFit(types, vars, input[pos], 0);
    if k < |types| then vars[k := Some(pos)] else vars
  }

  lemma GreedyBack(types: seq<RecordType>, input: seq<RecordType>, pos: nat, vars: Slots, r: Slots)
    requires |vars| == |types| && pos < |input| && GreedyFrom(types, input, pos + 1, Placed(types, input, pos, vars), r)
    requires var k := FirstFit(types, vars, input[pos], 0); k < |types| ==> r[k] == Some(pos)
    ensures GreedyFrom(types, input, pos, vars, r)
  {
    var k := FirstFit(types, vars, input[pos], 0);
    forall p, j | 0 <= j < |r| && vars[j].None? && pos <= p < r[j].value && IsA(input[p], types[j])
      ensures AheadIn(r, p, j)
    {
      if p == pos { assert k < j && r[k] == Some(p); } else { assert Placed(types, input, pos, vars)[j].None?; }
    }
  }

  lemma GreedyDone(types: seq<RecordType>, input: seq<RecordType>, pos: nat, vars: Slots)
    requires |vars| == |types| && Filled(types, input, pos, vars) && Unfilled(vars) == 0
    ensures GreedyFrom(types, input, pos, vars, vars)
  {
    UnfilledZero(vars);
  }

  lemma ExtractOne(types: seq<RecordType>, input: seq<RecordType>, n: int, pos: nat, vars: Slots)
    requires |vars| == |types| && pos < |input| && n == Unfilled(vars) != 0
    ensures var placed := Placed(types, input, pos, vars);
            Extract(types, input, n, pos, vars) == Extract(types, input, Unfilled(placed), pos + 1, placed)
  {
    var k := FirstFit(types, vars, input[pos], 0);
    if k < |types| { FillOne(vars, k, pos); }
  }

  lemma ExtractStep(types: seq<RecordType>, input: seq<RecordType>, n: int, pos: nat, vars: Slots)
    requires |vars| == |types| && pos < |input| && n == Unfilled(vars) != 0 && Filled(types, input, pos, vars)
    ensures var placed := Placed(types, input, pos, vars);
            && Filled(types, input, pos + 1, placed)
            && Extract(types, input, n, pos, vars) == Extract(types, input, Unfilled(placed), pos + 1, placed)
  {
    var k := FirstFit(types, vars, input[pos], 0);
    ExtractOne(types, input, n, pos, vars);
    if k < |types| { FilledStep(types, input, pos, vars, k); }
  }

  lemma KeepsFilled(types: seq<RecordType>, input: seq<RecordType>, pos: nat, vars: Slots, r: Slots, k: nat)
    requires |vars| == |types| && Finishes(types, input, pos, vars, r) && k < |vars| && vars[k].Some?
    ensures |r| == |types| && r[k] == vars[k]
  {}

  lemma {:induction false} ExtractGreedy(types: seq<RecordType>, input: seq<RecordType>, n: int, pos: nat, vars: Slots)
    requires |vars| == |types| && pos <= |input| && n == Unfilled(vars) && Filled(types, input, pos, vars)
    requires Extract(types, input, n, pos, vars).Some?
    ensures GreedyFrom(types, input, pos, vars, Extract(types, input, n, pos, vars).value)
    decreases |input| - pos
  {
    if n == 0 {
      GreedyDone(types, input, pos, vars);
    } else {
      var k, placed := FirstFit(types, vars, input[pos], 0), Placed(types, input, pos, vars);
      ExtractStep(types, input, n, pos, vars);
      ExtractGreedy(types, input, Unfilled(placed), pos + 1, placed);
      ExtractSound(types, input, Unfilled(placed), pos + 1, placed);
      var r := Extract(types, input, n, pos, vars).value;
      if k < |types| { KeepsFilled(types, input, pos + 1, placed, r, k); }
      GreedyBack(types, input, pos, vars, r);
    }
  }

  /** The slots of an assignment once the first pos conditions have been seen. */
  function SeenOf(g: seq<nat>, pos: nat): Slots {
    seq(|g|, k requires 0 <= k < |g| => if g[k] < pos then Some(g[k]) else None)
  }

  lemma GreedyFit(types: seq<RecordType>, input: seq<RecordType>, g: seq<nat>, pos: nat)
    requires Greedy(types, input, g) && pos < |input|
    ensures SeenOf(g, pos + 1) == Placed(types, input, pos, SeenOf(g, pos))
  {
    var vars := SeenOf(g, pos);
    var k := FirstFit(types, vars, input[pos], 0);
    if k0 :| 0 <= k0 < |g| && g[k0] == pos {
      assert k <= k0 < |types|;
      assert k < k0 ==> Ahead(g, pos, k);
    } else {
      assert k < |types| ==> Ahead(g, pos, k);
    }
  }

  lemma SeenEnd(g: seq<nat>, pos: nat)
    requires forall k :: 0 <= k < |g| ==> g[k] < pos
    ensures Unfilled(SeenOf(g, pos)) == 0
  {
    UnfilledZero(SeenOf(g, pos));
  }

  lemma SeenAll(g: seq<nat>, pos: nat, end: nat)
    requires pos <= end && Unfilled(SeenOf(g, pos)) == 0
    ensures SeenOf(g, pos) == SeenOf(g, end)
  {
    UnfilledZero(SeenOf(g, pos));
    assert forall k :: 0 <= k < |g| ==> SeenOf(g, pos)[k].Some?;
  }

  lemma FollowStep(types: seq<RecordType>, input: seq<RecordType>, g: seq<nat>, n: int, pos: nat)
    requires Greedy(types, input, g) && pos < |input| && n == Unfilled(SeenOf(g, pos)) != 0
    ensures Extract(types, input, n, pos, SeenOf(g, pos)) ==
            Extract(types, input, Unfilled(SeenOf(g, pos + 1)), pos + 1, SeenOf(g, pos + 1))
  {
    GreedyFit(types, input, g, pos);
    ExtractOne(types, input, n, pos, SeenOf(g, pos));
  }

  lemma PositionsInside(types: seq<RecordType>, input: seq<RecordType>, g: seq<nat>)
    requires Greedy(types, input, g)
    ensures |g| == |types| && forall k :: 0 <= k < |g| ==> g[k] < |input|
  {}

  lemma {:induction false} ExtractFollows(types: seq<RecordType>, input: seq<RecordType>, g: seq<nat>, n: int,
                                         pos: nat)
    requires Greedy(types, input, g) && pos <= |input| && n == Unfilled(SeenOf(g, pos))
    ensures Extract(types, input, n, pos, SeenOf(g, pos)) == Some(SeenOf(g, |input|))
    decreases |input| - pos
  {
    PositionsInside(types, input, g);
    if pos == |input| { SeenEnd(g, pos); }
    if n == 0 {
      SeenAll(g, pos, |input|);
    } else {
      FollowStep(types, input, g, n, pos);
      ExtractFollows(types, input, g, Unfilled(SeenOf(g, pos + 1)), pos + 1);
    }
  }

  /** The pass returns exactly the greedy assignment, whatever the order of the types; without one
      it fails. There is at most one. */
  lemma {:induction false} MatchIsGreedy(types: seq<RecordType>, input: seq<RecordType>, g: seq<nat>)
    ensures Greedy(types, input, g) <==>
            |g| == |types| && Match(types, input) == Some(seq(|g|, k requires 0 <= k < |g| => Some(g[k])))
  {
    var none: Slots := seq(|types|, i => None);
    var slots: Slots := seq(|g|, k requires 0 <= k < |g| => Some(g[k]));
    AllUnfilled(|types|);
    if Greedy(types, input, g) {
      assert SeenOf(g, 0) == none;
      ExtractFollows(types, input, g, |types|, 0);
      assert SeenOf(g, |input|) == slots;
    } else if |g| == |types| && Match(types, input) == Some(slots) {
      MatchSound(types, input);
      assert Positions(slots) == g;
      ExtractGreedy(types, input, |types|, 0, none);
      forall p, j | 0 <= j < |g| && 0 <= p < g[j] && IsA(input[p], types[j]) ensures Ahead(g, p, j) {
        assert slots[j] == Some(g[j]) && AheadIn(slots, p, j);
      }
    }
  }

  // ---------- the greedy choice never loses a solution ----------

  /** Two ancestors of one type lie on one chain. */
  lemma Chain(t: RecordType, u: RecordType, a: RecordType)
    requires t <= a && u <= a
    ensures t < u || u <= t
  {
    assert t == a[..|t|] && u == a[..|u|];
    if |u| <= |t| { assert u == t[..|u|]; }
  }

  lemma PrefixTrans(t: RecordType, u: RecordType, a: RecordType)
    requires t <= u <= a
    ensures t <= a
  {
    assert u == a[..|u|] && t == u[..|t|] == a[..|t|];
  }

  /** The exchange step: a completion before a condition is placed yields one after. */
  lemma {:induction false} Exchange(types: seq<RecordType>, input: seq<RecordType>, pos: nat, vars: Slots,
                                  g: seq<nat>, k: nat)
    returns (g': seq<nat>)
    requires |vars| == |types| && pos < |input| && SpecificFirst(types)
    requires Completes(types, input, pos, vars, g)
    requires k == FirstFit(types, vars, input[pos], 0) < |types|
    ensures Completes(types, input, pos + 1, vars[k := Some(pos)], g')
  {
    if j :| 0 <= j < |types| && j != k && vars[j].None? && g[j] == pos {
      // both types accept input[pos], so they lie on one chain; k is the more specific
      assert k < j && !(types[k] < types[j]);
      Chain(types[k], types[j], input[pos]);
      PrefixTrans(types[j], types[k], input[g[k]]);
      g' := g[k := pos][j := g[k]];
    } else {
      g' := g[k := pos];
    }
  }

  lemma {:induction false} ExtractComplete(types: seq<RecordType>, input: seq<RecordType>, n: int, pos: nat,
                                         vars: Slots, g: seq<nat>)
    requires |vars| == |types| && pos <= |input| && n == Unfilled(vars) && SpecificFirst(types)
    requires Completes(types, input, pos, vars, g)
    ensures Extract(types, input, n, pos, vars).Some?
    decreases |input| - pos
  {
    UnfilledZero(vars);
    if n != 0 && pos < |input| {
      var k := FirstFit(types, vars, input[pos], 0);
      if k < |types| {
        var g' := Exchange(types, input, pos, vars, g, k);
        FillOne(vars, k, pos);
        ExtractComplete(types, input, n - 1, pos + 1, vars[k := Some(pos)], g');
      } else {
        ExtractComplete(types, input, n, pos + 1, vars, g);
      }
    }
  }

  /** With specific types first, the greedy pass succeeds exactly when some assignment exists. */
  lemma {:induction false} MatchIffAssignable(types: seq<RecordType>, input: seq<RecordType>)
    requires SpecificFirst(types)
    ensures Match(types, input).Some? <==> exists g :: Assignment(types, input, g)
  {
    MatchSound(types, input);
    AllUnfilled(|types|);
    if g :| Assignment(types, input, g) {
      ExtractComplete(types, input, |types|, 0, seq(|types|, i => None), g);
    }
  }

  // ---------- the listing order is exactly what completeness needs ----------

  /** An injection of a finite set into a proper subset of itself does not exist. */
  lemma {:induction false} Pigeonhole(s: set<nat>, t: set<nat>, f: map<nat, nat>)
    requires s <= f.Keys && (forall x :: x in s ==> f[x] in t)
    requires forall x, y :: x in s && y in s && x != y ==> f[x] != f[y]
    ensures |s| <= |t|
  {
    if x :| x in s {
      Pigeonhole(s - {x}, t - {f[x]}, f);
    }
  }

  /** The types as conditions, with the misplaced type j moved up to its ancestor i. */
  function MovedUp(types: seq<RecordType>, i: nat, j: nat): (r: seq<RecordType>)
    requires i < j < |types|
    ensures |r| == |types|
  {
    types[..i] + [types[j]] + types[i..j] + types[j + 1..]
  }

  /** The first k slots hold the first k conditions. */
  function InOrder(n: nat, k: nat): Slots {
    seq(n, p => if p < k then Some(p) else None)
  }

  lemma NextInOrder(types: seq<RecordType>, a: RecordType, k: nat)
    requires k < |types| && types[k] <= a
    ensures FirstFit(types, InOrder(|types|, k), a, 0) == k
    ensures InOrder(|types|, k)[k := Some(k)] == InOrder(|types|, k + 1)
  {}

  lemma {:induction false} FillsInOrder(types: seq<RecordType>, i: nat, j: nat, k: nat)
    requires i < j < |types| && types[i] < types[j] && k <= i + 1
    ensures var input, n := MovedUp(types, i, j), |types|;
            Match(types, input) == Extract(types, input, n - k, k, InOrder(n, k))
  {
    var input, n := MovedUp(types, i, j), |types|;
    if k == 0 {
      assert InOrder(n, 0) == seq<Option<nat>>(n, i => None);
    } else {
      FillsInOrder(types, i, j, k - 1);
      NextInOrder(types, input[k - 1], k - 1);
    }
  }

  /** The type that the condition at position p of the moved list was listed for. */
  function Origin(p: nat, j: nat): nat {
    if 0 < p <= j then p - 1 else p
  }

  lemma OriginAt(types: seq<RecordType>, i: nat, j: nat, p: nat)
    requires i < j < |types| && i < p < |types|
    ensures i <= Origin(p, j) < |types| && Origin(p, j) != j
    ensures MovedUp(types, i, j)[p] == types[Origin(p, j)]
  {}

  /** A slot for a descendant of types[j] is filled by a condition listed for another one. */
  lemma DescendantServed(types: seq<RecordType>, input: seq<RecordType>, i: nat, j: nat, vars: Slots, r: Slots, k: nat)
    requires i < j < |types| && types[i] < types[j] && input == MovedUp(types, i, j)
    requires |vars| == |types| && Finishes(types, input, i + 1, vars, r)
    requires i < k < |types| && types[j] <= types[k] && vars[k].None?
    ensures r[k].Some? && i < r[k].value < |types|
    ensures var q := Origin(r[k].value, j); i < q < |types| && q != j && types[j] <= types[q]
  {
    OriginAt(types, i, j, r[k].value);
    PrefixTrans(types[j], types[k], input[r[k].value]);
  }

  ghost predicate Served(r: Slots, k: nat, i: nat, j: nat, t: set<nat>) {
    k < |r| && r[k].Some? && i < r[k].value && Origin(r[k].value, j) in t
  }

  function Origins(r: Slots, s: set<nat>, j: nat): map<nat, nat>
    requires forall k :: k in s ==> k < |r| && r[k].Some?
  {
    map k | k in s :: Origin(r[k].value, j)
  }

  /** Distinct positions above i have distinct origins, so origins inject s into t. */
  lemma OriginsInject(r: Slots, i: nat, j: nat, s: set<nat>, t: set<nat>)
    requires Distinct(r)
    requires forall k :: k in s ==> Served(r, k, i, j, t)
    ensures |s| <= |t|
  {
    Pigeonhole(s, t, Origins(r, s, j));
  }

  lemma Shrinks(s: set<nat>, j: nat, t: set<nat>)
    requires j in s && t == s - {j}
    ensures |t| < |s|
  {}

  function Descendants(types: seq<RecordType>, i: nat, t: RecordType): set<nat> {
    set k: nat | i < k < |types| && t <= types[k]
  }

  /** Once i holds the moved condition, the slots for descendants of types[j] outnumber
      the conditions for them. */
  lemma {:induction false} TooFewDescendants(types: seq<RecordType>, input: seq<RecordType>, i: nat, j: nat,
                                          vars: Slots, r: Slots)
    requires i < j < |types| && types[i] < types[j] && input == MovedUp(types, i, j)
    requires |vars| == |types| && forall k :: i < k < |vars| ==> vars[k].None?
    ensures !Finishes(types, input, i + 1, vars, r)
  {
    if Finishes(types, input, i + 1, vars, r) {
      var s := Descendants(types, i, types[j]);
      var t := s - {j};
      Shrinks(s, j, t);
      forall k | k in s ensures Served(r, k, i, j, t) {
        DescendantServed(types, input, i, j, vars, r, k);
      }
      OriginsInject(r, i, j, s, t);
    }
  }

  lemma {:induction false} PrefixUnfilled(n: nat, k: nat)
    requires k <= n
    ensures Unfilled(InOrder(n, k)) == n - k
  {
    var vars: Slots := InOrder(n, k);
    if k == n {
      UnfilledZero(vars);
    } else {
      PrefixUnfilled(n - 1, k);
      assert vars[..n - 1] == InOrder(n - 1, k);
    }
  }

  lemma InOrderFilled(types: seq<RecordType>, i: nat, j: nat)
    requires i < j < |types| && types[i] < types[j]
    ensures Filled(types, MovedUp(types, i, j), i + 1, InOrder(|types|, i + 1))
  {
    assert MovedUp(types, i, j)[i] == types[j];
  }

  lemma NoCompletion(types: seq<RecordType>, i: nat, j: nat, vars: Slots)
    requires i < j < |types| && types[i] < types[j] && |vars| == |types| && Unfilled(vars) == |types| - i - 1
    requires Filled(types, MovedUp(types, i, j), i + 1, vars) && forall k :: i < k < |vars| ==> vars[k].None?
    ensures Extract(types, MovedUp(types, i, j), |types| - i - 1, i + 1, vars).None?
  {
    var input, n := MovedUp(types, i, j), |types| - i - 1;
    ExtractSound(types, input, n, i + 1, vars);
    var r := Extract(types, input, n, i + 1, vars);
    if r.Some? { TooFewDescendants(types, input, i, j, vars, r.value); }
  }

  lemma {:induction false} MovedUpFails(types: seq<RecordType>, i: nat, j: nat)
    requires i < j < |types| && types[i] < types[j]
    ensures Match(types, MovedUp(types, i, j)).None?
  {
    FillsInOrder(types, i, j, i + 1);
    PrefixUnfilled(|types|, i + 1);
    InOrderFilled(types, i, j);
    NoCompletion(types, i, j, InOrder(|types|, i + 1));
  }

  /** Where a type's own condition has gone. */
  function Shifted(k: nat, i: nat, j: nat): nat {
    if k == j then i else if i <= k < j then k + 1 else k
  }

  lemma ShiftedAt(types: seq<RecordType>, i: nat, j: nat, k: nat)
    requires i < j < |types| && k < |types|
    ensures Shifted(k, i, j) < |types| && MovedUp(types, i, j)[Shifted(k, i, j)] == types[k]
  {}

  lemma MovedUpAssignable(types: seq<RecordType>, i: nat, j: nat)
    requires i < j < |types|
    ensures exists g :: Assignment(types, MovedUp(types, i, j), g)
  {
    var g: seq<nat> := seq(|types|, k requires 0 <= k < |types| => Shifted(k, i, j));
    forall k | 0 <= k < |g| ensures g[k] < |types| && MovedUp(types, i, j)[g[k]] == types[k] {
      ShiftedAt(types, i, j, k);
    }
    assert Assignment(types, MovedUp(types, i, j), g);
  }

  /** The greedy pass finds an assignment on every input that has one if and only if no
      listed type is preceded by a proper ancestor. */
  lemma {:induction false} CompleteIffSpecificFirst(types: seq<RecordType>)
    ensures SpecificFirst(types)
       <==> forall input: seq<RecordType> :: (exists g :: Assignment(types, input, g)) ==> Match(types, input).Some?
  {
    if SpecificFirst(types) {
      forall input: seq<RecordType> | exists g :: Assignment(types, input, g) ensures Match(types, input).Some? {
        MatchIffAssignable(types, input);
      }
    } else {
      var i, j :| 0 <= i < j < |types| && types[i] < types[j];
      MovedUpFails(types, i, j);
      MovedUpAssignable(types, i, j);
    }
  }
}
