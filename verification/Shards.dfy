/** Assigning shards to groups: what rebalancing computes, that it ends, that it balances, and how
    little it moves. A list of shards gives the group of each shard. */
module Shards {

  type Gid = int

  function Count(s: seq<Gid>, g: Gid): nat {
    if s == [] then 0 else Count(s[..|s| - 1], g) + (if s[|s| - 1] == g then 1 else 0)
  }

  /** g has the fewest shards of the groups gs, and the smallest number of those that do. */
  ghost predicate IsLeast(s: seq<Gid>, gs: set<Gid>, g: Gid) {
    g in gs && forall h | h in gs :: Count(s, g) < Count(s, h) || (Count(s, g) == Count(s, h) && g <= h)
  }

  /** g has the most shards of the groups gs, and the smallest number of those that do. */
  ghost predicate IsMost(s: seq<Gid>, gs: set<Gid>, g: Gid) {
    g in gs && forall h | h in gs :: Count(s, g) > Count(s, h) || (Count(s, g) == Count(s, h) && g <= h)
  }

  ghost predicate Assigned(s: seq<Gid>, gs: set<Gid>) {
    forall i | 0 <= i < |s| :: s[i] in gs
  }

  /** No two groups' loads differ by more than one. */
  ghost predicate Even(s: seq<Gid>, gs: set<Gid>) {
    forall g, h | g in gs && h in gs :: Count(s, g) <= Count(s, h) + 1
  }

  ghost predicate Balanced(s: seq<Gid>, gs: set<Gid>) {
    Assigned(s, gs) && Even(s, gs)
  }

  // ----- Counting

  lemma {:induction false} CountConcat(a: seq<Gid>, b: seq<Gid>, g: Gid)
    ensures Count(a + b, g) == Count(a, g) + Count(b, g)
    decreases |b|
  {
    if b == [] {
      assert a + b == a;
    } else {
      CountConcat(a, b[..|b| - 1], g);
      assert (a + b)[..|a + b| - 1] == a + b[..|b| - 1];
    }
  }

  /** The list without its i-th shard. */
  function Without(s: seq<Gid>, i: nat): seq<Gid>
    requires i < |s|
  {
    s[..i] + s[i + 1..]
  }

  lemma CountWithout(s: seq<Gid>, i: nat, g: Gid)
    requires i < |s|
    ensures Count(s, g) == Count(Without(s, i), g) + (if s[i] == g then 1 else 0)
  {
    assert s == s[..i] + ([s[i]] + s[i + 1..]);
    CountConcat(s[..i], [s[i]] + s[i + 1..], g);
    CountConcat([s[i]], s[i + 1..], g);
    CountConcat(s[..i], s[i + 1..], g);
    assert [s[i]][..0] == [];
  }

  /** Moving shard i to group l takes one from its group and gives one to l. */
  lemma CountMove(s: seq<Gid>, i: nat, l: Gid, g: Gid)
    requires i < |s|
    ensures Count(s[i := l], g) == Count(s, g) - (if s[i] == g then 1 else 0) + (if l == g then 1 else 0)
  {
    CountWithout(s, i, g);
    CountWithout(s[i := l], i, g);
    assert Without(s[i := l], i) == Without(s, i);
  }

  lemma {:induction false} CountPositive(s: seq<Gid>, g: Gid)
    ensures Count(s, g) > 0 <==> g in s
    ensures Count(s, g) <= |s|
  {
    if s != [] {
      CountPositive(s[..|s| - 1], g);
      assert s == s[..|s| - 1] + [s[|s| - 1]];
    }
  }

  // ----- The measure that ends the rebalancing loop

  /** The number of ordered pairs of shards in the same group: the sum of the squared loads. */
  function Energy(s: seq<Gid>): nat {
    if s == [] then 0
    else Energy(s[..|s| - 1]) + 2 * Count(s[..|s| - 1], s[|s| - 1]) + 1
  }

  lemma {:induction false} EnergyInsert(a: seq<Gid>, x: Gid, b: seq<Gid>)
    ensures Energy(a + [x] + b) == Energy(a + b) + 2 * Count(a + b, x) + 1
    decreases |b|
  {
    if b == [] {
      assert a + [x] + b == a + [x] && (a + [x])[..|a|] == a && a + b == a;
    } else {
      var b', y := b[..|b| - 1], b[|b| - 1];
      EnergyInsert(a, x, b');
      assert (a + [x] + b)[..|a + [x] + b| - 1] == a + [x] + b';
      assert (a + b)[..|a + b| - 1] == a + b';
      CountConcat(a + [x], b', y);
      CountConcat(a, [x], y);
      CountConcat(a, b', y);
      assert [x][..0] == [];
    }
  }

  lemma EnergySplit(s: seq<Gid>, t: seq<Gid>, a: seq<Gid>, x: Gid, b: seq<Gid>)
    requires s == a + [x] + b && t == a + b
    ensures Energy(s) == Energy(t) + 2 * Count(t, x) + 1
  {
    EnergyInsert(a, x, b);
  }

  lemma SplitAt(s: seq<Gid>, i: nat, l: Gid)
    requires i < |s|
    ensures s == s[..i] + [s[i]] + s[i + 1..]
    ensures s[i := l] == s[..i] + [l] + s[i + 1..]
  {
  }

  /** Moving a shard to a group at least two lighter lowers the sum of squares. */
  lemma MoveLowersEnergy(s: seq<Gid>, i: nat, l: Gid)
    requires i < |s| && Count(s, s[i]) >= Count(s, l) + 2
    ensures Energy(s[i := l]) < Energy(s)
  {
    SplitAt(s, i, l);
    EnergySplit(s, Without(s, i), s[..i], s[i], s[i + 1..]);
    EnergySplit(s[i := l], Without(s, i), s[..i], l, s[i + 1..]);
    CountWithout(s, i, s[i]);
    CountWithout(s, i, l);
  }

  // ----- Choosing

  lemma SomeGroup(gs: set<Gid>) returns (g: Gid)
    requires gs != {}
    ensures g in gs
  {
    assert (forall x :: x !in gs) ==> gs == {};
    g :| g in gs;
  }

  lemma {:induction false} LeastExists(s: seq<Gid>, gs: set<Gid>) returns (g: Gid)
    requires gs != {}
    ensures IsLeast(s, gs, g)
    decreases |gs|
  {
    g := SomeGroup(gs);
    if gs != {g} {
      var rest := gs - {g};
      var h := LeastExists(s, rest);
      assert forall x | x in gs :: x == g || x in rest;
      if Count(s, h) < Count(s, g) || (Count(s, h) == Count(s, g) && h < g) {
        g := h;
      }
    }
  }

  lemma {:induction false} MostExists(s: seq<Gid>, gs: set<Gid>) returns (g: Gid)
    requires gs != {}
    ensures IsMost(s, gs, g)
    decreases |gs|
  {
    g := SomeGroup(gs);
    if gs != {g} {
      var rest := gs - {g};
      var h := MostExists(s, rest);
      assert forall x | x in gs :: x == g || x in rest;
      if Count(s, h) > Count(s, g) || (Count(s, h) == Count(s, g) && h < g) {
        g := h;
      }
    }
  }

  /** The group the code calls lg. */
  ghost function Least(s: seq<Gid>, gs: set<Gid>): (g: Gid)
    requires gs != {}
    ensures IsLeast(s, gs, g)
  {
    assert exists g :: IsLeast(s, gs, g) by { var g := LeastExists(s, gs); }
    var g :| IsLeast(s, gs, g);
    g
  }

  /** The group the code calls mg. */
  ghost function Most(s: seq<Gid>, gs: set<Gid>): (g: Gid)
    requires gs != {}
    ensures IsMost(s, gs, g)
  {
    assert exists g :: IsMost(s, gs, g) by { var g := MostExists(s, gs); }
    var g :| IsMost(s, gs, g);
    g
  }

  lemma LeastUnique(s: seq<Gid>, gs: set<Gid>, g: Gid)
    requires gs != {} && IsLeast(s, gs, g)
    ensures g == Least(s, gs)
  {
  }

  lemma MostUnique(s: seq<Gid>, gs: set<Gid>, g: Gid)
    requires gs != {} && IsMost(s, gs, g)
    ensures g == Most(s, gs)
  {
  }

  /** The first shard of group g. */
  ghost function First(s: seq<Gid>, g: Gid): (i: nat)
    requires Count(s, g) > 0
    ensures i < |s| && s[i] == g && forall j | 0 <= j < i :: s[j] != g
  {
    CountPositive(s, g);
    if s[0] == g then 0
    else
      assert Count(s[1..], g) > 0 by { CountPositive(s[1..], g); assert s == [s[0]] + s[1..]; }
      1 + First(s[1..], g)
  }

  // ----- What Rebalance computes

  /** After looking at the first n shards: each one not in a group went to the least loaded group at
      that point. */
  ghost function AssignUpTo(s: seq<Gid>, gs: set<Gid>, n: nat): (t: seq<Gid>)
    requires gs != {} && n <= |s|
    ensures |t| == |s| && forall i | n <= i < |s| :: t[i] == s[i]
  {
    if n == 0 then s
    else
      var t := AssignUpTo(s, gs, n - 1);
      if s[n - 1] in gs then t else t[n - 1 := Least(t, gs)]
  }

  /** One shard from the most to the least loaded group, until they are within one. */
  ghost function Level(s: seq<Gid>, gs: set<Gid>): (t: seq<Gid>)
    requires gs != {}
    ensures |t| == |s|
    decreases Energy(s)
  {
    var m, l := Most(s, gs), Least(s, gs);
    if Count(s, m) < Count(s, l) + 2 then s
    else
      MoveLowersEnergy(s, First(s, m), l);
      Level(s[First(s, m) := l], gs)
  }

  ghost function Rebalanced(s: seq<Gid>, gs: set<Gid>): (t: seq<Gid>)
    ensures |t| == |s|
  {
    if gs == {} then seq(|s|, _ => 0) else Level(AssignUpTo(s, gs, |s|), gs)
  }

  // ----- The result is balanced

  lemma {:induction false} AssignAssigns(s: seq<Gid>, gs: set<Gid>, n: nat)
    requires gs != {} && n <= |s|
    ensures forall i | 0 <= i < n :: AssignUpTo(s, gs, n)[i] in gs
  {
    if n > 0 {
      AssignAssigns(s, gs, n - 1);
    }
  }

  lemma CloseMeansEven(s: seq<Gid>, gs: set<Gid>)
    requires gs != {}
    ensures Count(s, Most(s, gs)) < Count(s, Least(s, gs)) + 2 <==> Even(s, gs)
  {
    var m, l := Most(s, gs), Least(s, gs);
    assert IsMost(s, gs, m) && IsLeast(s, gs, l);
    if Count(s, m) < Count(s, l) + 2 {
      forall g, h | g in gs && h in gs ensures Count(s, g) <= Count(s, h) + 1 {
      }
    }
  }

  lemma {:induction false} LevelBalances(s: seq<Gid>, gs: set<Gid>)
    requires gs != {} && Assigned(s, gs)
    ensures Balanced(Level(s, gs), gs)
    decreases Energy(s)
  {
    var m, l := Most(s, gs), Least(s, gs);
    CloseMeansEven(s, gs);
    if Count(s, m) >= Count(s, l) + 2 {
      MoveLowersEnergy(s, First(s, m), l);
      LevelBalances(s[First(s, m) := l], gs);
    }
  }

  /** From any assignment, if there is a group at all: every shard ends up on a member, and no group has
      more than one shard more than another. */
  lemma RebalanceBalances(s: seq<Gid>, gs: set<Gid>)
    requires gs != {}
    ensures Balanced(Rebalanced(s, gs), gs)
  {
    AssignAssigns(s, gs, |s|);
    LevelBalances(AssignUpTo(s, gs, |s|), gs);
  }

  lemma {:induction false} AssignKeeps(s: seq<Gid>, gs: set<Gid>, n: nat)
    requires gs != {} && n <= |s| && Assigned(s, gs)
    ensures AssignUpTo(s, gs, n) == s
  {
    if n > 0 {
      AssignKeeps(s, gs, n - 1);
    }
  }

  lemma BalancedStays(s: seq<Gid>, gs: set<Gid>)
    requires gs != {} && Balanced(s, gs)
    ensures Rebalanced(s, gs) == s
  {
    AssignKeeps(s, gs, |s|);
    CloseMeansEven(s, gs);
  }

  /** A second rebalancing changes nothing. */
  lemma RebalanceIdempotent(s: seq<Gid>, gs: set<Gid>)
    ensures Rebalanced(Rebalanced(s, gs), gs) == Rebalanced(s, gs)
  {
    if gs != {} {
      RebalanceBalances(s, gs);
      BalancedStays(Rebalanced(s, gs), gs);
    }
  }

  // ----- Totals

  function CountIn(s: seq<Gid>, gs: set<Gid>): nat {
    if s == [] then 0 else CountIn(s[..|s| - 1], gs) + (if s[|s| - 1] in gs then 1 else 0)
  }

  lemma {:induction false} CountInSplit(s: seq<Gid>, gs: set<Gid>, g: Gid)
    requires g in gs
    ensures CountIn(s, gs) == CountIn(s, gs - {g}) + Count(s, g)
  {
    if s != [] {
      CountInSplit(s[..|s| - 1], gs, g);
    }
  }

  lemma {:induction false} CountInAll(s: seq<Gid>, gs: set<Gid>)
    requires Assigned(s, gs)
    ensures CountIn(s, gs) == |s|
  {
    if s != [] {
      CountInAll(s[..|s| - 1], gs);
    }
  }

  lemma {:induction false} CountInNone(s: seq<Gid>)
    ensures CountIn(s, {}) == 0
  {
    if s != [] {
      CountInNone(s[..|s| - 1]);
    }
  }

  /** If every group has c or c + 1 shards, together they have between c and c + 1 times their number. */
  lemma {:induction false} TotalBetween(s: seq<Gid>, gs: set<Gid>, c: nat)
    requires forall g | g in gs :: c <= Count(s, g) <= c + 1
    ensures c * |gs| <= CountIn(s, gs) <= (c + 1) * |gs|
    decreases |gs|
  {
    if gs == {} {
      CountInNone(s);
    } else {
      var g := SomeGroup(gs);
      TotalBetween(s, gs - {g}, c);
      CountInSplit(s, gs, g);
      assert |gs| == |gs - {g}| + 1;
    }
  }

  lemma Quotient(total: nat, c: nat, n: nat)
    requires n > 0 && c * n <= total < (c + 1) * n
    ensures total / n == c
  {
    var q := total / n;
    assert q * n <= total < (q + 1) * n;
    assert q < c ==> (q + 1) * n <= c * n;
    assert q > c ==> (c + 1) * n <= q * n;
  }

  /** How many shards changed group. */
  function Moved(s: seq<Gid>, t: seq<Gid>): nat
    requires |s| == |t|
  {
    if s == [] then 0
    else Moved(s[..|s| - 1], t[..|s| - 1]) + (if s[|s| - 1] != t[|s| - 1] then 1 else 0)
  }

  lemma {:induction false} MovedIsCount(s: seq<Gid>, t: seq<Gid>, n: Gid)
    requires |s| == |t| && forall i | 0 <= i < |s| :: (t[i] != s[i] <==> t[i] == n)
    ensures Moved(s, t) == Count(t, n)
  {
    if s != [] {
      MovedIsCount(s[..|s| - 1], t[..|s| - 1], n);
    }
  }

  lemma {:induction false} MovedFromIsCount(s: seq<Gid>, t: seq<Gid>, g: Gid)
    requires |s| == |t| && forall i | 0 <= i < |s| :: (t[i] != s[i] <==> s[i] == g)
    ensures Moved(s, t) == Count(s, g)
  {
    if s != [] {
      MovedFromIsCount(s[..|s| - 1], t[..|s| - 1], g);
    }
  }

  // ----- Joining one group

  /** On the way: shards have only gone to the new group n, the old groups are even among themselves, and
      n has no more than any of them. */
  ghost predicate Joining(s: seq<Gid>, t: seq<Gid>, gs: set<Gid>, n: Gid) {
    && |t| == |s| && n !in gs && gs != {}
    && (forall i | 0 <= i < |s| :: t[i] == n || (t[i] == s[i] && t[i] in gs))
    && Even(t, gs)
    && forall g | g in gs :: Count(t, n) <= Count(t, g)
  }

  /** While unbalanced, the lightest group is the new one and the heaviest an old one. */
  lemma JoinMoves(s: seq<Gid>, t: seq<Gid>, gs: set<Gid>, n: Gid)
    requires Joining(s, t, gs, n)
    requires Count(t, Most(t, gs + {n})) >= Count(t, Least(t, gs + {n})) + 2
    ensures Least(t, gs + {n}) == n && Most(t, gs + {n}) in gs
  {
    var all := gs + {n};
    var m, l := Most(t, all), Least(t, all);
    assert IsMost(t, all, m) && IsLeast(t, all, l);
    assert n in all;
  }

  lemma JoinStep(s: seq<Gid>, t: seq<Gid>, gs: set<Gid>, n: Gid)
    requires Joining(s, t, gs, n)
    requires Count(t, Most(t, gs + {n})) >= Count(t, n) + 2 && Most(t, gs + {n}) in gs
    ensures Joining(s, t[First(t, Most(t, gs + {n})) := n], gs, n)
  {
    var m := Most(t, gs + {n});
    assert IsMost(t, gs + {n}, m);
    var i := First(t, m);
    var t' := t[i := n];
    forall g | g in gs ensures Count(t', g) == Count(t, g) - (if g == m then 1 else 0) {
      CountMove(t, i, n, g);
    }
    CountMove(t, i, n, n);
    forall g | g in gs ensures Count(t', n) <= Count(t', g) {
      assert Count(t, m) <= Count(t, g) + 1;
    }
    forall g, h | g in gs && h in gs ensures Count(t', g) <= Count(t', h) + 1 {
      assert g in gs + {n} && h in gs + {n};
    }
  }

  lemma {:induction false} JoinLevels(s: seq<Gid>, t: seq<Gid>, gs: set<Gid>, n: Gid)
    requires Joining(s, t, gs, n)
    ensures Joining(s, Level(t, gs + {n}), gs, n)
    decreases Energy(t)
  {
    var all := gs + {n};
    var m, l := Most(t, all), Least(t, all);
    if Count(t, m) >= Count(t, l) + 2 {
      JoinMoves(s, t, gs, n);
      JoinStep(s, t, gs, n);
      MoveLowersEnergy(t, First(t, m), n);
      JoinLevels(s, t[First(t, m) := n], gs, n);
    }
  }

  /** From a balanced assignment, one new group is given exactly its share, rounded down, and nothing
      else moves. */
  lemma JoinMinimal(s: seq<Gid>, gs: set<Gid>, n: Gid)
    requires gs != {} && n !in gs && Balanced(s, gs)
    ensures var t := Rebalanced(s, gs + {n});
            && (forall i | 0 <= i < |s| :: t[i] != s[i] ==> t[i] == n)
            && Moved(s, t) == |s| / (|gs| + 1)
  {
    var all := gs + {n};
    var t := Rebalanced(s, all);
    AssignKeeps(s, all, |s|);
    CountPositive(s, n);
    assert Joining(s, s, gs, n);
    JoinLevels(s, s, gs, n);
    assert Joining(s, t, gs, n);
    assert forall i | 0 <= i < |s| :: (t[i] != s[i] <==> t[i] == n);
    MovedIsCount(s, t, n);
    RebalanceBalances(s, all);
    NewShare(t, gs, n);
  }

  lemma NewShare(t: seq<Gid>, gs: set<Gid>, n: Gid)
    requires n !in gs && gs != {} && Balanced(t, gs + {n}) && forall g | g in gs :: Count(t, n) <= Count(t, g)
    ensures Count(t, n) == |t| / (|gs| + 1)
  {
    var c := Count(t, n);
    forall g | g in gs ensures c <= Count(t, g) <= c + 1 {
      assert g in gs + {n} && n in gs + {n};
    }
    TotalBetween(t, gs, c);
    CountInSplit(t, gs + {n}, n);
    assert gs + {n} - {n} == gs;
    CountInAll(t, gs + {n});
    RoundedShare(|t|, CountIn(t, gs), c, |gs|);
  }

  lemma RoundedShare(total: nat, old': nat, c: nat, n: nat)
    requires total == old' + c && c * n <= old' <= (c + 1) * n
    ensures total / (n + 1) == c
  {
    Quotient(total, c, n + 1);
  }

  // ----- One group leaving

  /** On the way: the first n shards are placed, only the leaver's shards have changed, and the remaining
      groups are even. */
  ghost predicate Leaving(s: seq<Gid>, t: seq<Gid>, gs: set<Gid>, n: nat) {
    && |t| == |s| && n <= |s|
    && (forall i | 0 <= i < |s| :: s[i] in gs ==> t[i] == s[i])
    && (forall i | 0 <= i < n :: t[i] in gs)
    && Even(t, gs)
  }

  lemma PlaceEvenly(t: seq<Gid>, gs: set<Gid>, i: nat)
    requires gs != {} && i < |t| && t[i] !in gs && Even(t, gs)
    ensures Even(t[i := Least(t, gs)], gs)
  {
    var l := Least(t, gs);
    assert IsLeast(t, gs, l);
    forall g, h | g in gs && h in gs ensures Count(t[i := l], g) <= Count(t[i := l], h) + 1 {
      CountMove(t, i, l, g);
      CountMove(t, i, l, h);
    }
  }

  lemma {:induction false} LeaveAssigns(s: seq<Gid>, gs: set<Gid>, n: nat)
    requires gs != {} && Even(s, gs) && n <= |s|
    ensures Leaving(s, AssignUpTo(s, gs, n), gs, n)
  {
    if n > 0 {
      LeaveAssigns(s, gs, n - 1);
      var t := AssignUpTo(s, gs, n - 1);
      if s[n - 1] !in gs {
        PlaceEvenly(t, gs, n - 1);
      }
    }
  }

  /** From a balanced assignment, a group that leaves takes exactly its own shards with it: those are
      placed elsewhere and no other shard moves. */
  lemma LeaveMinimal(s: seq<Gid>, gs: set<Gid>, g: Gid)
    requires g in gs && gs != {g} && Balanced(s, gs)
    ensures var t := Rebalanced(s, gs - {g});
            && (forall i | 0 <= i < |s| :: t[i] != s[i] <==> s[i] == g)
            && Moved(s, t) == Count(s, g)
  {
    var rest := gs - {g};
    assert rest == {} ==> gs == {g};
    LeaveAssigns(s, rest, |s|);
    var t := AssignUpTo(s, rest, |s|);
    CloseMeansEven(t, rest);
    assert Rebalanced(s, rest) == t;
    MovedFromIsCount(s, t, g);
  }
}
