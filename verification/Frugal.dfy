/** Rebalancing moves as few shards as any way to balance them. */
module Frugal {
  import opened Shards

  // ----- Who gives and who receives

  ghost predicate Gains(s: seq<Gid>, t: seq<Gid>, g: Gid)
    requires |s| == |t|
  {
    exists i :: 0 <= i < |s| && t[i] == g && s[i] != g
  }

  ghost predicate Loses(s: seq<Gid>, t: seq<Gid>, g: Gid)
    requires |s| == |t|
  {
    exists i :: 0 <= i < |s| && s[i] == g && t[i] != g
  }

  /** On the way from s: no group both gives and receives, a receiver has at most one shard more than any group, a giver
      at most one fewer, and no receiver has more than a giver. */
  ghost predicate Thrifty(s: seq<Gid>, t: seq<Gid>, gs: set<Gid>) {
    && |s| == |t|
    && (forall g | g in gs :: !(Gains(s, t, g) && Loses(s, t, g)))
    && (forall g, h | g in gs && h in gs :: Gains(s, t, g) ==> Count(t, g) <= Count(t, h) + 1)
    && (forall g, h | g in gs && h in gs :: Loses(s, t, h) ==> Count(t, g) <= Count(t, h) + 1)
    && (forall g, h | g in gs && h in gs :: Gains(s, t, g) && Loses(s, t, h) ==> Count(t, g) <= Count(t, h))
  }

  // ----- Placing unassigned shards

  /** Only shards on no group have moved. */
  ghost predicate Placing(s: seq<Gid>, t: seq<Gid>, gs: set<Gid>) {
    && |s| == |t|
    && (forall i | 0 <= i < |s| :: s[i] in gs ==> t[i] == s[i])
    && (forall g, h | g in gs && h in gs :: Gains(s, t, g) ==> Count(t, g) <= Count(t, h) + 1)
  }

  lemma PlaceOne(s: seq<Gid>, t: seq<Gid>, gs: set<Gid>, i: nat)
    requires gs != {} && Placing(s, t, gs) && i < |s| && t[i] == s[i] && s[i] !in gs
    ensures Placing(s, t[i := Least(t, gs)], gs)
  {
    var l := Least(t, gs);
    var t' := t[i := l];
    forall g, h | g in gs && h in gs && Gains(s, t', g) ensures Count(t', g) <= Count(t', h) + 1 {
      CountMove(t, i, l, g);
      CountMove(t, i, l, h);
      assert Count(t, l) <= Count(t, h);
      if g != l {
        StillGains(s, t, i, l, g);
      }
    }
  }

  /** Moving shard i to l makes no receiver but l. */
  lemma StillGains(s: seq<Gid>, t: seq<Gid>, i: nat, l: Gid, g: Gid)
    requires |s| == |t| && i < |s| && g != l && Gains(s, t[i := l], g)
    ensures Gains(s, t, g)
  {
    var j :| 0 <= j < |s| && t[i := l][j] == g && s[j] != g;
    assert t[j] == g;
  }

  lemma {:induction false} AssignPlaces(s: seq<Gid>, gs: set<Gid>, n: nat)
    requires gs != {} && n <= |s|
    ensures Placing(s, AssignUpTo(s, gs, n), gs)
  {
    if n > 0 {
      AssignPlaces(s, gs, n - 1);
      if s[n - 1] !in gs {
        PlaceOne(s, AssignUpTo(s, gs, n - 1), gs, n - 1);
      }
    }
  }

  lemma PlacedThriftily(s: seq<Gid>, t: seq<Gid>, gs: set<Gid>)
    requires Placing(s, t, gs)
    ensures Thrifty(s, t, gs)
  {
    forall g | g in gs ensures !Loses(s, t, g) {
    }
  }

  // ----- Levelling

  lemma LoserOrMover(s: seq<Gid>, t: seq<Gid>, i: nat, l: Gid, h: Gid)
    requires |s| == |t| && i < |s| && Loses(s, t[i := l], h) && h != t[i]
    ensures Loses(s, t, h)
  {
    var j :| 0 <= j < |s| && s[j] == h && t[i := l][j] != h;
    assert t[j] != h;
  }

  /** The shard that is moved is an original one of the most loaded group, which has received none; the least loaded
      group has given none. */
  lemma MoveIsFresh(s: seq<Gid>, t: seq<Gid>, gs: set<Gid>, m: Gid, l: Gid, i: nat)
    requires Thrifty(s, t, gs) && m in gs && l in gs && Count(t, m) >= Count(t, l) + 2 && i < |t| && t[i] == m
    ensures s[i] == m && !Gains(s, t, m) && !Loses(s, t, l)
  {
    assert !Gains(s, t, m);
  }

  lemma MoveSeparates(s: seq<Gid>, t: seq<Gid>, gs: set<Gid>, m: Gid, l: Gid, i: nat, g: Gid)
    requires Thrifty(s, t, gs) && m in gs && l in gs && Count(t, m) >= Count(t, l) + 2 && i < |t| && t[i] == m && g in gs
    ensures !(Gains(s, t[i := l], g) && Loses(s, t[i := l], g))
  {
    MoveIsFresh(s, t, gs, m, l, i);
    if Gains(s, t[i := l], g) && Loses(s, t[i := l], g) {
      if g == l {
        LoserOrMover(s, t, i, l, g);
      } else {
        StillGains(s, t, i, l, g);
        if g != m {
          LoserOrMover(s, t, i, l, g);
        }
      }
      assert false;
    }
  }

  /** Counts after a move from a most loaded to a least loaded group. */
  lemma MoveCounts(s: seq<Gid>, t: seq<Gid>, gs: set<Gid>, m: Gid, l: Gid, i: nat, g: Gid, h: Gid)
    requires Thrifty(s, t, gs) && IsMost(t, gs, m) && IsLeast(t, gs, l) && Count(t, m) >= Count(t, l) + 2
    requires i < |t| && t[i] == m && g in gs && h in gs
    ensures var t' := t[i := l];
            && (Gains(s, t', g) ==> Count(t', g) <= Count(t', h) + 1)
            && (Loses(s, t', h) ==> Count(t', g) <= Count(t', h) + 1)
            && (Gains(s, t', g) && Loses(s, t', h) ==> Count(t', g) <= Count(t', h))
  {
    var t' := t[i := l];
    MoveIsFresh(s, t, gs, m, l, i);
    CountMove(t, i, l, g);
    CountMove(t, i, l, h);
    if Gains(s, t', g) && g != l {
      StillGains(s, t, i, l, g);
    }
    if Loses(s, t', h) && h != m {
      LoserOrMover(s, t, i, l, h);
    }
  }

  lemma MoveThriftily(s: seq<Gid>, t: seq<Gid>, gs: set<Gid>, m: Gid, l: Gid, i: nat)
    requires Thrifty(s, t, gs) && IsMost(t, gs, m) && IsLeast(t, gs, l) && Count(t, m) >= Count(t, l) + 2
    requires i < |t| && t[i] == m
    ensures Thrifty(s, t[i := l], gs)
  {
    forall g | g in gs ensures !(Gains(s, t[i := l], g) && Loses(s, t[i := l], g)) {
      MoveSeparates(s, t, gs, m, l, i, g);
    }
    forall g, h | g in gs && h in gs
      ensures (Gains(s, t[i := l], g) ==> Count(t[i := l], g) <= Count(t[i := l], h) + 1)
           && (Loses(s, t[i := l], h) ==> Count(t[i := l], g) <= Count(t[i := l], h) + 1)
           && (Gains(s, t[i := l], g) && Loses(s, t[i := l], h) ==> Count(t[i := l], g) <= Count(t[i := l], h))
    {
      MoveCounts(s, t, gs, m, l, i, g, h);
    }
  }

  lemma {:induction false} LevelsThriftily(s: seq<Gid>, t: seq<Gid>, gs: set<Gid>)
    requires gs != {} && Thrifty(s, t, gs)
    ensures Thrifty(s, Level(t, gs), gs)
    decreases Energy(t)
  {
    var m, l := Most(t, gs), Least(t, gs);
    if Count(t, m) >= Count(t, l) + 2 {
      var i := First(t, m);
      MoveLowersEnergy(t, i, l);
      MoveThriftily(s, t, gs, m, l, i);
      LevelsThriftily(s, t[i := l], gs);
    }
  }

  lemma RebalancesThriftily(s: seq<Gid>, gs: set<Gid>)
    requires gs != {}
    ensures Thrifty(s, Rebalanced(s, gs), gs)
  {
    AssignPlaces(s, gs, |s|);
    PlacedThriftily(s, AssignUpTo(s, gs, |s|), gs);
    LevelsThriftily(s, AssignUpTo(s, gs, |s|), gs);
  }

  // ----- How many shards any assignment must move

  /** Whatever groups x give up must move, and so must every shard on no group. */
  lemma {:induction false} MovedOut(s: seq<Gid>, t: seq<Gid>, gs: set<Gid>, x: set<Gid>)
    requires |s| == |t| && Assigned(t, gs) && x <= gs
    ensures Moved(s, t) + CountIn(t, x) + CountIn(s, gs) >= |s| + CountIn(s, x)
  {
    if s != [] {
      MovedOut(s[..|s| - 1], t[..|s| - 1], gs, x);
    }
  }

  lemma {:induction false} MovedOutExactly(s: seq<Gid>, t: seq<Gid>, gs: set<Gid>, x: set<Gid>)
    requires |s| == |t| && Assigned(t, gs) && x <= gs
    requires forall i | 0 <= i < |s| :: t[i] != s[i] ==> t[i] !in x && (s[i] in x || s[i] !in gs)
    ensures Moved(s, t) + CountIn(t, x) + CountIn(s, gs) == |s| + CountIn(s, x)
  {
    if s != [] {
      MovedOutExactly(s[..|s| - 1], t[..|s| - 1], gs, x);
    }
  }

  /** Whatever groups x gain must move. */
  lemma {:induction false} MovedIn(s: seq<Gid>, t: seq<Gid>, x: set<Gid>)
    requires |s| == |t|
    ensures Moved(s, t) + CountIn(s, x) >= CountIn(t, x)
  {
    if s != [] {
      MovedIn(s[..|s| - 1], t[..|s| - 1], x);
    }
  }

  lemma {:induction false} MovedInExactly(s: seq<Gid>, t: seq<Gid>, x: set<Gid>)
    requires |s| == |t| && forall i | 0 <= i < |s| :: t[i] != s[i] ==> t[i] in x && s[i] !in x
    ensures Moved(s, t) + CountIn(s, x) == CountIn(t, x)
  {
    if s != [] {
      MovedInExactly(s[..|s| - 1], t[..|s| - 1], x);
    }
  }

  lemma {:induction false} CountInGrows(t: seq<Gid>, r: seq<Gid>, x: set<Gid>)
    requires forall g | g in x :: Count(t, g) <= Count(r, g)
    ensures CountIn(t, x) <= CountIn(r, x)
    decreases |x|
  {
    if x == {} {
      CountInNone(t);
    } else {
      var g := SomeGroup(x);
      CountInGrows(t, r, x - {g});
      CountInSplit(t, x, g);
      CountInSplit(r, x, g);
    }
  }

  /** In a balanced assignment every group has the average, rounded down or one more. */
  lemma BalancedCount(t: seq<Gid>, gs: set<Gid>, g: Gid)
    requires gs != {} && Balanced(t, gs) && g in gs
    ensures |t| / |gs| <= Count(t, g) <= |t| / |gs| + 1
  {
    var l := Least(t, gs);
    var c := Count(t, l);
    forall h | h in gs ensures c <= Count(t, h) <= c + 1 {
    }
    TotalBetween(t, gs - {l}, c);
    CountInSplit(t, gs, l);
    CountInAll(t, gs);
    assert |gs| == |gs - {l}| + 1;
    RoundedShare(|t|, CountIn(t, gs - {l}), c, |gs - {l}|);
  }

  // ----- The result

  ghost function Givers(s: seq<Gid>, r: seq<Gid>, gs: set<Gid>): set<Gid>
    requires |s| == |r|
  {
    set g | g in gs && Loses(s, r, g)
  }

  ghost function Receivers(s: seq<Gid>, r: seq<Gid>, gs: set<Gid>): set<Gid>
    requires |s| == |r|
  {
    set g | g in gs && Gains(s, r, g)
  }

  lemma FewestByGivers(s: seq<Gid>, r: seq<Gid>, t: seq<Gid>, gs: set<Gid>)
    requires |s| == |t| && Thrifty(s, r, gs) && Assigned(r, gs) && Assigned(t, gs)
    requires forall g | g in gs && Loses(s, r, g) :: Count(t, g) <= Count(r, g)
    ensures Moved(s, r) <= Moved(s, t)
  {
    var x := Givers(s, r, gs);
    forall i | 0 <= i < |s| && r[i] != s[i] ensures r[i] !in x && (s[i] in x || s[i] !in gs) {
      assert Gains(s, r, r[i]);
      assert Loses(s, r, s[i]);
    }
    MovedOutExactly(s, r, gs, x);
    MovedOut(s, t, gs, x);
    CountInGrows(t, r, x);
  }

  lemma FewestByReceivers(s: seq<Gid>, r: seq<Gid>, t: seq<Gid>, gs: set<Gid>)
    requires |s| == |t| && Thrifty(s, r, gs) && Assigned(r, gs)
    requires forall g | g in gs && Gains(s, r, g) :: Count(r, g) <= Count(t, g)
    ensures Moved(s, r) <= Moved(s, t)
  {
    var x := Receivers(s, r, gs);
    forall i | 0 <= i < |s| && r[i] != s[i] ensures r[i] in x && s[i] !in x {
      assert Gains(s, r, r[i]);
      assert Loses(s, r, s[i]);
    }
    MovedInExactly(s, r, x);
    MovedIn(s, t, x);
    CountInGrows(r, t, x);
  }

  /** From any assignment whatsoever, no balanced assignment differs from it in fewer shards than the one rebalancing
      gives. */
  lemma RebalanceMovesFewest(s: seq<Gid>, gs: set<Gid>, t: seq<Gid>)
    requires gs != {} && |t| == |s| && Balanced(t, gs)
    ensures Moved(s, Rebalanced(s, gs)) <= Moved(s, t)
  {
    var r := Rebalanced(s, gs);
    RebalanceBalances(s, gs);
    RebalancesThriftily(s, gs);
    forall g | g in gs ensures |s| / |gs| <= Count(r, g) <= |s| / |gs| + 1 && |s| / |gs| <= Count(t, g) <= |s| / |gs| + 1 {
      BalancedCount(r, gs, g);
      BalancedCount(t, gs, g);
    }
    FewestEitherWay(s, r, t, gs, |s| / |gs|);
  }

  lemma FewestEitherWay(s: seq<Gid>, r: seq<Gid>, t: seq<Gid>, gs: set<Gid>, q: nat)
    requires |s| == |t| && Thrifty(s, r, gs) && Assigned(r, gs) && Assigned(t, gs)
    requires forall g | g in gs :: q <= Count(r, g) <= q + 1 && q <= Count(t, g) <= q + 1
    ensures Moved(s, r) <= Moved(s, t)
  {
    if h :| h in gs && Loses(s, r, h) && Count(r, h) == q {
      FewestByReceivers(s, r, t, gs);
    } else {
      FewestByGivers(s, r, t, gs);
    }
  }
}
