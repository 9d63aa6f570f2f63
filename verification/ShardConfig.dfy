/** The shard configuration object, its changes in place, and what holds over every run of changes. */
module ShardConfig {
  import opened Shards
  import Frugal

  type Groups = map<Gid, seq<string>>

  datatype Config = Config(num: int, shards: seq<Gid>, groups: Groups)

  datatype Change =
    | Join(servers: Groups)
    | Leave(gids: seq<Gid>)

  /** Whether a call changed the configuration, refused to, or stopped the program. */
  datatype Outcome = Changed | Refused | Fatal

  predicate Share(a: seq<string>, b: seq<string>) {
    exists s | s in a :: s in b
  }

  /** No server is listed by two groups. */
  ghost predicate ServersDisjoint(groups: Groups) {
    forall g, h | g in groups && h in groups && g != h :: !Share(groups[g], groups[h])
  }

  /** There is something to join, all of it new, and none of its servers is taken. */
  ghost predicate JoinOk(groups: Groups, servers: Groups) {
    && servers.Keys != {}
    && (forall g | g in servers :: g !in groups)
    && (forall g, h | g in servers && h in groups :: !Share(groups[h], servers[g]))
    && (forall g, h | g in servers && h in servers && g != h :: !Share(servers[g], servers[h]))
  }

  ghost predicate LeaveOk(groups: Groups, gids: seq<Gid>) {
    && gids != []
    && (forall i | 0 <= i < |gids| :: gids[i] in groups)
    && (forall i, j | 0 <= i < j < |gids| :: gids[i] != gids[j])
  }

  ghost predicate ChangeOk(cfg: Config, ch: Change) {
    match ch
    case Join(servers) => JoinOk(cfg.groups, servers)
    case Leave(gids) => LeaveOk(cfg.groups, gids)
  }

  function GroupsAfter(groups: Groups, ch: Change): Groups {
    match ch
    case Join(servers) => groups + servers
    case Leave(gids) => groups - (set g | g in gids)
  }

  /** JoinBalance or LeaveBalance, when it succeeds. */
  ghost function After(cfg: Config, ch: Change): Config {
    var groups := GroupsAfter(cfg.groups, ch);
    Config(cfg.num + 1, Rebalanced(cfg.shards, groups.Keys), groups)
  }

  function Make(n: nat): Config {
    Config(0, seq(n, _ => 0), map[])
  }

  // ----- Every run of successful changes

  ghost predicate Runs(cfg: Config, changes: seq<Change>)
    decreases |changes|
  {
    changes == [] || (ChangeOk(cfg, changes[0]) && Runs(After(cfg, changes[0]), changes[1..]))
  }

  ghost function End(cfg: Config, changes: seq<Change>): Config
    requires Runs(cfg, changes)
    decreases |changes|
  {
    if changes == [] then cfg else End(After(cfg, changes[0]), changes[1..])
  }

  /** What CheckConfig demands: exactly the expected groups, every shard on a member if there are any,
      and loads within one. */
  ghost predicate CheckOk(cfg: Config, expected: seq<Gid>) {
    && |cfg.groups| == |expected|
    && (forall i | 0 <= i < |expected| :: expected[i] in cfg.groups)
    && (expected != [] ==> Assigned(cfg.shards, cfg.groups.Keys))
    && Even(cfg.shards, cfg.groups.Keys)
  }

  ghost predicate Good(cfg: Config, n: nat) {
    && |cfg.shards| == n
    && ServersDisjoint(cfg.groups)
    && (if cfg.groups.Keys == {} then Assigned(cfg.shards, {0}) else Balanced(cfg.shards, cfg.groups.Keys))
  }

  lemma JoinKeepsDisjoint(groups: Groups, servers: Groups)
    requires ServersDisjoint(groups) && JoinOk(groups, servers)
    ensures ServersDisjoint(groups + servers)
  {
    var all := groups + servers;
    forall g, h | g in all && h in all && g != h ensures !Share(all[g], all[h]) {
      ShareSymmetric(all[g], all[h]);
    }
  }

  lemma ShareSymmetric(a: seq<string>, b: seq<string>)
    ensures Share(a, b) <==> Share(b, a)
  {
  }

  lemma ChangeGood(cfg: Config, ch: Change, n: nat)
    requires Good(cfg, n) && ChangeOk(cfg, ch)
    ensures Good(After(cfg, ch), n)
  {
    if ch.Join? {
      JoinKeepsDisjoint(cfg.groups, ch.servers);
    }
    var gs := GroupsAfter(cfg.groups, ch).Keys;
    if gs != {} {
      RebalanceBalances(cfg.shards, gs);
    }
  }

  lemma {:induction false} RunGood(cfg: Config, changes: seq<Change>, n: nat)
    requires Good(cfg, n) && Runs(cfg, changes)
    ensures Good(End(cfg, changes), n) && End(cfg, changes).num == cfg.num + |changes|
    decreases |changes|
  {
    if changes != [] {
      ChangeGood(cfg, changes[0], n);
      RunGood(After(cfg, changes[0]), changes[1..], n);
    }
  }

  /** From a new configuration, after any run of successful changes: the number counts them, no server
      belongs to two groups, and the check accepts the groups the configuration has. */
  lemma RunPassesCheck(n: nat, changes: seq<Change>, expected: seq<Gid>)
    requires Runs(Make(n), changes)
    requires var groups := End(Make(n), changes).groups;
             |expected| == |groups| && forall i | 0 <= i < |expected| :: expected[i] in groups
    ensures End(Make(n), changes).num == |changes|
    ensures ServersDisjoint(End(Make(n), changes).groups)
    ensures CheckOk(End(Make(n), changes), expected)
  {
    RunGood(Make(n), changes, n);
    GoodPasses(End(Make(n), changes), n, expected);
  }

  lemma GoodPasses(cfg: Config, n: nat, expected: seq<Gid>)
    requires Good(cfg, n)
    requires |expected| == |cfg.groups| && forall i | 0 <= i < |expected| :: expected[i] in cfg.groups
    ensures CheckOk(cfg, expected)
  {
    if expected != [] {
      assert expected[0] in cfg.groups.Keys;
    }
  }

  /** After any run, a change that leaves some group, of however many groups, moves as few shards as any way to balance
      them over the new groups. */
  lemma ChangeMovesFewest(n: nat, changes: seq<Change>, ch: Change, t: seq<Gid>)
    requires Runs(Make(n), changes) && ChangeOk(End(Make(n), changes), ch)
    requires var groups := After(End(Make(n), changes), ch).groups;
             groups.Keys != {} && |t| == n && Balanced(t, groups.Keys)
    ensures var cfg := End(Make(n), changes);
            |cfg.shards| == |After(cfg, ch).shards| == n && Moved(cfg.shards, After(cfg, ch).shards) <= Moved(cfg.shards, t)
  {
    RunGood(Make(n), changes, n);
    Frugal.RebalanceMovesFewest(End(Make(n), changes).shards, After(End(Make(n), changes), ch).groups.Keys, t);
  }

  /** After any run, one group joining moves exactly its share, rounded down, and only to itself; except that
      number 0, which stands for no group, as the first group finds every shard in place already. */
  lemma JoinOneMoves(n: nat, changes: seq<Change>, g: Gid, servers: seq<string>)
    requires Runs(Make(n), changes) && ChangeOk(End(Make(n), changes), Join(map[g := servers]))
    ensures TakesItsShare(End(Make(n), changes), After(End(Make(n), changes), Join(map[g := servers])), g, n)
       <==> n == 0 || g != 0 || End(Make(n), changes).groups.Keys != {}
  {
    RunGood(Make(n), changes, n);
    assert g in map[g := servers];
    JoinEither(End(Make(n), changes), g, servers, n);
  }

  lemma JoinEither(cfg: Config, g: Gid, servers: seq<string>, n: nat)
    requires Good(cfg, n) && g !in cfg.groups
    ensures TakesItsShare(cfg, After(cfg, Join(map[g := servers])), g, n) <==> n == 0 || g != 0 || cfg.groups.Keys != {}
  {
    if cfg.groups.Keys != {} {
      JoinOne(cfg, g, servers, n);
    } else if g != 0 {
      JoinFirst(cfg, g, servers, n);
    } else {
      assert (cfg.groups + map[g := servers]).Keys == {g};
      var t := Rebalanced(cfg.shards, {g});
      RebalanceBalances(cfg.shards, {g});
      assert forall i | 0 <= i < n :: t[i] in {g} && cfg.shards[i] in {0};
      assert t == cfg.shards;
      NoneMoved(t);
      assert |cfg.groups| == |cfg.groups.Keys| == 0;
    }
  }

  lemma {:induction false} NoneMoved(s: seq<Gid>)
    ensures Moved(s, s) == 0
  {
    if s != [] {
      NoneMoved(s[..|s| - 1]);
    }
  }

  /** From cfg to cfg', shards move only to g, and n divided by the new number of groups of them. */
  ghost predicate TakesItsShare(cfg: Config, cfg': Config, g: Gid, n: nat) {
    && |cfg.shards| == |cfg'.shards| == n
    && (forall i | 0 <= i < n :: cfg'.shards[i] != cfg.shards[i] ==> cfg'.shards[i] == g)
    && Moved(cfg.shards, cfg'.shards) == n / (|cfg.groups| + 1)
  }

  lemma JoinFirst(cfg: Config, g: Gid, servers: seq<string>, n: nat)
    requires |cfg.shards| == n && cfg.groups.Keys == {} && Assigned(cfg.shards, {0}) && g != 0
    ensures TakesItsShare(cfg, After(cfg, Join(map[g := servers])), g, n)
  {
    OnlyGroup(cfg.groups, g, servers);
    FirstTakesAll(cfg.shards, g);
    WholeShare(cfg, Config(cfg.num + 1, Rebalanced(cfg.shards, {g}), cfg.groups + map[g := servers]), g, n);
  }

  lemma OnlyGroup(groups: Groups, g: Gid, servers: seq<string>)
    requires groups.Keys == {}
    ensures (groups + map[g := servers]).Keys == {g} && |groups| == 0
  {
    assert |groups| == |groups.Keys|;
  }

  lemma WholeShare(cfg: Config, cfg': Config, g: Gid, n: nat)
    requires |cfg.shards| == |cfg'.shards| == n && |cfg.groups| == 0
    requires (forall i | 0 <= i < n :: cfg'.shards[i] == g) && Moved(cfg.shards, cfg'.shards) == n
    ensures TakesItsShare(cfg, cfg', g, n)
  {
  }

  lemma FirstTakesAll(s: seq<Gid>, g: Gid)
    requires Assigned(s, {0}) && g != 0
    ensures var t := Rebalanced(s, {g});
            (forall i | 0 <= i < |s| :: t[i] == g) && Moved(s, t) == |s|
  {
    var t := Rebalanced(s, {g});
    RebalanceBalances(s, {g});
    assert forall i | 0 <= i < |s| :: t[i] in {g} && s[i] in {0};
    AllMoved(s, t);
  }

  lemma {:induction false} AllMoved(s: seq<Gid>, t: seq<Gid>)
    requires |s| == |t| && forall i | 0 <= i < |s| :: s[i] != t[i]
    ensures Moved(s, t) == |s|
  {
    if s != [] {
      AllMoved(s[..|s| - 1], t[..|s| - 1]);
    }
  }

  lemma JoinOne(cfg: Config, g: Gid, servers: seq<string>, n: nat)
    requires |cfg.shards| == n && cfg.groups.Keys != {} && Balanced(cfg.shards, cfg.groups.Keys) && g !in cfg.groups
    ensures TakesItsShare(cfg, After(cfg, Join(map[g := servers])), g, n)
  {
    JoinMinimal(cfg.shards, cfg.groups.Keys, g);
    assert (cfg.groups + map[g := servers]).Keys == cfg.groups.Keys + {g};
    assert |cfg.groups| == |cfg.groups.Keys|;
  }

  /** After any run, one group leaving moves exactly the shards it owned, as the last group to number 0, which stands
      for no group; except that number 0 as the last group leaves every shard where it is. */
  lemma LeaveOneMoves(n: nat, changes: seq<Change>, g: Gid)
    requires Runs(Make(n), changes) && ChangeOk(End(Make(n), changes), Leave([g]))
    ensures MovesOnlyFrom(End(Make(n), changes), After(End(Make(n), changes), Leave([g])), g, n)
       <==> n == 0 || g != 0 || End(Make(n), changes).groups.Keys != {g}
  {
    RunGood(Make(n), changes, n);
    LeaveEither(End(Make(n), changes), g, n);
  }

  lemma LeaveEither(cfg: Config, g: Gid, n: nat)
    requires Good(cfg, n) && ChangeOk(cfg, Leave([g]))
    ensures MovesOnlyFrom(cfg, After(cfg, Leave([g])), g, n) <==> n == 0 || g != 0 || cfg.groups.Keys != {g}
  {
    if cfg.groups.Keys != {g} {
      LeaveOne(cfg, g, n);
    } else if g != 0 {
      LeaveLast(cfg, g, n);
    } else {
      assert (set x | x in [g]) == {g};
      assert (cfg.groups - {g}).Keys == {};
      var t := Rebalanced(cfg.shards, {});
      assert forall i | 0 <= i < n :: cfg.shards[i] in {g} && t[i] == 0;
    }
  }

  /** From cfg to cfg', exactly the shards of g move. */
  ghost predicate MovesOnlyFrom(cfg: Config, cfg': Config, g: Gid, n: nat) {
    && |cfg.shards| == |cfg'.shards| == n
    && (forall i | 0 <= i < n :: cfg'.shards[i] != cfg.shards[i] <==> cfg.shards[i] == g)
    && Moved(cfg.shards, cfg'.shards) == Count(cfg.shards, g)
  }

  lemma LeaveLast(cfg: Config, g: Gid, n: nat)
    requires |cfg.shards| == n && cfg.groups.Keys == {g} && Assigned(cfg.shards, {g}) && g != 0
    ensures MovesOnlyFrom(cfg, After(cfg, Leave([g])), g, n)
  {
    assert (set x | x in [g]) == {g};
    assert (cfg.groups - {g}).Keys == {};
    MovedFromIsCount(cfg.shards, Rebalanced(cfg.shards, {}), g);
  }

  lemma LeaveOne(cfg: Config, g: Gid, n: nat)
    requires Good(cfg, n) && cfg.groups.Keys != {g} && ChangeOk(cfg, Leave([g]))
    ensures MovesOnlyFrom(cfg, After(cfg, Leave([g])), g, n)
  {
    assert [g][0] in cfg.groups.Keys;
    LeaveMinimal(cfg.shards, cfg.groups.Keys, g);
    assert (set x | x in [g]) == {g};
    assert (cfg.groups - {g}).Keys == cfg.groups.Keys - {g};
  }

  // ----- Sorting group numbers

  ghost predicate Ascending(s: seq<Gid>) {
    forall i, j | 0 <= i < j < |s| :: s[i] < s[j]
  }

  /** slices.Sort on the keys of a map, which arrive in no particular order. */
  method SortedGids(keys: set<Gid>) returns (s: seq<Gid>)
    ensures Ascending(s) && forall g :: g in s <==> g in keys
  {
    s := [];
    var left := keys;
    while left != {}
      invariant left <= keys && Ascending(s)
      invariant forall g :: g in s <==> g in keys - left
      decreases |left|
    {
      ghost var some := SomeGroup(left);
      var g :| g in left;
      s := InsertGid(s, g);
      left := left - {g};
    }
  }

  method InsertGid(s: seq<Gid>, g: Gid) returns (t: seq<Gid>)
    requires Ascending(s) && g !in s
    ensures Ascending(t) && forall x :: x in t <==> x in s || x == g
  {
    var i := 0;
    while i < |s| && s[i] < g
      invariant 0 <= i <= |s| && forall j | 0 <= j < i :: s[j] < g
    {
      i := i + 1;
    }
    t := s[..i] + [g] + s[i..];
    InsertedAscending(s, g, i);
    InsertedMembers(s, g, i);
  }

  lemma InsertedAscending(s: seq<Gid>, g: Gid, i: nat)
    requires Ascending(s) && i <= |s| && g !in s
    requires (forall j | 0 <= j < i :: s[j] < g) && (i < |s| ==> g <= s[i])
    ensures Ascending(s[..i] + [g] + s[i..])
  {
    assert i < |s| ==> s[i] in s;
    assert forall j | i <= j < |s| :: g < s[j];
  }

  lemma InsertedMembers(s: seq<Gid>, g: Gid, i: nat)
    requires i <= |s|
    ensures forall x :: x in s[..i] + [g] + s[i..] <==> x in s || x == g
  {
    forall x ensures x in s <==> x in s[..i] || x in s[i..] {
      assert s == s[..i] + s[i..];
    }
  }

  // ----- The object

  class ShardCfg {
    var num: int
    var shards: array<Gid>
    var groups: Groups

    ghost function View(): Config
      reads this, shards
    {
      Config(num, shards[..], groups)
    }

    constructor (n: nat)
      ensures View() == Make(n) && fresh(shards)
    {
      num, groups := 0, map[];
      shards := new Gid[n](_ => 0);
    }

    /** The heaviest and the lightest group with their loads; ties go to the smaller number. With no groups,
        the initial values. 257 stands for more than any load, so there must be fewer shards than that. */
    method Analyze() returns (mg: Gid, mn: int, lg: Gid, ln: int)
      requires shards.Length < 257
      ensures groups.Keys == {} ==> (mg, mn, lg, ln) == (-1, -1, -1, 257)
      ensures groups.Keys != {} ==> mg == Most(shards[..], groups.Keys) && mn == Count(shards[..], mg)
      ensures groups.Keys != {} ==> lg == Least(shards[..], groups.Keys) && ln == Count(shards[..], lg)
    {
      var counts := Loads();
      ghost var s := shards[..];
      mn, mg, ln, lg := -1, -1, 257, -1;
      var gids := SortedGids(groups.Keys);
      for i := 0 to |gids|
        invariant i == 0 ==> (mg, mn, lg, ln) == (-1, -1, -1, 257)
        invariant i > 0 ==> FirstMost(s, gids[..i], mg) && mn == Count(s, mg)
        invariant i > 0 ==> FirstLeast(s, gids[..i], lg) && ln == Count(s, lg)
      {
        var g := gids[i];
        var n := if g in counts then counts[g] else 0;
        CountPositive(s, g);
        assert gids[..i + 1] == gids[..i] + [g];
        LeastNext(s, gids[..i], g, lg);
        MostNext(s, gids[..i], g, mg);
        if n < ln {
          ln, lg := n, g;
        }
        if n > mn {
          mn, mg := n, g;
        }
      }
      assert gids[..|gids|] == gids;
      ScanEnds(s, gids, groups.Keys, mg, lg);
    }

    /** How many shards each group number has. */
    method Loads() returns (counts: map<Gid, int>)
      ensures forall g :: (if g in counts then counts[g] else 0) == Count(shards[..], g)
    {
      counts := map[];
      for i := 0 to shards.Length
        invariant forall g :: (if g in counts then counts[g] else 0) == Count(shards[..i], g)
      {
        var g := shards[i];
        assert shards[..i + 1][..i] == shards[..i];
        counts := counts[g := (if g in counts then counts[g] else 0) + 1];
      }
      assert shards[..shards.Length] == shards[..];
    }

    /** Assign every shard that is on no group, then level the loads. The result depends only on the shards
        and the set of groups, not on the order in which a map is iterated. */
    method Rebalance()
      requires shards.Length < 257
      modifies shards
      ensures shards[..] == Rebalanced(old(shards[..]), groups.Keys)
    {
      if |groups| < 1 {
        for s := 0 to shards.Length
          invariant forall i | 0 <= i < s :: shards[i] == 0
        {
          shards[s] := 0;
        }
        assert shards[..] == seq(shards.Length, _ => 0);
        return;
      }
      AssignUnassigned();
      LevelLoads();
    }

    /** The loop ranges over a copy of the shards, taken before the first assignment. */
    method AssignUnassigned()
      requires shards.Length < 257 && groups.Keys != {}
      modifies shards
      ensures shards[..] == AssignUpTo(old(shards[..]), groups.Keys, shards.Length)
    {
      var copy := shards[..];
      for s := 0 to shards.Length
        invariant copy == old(shards[..]) && shards[..] == AssignUpTo(copy, groups.Keys, s)
      {
        var g := copy[s];
        if g !in groups {
          var _, _, lg, _ := Analyze();
          ghost var before := shards[..];
          shards[s] := lg;
          assert shards[..] == before[s := lg];
        }
      }
    }

    method LevelLoads()
      requires shards.Length < 257 && groups.Keys != {}
      modifies shards
      ensures shards[..] == Level(old(shards[..]), groups.Keys)
    {
      while true
        invariant Level(shards[..], groups.Keys) == Level(old(shards[..]), groups.Keys)
        decreases Energy(shards[..])
      {
        var mg, mn, lg, ln := Analyze();
        if mn < ln + 2 {
          break;
        }
        ghost var before := shards[..];
        MoveLowersEnergy(before, First(before, mg), lg);
        MoveOne(mg, lg);
      }
    }

    /** Move the first shard of group mg to group lg. */
    method MoveOne(mg: Gid, lg: Gid)
      requires Count(shards[..], mg) > 0
      modifies shards
      ensures shards[..] == old(shards[..])[First(old(shards[..]), mg) := lg]
    {
      ghost var k := First(shards[..], mg);
      assert shards[..][k] == mg && forall j | 0 <= j < k :: shards[..][j] != mg;
      for s := 0 to shards.Length
        invariant s <= k < shards.Length && shards[..] == old(shards[..])
        invariant shards[k] == mg && forall j | 0 <= j < k :: shards[j] != mg
      {
        if shards[s] == mg {
          shards[s] := lg;
          break;
        }
      }
    }

    /** Is some server of the list already in a group? */
    method TakenServer(servers: seq<string>) returns (taken: bool)
      ensures taken <==> exists h | h in groups :: Share(groups[h], servers)
    {
      var left := groups.Keys;
      while left != {}
        invariant left <= groups.Keys
        invariant forall h | h in groups && h !in left :: !Share(groups[h], servers)
        decreases |left|
      {
        ghost var some := SomeGroup(left);
        var xgid :| xgid in left;
        for i := 0 to |groups[xgid]|
          invariant forall a | 0 <= a < i :: groups[xgid][a] !in servers
        {
          var s1 := groups[xgid][i];
          for j := 0 to |servers|
            invariant forall b | 0 <= b < j :: servers[b] != s1
          {
            if s1 == servers[j] {
              assert s1 in groups[xgid] && s1 in servers;
              return true;
            }
          }
        }
        left := left - {xgid};
      }
      taken := false;
    }

    /** Add groups, in the order the map happens to give them. A group that is already there makes the call
        return false, a server that is taken stops the program; those that came before stay added. */
    method Join(servers: Groups, order: seq<Gid>) returns (r: Outcome)
      requires Enumerates(order, servers)
      modifies this`num, this`groups
      ensures num == old(num) + (if r == Changed then 1 else 0)
      ensures Joins(old(groups), servers, order, r, groups)
    {
      assert groups == Joined(old(groups), servers, Before(order, 0));
      for i := 0 to |order|
        invariant Before(order, i) <= servers.Keys
        invariant num == old(num) && groups == Joined(old(groups), servers, Before(order, i))
        invariant JoinedOk(old(groups), servers, Before(order, i))
        invariant JoinStop(old(groups), servers, order, i) == JoinStop(old(groups), servers, order, 0)
      {
        var gid := order[i];
        if gid in groups {
          JoinStopped(old(groups), servers, order, i);
          return Refused;
        }
        var taken := TakenServer(servers[gid]);
        if taken {
          JoinStopped(old(groups), servers, order, i);
          return Fatal;
        }
        JoinNext(old(groups), servers, Before(order, i), gid);
        assert Before(order, i + 1) == Before(order, i) + {gid};
        groups := groups[gid := servers[gid]];
      }
      JoinFinished(old(groups), servers, order);
      if |order| == 0 {
        return Fatal;
      }
      num := num + 1;
      r := Changed;
    }

    /** Remove groups one after another; a missing one makes the call return false, and those before it stay
        removed. */
    method Leave(gids: seq<Gid>) returns (r: Outcome)
      modifies this`num, this`groups
      ensures r == Changed <==> LeaveOk(old(groups), gids)
      ensures r == Changed ==> groups == old(groups) - Elems(gids) && num == old(num) + 1
      ensures r != Changed ==> num == old(num) && groups == old(groups) - Elems(gids[..LeaveStop(old(groups), gids, 0)])
      ensures r == Refused <==> LeaveStop(old(groups), gids, 0) < |gids|
      ensures r == Refused ==> (groups == old(groups) <==> gids[0] !in old(groups))
    {
      assert groups == old(groups) - Elems(gids[..0]);
      for i := 0 to |gids|
        invariant num == old(num) && groups == old(groups) - Elems(gids[..i])
        invariant LeaveStop(old(groups), gids, i) == LeaveStop(old(groups), gids, 0)
        invariant forall a | 0 <= a < i :: gids[a] in old(groups)
        invariant forall a, b | 0 <= a < b < i :: gids[a] != gids[b]
      {
        var gid := gids[i];
        if gid !in groups {
          assert i > 0 ==> gids[0] in Elems(gids[..i]);
          return Refused;
        }
        assert gid !in gids[..i];
        assert gids[..i + 1] == gids[..i] + [gid];
        groups := groups - {gid};
      }
      assert gids[..|gids|] == gids;
      if |gids| == 0 {
        return Fatal;
      }
      num := num + 1;
      r := Changed;
    }

    method JoinBalance(servers: Groups, order: seq<Gid>) returns (r: Outcome)
      requires shards.Length < 257 && Enumerates(order, servers)
      modifies this`num, this`groups, shards
      ensures r == Changed <==> ChangeOk(old(View()), Change.Join(servers))
      ensures r == Changed ==> View() == After(old(View()), Change.Join(servers))
      ensures r != Changed ==> num == old(num) && shards[..] == old(shards[..])
      ensures r != Changed ==> groups == LeftBehind(old(groups), servers, order)
    {
      r := Join(servers, order);
      if r == Changed {
        Rebalance();
      }
    }

    method LeaveBalance(gids: seq<Gid>) returns (r: Outcome)
      requires shards.Length < 257
      modifies this`num, this`groups, shards
      ensures r == Changed <==> ChangeOk(old(View()), Change.Leave(gids))
      ensures r == Changed ==> View() == After(old(View()), Change.Leave(gids))
      ensures r != Changed ==> num == old(num) && shards[..] == old(shards[..])
      ensures r != Changed ==> groups == old(groups) - Elems(gids[..LeaveStop(old(groups), gids, 0)])
    {
      r := Leave(gids);
      if r == Changed {
        Rebalance();
      }
    }

    /** False where the test harness would stop the test. */
    method CheckConfig(expected: seq<Gid>) returns (ok: bool)
      requires shards.Length < 257
      ensures ok <==> CheckOk(View(), expected)
    {
      if |groups| != |expected| {
        return false;
      }
      for i := 0 to |expected|
        invariant forall a | 0 <= a < i :: expected[a] in groups
      {
        if expected[i] !in groups {
          return false;
        }
      }
      if |expected| > 0 {
        for s := 0 to shards.Length
          invariant forall i | 0 <= i < s :: shards[i] in groups
        {
          if shards[s] !in groups {
            assert shards[..][s] !in groups.Keys;
            return false;
          }
        }
      }
      ok := LoadsWithinOne();
    }

    method LoadsWithinOne() returns (ok: bool)
      requires shards.Length < 257
      ensures ok <==> Even(shards[..], groups.Keys)
    {
      var counts := Loads();
      ghost var s := shards[..];
      var min, max := 257, 0;
      var left := groups.Keys;
      while left != {}
        invariant left <= groups.Keys
        invariant forall g | g in groups && g !in left :: min <= Count(s, g) <= max
        invariant min == 257 || exists g | g in groups :: Count(s, g) == min
        invariant max == 0 || exists g | g in groups :: Count(s, g) == max
        decreases |left|
      {
        ghost var some := SomeGroup(left);
        var g :| g in left;
        var n := if g in counts then counts[g] else 0;
        CountPositive(s, g);
        if n > max {
          max := n;
        }
        if n < min {
          min := n;
        }
        left := left - {g};
      }
      ok := max <= min + 1;
      if ok {
        forall g, h | g in groups.Keys && h in groups.Keys ensures Count(s, g) <= Count(s, h) + 1 {
        }
      } else if min < 257 {
        ghost var g :| g in groups && Count(s, g) == min;
        ghost var h :| h in groups && Count(s, h) == max;
        assert g in groups.Keys && h in groups.Keys;
      } else {
        ghost var h :| h in groups && Count(s, h) == max;
        CountPositive(s, h);
      }
    }
  }

  /** The groups after adding some of the new ones. */
  function Joined(groups: Groups, servers: Groups, done: set<Gid>): Groups
    requires done <= servers.Keys
  {
    map g | g in groups.Keys + done :: if g in done then servers[g] else groups[g]
  }

  /** So far nothing was in the way. */
  ghost predicate JoinedOk(groups: Groups, servers: Groups, done: set<Gid>)
    requires done <= servers.Keys
  {
    && (forall g | g in done :: g !in groups)
    && (forall g, h | g in done && h in groups :: !Share(groups[h], servers[g]))
    && (forall g, h | g in done && h in done && g != h :: !Share(servers[g], servers[h]))
  }

  function Elems(gids: seq<Gid>): set<Gid> {
    set g | g in gids
  }

  /** An order in which a map with these keys may be iterated. */
  ghost predicate Enumerates(order: seq<Gid>, servers: Groups) {
    && (forall i, j | 0 <= i < j < |order| :: order[i] != order[j])
    && (forall g :: g in order <==> g in servers)
  }

  function Before(order: seq<Gid>, i: nat): (done: set<Gid>)
    requires i <= |order|
    ensures forall g | g in done :: g in order
  {
    set j | 0 <= j < i :: order[j]
  }

  /** Group gid cannot be added once those in done have been: it is there, or one of its servers is. */
  ghost predicate Blocked(groups: Groups, servers: Groups, done: set<Gid>, gid: Gid)
    requires done <= servers.Keys && gid in servers
  {
    var so := Joined(groups, servers, done);
    gid in so || exists h | h in so :: Share(so[h], servers[gid])
  }

  /** The first place, from i on, at which adding the groups in this order stops. */
  ghost function JoinStop(groups: Groups, servers: Groups, order: seq<Gid>, i: nat): (n: nat)
    requires i <= |order| && Enumerates(order, servers)
    ensures i <= n <= |order|
    decreases |order| - i
  {
    if i == |order| || Blocked(groups, servers, Before(order, i), order[i]) then i
    else JoinStop(groups, servers, order, i + 1)
  }

  /** The groups after adding those before the stop. */
  ghost function LeftBehind(groups: Groups, servers: Groups, order: seq<Gid>): Groups
    requires Enumerates(order, servers)
  {
    Joined(groups, servers, Before(order, JoinStop(groups, servers, order, 0)))
  }

  ghost function LeaveStop(groups: Groups, gids: seq<Gid>, i: nat): (n: nat)
    requires i <= |gids|
    ensures i <= n <= |gids|
    decreases |gids| - i
  {
    if i == |gids| || gids[i] !in groups || gids[i] in gids[..i] then i else LeaveStop(groups, gids, i + 1)
  }

  /** Where adding stops, the call fails, and what was added before is new. */
  lemma StoppedAt(groups: Groups, servers: Groups, order: seq<Gid>, i: nat)
    requires Enumerates(order, servers) && i < |order| && JoinedOk(groups, servers, Before(order, i))
    requires Blocked(groups, servers, Before(order, i), order[i])
    ensures !JoinOk(groups, servers) && order[i] !in Before(order, i)
    ensures i > 0 ==> order[0] in Joined(groups, servers, Before(order, i)) && order[0] !in groups
    ensures i == 0 ==> Joined(groups, servers, Before(order, i)) == groups
  {
    NotJoinable(groups, servers, Before(order, i), order[i]);
    if i > 0 {
      assert order[0] in Before(order, i);
    } else {
      assert Before(order, 0) == {};
    }
  }

  /** What a call of Join reports, and the groups it leaves: on failure those added before it stopped, so that nothing
      has changed exactly if it stopped at the first, as a call with a single group does. */
  ghost predicate Joins(was: Groups, servers: Groups, order: seq<Gid>, r: Outcome, now: Groups)
    requires Enumerates(order, servers)
  {
    var n := JoinStop(was, servers, order, 0);
    && (r == Changed <==> JoinOk(was, servers))
    && (r == Changed ==> now == was + servers)
    && (r == Refused <==> n < |order| && order[n] in was)
    && (r != Changed ==> now == LeftBehind(was, servers, order) && (now == was <==> n == 0))
    && (r != Changed && |order| == 1 ==> now == was)
  }

  lemma JoinStopped(was: Groups, servers: Groups, order: seq<Gid>, i: nat)
    requires Enumerates(order, servers) && i < |order| && JoinedOk(was, servers, Before(order, i))
    requires Blocked(was, servers, Before(order, i), order[i]) && JoinStop(was, servers, order, 0) == i
    ensures order[i] in Joined(was, servers, Before(order, i)) <==> order[i] in was
    ensures Joins(was, servers, order, if order[i] in was then Refused else Fatal, Joined(was, servers, Before(order, i)))
  {
    StoppedAt(was, servers, order, i);
  }

  lemma JoinFinished(was: Groups, servers: Groups, order: seq<Gid>)
    requires Enumerates(order, servers) && JoinedOk(was, servers, Before(order, |order|))
    requires JoinStop(was, servers, order, 0) == |order|
    ensures Joins(was, servers, order, if order == [] then Fatal else Changed, Joined(was, servers, Before(order, |order|)))
  {
    AllBefore(order, servers);
    if order == [] {
      assert servers.Keys == {};
    } else {
      AllJoined(was, servers, order);
      assert Joined(was, servers, servers.Keys) == was + servers;
    }
  }

  lemma NotJoinable(groups: Groups, servers: Groups, done: set<Gid>, gid: Gid)
    requires done <= servers.Keys && gid in servers && gid !in done && Blocked(groups, servers, done, gid)
    ensures !JoinOk(groups, servers)
  {
  }

  lemma {:induction false} StopMeans(groups: Groups, servers: Groups, order: seq<Gid>, i: nat)
    requires Enumerates(order, servers) && i <= |order| && JoinedOk(groups, servers, Before(order, i))
    ensures var n := JoinStop(groups, servers, order, i);
            && JoinedOk(groups, servers, Before(order, n))
            && (n < |order| ==> Blocked(groups, servers, Before(order, n), order[n]))
    decreases |order| - i
  {
    if i < |order| && !Blocked(groups, servers, Before(order, i), order[i]) {
      JoinNext(groups, servers, Before(order, i), order[i]);
      assert Before(order, i + 1) == Before(order, i) + {order[i]};
      StopMeans(groups, servers, order, i + 1);
    }
  }

  /** In some order of the map, a failing call leaves part of what it was given behind. */
  ghost predicate CanStopPartly(groups: Groups, servers: Groups) {
    exists order :: Enumerates(order, servers) && StopsPartly(groups, servers, order)
  }

  ghost predicate StopsPartly(groups: Groups, servers: Groups, order: seq<Gid>)
    requires Enumerates(order, servers)
  {
    0 < JoinStop(groups, servers, order, 0) < |order|
  }

  ghost predicate SomeAddable(groups: Groups, servers: Groups) {
    exists g :: g in servers && !Blocked(groups, servers, {}, g)
  }

  /** A call can fail with some of its groups added exactly when it must fail and some group could be added
      alone. */
  lemma PartlyJoinedExactly(groups: Groups, servers: Groups)
    ensures CanStopPartly(groups, servers) <==> !JoinOk(groups, servers) && SomeAddable(groups, servers)
  {
    if CanStopPartly(groups, servers) {
      var order :| Enumerates(order, servers) && StopsPartly(groups, servers, order);
      StoppedPartly(groups, servers, order);
    }
    if !JoinOk(groups, servers) && SomeAddable(groups, servers) {
      var g :| g in servers && !Blocked(groups, servers, {}, g);
      AddableFirst(groups, servers, g);
    }
  }

  lemma StoppedPartly(groups: Groups, servers: Groups, order: seq<Gid>)
    requires Enumerates(order, servers) && StopsPartly(groups, servers, order)
    ensures !JoinOk(groups, servers) && SomeAddable(groups, servers)
  {
    assert Before(order, 0) == {};
    assert order[0] in order;
    StopMeans(groups, servers, order, 0);
    StoppedAt(groups, servers, order, JoinStop(groups, servers, order, 0));
  }

  lemma AddableFirst(groups: Groups, servers: Groups, g: Gid)
    requires g in servers && !Blocked(groups, servers, {}, g) && !JoinOk(groups, servers)
    ensures CanStopPartly(groups, servers)
  {
    var rest := OrderOf(servers.Keys - {g});
    var order := [g] + rest;
    assert forall h :: h in order <==> h == g || h in rest;
    assert Enumerates(order, servers);
    assert Before(order, 0) == {};
    StopMeans(groups, servers, order, 0);
    if JoinStop(groups, servers, order, 0) == |order| {
      AllJoined(groups, servers, order);
      assert false;
    }
    assert StopsPartly(groups, servers, order);
  }

  lemma AllJoined(groups: Groups, servers: Groups, order: seq<Gid>)
    requires Enumerates(order, servers) && order != [] && JoinedOk(groups, servers, Before(order, |order|))
    ensures JoinOk(groups, servers)
  {
    assert order[0] in order;
    AllBefore(order, servers);
  }

  lemma AllBefore(order: seq<Gid>, servers: Groups)
    requires Enumerates(order, servers)
    ensures Before(order, |order|) == servers.Keys
  {
    forall g | g in servers ensures g in Before(order, |order|) {
      assert g in order;
      var j :| 0 <= j < |order| && order[j] == g;
      assert order[j] in Before(order, |order|);
    }
    forall g | g in Before(order, |order|) ensures g in servers.Keys {
      assert g in order;
    }
  }

  lemma {:induction false} OrderOf(gs: set<Gid>) returns (order: seq<Gid>)
    ensures forall i, j | 0 <= i < j < |order| :: order[i] != order[j]
    ensures forall g :: g in order <==> g in gs
    decreases |gs|
  {
    if gs == {} {
      order := [];
    } else {
      var g := SomeGroup(gs);
      var rest := OrderOf(gs - {g});
      order := [g] + rest;
    }
  }

  /** For instance a call that adds a new group and one that is there: if the new one comes first it stays, although
      the call returns false and the number is unchanged. */
  lemma LeavesOneBehind()
    ensures var groups, servers := map[1 := ["a"]], map[1 := ["b"], 2 := ["c"]];
            && Enumerates([2, 1], servers) && !JoinOk(groups, servers)
            && JoinStop(groups, servers, [2, 1], 0) == 1
            && LeftBehind(groups, servers, [2, 1]) == map[1 := ["a"], 2 := ["c"]]
  {
    var groups, servers, order := map[1 := ["a"]], map[1 := ["b"], 2 := ["c"]], [2, 1];
    assert order[0] in order && order[1] in order;
    assert Before(order, 0) == {} && Before(order, 1) == {2};
    assert Joined(groups, servers, {}) == groups;
    assert !Share(["a"], ["c"]);
    assert !Blocked(groups, servers, {}, 2) && Blocked(groups, servers, {2}, 1);
    assert JoinStop(groups, servers, order, 1) == 1;
  }

  lemma JoinNext(groups: Groups, servers: Groups, done: set<Gid>, gid: Gid)
    requires done <= servers.Keys && gid in servers && gid !in done && JoinedOk(groups, servers, done)
    requires gid !in Joined(groups, servers, done)
    requires !exists h | h in Joined(groups, servers, done) :: Share(Joined(groups, servers, done)[h], servers[gid])
    ensures JoinedOk(groups, servers, done + {gid})
    ensures Joined(groups, servers, done + {gid}) == Joined(groups, servers, done)[gid := servers[gid]]
  {
    var so := Joined(groups, servers, done);
    forall h | h in groups ensures !Share(groups[h], servers[gid]) {
      assert h in so;
    }
    forall h | h in done ensures !Share(servers[h], servers[gid]) {
      assert h in so && so[h] == servers[h];
      ShareSymmetric(servers[h], servers[gid]);
    }
    forall h | h in done ensures !Share(servers[gid], servers[h]) {
      ShareSymmetric(servers[h], servers[gid]);
    }
  }

  ghost predicate FirstLeast(s: seq<Gid>, gids: seq<Gid>, g: Gid) {
    g in gids && forall h | h in gids :: Count(s, g) < Count(s, h) || (Count(s, g) == Count(s, h) && g <= h)
  }

  ghost predicate FirstMost(s: seq<Gid>, gids: seq<Gid>, g: Gid) {
    g in gids && forall h | h in gids :: Count(s, g) > Count(s, h) || (Count(s, g) == Count(s, h) && g <= h)
  }

  /** A group with a larger number than those seen becomes the lightest only if it is strictly lighter. */
  lemma LeastNext(s: seq<Gid>, seen: seq<Gid>, g: Gid, lg: Gid)
    requires (forall x | x in seen :: x < g) && (seen != [] ==> FirstLeast(s, seen, lg))
    ensures FirstLeast(s, seen + [g], if seen == [] || Count(s, g) < Count(s, lg) then g else lg)
  {
    assert forall h :: h in seen + [g] <==> h in seen || h == g;
  }

  lemma MostNext(s: seq<Gid>, seen: seq<Gid>, g: Gid, mg: Gid)
    requires (forall x | x in seen :: x < g) && (seen != [] ==> FirstMost(s, seen, mg))
    ensures FirstMost(s, seen + [g], if seen == [] || Count(s, g) > Count(s, mg) then g else mg)
  {
    assert forall h :: h in seen + [g] <==> h in seen || h == g;
  }

  lemma ScanEnds(s: seq<Gid>, gids: seq<Gid>, gs: set<Gid>, mg: Gid, lg: Gid)
    requires forall g :: g in gids <==> g in gs
    requires gids != [] ==> FirstMost(s, gids, mg) && FirstLeast(s, gids, lg)
    ensures gs == {} ==> gids == []
    ensures gs != {} ==> gids != [] && mg == Most(s, gs) && lg == Least(s, gs)
  {
    if gs != {} {
      var some := SomeGroup(gs);
      assert some in gids;
      LeastUnique(s, gs, lg);
      MostUnique(s, gs, mg);
    }
    assert gs == {} ==> forall g :: g !in gids;
    assert gids != [] ==> gids[0] in gids;
  }
}
