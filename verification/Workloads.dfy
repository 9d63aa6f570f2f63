/** What the concurrent workloads have in common: numbered clients and the counts they report. */
module Workloads {
  import opened KvServer
  import opened Clerk

  /** How many of a client's writes were acknowledged, and how many were left in doubt. */
  datatype ClntRes = ClntRes(nok: nat, nmaybe: nat)

  /** The clients are 0 to n - 1. */
  ghost predicate Clients<P>(progs: map<Client, P>, n: nat) {
    forall c: Client :: c in progs <==> c < n
  }

  lemma SameClients<P, Q>(a: map<Client, P>, b: map<Client, Q>, n: nat)
    requires Clients(a, n) && a.Keys == b.Keys
    ensures Clients(b, n)
  {
    forall c: Client ensures c in b <==> c < n {
      assert c in b.Keys <==> c in a.Keys;
    }
  }

  /** The Puts client c has made since the first `from` calls and that ended with err. */
  ghost function Ended(s: Sys, from: nat, c: Client, err: Err): set<nat> {
    set o: nat | from <= o < |s.calls| && s.calls[o].client == c && s.calls[o].op.Put?
                 && s.calls[o].outcome.Returned? && s.calls[o].outcome.reply == Status(err)
  }

  /** Only Deliver ends calls. */
  lemma StepEnded(s: Sys, from: nat, step: Step, c: Client, err: Err)
    requires Consistent(s) && Enabled(s, step) && (step == Deliver(c) ==> from <= s.clients[c].call)
    ensures Ended(Do(s, step), from, c, err)
         == Ended(s, from, c, err)
            + (if step == Deliver(c) && s.calls[s.clients[c].call].op.Put? && ResultFor(s, c) == Status(err)
               then {s.clients[c].call} else {})
    ensures step == Deliver(c) ==> s.clients[c].call !in Ended(s, from, c, err)
  {
    if step.Deliver? {
      assert PhaseOk(s, step.c);
    }
  }

  lemma EndedOneMore(s: Sys, from: nat, c: Client, err: Err)
    requires Consistent(s) && Enabled(s, Deliver(c)) && from <= s.clients[c].call
    ensures |Ended(Do(s, Deliver(c)), from, c, err)|
         == |Ended(s, from, c, err)| + (if s.calls[s.clients[c].call].op.Put? && ResultFor(s, c) == Status(err) then 1 else 0)
  {
    StepEnded(s, from, Deliver(c), c, err);
  }
}
