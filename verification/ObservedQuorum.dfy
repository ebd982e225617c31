/** What the protocol guarantees, in the terms in which the evaluation measures it. */
module ObservedQuorum {
  import opened Base
  import opened Siblings
  import opened Replica
  import opened RingState
  import opened Membership
  import opened Coordinator
  import opened Cluster
  import opened ClusterSafety
  import opened Observer

  /**
   If R and the direct acknowledgements of a write exceed N, a later read that answers OK passes the evaluation's test
   for that write, in whatever order its siblings are listed.
   */
  lemma StrictReadsAreConsistent(c: Config, s0: State, run: seq<Step>, s1: State, later: seq<Step>, s2: State, id: nat, g: nat)
    requires Valid(c.ring) && Initial(s0) && Leads(c, s0, run, s1) && Leads(c, s1, later, s2)
    requires id in s1.puts && c.readQuorum + |DirectSlots(s1.puts[id])| > c.ring.numReplicas
    requires g !in s1.gets && g in s2.gets && s2.gets[g].key == s1.puts[id].args.key
    requires s2.gets[g].acc.reply == Some(OK)
    ensures Consistent(s1.puts[id].args.obj, s2.gets[g].acc.siblings) && OrderIrrelevant(s1.puts[id].args.obj, s2.gets[g].acc.siblings)
  {
    ReadAfterWrite(c, s0, run, s1, later, s2, id, g);
    hide Leads, Antichain, Covers;
    EarlyExitsHarmless(s1.puts[id].args.obj, s2.gets[g].acc.siblings);
  }
}
