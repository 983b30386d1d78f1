/** What holds in every run of the two-sided map: one linearizable global map, and responses that fit. */
module PartitionedRuns {
  import opened Linearizability
  import opened KeyPartition
  import opened PartitionedMap

  lemma {:induction false} RunLin(space: Space, r: seq<State>, acts: seq<Action>, i: nat) returns (lin: seq<LinPoint>)
    requires space.Valid() && IsRun(space, r, acts) && i < |r|
    ensures LinInv(space, r[i], lin)
  {
    if i == 0 {
      InitLin(space, r[0]);
      lin := [];
    } else {
      var lin0 := RunLin(space, r, acts, i - 1);
      lin := StepLin(space, r[i - 1], acts[i - 1], lin0);
    }
  }

  // ---------- Main results ----------

  /** Every run, with any number of client and server threads on every node, is linearizable to one global map, and
      that map is the node maps glued together. */
  lemma TwoSidedIsLinearizable(space: Space, r: seq<State>, acts: seq<Action>, i: nat)
    requires space.Valid() && IsRun(space, r, acts) && i < |r|
    ensures |r[i].maps| == space.count && Linearizable(r[i].history)
    ensures exists lin :: IsLinearization(r[i].history, lin) && Glued(space, r[i].maps, Replay(lin))
  {
    var lin := RunLin(space, r, acts, i);
    TimedIsLinearization(r[i].history, lin);
  }

  /** The opcode assertions never fail: a server only meets requests, and a client is answered by an error or by the
      response to its own kind of request. */
  lemma OpcodesMatch(space: Space, r: seq<State>, acts: seq<Action>, i: nat)
    requires space.Valid() && IsRun(space, r, acts) && i < |r|
    ensures forall v | 0 <= v < |r[i].servers| && r[i].servers[v].pc.Got? ::
      r[i].servers[v].pc.request.kind in {GetReq, InsReq, RmvReq}
    ensures forall t | 0 <= t < |r[i].clients| && r[i].clients[t].pc.Unlocking? ::
      RightKind(r[i].clients[t].pc.op, r[i].clients[t].pc.response)
  {
    var lin := RunLin(space, r, acts, i);
    forall v | 0 <= v < |r[i].servers| && r[i].servers[v].pc.Got?
      ensures r[i].servers[v].pc.request.kind in {GetReq, InsReq, RmvReq}
    {
      assert ServerOK(space, r[i], v);
      assert PairOK(space, r[i], lin, r[i].servers[v].pc.from, r[i].servers[v].node);
    }
    forall t | 0 <= t < |r[i].clients| && r[i].clients[t].pc.Unlocking?
      ensures RightKind(r[i].clients[t].pc.op, r[i].clients[t].pc.response)
    {
      assert ClientOK(space, r[i], lin, t);
    }
  }

  /** No node ever stores a key of another node's share, and no channel ever holds two messages. */
  lemma SharesKept(space: Space, r: seq<State>, acts: seq<Action>, i: nat, a: nat, b: nat)
    requires space.Valid() && IsRun(space, r, acts) && i < |r|
    ensures forall d, k | 0 <= d < |r[i].maps| && k in r[i].maps[d] :: space.Holds(k) && space.ToId(k) == d
    ensures |Queue(r[i].requests, a, b)| + |Queue(r[i].responses, a, b)| <= 1
  {
    var lin := RunLin(space, r, acts, i);
    assert PairOK(space, r[i], lin, a, b);
  }
}
