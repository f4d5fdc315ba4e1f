/** Agents are added, removed, marked and drained by id, and only those. */
module PoolMembership {
  import opened PoolModel
  import opened PoolRuns

  /** Some agent of the pool has this id. */
  ghost predicate Present(s: State, id: string)
    requires WellFormed(s)
  {
    exists k | 0 <= k < |s.agents| :: s.handles[s.agents[k]].id == id
  }

  lemma AtMostOnePosition(s: State, id: string, j: nat, k: nat)
    requires WellFormed(s) && j < |s.agents| && k < |s.agents|
    requires s.handles[s.agents[j]].id == id && s.handles[s.agents[k]].id == id
    ensures j == k
  {
  }

  /** Adding makes the id present with an idle, healthy, undrained agent unless
      it was there already; the others keep their cells and their places. */
  lemma AddedById(s: State, id: string)
    requires WellFormed(s) && Unlocked(s)
    ensures var s' := AddedAgent(s, id);
      && WellFormed(s') && Present(s', id)
      && s.handles <= s'.handles && s.agents <= s'.agents
      && (Present(s, id) ==> s' == s)
      && (!Present(s, id) ==>
            && |s'.agents| == |s.agents| + 1
            && s'.handles[s'.agents[|s.agents|]] == Handle(id, 0, true, false)
            && s'.agents[|s.agents|] !in s.agents && s'.permit)
  {
    WellFormedAdd(s, id);
    var s' := AddedAgent(s, id);
    if !Present(s, id) {
      assert s'.handles[s'.agents[|s.agents|]].id == id;
    }
  }

  ghost predicate Precedes(ys: seq<nat>, x: nat, y: nat) {
    exists k, l :: 0 <= k < l < |ys| && ys[k] == x && ys[l] == y
  }

  /** Any two agents of `xs` come in the same order in `ys`. */
  ghost predicate InOrder(xs: seq<nat>, ys: seq<nat>) {
    forall i, j | 0 <= i < j < |xs| :: Precedes(ys, xs[i], xs[j])
  }

  lemma RestInOrder(xs: seq<nat>, p: nat)
    requires p < |xs|
    ensures InOrder(xs[..p] + xs[p + 1..], xs)
  {
    var rest := xs[..p] + xs[p + 1..];
    forall i, j | 0 <= i < j < |rest| ensures Precedes(xs, rest[i], rest[j]) {
      assert xs[if i < p then i else i + 1] == rest[i] && xs[if j < p then j else j + 1] == rest[j];
    }
  }

  lemma PrecedesBehind(ys: seq<nat>, x: nat, y: nat)
    requires ys != [] && (Precedes(ys[1..], x, y) || (ys[0] == x && y in ys[1..]))
    ensures Precedes(ys, x, y)
  {
    if Precedes(ys[1..], x, y) {
      var k, l :| 0 <= k < l < |ys[1..]| && ys[1..][k] == x && ys[1..][l] == y;
      assert ys[k + 1] == x && ys[l + 1] == y;
    } else {
      var l :| 0 <= l < |ys[1..]| && ys[1..][l] == y;
      assert ys[0] == x && ys[l + 1] == y;
    }
  }

  lemma {:induction false} RetainedInOrder(hs: seq<Handle>, found: seq<Candidate>, agents: seq<nat>)
    requires Below(agents, |hs|) && Known(found, |hs|)
    ensures InOrder(Retained(hs, found, agents), agents)
  {
    if agents != [] {
      var kept, rest := Retained(hs, found, agents), Retained(hs, found, agents[1..]);
      RetainedInOrder(hs, found, agents[1..]);
      RetainedIsFilter(hs, found, agents[1..]);
      forall i, j | 0 <= i < j < |kept| ensures Precedes(agents, kept[i], kept[j]) {
        var skipped := |kept| - |rest|;
        assert kept[j] == rest[j - skipped] && rest[j - skipped] in agents[1..];
        assert i >= skipped ==> kept[i] == rest[i - skipped];
        PrecedesBehind(agents, kept[i], kept[j]);
      }
    }
  }

  lemma AllButOne(hs: seq<Handle>, agents: seq<nat>, p: nat)
    requires Below(agents, |hs|) && DistinctIds(hs, agents) && p < |agents|
    ensures forall a :: a in agents[..p] + agents[p + 1..]
                        <==> a in agents && a < |hs| && hs[a].id != hs[agents[p]].id
  {
    var rest := agents[..p] + agents[p + 1..];
    forall a | a in rest ensures a in agents && a < |hs| && hs[a].id != hs[agents[p]].id {
      var k :| 0 <= k < |rest| && rest[k] == a;
      assert a == agents[if k < p then k else k + 1];
    }
    forall a | a in agents && a < |hs| && hs[a].id != hs[agents[p]].id ensures a in rest {
      var k :| 0 <= k < |agents| && agents[k] == a;
      assert rest[if k < p then k else k - 1] == a;
    }
  }

  /** Removing drops exactly the agent with the id, keeps the order of the
      others, and never touches a cell. */
  lemma RemovedById(s: State, id: string)
    requires WellFormed(s) && Unlocked(s)
    ensures var s' := RemovedAgent(s, id);
      && WellFormed(s') && s'.handles == s.handles && InOrder(s'.agents, s.agents)
      && forall a :: a in s'.agents <==> a in s.agents && a < |s.handles| && s.handles[a].id != id
  {
    WellFormedRemove(s, id);
    var p := Position(s.handles, s.agents, id);
    if p.Some? {
      AllButOne(s.handles, s.agents, p.value);
      RestInOrder(s.agents, p.value);
    } else {
      forall a | a in s.agents ensures a < |s.handles| && s.handles[a].id != id {
        var k :| 0 <= k < |s.agents| && s.agents[k] == a;
      }
      forall i, j | 0 <= i < j < |s.agents| ensures Precedes(s.agents, s.agents[i], s.agents[j]) {
      }
    }
  }

  /** Marking sets the flag of exactly the pool's agent with the id. */
  lemma MarkedById(s: State, id: string, a: nat)
    requires WellFormed(s) && a < |s.handles|
    ensures var h, h' := s.handles[a], MarkedDraining(s, id).handles[a];
            h' == h.(draining := h.draining || (a in s.agents && h.id == id))
  {
    if a in s.agents && s.handles[a].id == id {
      var k :| 0 <= k < |s.agents| && s.agents[k] == a;
      assert Position(s.handles, s.agents, id).Some?;
      AtMostOnePosition(s, id, Position(s.handles, s.agents, id).value, k);
    }
  }

  /** Draining drops exactly the agents that share an id with a candidate and
      keeps the order of the others. */
  lemma RetainedById(s: State, a: nat)
    requires WellFormed(s) && s.drain.DrainScan? && a in s.agents
    ensures a < |s.handles|
    ensures InOrder(Retained(s.handles, s.drain.found, s.agents), s.agents)
    ensures a in Retained(s.handles, s.drain.found, s.agents)
            <==> forall i | 0 <= i < |s.drain.found| :: s.handles[s.drain.found[i].agent].id != s.handles[a].id
  {
    var k :| 0 <= k < |s.agents| && s.agents[k] == a;
    RetainedIsFilter(s.handles, s.drain.found, s.agents);
    RetainedInOrder(s.handles, s.drain.found, s.agents);
  }
}
