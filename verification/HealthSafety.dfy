/** What the assignment, health and redeploy machine keeps in every run. */
module HealthSafety {
  import opened Collections
  import opened Wrappers
  import opened EngineStore
  import opened HealthProtocol

  // ----- The verdicts of one pass -----

  /** The nodes of the snapshot a pass swaps out. */
  function SwapSet(e: Engine, t: TunnelId, snap: seq<NodeId>, results: map<NodeId, bool>, maxMisses: int): set<NodeId>
    requires Covers(results, snap)
  {
    set n | n in snap && SwapsOut(e, Key(t, n), results[n], maxMisses)
  }

  /** Node rows after a pass: the swap set is unassigned, everything else untouched. */
  ghost predicate NodesJudged(e: Engine, j: Engine, swapped: set<NodeId>) {
    && j.nodes.Keys == e.nodes.Keys
    && forall n :: n in e.nodes ==>
         j.nodes[n] == if n in swapped then e.nodes[n].(assignedTo := None) else e.nodes[n]
  }

  /** Strikes after a pass: only the snapshot's, and each by its own verdict. */
  ghost predicate StrikesJudged(e: Engine, j: Engine, t: TunnelId, snap: seq<NodeId>,
                                results: map<NodeId, bool>, maxMisses: int)
    requires Covers(results, snap)
  {
    forall k: Key ::
      if k.tunnel == t && k.node in snap then
        var stays := !results[k.node] && !SwapsOut(e, k, results[k.node], maxMisses);
        (k in j.strikes <==> stays) && (stays ==> j.strikes[k] == StrikeCount(e, k) + 1)
      else (k in j.strikes <==> k in e.strikes) && (k in e.strikes ==> j.strikes[k] == e.strikes[k])
  }

  /** The tunnel's row after a pass: the count dropped by exactly the swaps. */
  ghost predicate RowJudged(e: Engine, j: Engine, t: TunnelId, swaps: nat) {
    && j.tunnels.Keys == e.tunnels.Keys && t in e.tunnels
    && (forall u :: u in e.tunnels && u != t ==> j.tunnels[u] == e.tunnels[u])
    && j.tunnels[t].requested == e.tunnels[t].requested
    && j.tunnels[t].granted == e.tunnels[t].granted - swaps
    && (j.tunnels[t].state == e.tunnels[t].state || j.tunnels[t].state == Running)
  }

  lemma SwapSetGrows(e: Engine, t: TunnelId, init: seq<NodeId>, last: NodeId, results: map<NodeId, bool>,
                     maxMisses: int)
    requires Covers(results, init + [last])
    ensures SwapSet(e, t, init + [last], results, maxMisses) ==
            SwapSet(e, t, init, results, maxMisses)
            + (if SwapsOut(e, Key(t, last), results[last], maxMisses) then {last} else {})
  {
  }

  /**
    Judging a snapshot that is still assigned: every verdict counts once, against the strikes
    the pass began with; the nodes that reach the limit, and only they, are unassigned; and
    the grant count drops by exactly their number, so flooring it at zero never bites.
   */
  lemma {:induction false} JudgedExactly(e: Engine, t: TunnelId, snap: seq<NodeId>, results: map<NodeId, bool>,
                                         maxMisses: int)
    requires Covers(results, snap) && Distinct(snap) && t in e.tunnels
    requires Elements(snap) <= AssignedTo(e.nodes, t)
    requires e.tunnels[t].granted >= |AssignedTo(e.nodes, t)|
    ensures var j := Judged(e, t, snap, results, maxMisses);
            var swapped := SwapSet(e, t, snap, results, maxMisses);
            && NodesJudged(e, j, swapped)
            && StrikesJudged(e, j, t, snap, results, maxMisses)
            && RowJudged(e, j, t, |swapped|)
            && SwapCount(e, t, snap, results, maxMisses) == |swapped|
            && AssignedTo(j.nodes, t) == AssignedTo(e.nodes, t) - swapped
            && j.rendered == e.rendered && j.pending == e.pending && j.busy == e.busy
  {
    if snap == [] {
      assert SwapSet(e, t, snap, results, maxMisses) == {};
    } else {
      var init, last := snap[..|snap| - 1], snap[|snap| - 1];
      assert snap == init + [last];
      forall n | n in init ensures n in AssignedTo(e.nodes, t) { assert n in Elements(snap); }
      JudgedExactly(e, t, init, results, maxMisses);
      SwapSetGrows(e, t, init, last, results, maxMisses);
      LastVerdict(e, t, init, last, results, maxMisses);
    }
  }

  lemma CardBelow(a: set<NodeId>, b: set<NodeId>, x: NodeId)
    requires a <= b && x in b && x !in a
    ensures |a| < |b|
  {
    assert b == (b - {x}) + {x};
    assert a <= b - {x};
    SubsetCard(a, b - {x});
  }

  lemma LastNodes(e: Engine, j: Engine, t: TunnelId, before: set<NodeId>, last: NodeId, alive: bool, maxMisses: int)
    requires NodesJudged(e, j, before) && last in e.nodes && last !in before
    ensures var one := JudgeOne(j, t, last, alive, maxMisses);
            var swaps := SwapsOut(j, Key(t, last), alive, maxMisses);
            NodesJudged(e, one, before + (if swaps then {last} else {}))
  {
  }

  lemma LastStrikes(e: Engine, j: Engine, t: TunnelId, init: seq<NodeId>, last: NodeId,
                    results: map<NodeId, bool>, maxMisses: int)
    requires Covers(results, init + [last]) && last !in init
    requires StrikesJudged(e, j, t, init, results, maxMisses)
    ensures StrikesJudged(e, JudgeOne(j, t, last, results[last], maxMisses), t, init + [last], results, maxMisses)
    ensures SwapsOut(j, Key(t, last), results[last], maxMisses) ==
            SwapsOut(e, Key(t, last), results[last], maxMisses)
  {
    var k0 := Key(t, last);
    assert k0.tunnel == t && k0.node !in init;
    assert StrikeCount(j, k0) == StrikeCount(e, k0);
  }

  lemma LastRow(e: Engine, j: Engine, t: TunnelId, swaps: nat, last: NodeId, alive: bool, maxMisses: int)
    requires RowJudged(e, j, t, swaps) && swaps < e.tunnels[t].granted
    ensures var one := JudgeOne(j, t, last, alive, maxMisses);
            RowJudged(e, one, t, swaps + (if SwapsOut(j, Key(t, last), alive, maxMisses) then 1 else 0))
  {
  }

  lemma AssignedLess(e: Engine, j: Engine, t: TunnelId, swapped: set<NodeId>)
    requires NodesJudged(e, j, swapped) && swapped <= AssignedTo(e.nodes, t)
    ensures AssignedTo(j.nodes, t) == AssignedTo(e.nodes, t) - swapped
    ensures forall u :: u != t ==> AssignedTo(j.nodes, u) == AssignedTo(e.nodes, u)
  {
  }

  lemma LastVerdict(e: Engine, t: TunnelId, init: seq<NodeId>, last: NodeId, results: map<NodeId, bool>, maxMisses: int)
    requires Covers(results, init + [last]) && last !in init && t in e.tunnels
    requires Elements(init) <= AssignedTo(e.nodes, t) && last in AssignedTo(e.nodes, t)
    requires e.tunnels[t].granted >= |AssignedTo(e.nodes, t)|
    requires var j := Judged(e, t, init, results, maxMisses);
             var swapped := SwapSet(e, t, init, results, maxMisses);
             NodesJudged(e, j, swapped) && StrikesJudged(e, j, t, init, results, maxMisses)
             && RowJudged(e, j, t, |swapped|)
    ensures var j := Judged(e, t, init, results, maxMisses);
            var one := JudgeOne(j, t, last, results[last], maxMisses);
            var swapped := SwapSet(e, t, init + [last], results, maxMisses);
            && |swapped| == |SwapSet(e, t, init, results, maxMisses)|
                            + (if SwapsOut(j, Key(t, last), results[last], maxMisses) then 1 else 0)
            && NodesJudged(e, one, swapped) && StrikesJudged(e, one, t, init + [last], results, maxMisses)
            && RowJudged(e, one, t, |swapped|)
            && AssignedTo(one.nodes, t) == AssignedTo(e.nodes, t) - swapped
  {
    hide Judged, NodesJudged, StrikesJudged, RowJudged, JudgeOne;
    var j := Judged(e, t, init, results, maxMisses);
    var before := SwapSet(e, t, init, results, maxMisses);
    forall n | n in before ensures n in AssignedTo(e.nodes, t) { assert n in Elements(init); }
    CardBelow(before, AssignedTo(e.nodes, t), last);
    SwapSetGrows(e, t, init, last, results, maxMisses);
    LastStrikes(e, j, t, init, last, results, maxMisses);
    LastNodes(e, j, t, before, last, results[last], maxMisses);
    LastRow(e, j, t, |before|, last, results[last], maxMisses);
    AssignedLess(e, JudgeOne(j, t, last, results[last], maxMisses), t,
                 SwapSet(e, t, init + [last], results, maxMisses));
  }

  // ----- Topping up -----

  lemma PrefixDistinct(s: seq<NodeId>, k: nat)
    requires Distinct(s) && k <= |s|
    ensures Distinct(s[..k]) && |Elements(s[..k])| == k && Elements(s[..k]) <= Elements(s)
  {
    ElementsCard(s[..k]);
    forall x | x in s[..k] ensures x in s {}
  }

  /** Granting free nodes: exactly they move, nobody loses one. */
  lemma AssignFree(nodes: Nodes, ids: set<NodeId>, t: TunnelId)
    requires ids <= Free(nodes)
    ensures var after := Assign(nodes, ids, t);
            && AssignedTo(after, t) == AssignedTo(nodes, t) + ids
            && |AssignedTo(after, t)| == |AssignedTo(nodes, t)| + |ids|
            && (forall u :: u != t ==> AssignedTo(after, u) == AssignedTo(nodes, u))
            && Pairs(after) == Pairs(nodes) + (set n | n in ids :: Key(t, n))
  {
    var after := Assign(nodes, ids, t);
    assert AssignedTo(nodes, t) !! ids;
    forall k ensures k in Pairs(after) <==> k in Pairs(nodes) + (set n | n in ids :: Key(t, n)) {
      if k in Pairs(after) {
        assert k.node in after && after[k.node].assignedTo == Some(k.tunnel);
        if k.node in ids { assert k == Key(t, k.node); }
        else { assert k == Key(nodes[k.node].assignedTo.value, k.node); }
      }
      if k in Pairs(nodes) {
        assert k.node in nodes && nodes[k.node].assignedTo == Some(k.tunnel);
        assert k == Key(after[k.node].assignedTo.value, k.node);
      }
      if k in (set n | n in ids :: Key(t, n)) {
        assert k == Key(after[k.node].assignedTo.value, k.node);
      }
    }
  }

  lemma PairsMean(nodes: Nodes)
    ensures forall k :: k in Pairs(nodes) <==> k.node in nodes && nodes[k.node].assignedTo == Some(k.tunnel)
  {
    forall k ensures k in Pairs(nodes) <==> k.node in nodes && nodes[k.node].assignedTo == Some(k.tunnel) {
      if k.node in nodes && nodes[k.node].assignedTo == Some(k.tunnel) {
        assert k == Key(nodes[k.node].assignedTo.value, k.node);
      }
    }
  }

  // ----- The locked commit -----

  lemma DeadRunExtends(trail: seq<bool>, alive: bool)
    ensures DeadRun(trail + [alive]) == if alive then 0 else 1 + DeadRun(trail)
  {
    assert (trail + [alive])[..|trail|] == trail;
  }

  /** One pair's strike count after the pass, against its extended history. */
  lemma CountAfterJudging(e: Engine, j: Engine, t: TunnelId, snap: seq<NodeId>, results: map<NodeId, bool>,
                          maxMisses: int, k: Key, trail: seq<bool>)
    requires Covers(results, snap) && StrikesJudged(e, j, t, snap, results, maxMisses)
    requires StrikeCount(e, k) == DeadRun(trail)
    requires k.tunnel == t && k.node in snap ==> !SwapsOut(e, k, results[k.node], maxMisses)
    ensures StrikeCount(j, k) ==
            DeadRun(if k.tunnel == t && k.node in snap then trail + [results[k.node]] else trail)
  {
    if k.tunnel == t && k.node in snap {
      DeadRunExtends(trail, results[k.node]);
    }
  }

  /** A pair with a strike after the pass is one that stays assigned, and under the limit. */
  lemma StrikeAfterJudging(e: Engine, j: Engine, t: TunnelId, snap: seq<NodeId>, results: map<NodeId, bool>,
                           maxMisses: int, k: Key)
    requires Covers(results, snap) && StrikesJudged(e, j, t, snap, results, maxMisses)
    requires NodesJudged(e, j, SwapSet(e, t, snap, results, maxMisses))
    requires forall n :: n in snap ==> n in AssignedTo(e.nodes, t)
    requires k in e.strikes ==> k in Pairs(e.nodes) && 1 <= e.strikes[k] < maxMisses
    requires k in j.strikes
    ensures k in Pairs(j.nodes) && 1 <= j.strikes[k] < maxMisses
  {
    PairsMean(e.nodes);
    PairsMean(j.nodes);
  }

  /** After the verdicts, strikes still are the trailing dead runs of the pairs that stay. */
  lemma StrikesAfterJudging(e: Engine, j: Engine, t: TunnelId, snap: seq<NodeId>, results: map<NodeId, bool>,
                            maxMisses: int, trail: map<Key, seq<bool>>)
    requires Covers(results, snap) && Elements(snap) <= AssignedTo(e.nodes, t)
    requires StrikesOk(maxMisses, e, trail)
    requires NodesJudged(e, j, SwapSet(e, t, snap, results, maxMisses))
    requires StrikesJudged(e, j, t, snap, results, maxMisses)
    ensures StrikesOk(maxMisses, j, Extended(trail, j.nodes, t, snap, results))
  {
    hide StrikesJudged, NodesJudged, SwapSet, SwapsOut, DeadRun, StrikeCount, Pairs, AssignedTo;
    var after := Extended(trail, j.nodes, t, snap, results);
    AllAssigned(e.nodes, t, snap);
    StayersKnown(e, j, t, snap, results, maxMisses);
    ExtendedKeys(trail, j.nodes, t, snap, results);
    hide Elements;
    forall k | k in j.strikes ensures k in after && 1 <= j.strikes[k] < maxMisses {
      StrikeAfterJudging(e, j, t, snap, results, maxMisses, k);
    }
    forall k | k in after ensures StrikeCount(j, k) == DeadRun(after[k]) {
      CountAfterJudging(e, j, t, snap, results, maxMisses, k, trail[k]);
    }
  }

  lemma AllAssigned(nodes: Nodes, t: TunnelId, snap: seq<NodeId>)
    requires Elements(snap) <= AssignedTo(nodes, t)
    ensures forall n :: n in snap ==> n in AssignedTo(nodes, t)
  {
    forall n | n in snap ensures n in AssignedTo(nodes, t) { assert n in Elements(snap); }
  }

  lemma ExtendedKeys(trail: map<Key, seq<bool>>, nodes: Nodes, t: TunnelId, snap: seq<NodeId>,
                     results: map<NodeId, bool>)
    requires Covers(results, snap) && Pairs(nodes) <= trail.Keys
    ensures Extended(trail, nodes, t, snap, results).Keys == Pairs(nodes)
  {
  }

  /** A pair left after the pass was there before, and was not swapped out. */
  lemma StayersKnown(e: Engine, j: Engine, t: TunnelId, snap: seq<NodeId>, results: map<NodeId, bool>, maxMisses: int)
    requires Covers(results, snap) && NodesJudged(e, j, SwapSet(e, t, snap, results, maxMisses))
    ensures forall k :: k in Pairs(j.nodes) ==>
              k in Pairs(e.nodes)
              && (k.tunnel == t && k.node in snap ==> !SwapsOut(e, k, results[k.node], maxMisses))
  {
    PairsMean(e.nodes);
    PairsMean(j.nodes);
    forall k | k in Pairs(j.nodes) && k.tunnel == t && k.node in snap
      ensures !SwapsOut(e, k, results[k.node], maxMisses)
    {
      assert k == Key(t, k.node);
    }
  }

  /** All the change other tunnels can see of a step of tunnel `t`. */
  ghost predicate Apart(e: Engine, f: Engine, t: TunnelId) {
    && f.tunnels.Keys == e.tunnels.Keys && f.rendered == e.rendered && f.busy == e.busy
    && e.pending <= f.pending <= e.pending + {t}
    && (forall u :: u in e.tunnels && u != t ==>
          f.tunnels[u] == e.tunnels[u] && AssignedTo(f.nodes, u) == AssignedTo(e.nodes, u))
    && (forall k :: k in f.strikes && k !in e.strikes ==> k.tunnel == t)
  }

  /** Swapping out nodes and dropping the count by as many keeps every count exact. */
  lemma SwapKeepsExact(e: Engine, j: Engine, t: TunnelId, swapped: set<NodeId>)
    requires Exact(e) && NodesJudged(e, j, swapped) && RowJudged(e, j, t, |swapped|)
    requires swapped <= AssignedTo(e.nodes, t)
    ensures Exact(j)
  {
    AssignedLess(e, j, t, swapped);
    var rest := AssignedTo(j.nodes, t);
    assert AssignedTo(e.nodes, t) == rest + swapped && rest !! swapped;
    assert |AssignedTo(e.nodes, t)| == |rest| + |swapped|;
    forall u | u in j.tunnels
      ensures j.tunnels[u].granted == |AssignedTo(j.nodes, u)| <= j.tunnels[u].requested
    {
      assert u in e.tunnels;
    }
  }

  lemma JudgedApart(e: Engine, j: Engine, t: TunnelId, snap: seq<NodeId>, results: map<NodeId, bool>, maxMisses: int)
    requires Covers(results, snap) && Serving(e, t)
    requires NodesJudged(e, j, SwapSet(e, t, snap, results, maxMisses))
    requires StrikesJudged(e, j, t, snap, results, maxMisses)
    requires RowJudged(e, j, t, |SwapSet(e, t, snap, results, maxMisses)|)
    requires SwapSet(e, t, snap, results, maxMisses) <= AssignedTo(e.nodes, t)
    requires j.rendered == e.rendered && j.pending == e.pending && j.busy == e.busy
    ensures Serving(j, t) && Apart(e, j, t)
  {
    AssignedLess(e, j, t, SwapSet(e, t, snap, results, maxMisses));
    assert forall k: Key :: k in j.strikes && k !in e.strikes ==> k.tunnel == t;
  }

  lemma JudgedKeeps(e: Engine, t: TunnelId, snap: seq<NodeId>, results: map<NodeId, bool>, maxMisses: int)
    requires Covers(results, snap) && Distinct(snap) && Exact(e) && Serving(e, t)
    requires Elements(snap) <= AssignedTo(e.nodes, t)
    ensures var j := Judged(e, t, snap, results, maxMisses);
            && Exact(j) && Serving(j, t) && Apart(e, j, t) && j.pending == e.pending
            && (SwapCount(e, t, snap, results, maxMisses) == 0 ==>
                  AssignedTo(j.nodes, t) == AssignedTo(e.nodes, t))
  {
    assert e.tunnels[t].granted == |AssignedTo(e.nodes, t)|;
    hide Judged, NodesJudged, StrikesJudged, RowJudged, Exact, SwapCount, Apart;
    JudgedExactly(e, t, snap, results, maxMisses);
    var j := Judged(e, t, snap, results, maxMisses);
    var swapped := SwapSet(e, t, snap, results, maxMisses);
    forall n | n in swapped ensures n in AssignedTo(e.nodes, t) { assert n in Elements(snap); }
    SwapKeepsExact(e, j, t, swapped);
    JudgedApart(e, j, t, snap, results, maxMisses);
  }

  /** Handing out free nodes within the request and counting each keeps every count exact. */
  lemma GrantKeepsExact(e: Engine, t: TunnelId, ids: set<NodeId>)
    requires Exact(e) && Serving(e, t) && ids <= Free(e.nodes)
    requires e.tunnels[t].granted + |ids| <= e.tunnels[t].requested
    ensures var f := Bumped(e.(nodes := Assign(e.nodes, ids, t)), t, |ids|);
            Exact(f) && Serving(f, t) && Apart(e, f, t) && f.pending == e.pending
  {
    AssignFree(e.nodes, ids, t);
    var f := Bumped(e.(nodes := Assign(e.nodes, ids, t)), t, |ids|);
    forall u | u in f.tunnels
      ensures f.tunnels[u].granted == |AssignedTo(f.nodes, u)| <= f.tunnels[u].requested
    {
      assert u in e.tunnels;
    }
  }

  /** Topping up: as many free nodes as fit the request, each counted once. */
  lemma ProvisionedKeeps(e: Engine, t: TunnelId, order: seq<NodeId>, maxMisses: int, trail: map<Key, seq<bool>>)
    requires Exact(e) && Serving(e, t) && IsRanking(e.nodes, order) && StrikesOk(maxMisses, e, trail)
    ensures var f := Provisioned(e, t, order);
            && Exact(f) && Serving(f, t) && Apart(e, f, t) && f.pending == e.pending
            && StrikesOk(maxMisses, f, Fresh(trail, f.nodes))
            && AssignedTo(f.nodes, t) == AssignedTo(e.nodes, t) + Elements(TopUpIds(e, t, order))
  {
    var added := TopUpIds(e, t, order);
    var f := Provisioned(e, t, order);
    if added == [] {
      assert Fresh(trail, e.nodes) == trail;
    } else {
      assert added == order[..|added|];
      PrefixDistinct(order, |added|);
      hide Exact, StrikesOk, Apart;
      AssignFree(e.nodes, Elements(added), t);
      GrantKeepsExact(e, t, Elements(added));
      FreshStrikes(e, f, t, Elements(added), maxMisses, trail);
    }
  }

  lemma FreshStrikes(e: Engine, f: Engine, t: TunnelId, ids: set<NodeId>, maxMisses: int, trail: map<Key, seq<bool>>)
    requires StrikesOk(maxMisses, e, trail) && f.strikes == e.strikes
    requires f.nodes == Assign(e.nodes, ids, t) && ids <= Free(e.nodes)
    ensures StrikesOk(maxMisses, f, Fresh(trail, f.nodes))
  {
    AssignFree(e.nodes, ids, t);
    var after := Fresh(trail, f.nodes);
    assert trail.Keys <= after.Keys;
    forall k | k in after ensures StrikeCount(f, k) == DeadRun(after[k]) {
      assert k in trail ==> StrikeCount(e, k) == DeadRun(trail[k]);
    }
  }

  /** The whole locked section, for a tunnel that is serving. */
  lemma CommittedKeeps(e: Engine, t: TunnelId, snap: seq<NodeId>, results: map<NodeId, bool>, maxMisses: int,
                       order: seq<NodeId>, trail: map<Key, seq<bool>>)
    requires Covers(results, snap) && Distinct(snap) && Exact(e) && Serving(e, t)
    requires Elements(snap) <= AssignedTo(e.nodes, t) && StrikesOk(maxMisses, e, trail)
    requires IsRanking(Judged(e, t, snap, results, maxMisses).nodes, order)
    ensures var j := Judged(e, t, snap, results, maxMisses);
            var f := Committed(e, t, snap, results, maxMisses, order);
            && Exact(f) && Serving(f, t) && Apart(e, f, t)
            && StrikesOk(maxMisses, f, Fresh(Extended(trail, j.nodes, t, snap, results), f.nodes))
            && (t !in f.pending ==> AssignedTo(f.nodes, t) == AssignedTo(e.nodes, t))
  {
    assert e.tunnels[t].granted == |AssignedTo(e.nodes, t)|;
    hide Judged, NodesJudged, StrikesJudged, RowJudged, Exact, StrikesOk, SwapCount;
    var j := Judged(e, t, snap, results, maxMisses);
    JudgedKeeps(e, t, snap, results, maxMisses);
    JudgedExactly(e, t, snap, results, maxMisses);
    StrikesAfterJudging(e, j, t, snap, results, maxMisses, trail);
    var extended := Extended(trail, j.nodes, t, snap, results);
    ProvisionedKeeps(j, t, order, maxMisses, extended);
    var g := Provisioned(j, t, order);
    var f := Committed(e, t, snap, results, maxMisses, order);
    assert f == g || f == g.(pending := g.pending + {t});
    PendingApart(e, j, g, t);
    PendingIrrelevant(g, t, maxMisses, Fresh(extended, g.nodes));
  }

  lemma PendingApart(e: Engine, j: Engine, g: Engine, t: TunnelId)
    requires Apart(e, j, t) && Apart(j, g, t)
    ensures Apart(e, g, t) && Apart(e, g.(pending := g.pending + {t}), t)
  {
  }

  lemma PendingIrrelevant(g: Engine, t: TunnelId, maxMisses: int, trail: map<Key, seq<bool>>)
    requires Exact(g) && StrikesOk(maxMisses, g, trail)
    ensures var f := g.(pending := g.pending + {t}); Exact(f) && StrikesOk(maxMisses, f, trail)
  {
  }

  // ----- One step -----

  /** A step of a pass of a serving tunnel `t` that moves nothing else. */
  lemma ApartKeeps(maxMisses: int, s: System, d: System, p: PassId, t: TunnelId)
    requires Inv(maxMisses, s) && Serving(s.e, t) && Serving(d.e, t) && Apart(s.e, d.e, t)
    requires d == s.(e := d.e, passes := d.passes, trail := d.trail)
    requires p in s.passes && s.passes[p].t == t
    requires p in d.passes && d.passes == s.passes[p := d.passes[p]] && d.passes[p].t == t
    requires PassOk(d.e, d.passes[p])
    requires t !in d.e.pending ==> AssignedTo(d.e.nodes, t) == AssignedTo(s.e.nodes, t)
    ensures IdsOk(d) && CreationsOk(d) && PassesOk(d) && DeploysOk(d)
  {
    hide IdsOk, PassesOk, CreationsOk, DeploysOk, BuildingOk, Exact, StrikesOk, Apart, PassOk;
    ApartPasses(s, d, p, t);
    ApartTunnels(s, d, t);
  }

  lemma ApartTunnels(s: System, d: System, t: TunnelId)
    requires IdsOk(s) && CreationsOk(s) && DeploysOk(s)
    requires Serving(s.e, t) && Serving(d.e, t) && Apart(s.e, d.e, t)
    requires d == s.(e := d.e, passes := d.passes, trail := d.trail)
    requires t !in d.e.pending ==> AssignedTo(d.e.nodes, t) == AssignedTo(s.e.nodes, t)
    ensures IdsOk(d) && CreationsOk(d) && DeploysOk(d)
  {
  }

  lemma ApartPasses(s: System, d: System, p: PassId, t: TunnelId)
    requires PassesOk(s) && Serving(s.e, t) && Serving(d.e, t) && Apart(s.e, d.e, t)
    requires d == s.(e := d.e, passes := d.passes, trail := d.trail)
    requires p in s.passes && s.passes[p].t == t
    requires p in d.passes && d.passes == s.passes[p := d.passes[p]] && d.passes[p].t == t
    requires PassOk(d.e, d.passes[p])
    ensures PassesOk(d)
  {
    forall q | q in d.passes ensures d.passes[q].t in d.issued && PassOk(d.e, d.passes[q]) {
      if q != p {
        assert PassOk(s.e, s.passes[q]);
        assert s.passes[q].t != t;
      }
    }
  }

  lemma CommitKeeps(maxMisses: int, s: System, p: PassId, results: map<NodeId, bool>, order: seq<NodeId>)
    requires Inv(maxMisses, s) && PassStep(maxMisses, s, Commit(p, results, order)).Some?
    ensures Inv(maxMisses, PassStep(maxMisses, s, Commit(p, results, order)).value)
  {
    var d := PassStep(maxMisses, s, Commit(p, results, order)).value;
    var t, snap := s.passes[p].t, s.passes[p].snap;
    assert PassOk(s.e, s.passes[p]);
    if Serving(s.e, t) {
      CommittedKeeps(s.e, t, snap, results, maxMisses, order, s.trail);
      hide Judged, Committed, Exact, StrikesOk, Apart;
      ApartKeeps(maxMisses, s, d, p, t);
    } else {
      QuietPassKeeps(maxMisses, s, d, p, Ending(t));
    }
  }

  /** A pass moves on and nothing else happens. */
  lemma QuietPassKeeps(maxMisses: int, s: System, d: System, p: PassId, next: Pass)
    requires Inv(maxMisses, s) && p in s.passes && d == Move(s, p, next) && next.t == s.passes[p].t
    requires PassOk(s.e, next) && BuildingPass(s.creating, next)
    ensures Inv(maxMisses, d)
  {
  }

  lemma SnapshotKeeps(maxMisses: int, s: System, p: PassId, snap: seq<NodeId>)
    requires Inv(maxMisses, s) && PassStep(maxMisses, s, Snapshot(p, snap)).Some?
    ensures Inv(maxMisses, PassStep(maxMisses, s, Snapshot(p, snap)).value)
  {
    var d := PassStep(maxMisses, s, Snapshot(p, snap)).value;
    assert PassOk(s.e, s.passes[p]);
    CreatingAssigned(s, s.passes[p].t);
    QuietPassKeeps(maxMisses, s, d, p, d.passes[p]);
  }

  /** While a create is under way its tunnel has the nodes granted or, deleted, none. */
  lemma CreatingAssigned(s: System, t: TunnelId)
    requires Exact(s.e) && CreationsOk(s)
    ensures t in s.creating ==> AssignedTo(s.e.nodes, t) <= Elements(s.creating[t].nodes)
  {
    if t !in s.e.tunnels { assert AssignedTo(s.e.nodes, t) == {}; }
  }

  /** Rows, assignments and strikes untouched: so are the counts and the strikes' histories. */
  lemma RowsKeep(maxMisses: int, s: System, d: System)
    requires Inv(maxMisses, s) && d.trail == s.trail
    requires d.e.nodes == s.e.nodes && d.e.tunnels == s.e.tunnels && d.e.strikes == s.e.strikes
    ensures Exact(d.e) && StrikesOk(maxMisses, d.e, d.trail)
  {
  }

  /** One pass moves on; whatever else changed, no pass reads it. */
  lemma MovedPassesOk(s: System, d: System, p: PassId, next: Pass)
    requires PassesOk(s) && p in s.passes && next.t == s.passes[p].t && PassOk(d.e, next)
    requires d.passes == s.passes[p := next] && d.issued == s.issued
    requires d.e.nodes == s.e.nodes && d.e.tunnels == s.e.tunnels && d.e.busy == s.e.busy
    ensures PassesOk(d)
  {
    forall q | q in d.passes ensures d.passes[q].t in d.issued && PassOk(d.e, d.passes[q]) {
      assert q != p ==> PassOk(s.e, s.passes[q]);
    }
  }

  lemma ServingCreated(s: System, t: TunnelId)
    requires CreationsOk(s) && Serving(s.e, t)
    ensures t !in s.creating
  {
    hide AssignedTo, Distinct, Elements;
  }

  lemma DeployReadKeeps(maxMisses: int, s: System, p: PassId)
    requires Inv(maxMisses, s) && PassStep(maxMisses, s, DeployRead(p)).Some?
    ensures Inv(maxMisses, PassStep(maxMisses, s, DeployRead(p)).value)
  {
    hide Exact, StrikesOk, CreationsOk, DeploysOk, IdsOk;
    var d := PassStep(maxMisses, s, DeployRead(p)).value;
    var t := s.passes[p].t;
    if Serving(s.e, t) { ServingCreated(s, t); }
    assert PassOk(s.e, s.passes[p]);
    hide PassesOk;
    assert Servable(s.e.nodes, t) <= AssignedTo(s.e.nodes, t);
    hide AssignedTo, Servable;
    assert PassOk(d.e, d.passes[p]);
    hide PassOk;
    RowsKeep(maxMisses, s, d);
    MovedPassesOk(s, d, p, d.passes[p]);
    CachedKeeps(s, d, t);
  }

  /** Dropping a pending mark is sound when the last rendered config is within the assigned nodes. */
  lemma CachedKeeps(s: System, d: System, t: TunnelId)
    requires IdsOk(s) && CreationsOk(s) && DeploysOk(s)
    requires d == s.(e := s.e.(pending := d.e.pending), passes := d.passes)
    requires d.e.pending == s.e.pending
             || (d.e.pending == s.e.pending - {t} && t in s.e.rendered
                 && s.e.rendered[t] <= AssignedTo(s.e.nodes, t))
    ensures IdsOk(d) && CreationsOk(d) && DeploysOk(d)
  {
    hide AssignedTo;
  }

  lemma RollOutKeeps(maxMisses: int, s: System, p: PassId, update: Update)
    requires Inv(maxMisses, s) && PassStep(maxMisses, s, RollOut(p, update)).Some?
    requires Guarded(s, RollOut(p, update))
    ensures Inv(maxMisses, PassStep(maxMisses, s, RollOut(p, update)).value)
  {
    hide Exact, StrikesOk, AssignedTo, CreationsOk, DeploysOk, IdsOk;
    var d := PassStep(maxMisses, s, RollOut(p, update)).value;
    assert PassOk(s.e, s.passes[p]) && PassOk(d.e, d.passes[p]);
    var t, sig := s.passes[p].t, s.passes[p].sig;
    assert t in s.issued && t !in s.creating;
    assert t in s.e.tunnels ==> sig <= AssignedTo(s.e.nodes, t) && s.e.tunnels[t].state != Starting;
    hide PassOk;
    RowsKeep(maxMisses, s, d);
    MovedPassesOk(s, d, p, d.passes[p]);
    hide PassesOk;
    if update.Rolled? {
      RolledKeeps(s, d, t, sig);
    } else {
      LeftKeeps(s, d, t, sig, update.left);
    }
  }

  /** A rolled-out config, within the tunnel's assigned nodes if its row is still there. */
  lemma RolledKeeps(s: System, d: System, t: TunnelId, sig: set<NodeId>)
    requires IdsOk(s) && CreationsOk(s) && DeploysOk(s) && t in s.issued && t !in s.creating
    requires t in s.e.tunnels ==> sig <= AssignedTo(s.e.nodes, t) && s.e.tunnels[t].state != Starting
    requires d == s.(e := s.e.(rendered := s.e.rendered[t := sig], pending := s.e.pending - {t}),
                     containers := s.containers[t := sig], passes := d.passes)
    ensures IdsOk(d) && CreationsOk(d) && DeploysOk(d)
  {
    hide AssignedTo;
  }

  /** What a failed update may leave. */
  lemma LeftKeeps(s: System, d: System, t: TunnelId, sig: set<NodeId>, left: Left)
    requires IdsOk(s) && CreationsOk(s) && DeploysOk(s) && t in s.issued && t !in s.creating
    requires left == Replaced && t in s.e.tunnels ==> t in s.e.rendered && sig <= s.e.rendered[t]
    requires d == s.(containers := LeftOver(s.containers, t, sig, left), passes := d.passes)
    ensures IdsOk(d) && CreationsOk(d) && DeploysOk(d)
  {
    hide AssignedTo, Distinct, Elements;
  }

  lemma PassEndKeeps(maxMisses: int, s: System, p: PassId)
    requires Inv(maxMisses, s) && PassStep(maxMisses, s, PassEnd(p)).Some?
    ensures Inv(maxMisses, PassStep(maxMisses, s, PassEnd(p)).value)
  {
    hide Exact, StrikesOk, AssignedTo;
    var d := PassStep(maxMisses, s, PassEnd(p)).value;
    RowsKeep(maxMisses, s, d);
    assert IdsOk(d) && CreationsOk(d) && DeploysOk(d);
    hide IdsOk, CreationsOk, DeploysOk;
    forall q | q in d.passes ensures d.passes[q].t in d.issued && PassOk(d.e, d.passes[q]) {
      assert q in s.passes && q != p && PassOk(s.e, s.passes[q]);
    }
  }

  lemma PassStepKeeps(maxMisses: int, s: System, ev: Event)
    requires ev.Snapshot? || ev.Commit? || ev.DeployRead? || ev.RollOut? || ev.Heal? || ev.PassRaises? || ev.PassEnd?
    requires Inv(maxMisses, s) && PassStep(maxMisses, s, ev).Some? && Guarded(s, ev)
    ensures Inv(maxMisses, PassStep(maxMisses, s, ev).value)
  {
    if ev.Snapshot? { SnapshotKeeps(maxMisses, s, ev.p, ev.snap); }
    else if ev.Commit? { CommitKeeps(maxMisses, s, ev.p, ev.results, ev.order); }
    else if ev.DeployRead? { DeployReadKeeps(maxMisses, s, ev.p); }
    else if ev.RollOut? { RollOutKeeps(maxMisses, s, ev.p, ev.update); }
    else if ev.PassEnd? { PassEndKeeps(maxMisses, s, ev.p); }
    else {
      var d := PassStep(maxMisses, s, ev).value;
      assert PassOk(s.e, s.passes[ev.p]);
      QuietPassKeeps(maxMisses, s, d, ev.p, d.passes[ev.p]);
    }
  }

  lemma CreateBeginKeeps(maxMisses: int, s: System, t: TunnelId, requested: int, order: seq<NodeId>)
    requires Inv(maxMisses, s) && Step(maxMisses, s, CreateBegin(t, requested, order)).Some?
    ensures Inv(maxMisses, Step(maxMisses, s, CreateBegin(t, requested, order)).value)
  {
    hide BuildingOk, PassesOk, DeploysOk, CreationsOk;
    var d := Step(maxMisses, s, CreateBegin(t, requested, order)).value;
    var granted := if requested < |order| then order[..requested] else order;
    assert granted == order[..|granted|];
    PrefixDistinct(order, |granted|);
    AssignFree(s.e.nodes, Elements(granted), t);
    NewTunnelExact(s.e, t, requested, granted);
    FreshStrikes(s.e, d.e, t, Elements(granted), maxMisses, s.trail);
    hide Exact, StrikesOk, Assign, Free;
    NewTunnelApart(maxMisses, s, d, t);
    NewTunnelBuilding(s, d, t);
  }

  lemma NewTunnelBuilding(s: System, d: System, t: TunnelId)
    requires PassesOk(s) && BuildingOk(s) && t !in s.issued && d.passes == s.passes
    requires t in d.creating && d.creating == s.creating[t := d.creating[t]]
    ensures BuildingOk(d)
  {
    hide Distinct, Elements, PassOk;
    forall p | p in d.passes ensures BuildingPass(d.creating, d.passes[p]) {
      assert BuildingPass(s.creating, s.passes[p]);
    }
  }

  lemma NewTunnelExact(e: Engine, t: TunnelId, requested: int, granted: seq<NodeId>)
    requires Exact(e) && t !in e.tunnels && |granted| <= requested
    requires Elements(granted) <= Free(e.nodes) && |Elements(granted)| == |granted|
    ensures AssignedTo(e.nodes, t) == {}
    ensures Exact(e.(nodes := Assign(e.nodes, Elements(granted), t),
                     tunnels := e.tunnels[t := Tunnel(Starting, requested, |granted|)]))
  {
    AssignFree(e.nodes, Elements(granted), t);
  }

  lemma NewTunnelApart(maxMisses: int, s: System, d: System, t: TunnelId)
    requires Inv(maxMisses, s) && t !in s.issued
    requires d == s.(e := s.e.(nodes := d.e.nodes, tunnels := d.e.tunnels), creating := d.creating,
                     issued := s.issued + {t}, trail := d.trail)
    requires t in d.creating && d.creating == s.creating[t := d.creating[t]]
    requires t in d.e.tunnels && d.e.tunnels == s.e.tunnels[t := d.e.tunnels[t]]
    requires d.e.tunnels[t] == Tunnel(Starting, d.creating[t].requested, |d.creating[t].nodes|)
    requires |d.creating[t].nodes| <= d.creating[t].requested && d.creating[t].requested >= 1
    requires Distinct(d.creating[t].nodes) && Elements(d.creating[t].nodes) == AssignedTo(d.e.nodes, t)
    requires forall u :: u != t ==> AssignedTo(d.e.nodes, u) == AssignedTo(s.e.nodes, u)
    requires StrikesOk(maxMisses, s.e, s.trail)
    ensures IdsOk(d) && CreationsOk(d) && PassesOk(d) && DeploysOk(d)
  {
    hide AssignedTo, Distinct, Elements, PassesOk, DeploysOk;
    assert t !in s.e.tunnels;
    forall k | k in s.e.strikes ensures k.tunnel != t {
      StruckIssued(maxMisses, s, k);
    }
    hide Exact, StrikesOk, CreationsOk;
    NewTunnelCreations(s, d, t);
    NewTunnelPasses(s, d, t);
    NewTunnelDeploys(s, d, t);
  }

  lemma NewTunnelCreations(s: System, d: System, t: TunnelId)
    requires IdsOk(s) && CreationsOk(s) && t !in s.issued
    requires d == s.(e := s.e.(nodes := d.e.nodes, tunnels := d.e.tunnels), creating := d.creating,
                     issued := s.issued + {t}, trail := d.trail)
    requires t in d.creating && d.creating == s.creating[t := d.creating[t]]
    requires t in d.e.tunnels && d.e.tunnels == s.e.tunnels[t := d.e.tunnels[t]]
    requires d.e.tunnels[t] == Tunnel(Starting, d.creating[t].requested, |d.creating[t].nodes|)
    requires |d.creating[t].nodes| <= d.creating[t].requested && d.creating[t].requested >= 1
    requires Distinct(d.creating[t].nodes) && Elements(d.creating[t].nodes) == AssignedTo(d.e.nodes, t)
    requires forall u :: u != t ==> AssignedTo(d.e.nodes, u) == AssignedTo(s.e.nodes, u)
    requires forall k :: k in s.e.strikes ==> k.tunnel != t
    ensures IdsOk(d) && CreationsOk(d)
  {
    hide AssignedTo, Distinct, Elements;
  }

  lemma StruckIssued(maxMisses: int, s: System, k: Key)
    requires IdsOk(s) && Exact(s.e) && StrikesOk(maxMisses, s.e, s.trail) && k in s.e.strikes
    ensures k.tunnel in s.issued
  {
    PairsMean(s.e.nodes);
    assert k in Pairs(s.e.nodes);
  }

  lemma NewTunnelDeploys(s: System, d: System, t: TunnelId)
    requires IdsOk(s) && DeploysOk(s) && t !in s.issued && d.containers == s.containers
    requires d.e.tunnels.Keys == s.e.tunnels.Keys + {t}
    requires d.e.rendered == s.e.rendered && d.e.pending == s.e.pending
    requires forall u :: u != t ==> AssignedTo(d.e.nodes, u) == AssignedTo(s.e.nodes, u)
    ensures DeploysOk(d)
  {
    hide AssignedTo;
  }

  lemma NewTunnelPasses(s: System, d: System, t: TunnelId)
    requires PassesOk(s) && t !in s.issued && d.issued == s.issued + {t} && d.passes == s.passes
    requires d.e.tunnels.Keys == s.e.tunnels.Keys + {t} && d.e.busy == s.e.busy
    requires forall u :: u in s.e.tunnels ==> d.e.tunnels[u] == s.e.tunnels[u]
    requires forall u :: u != t ==> AssignedTo(d.e.nodes, u) == AssignedTo(s.e.nodes, u)
    ensures PassesOk(d)
  {
    hide AssignedTo, Distinct, Elements;
    forall q | q in d.passes ensures d.passes[q].t in d.issued && PassOk(d.e, d.passes[q]) {
      assert PassOk(s.e, s.passes[q]);
    }
  }

  lemma CreateFinishKeeps(maxMisses: int, s: System, t: TunnelId)
    requires Inv(maxMisses, s) && t in s.creating && Finishable(s, t)
    ensures Inv(maxMisses, Step(maxMisses, s, CreateFinish(t)).value)
  {
    if t in s.e.tunnels { FoundKeeps(maxMisses, s, t); } else { RevivedKeeps(maxMisses, s, t); }
  }

  /** A row saved back with no node, for a tunnel that has none, is as good as new. */
  lemma RevivedKeeps(maxMisses: int, s: System, t: TunnelId)
    requires Inv(maxMisses, s) && t in s.creating && t !in s.e.tunnels
    requires s.creating[t].nodes == [] && LonePass(s, t)
    ensures Inv(maxMisses, Step(maxMisses, s, CreateFinish(t)).value)
  {
    hide Pairs, DeadRun;
    var d := Step(maxMisses, s, CreateFinish(t)).value;
    RevivedRows(maxMisses, s, t);
    hide Exact, StrikesOk, DeploysOk, CreationsOk, IdsOk;
    RevivedPassesOk(s, d, t);
    hide PassesOk;
    assert Elements(s.creating[t].nodes) == {};
    FinishedDeploysOk(s, d, t);
  }

  /** Whoever is in flight meanwhile, counts and strikes stay exact at the revival of a row without nodes. */
  lemma RevivedRows(maxMisses: int, s: System, t: TunnelId)
    requires Exact(s.e) && StrikesOk(maxMisses, s.e, s.trail) && CreationsOk(s)
    requires t in s.creating && t !in s.e.tunnels && s.creating[t].nodes == []
    ensures var d := Step(maxMisses, s, CreateFinish(t)).value;
            Exact(d.e) && StrikesOk(maxMisses, d.e, d.trail) && AssignedTo(d.e.nodes, t) == {}
  {
    hide Pairs, DeadRun;
    assert AssignedTo(s.e.nodes, t) == {};
  }

  lemma RevivedPassesOk(s: System, d: System, t: TunnelId)
    requires PassesOk(s) && BuildingOk(s) && t in s.creating && s.creating[t].nodes == [] && LonePass(s, t)
    requires d.passes == s.passes && d.issued == s.issued && d.e.nodes == s.e.nodes && d.e.busy == s.e.busy
    requires t in d.e.tunnels && d.e.tunnels == s.e.tunnels[t := d.e.tunnels[t]]
    ensures PassesOk(d)
  {
    hide AssignedTo, Distinct;
    assert Elements(s.creating[t].nodes) == {};
    forall q | q in d.passes ensures d.passes[q].t in d.issued && PassOk(d.e, d.passes[q]) {
      assert PassOk(s.e, s.passes[q]) && BuildingPass(s.creating, s.passes[q]);
    }
  }

  lemma FoundKeeps(maxMisses: int, s: System, t: TunnelId)
    requires Inv(maxMisses, s) && t in s.creating && t in s.e.tunnels
    ensures Inv(maxMisses, Step(maxMisses, s, CreateFinish(t)).value)
  {
    hide AssignedTo, Pairs, PassesOk, DeploysOk;
    var d := Step(maxMisses, s, CreateFinish(t)).value;
    assert Exact(d.e) && StrikesOk(maxMisses, d.e, d.trail);
    hide Exact, StrikesOk;
    assert t in s.e.tunnels;
    hide CreationsOk;
    FinishedPassesOk(s, d, t);
    FinishedDeploysOk(s, d, t);
  }

  lemma FinishedPassesOk(s: System, d: System, t: TunnelId)
    requires PassesOk(s) && t in s.e.tunnels && t in d.e.tunnels
    requires d.passes == s.passes && d.issued == s.issued && d.e.nodes == s.e.nodes && d.e.busy == s.e.busy
    requires d.e.tunnels == s.e.tunnels[t := d.e.tunnels[t]] && d.e.tunnels[t].state == Running
    ensures PassesOk(d)
  {
    hide AssignedTo;
    forall q | q in d.passes ensures d.passes[q].t in d.issued && PassOk(d.e, d.passes[q]) {
      assert PassOk(s.e, s.passes[q]);
    }
  }

  lemma FinishedDeploysOk(s: System, d: System, t: TunnelId)
    requires IdsOk(s) && CreationsOk(s) && DeploysOk(s) && t in s.creating
    requires Elements(s.creating[t].nodes) == AssignedTo(s.e.nodes, t)
    requires d == Step(0, s, CreateFinish(t)).value
    ensures IdsOk(d) && CreationsOk(d) && DeploysOk(d)
  {
    hide AssignedTo, Elements, Distinct, DeploysOk;
    var served := Elements(s.creating[t].nodes);
    assert IdsOk(d);
    hide IdsOk;
    assert CreationsOk(d);
    hide CreationsOk;
    assert d.e.nodes == s.e.nodes && d.e.pending == s.e.pending;
    assert d.e.rendered == s.e.rendered[t := served] && d.containers == s.containers[t := served];
    assert d.e.tunnels.Keys == s.e.tunnels.Keys + {t};
    hide Step;
    ServedDeploysOk(s, d, t, served);
  }

  lemma ServedDeploysOk(s: System, d: System, t: TunnelId, served: set<NodeId>)
    requires DeploysOk(s) && served == AssignedTo(s.e.nodes, t) && d.e.tunnels.Keys == s.e.tunnels.Keys + {t}
    requires d.e.nodes == s.e.nodes && d.e.pending == s.e.pending
    requires d.e.rendered == s.e.rendered[t := served] && d.containers == s.containers[t := served]
    ensures DeploysOk(d)
  {
    hide AssignedTo;
  }

  lemma ReleaseFacts(nodes: Nodes, t: TunnelId)
    ensures forall u :: AssignedTo(Release(nodes, t), u) == if u == t then {} else AssignedTo(nodes, u)
    ensures forall k :: k in Pairs(Release(nodes, t)) <==> k in Pairs(nodes) && k.tunnel != t
  {
    PairsMean(nodes);
    PairsMean(Release(nodes, t));
    assert AssignedTo(Release(nodes, t), t) == {};
    forall u | u != t ensures AssignedTo(Release(nodes, t), u) == AssignedTo(nodes, u) {
    }
  }

  lemma DroppedExact(e: Engine, t: TunnelId)
    requires Exact(e)
    ensures Exact(Dropped(e, t))
  {
    ReleaseFacts(e.nodes, t);
  }

  lemma DroppedStrikes(maxMisses: int, e: Engine, f: Engine, t: TunnelId, trail: map<Key, seq<bool>>)
    requires StrikesOk(maxMisses, e, trail) && f.nodes == Release(e.nodes, t)
    requires forall k :: k in f.strikes <==> k in e.strikes && k.tunnel != t
    requires forall k :: k in f.strikes ==> f.strikes[k] == e.strikes[k]
    ensures StrikesOk(maxMisses, f, Fresh(trail, f.nodes))
  {
    ReleaseFacts(e.nodes, t);
    var after := Fresh(trail, f.nodes);
    forall k | k in after ensures StrikeCount(f, k) == DeadRun(after[k]) {
      assert k in trail && StrikeCount(e, k) == DeadRun(trail[k]);
    }
  }

  /** A tunnel's row, nodes and bookkeeping leave; everybody else stays. */
  lemma TunnelLeaves(maxMisses: int, s: System, d: System, t: TunnelId)
    requires Inv(maxMisses, s)
    requires d == s.(e := d.e, containers := d.containers, creating := d.creating, trail := d.trail)
    requires d.creating == s.creating - {t} || d.creating == s.creating
    requires d.e.nodes == Release(s.e.nodes, t) && d.e.tunnels == s.e.tunnels - {t}
    requires d.e.rendered - {t} == s.e.rendered - {t} && d.containers - {t} == s.containers - {t}
    requires d.e.pending - {t} == s.e.pending - {t} && d.e.busy - {t} == s.e.busy - {t}
    requires d.e.pending <= s.e.pending && d.e.busy <= s.e.busy
    requires d.e.rendered.Keys <= s.e.rendered.Keys
    requires t in d.containers ==> t in s.issued && t !in d.creating
    requires forall k :: k in d.e.strikes ==> k in s.e.strikes
    ensures IdsOk(d) && CreationsOk(d) && PassesOk(d) && DeploysOk(d)
  {
    hide Exact, StrikesOk;
    ReleaseFacts(s.e.nodes, t);
    forall u | u != t ensures OthersBook(s, d, u) {
      assert u in d.e.rendered - {t} <==> u in s.e.rendered - {t};
      assert u in d.containers - {t} <==> u in s.containers - {t};
      assert u in d.e.pending - {t} <==> u in s.e.pending - {t};
      assert u in d.e.busy - {t} <==> u in s.e.busy - {t};
      if u in s.e.rendered { assert (d.e.rendered - {t})[u] == (s.e.rendered - {t})[u]; }
      if u in s.containers { assert (d.containers - {t})[u] == (s.containers - {t})[u]; }
    }
    forall u | u in d.containers && u != t ensures u in d.issued { assert OthersBook(s, d, u); }
    hide AssignedTo, Distinct, Elements, Release, DeploysOk, PassesOk;
    LeaverDeploysOk(s, d, t);
    LeaverPassesOk(s, d, t);
    hide IdsOk;
    forall u | u in d.creating && u != t ensures u !in d.e.rendered && u !in d.containers && u !in d.e.pending {
      assert OthersBook(s, d, u);
    }
  }

  lemma LeaverDeploysOk(s: System, d: System, t: TunnelId)
    requires DeploysOk(s) && d.e.tunnels == s.e.tunnels - {t}
    requires forall u :: u != t ==> OthersBook(s, d, u) && AssignedTo(d.e.nodes, u) == AssignedTo(s.e.nodes, u)
    ensures DeploysOk(d)
  {
    hide AssignedTo;
    forall u | u in d.e.tunnels
      ensures u in d.e.rendered && u !in d.e.pending ==> d.e.rendered[u] <= AssignedTo(d.e.nodes, u)
      ensures u in d.containers ==> u in d.e.rendered && d.containers[u] <= d.e.rendered[u]
    {
      assert OthersBook(s, d, u);
    }
  }

  /** What is kept of tunnel `u` beside its row and nodes is the same. */
  ghost predicate OthersBook(s: System, d: System, u: TunnelId) {
    && (u in d.e.rendered <==> u in s.e.rendered) && (u in d.containers <==> u in s.containers)
    && (u in d.e.pending <==> u in s.e.pending) && (u in d.e.busy <==> u in s.e.busy)
    && (u in s.e.rendered ==> d.e.rendered[u] == s.e.rendered[u])
    && (u in s.containers ==> d.containers[u] == s.containers[u])
  }

  lemma LeaverPassesOk(s: System, d: System, t: TunnelId)
    requires PassesOk(s) && d.passes == s.passes && d.issued == s.issued && d.e.tunnels == s.e.tunnels - {t}
    requires forall u :: u != t ==> OthersBook(s, d, u) && AssignedTo(d.e.nodes, u) == AssignedTo(s.e.nodes, u)
    ensures PassesOk(d)
  {
    hide AssignedTo;
    forall q | q in d.passes ensures d.passes[q].t in d.issued && PassOk(d.e, d.passes[q]) {
      assert PassOk(s.e, s.passes[q]);
      assert d.passes[q].t != t ==> OthersBook(s, d, d.passes[q].t);
    }
  }

  lemma RollbackKeeps(maxMisses: int, s: System, t: TunnelId, left: bool)
    requires Inv(maxMisses, s) && Step(maxMisses, s, CreateRollback(t, left)).Some?
    ensures Inv(maxMisses, Step(maxMisses, s, CreateRollback(t, left)).value)
  {
    var d := Step(maxMisses, s, CreateRollback(t, left)).value;
    DroppedExact(s.e, t);
    DroppedStrikes(maxMisses, s.e, d.e, t, s.trail);
    TunnelLeaves(maxMisses, s, d, t);
  }

  lemma DeleteKeeps(maxMisses: int, s: System, t: TunnelId, stopped: bool)
    requires Inv(maxMisses, s) && Step(maxMisses, s, Delete(t, stopped)).Some?
    ensures Inv(maxMisses, Step(maxMisses, s, Delete(t, stopped)).value)
  {
    var d := Step(maxMisses, s, Delete(t, stopped)).value;
    DroppedExact(s.e, t);
    DroppedStrikes(maxMisses, s.e, d.e, t, s.trail);
    TunnelLeaves(maxMisses, s, d, t);
  }

  /** Probing, scraping and demotion move no assignment. */
  lemma NodesChangeKeeps(maxMisses: int, s: System, after: Nodes)
    requires Inv(maxMisses, s) && SameAssignments(s.e.nodes, after)
    ensures Inv(maxMisses, s.(e := s.e.(nodes := after)))
  {
    hide PassesOk, StrikesOk, CreationsOk, DeploysOk;
    var d := s.(e := s.e.(nodes := after));
    SameAssigned(s.e.nodes, after);
    assert Exact(d.e);
    hide SameAssignments, Exact, AssignedTo, Pairs;
    SamePassesOk(s, d);
    SameOthersOk(maxMisses, s, d);
  }

  lemma SameOthersOk(maxMisses: int, s: System, d: System)
    requires StrikesOk(maxMisses, s.e, s.trail) && CreationsOk(s) && DeploysOk(s)
    requires d == s.(e := s.e.(nodes := d.e.nodes)) && Pairs(d.e.nodes) == Pairs(s.e.nodes)
    requires forall t :: AssignedTo(d.e.nodes, t) == AssignedTo(s.e.nodes, t)
    ensures StrikesOk(maxMisses, d.e, d.trail) && CreationsOk(d) && DeploysOk(d)
  {
    hide AssignedTo, Pairs, Distinct, Elements, DeadRun;
  }

  lemma SamePassesOk(s: System, d: System)
    requires PassesOk(s) && d.passes == s.passes && d.issued == s.issued
    requires d.e.tunnels == s.e.tunnels && d.e.busy == s.e.busy
    requires forall t :: AssignedTo(d.e.nodes, t) == AssignedTo(s.e.nodes, t)
    ensures PassesOk(d)
  {
    hide AssignedTo;
    forall q | q in d.passes ensures PassOk(d.e, d.passes[q]) {
      assert PassOk(s.e, s.passes[q]);
    }
  }

  lemma SameAssigned(before: Nodes, after: Nodes)
    requires SameAssignments(before, after)
    ensures forall t :: AssignedTo(after, t) == AssignedTo(before, t)
    ensures Pairs(after) == Pairs(before)
  {
    forall t ensures AssignedTo(after, t) == AssignedTo(before, t) {}
    PairsMean(after);
    PairsMean(before);
  }

  lemma PassBeginKeeps(maxMisses: int, s: System, p: PassId, t: TunnelId, seenStarting: bool)
    requires Inv(maxMisses, s) && Step(maxMisses, s, PassBegin(p, t, seenStarting)).Some?
    ensures Inv(maxMisses, Step(maxMisses, s, PassBegin(p, t, seenStarting)).value)
  {
    var d := Step(maxMisses, s, PassBegin(p, t, seenStarting)).value;
    hide Exact, StrikesOk, IdsOk, CreationsOk, BuildingOk, PassesOk, DeploysOk;
    RowsKeep(maxMisses, s, d);
    BegunPassesOk(s, d, p, t, seenStarting);
    BegunBooksOk(s, d, p, t, seenStarting);
  }

  lemma BegunBooksOk(s: System, d: System, p: PassId, t: TunnelId, seenStarting: bool)
    requires IdsOk(s) && CreationsOk(s) && BuildingOk(s) && DeploysOk(s) && p !in s.passes && t in s.issued
    requires d == s.(e := s.e.(busy := s.e.busy + {t}), passes := s.passes[p := Begun(t, seenStarting)])
    ensures IdsOk(d) && CreationsOk(d) && BuildingOk(d) && DeploysOk(d)
  {
    hide AssignedTo, Elements, Distinct;
  }

  lemma BegunPassesOk(s: System, d: System, p: PassId, t: TunnelId, seenStarting: bool)
    requires PassesOk(s) && p !in s.passes && t in s.issued && t !in s.e.busy
    requires d == s.(e := s.e.(busy := s.e.busy + {t}), passes := s.passes[p := Begun(t, seenStarting)])
    ensures PassesOk(d)
  {
    hide AssignedTo, Elements, Distinct;
    forall q | q in d.passes ensures d.passes[q].t in d.issued && PassOk(d.e, d.passes[q]) {
      assert q != p ==> PassOk(s.e, s.passes[q]);
    }
    forall q | q in s.passes && s.passes[q].t == t ensures t !in s.e.tunnels {
      assert PassOk(s.e, s.passes[q]);
    }
    hide PassOk;
  }

  lemma StepKeeps(maxMisses: int, s: System, ev: Event)
    requires Inv(maxMisses, s) && Guarded(s, ev) && Step(maxMisses, s, ev).Some?
    ensures Inv(maxMisses, Step(maxMisses, s, ev).value)
  {
    hide Inv, PassStep;
    match ev {
      case NodesChange(after) => NodesChangeKeeps(maxMisses, s, after);
      case CreateBegin(t, requested, order) => CreateBeginKeeps(maxMisses, s, t, requested, order);
      case CreateFinish(t) => CreateFinishKeeps(maxMisses, s, t);
      case CreateRollback(t, left) => RollbackKeeps(maxMisses, s, t, left);
      case Delete(t, stopped) => DeleteKeeps(maxMisses, s, t, stopped);
      case PassBegin(p, t, seen) => PassBeginKeeps(maxMisses, s, p, t, seen);
      case ContainerDies(t) => ContainerDiesKeeps(maxMisses, s, t);
      case _ => PassStepKeeps(maxMisses, s, ev);
    }
  }

  lemma ContainerDiesKeeps(maxMisses: int, s: System, t: TunnelId)
    requires Inv(maxMisses, s)
    ensures Inv(maxMisses, s.(containers := s.containers - {t}))
  {
  }

  /** No create in the run revives a row harmfully, and no failed update leaves a stray container. */
  ghost predicate GuardedRun(maxMisses: int, s: System, events: seq<Event>) {
    events != [] ==>
      var init := events[..|events| - 1];
      && GuardedRun(maxMisses, s, init)
      && (Run(maxMisses, s, init).Some? ==> Guarded(Run(maxMisses, s, init).value, events[|events| - 1]))
  }

  lemma BootInv(maxMisses: int)
    ensures Inv(maxMisses, BOOT)
  {
  }

  lemma {:induction false} RunKeeps(maxMisses: int, s: System, events: seq<Event>)
    requires Inv(maxMisses, s) && GuardedRun(maxMisses, s, events) && Run(maxMisses, s, events).Some?
    ensures Inv(maxMisses, Run(maxMisses, s, events).value)
  {
    if events != [] {
      var init := events[..|events| - 1];
      RunKeeps(maxMisses, s, init);
      StepKeeps(maxMisses, Run(maxMisses, s, init).value, events[|events| - 1]);
    }
  }
}
