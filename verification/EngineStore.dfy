/**
  The engine's SQLite store: the node pool and the tunnel rows, and what the assignment
  methods do to them.
 */
module EngineStore {
  import opened Collections
  import opened Wrappers

  type NodeId = string
  type TunnelId = string

  datatype Protocol = Vless | Vmess | Ss | Ssr | Trojan | Tuic | Hysteria2 | Http | Socks5

  datatype NodeState = Untested | Alive | Dead

  /** A row of `nodes`. */
  datatype Node = Node(
    uri: string,
    protocol: Protocol,
    source: string,
    firstSeenS: real,
    state: NodeState,
    assignedTo: Option<TunnelId>,
    latencyMs: Option<int>,
    throughputKbS: Option<int>,
    throughputMeasuredS: Option<real>,
    probeOk: int,
    probeTotal: int,
    windowStartedS: Option<real>,
    lastProbeS: Option<real>,
    lastAliveS: Option<real>,
    score: Option<real>
  )

  datatype TunnelState = Starting | Running | Stopping | Stopped

  /** A row of `tunnels`: what the scheduler and the assigner use of it. */
  datatype Tunnel = Tunnel(state: TunnelState, requested: int, granted: int) {
    predicate Degraded() { granted < requested }
  }

  type Nodes = map<NodeId, Node>
  type Tunnels = map<TunnelId, Tunnel>

  /** The protocols sing-box can dial: all but ssr. */
  predicate Assignable(p: Protocol) { p != Ssr }

  function AssignedTo(nodes: Nodes, t: TunnelId): set<NodeId> {
    set n | n in nodes && nodes[n].assignedTo == Some(t)
  }

  /** The nodes the assigner may hand out. */
  function Free(nodes: Nodes): set<NodeId> {
    set n | n in nodes && nodes[n].state == Alive && Assignable(nodes[n].protocol)
            && nodes[n].assignedTo.None?
  }

  /** What a redeploy puts behind a tunnel: its assigned nodes that are alive and dialable. */
  function Servable(nodes: Nodes, t: TunnelId): set<NodeId> {
    set n | n in nodes && nodes[n].assignedTo == Some(t) && nodes[n].state == Alive
            && Assignable(nodes[n].protocol)
  }

  function Assign(nodes: Nodes, ids: set<NodeId>, t: TunnelId): Nodes {
    map n | n in nodes :: if n in ids then nodes[n].(assignedTo := Some(t)) else nodes[n]
  }

  function Unassign(nodes: Nodes, n: NodeId): Nodes {
    if n in nodes then nodes[n := nodes[n].(assignedTo := None)] else nodes
  }

  function Release(nodes: Nodes, t: TunnelId): Nodes {
    map n | n in nodes :: if nodes[n].assignedTo == Some(t) then nodes[n].(assignedTo := None) else nodes[n]
  }

  /** The rows may be probed, scraped and added to, but no assignment moves. */
  ghost predicate SameAssignments(before: Nodes, after: Nodes) {
    && (forall n :: n in before ==> n in after && after[n].assignedTo == before[n].assignedTo)
    && (forall n :: n in after && n !in before ==> after[n].assignedTo.None?)
  }

  class Store {
    var nodes: Nodes
    var tunnels: Tunnels

    constructor ()
      ensures nodes == map[] && tunnels == map[]
    {
      nodes, tunnels := map[], map[];
    }

    method GetTunnel(t: TunnelId) returns (row: Option<Tunnel>)
      ensures row == if t in tunnels then Some(tunnels[t]) else None
    {
      row := if t in tunnels then Some(tunnels[t]) else None;
    }

    method SaveTunnel(t: TunnelId, row: Tunnel)
      modifies this`tunnels
      ensures tunnels == old(tunnels)[t := row]
    {
      tunnels := tunnels[t := row];
    }

    method DeleteTunnel(t: TunnelId)
      modifies this`tunnels
      ensures tunnels == old(tunnels) - {t}
    {
      tunnels := tunnels - {t};
    }

    /** One UPDATE per id; an id without a row changes nothing. */
    method AssignNodes(ids: seq<NodeId>, t: TunnelId)
      modifies this`nodes
      ensures nodes == Assign(old(nodes), Elements(ids), t)
    {
      for i := 0 to |ids|
        invariant nodes == Assign(old(nodes), Elements(ids[..i]), t)
      {
        assert ids[..i + 1] == ids[..i] + [ids[i]];
        if ids[i] in nodes {
          nodes := nodes[ids[i] := nodes[ids[i]].(assignedTo := Some(t))];
        }
      }
      assert ids[..|ids|] == ids;
    }

    method UnassignNode(n: NodeId)
      modifies this`nodes
      ensures nodes == Unassign(old(nodes), n)
    {
      if n in nodes {
        nodes := nodes[n := nodes[n].(assignedTo := None)];
      }
    }

    method ReleaseTunnel(t: TunnelId) returns (freed: nat)
      modifies this`nodes
      ensures nodes == Release(old(nodes), t) && freed == |AssignedTo(old(nodes), t)|
      ensures AssignedTo(nodes, t) == {}
    {
      freed := |set n | n in nodes && nodes[n].assignedTo == Some(t)|;
      nodes := map n | n in nodes ::
        if nodes[n].assignedTo == Some(t) then nodes[n].(assignedTo := None) else nodes[n];
    }
  }
}
