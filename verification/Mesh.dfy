/** Which end of a pair opens the NATS tunnel, and what a start records (leaf/agent/nats_mesh.go). */
module Mesh {
  import opened Common
  import opened Text

  datatype Role = Peer | Hub | Leaf | Unknown

  /** The sidecar's answer to one tunnel request. */
  datatype Answer = PostFailed | Status(code: nat) | DecodeFailed | Port(port: nat)

  predicate ShouldSolicit(role: Role, myID: string, peerID: string)
  {
    match role
    case Leaf => true
    case Hub => false
    case Peer => LexLess(myID, peerID)
    case Unknown => false
  }

  predicate Usable(a: Answer)
  {
    a.Port? && a.port != 0
  }

  /** Some request to `p` was answered with a port that is not zero. */
  ghost predicate AnsweredWithPort(peers: seq<string>, answers: seq<Answer>, p: string)
    requires |answers| == |peers|
  {
    exists i :: 0 <= i < |peers| && peers[i] == p && answers[i].Port? && answers[i].port != 0
  }

  /** Whose ports a start records: a leaf's for every peer that answers, a hub's for none, a peer's for
      those that answer and come after it in id order. */
  ghost predicate ByRole(
      role: Role, me: string, peers: seq<string>, answers: seq<Answer>, ports: map<string, nat>)
    requires |answers| == |peers|
  {
    match role
    case Leaf => forall p :: p in ports <==> AnsweredWithPort(peers, answers, p)
    case Peer => forall p :: p in ports <==> AnsweredWithPort(peers, answers, p) && LexLess(me, p)
    case Hub => ports == map[]
    case Unknown => ports == map[]
  }

  class NATSMesh {
    const role: Role
    const irohPeers: seq<string>
    var tunnelPorts: map<string, nat>

    constructor (role: Role, irohPeers: seq<string>)
      ensures this.role == role && this.irohPeers == irohPeers && tunnelPorts == map[]
    {
      this.role, this.irohPeers, tunnelPorts := role, irohPeers, map[];
    }

    /**
     * Asks for a tunnel to every listed peer that this end solicits. Afterwards there is a port for
     * exactly the solicited peers with a usable answer, and it is the last such answer; every other
     * solicited request is an error. `answers[i]` answers the request for the i-th peer.
     */
    method EstablishTunnels(socketPath: string, endpointID: string, answers: seq<Answer>)
      returns (errs: set<nat>)
      requires |answers| == |irohPeers|
      modifies this
      ensures socketPath == "" || endpointID == "" ==> tunnelPorts == old(tunnelPorts) && errs == {}
      ensures socketPath != "" && endpointID != "" ==>
        && Recorded(role, endpointID, irohPeers, answers, tunnelPorts)
        && (forall i :: i in errs <==>
              0 <= i < |irohPeers| && ShouldSolicit(role, endpointID, irohPeers[i]) && !Usable(answers[i]))
      ensures socketPath != "" && endpointID != "" ==> ByRole(role, endpointID, irohPeers, answers, tunnelPorts)
    {
      errs := {};
      if socketPath == "" || endpointID == "" {
        return;
      }
      tunnelPorts := map[];
      for i := 0 to |irohPeers|
        invariant Recorded(role, endpointID, irohPeers[..i], answers[..i], tunnelPorts)
        invariant forall k :: k in errs <==>
          0 <= k < i && ShouldSolicit(role, endpointID, irohPeers[k]) && !Usable(answers[k])
      {
        var peerID := irohPeers[i];
        RecordedStep(role, endpointID, irohPeers, answers, i, tunnelPorts);
        if !ShouldSolicit(role, endpointID, peerID) {
          continue;
        }
        var a := answers[i];
        if a.PostFailed? || a.Status? || a.DecodeFailed? {
          errs := errs + {i};
          continue;
        }
        if a.port == 0 {
          errs := errs + {i};
          continue;
        }
        tunnelPorts := tunnelPorts[peerID := a.port];
      }
      assert irohPeers[..|irohPeers|] == irohPeers && answers[..|answers|] == answers;
      RecordedByRole(role, endpointID, irohPeers, answers, tunnelPorts);
    }
  }

  ghost predicate Good(role: Role, me: string, peers: seq<string>, answers: seq<Answer>, i: nat)
    requires |answers| == |peers|
  {
    i < |peers| && ShouldSolicit(role, me, peers[i]) && Usable(answers[i])
  }

  /** The ports are those of the last usable answer for each solicited peer, and no others. */
  ghost predicate Recorded(role: Role, me: string, peers: seq<string>, answers: seq<Answer>, ports: map<string, nat>)
    requires |answers| == |peers|
  {
    && (forall i :: 0 <= i < |peers| && Good(role, me, peers, answers, i) ==> peers[i] in ports)
    && (forall p :: p in ports ==> LastGood(role, me, peers, answers, p, ports[p]))
  }

  ghost predicate LastGood(role: Role, me: string, peers: seq<string>, answers: seq<Answer>, p: string, port: nat)
    requires |answers| == |peers|
  {
    exists i :: 0 <= i < |peers| && IsLastGood(role, me, peers, answers, p, port, i)
  }

  ghost predicate IsLastGood(
      role: Role, me: string, peers: seq<string>, answers: seq<Answer>, p: string, port: nat, i: nat)
    requires |answers| == |peers| && i < |peers|
  {
    && peers[i] == p && Good(role, me, peers, answers, i) && answers[i].port == port
    && forall j :: i < j < |peers| && peers[j] == p ==> !Good(role, me, peers, answers, j)
  }

  lemma RecordedStep(
      role: Role, me: string, peers: seq<string>, answers: seq<Answer>, i: nat, ports: map<string, nat>)
    requires |answers| == |peers| && i < |peers|
    requires Recorded(role, me, peers[..i], answers[..i], ports)
    ensures Recorded(role, me, peers[..i + 1], answers[..i + 1],
                     if Good(role, me, peers, answers, i) then ports[peers[i] := answers[i].port] else ports)
  {
    var ps, as', ps1, as1 := peers[..i], answers[..i], peers[..i + 1], answers[..i + 1];
    var good := Good(role, me, peers, answers, i);
    var ports1 := if good then ports[peers[i] := answers[i].port] else ports;
    assert forall k: nat :: k < i ==> Good(role, me, ps1, as1, k) == Good(role, me, ps, as', k) && ps1[k] == ps[k];
    forall p | p in ports1 ensures LastGood(role, me, ps1, as1, p, ports1[p]) {
      if good && p == peers[i] {
        assert IsLastGood(role, me, ps1, as1, p, ports1[p], i);
      } else {
        var k: nat :| k < |ps| && IsLastGood(role, me, ps, as', p, ports[p], k);
        assert IsLastGood(role, me, ps1, as1, p, ports1[p], k);
      }
    }
  }

  lemma RecordedByRole(role: Role, me: string, peers: seq<string>, answers: seq<Answer>, ports: map<string, nat>)
    requires |answers| == |peers| && Recorded(role, me, peers, answers, ports)
    ensures ByRole(role, me, peers, answers, ports)
  {
    forall p ensures p in ports <==> AnsweredWithPort(peers, answers, p) && ShouldSolicit(role, me, p) {
      if p in ports {
        var i: nat :| i < |peers| && IsLastGood(role, me, peers, answers, p, ports[p], i);
      }
      if AnsweredWithPort(peers, answers, p) && ShouldSolicit(role, me, p) {
        var i :| 0 <= i < |peers| && peers[i] == p && answers[i].Port? && answers[i].port != 0;
        assert Good(role, me, peers, answers, i);
      }
    }
  }

  // ---------- the shape of the mesh ----------

  /** Of two peers with different ids exactly one solicits the other. */
  lemma ExactlyOneSolicits(a: string, b: string)
    requires a != b
    ensures ShouldSolicit(Peer, a, b) <==> !ShouldSolicit(Peer, b, a)
  {
    LexTotal(a, b);
    if LexLess(a, b) {
      LexAsymmetric(a, b);
    }
  }

  /** Following who solicits whom never comes back. */
  lemma {:induction false} SolicitingIsAcyclic(path: seq<string>)
    requires |path| >= 2
    requires forall i :: 0 <= i < |path| - 1 ==> ShouldSolicit(Peer, path[i], path[i + 1])
    ensures LexLess(path[0], path[|path| - 1]) && path[0] != path[|path| - 1]
    decreases |path|
  {
    var k := |path| - 1;
    assert ShouldSolicit(Peer, path[k - 1], path[k]);
    if |path| > 2 {
      SolicitingIsAcyclic(path[..k]);
      LexTransitive(path[0], path[k - 1], path[k]);
    }
    LexAsymmetric(path[0], path[k]);
  }

  /** The pairs (a, b) of a set of peers in which a solicits b. */
  ghost function Tunnels(ids: set<string>): set<(string, string)>
  {
    set a, b | a in ids && b in ids && ShouldSolicit(Peer, a, b) :: (a, b)
  }

  /** The one tunnel between `x` and another peer. */
  ghost function Between(x: string, y: string): (string, string)
  {
    if ShouldSolicit(Peer, x, y) then (x, y) else (y, x)
  }

  ghost function AllBetween(x: string, others: set<string>): set<(string, string)>
  {
    set y | y in others :: Between(x, y)
  }

  lemma {:induction false} OneTunnelEach(x: string, others: set<string>)
    requires x !in others
    ensures |AllBetween(x, others)| == |others|
    decreases |others|
  {
    if others == {} {
      assert AllBetween(x, others) == {};
    } else {
      var y := Pick(others);
      var rest := others - {y};
      OneTunnelEach(x, rest);
      assert AllBetween(x, others) == AllBetween(x, rest) + {Between(x, y)};
      assert Between(x, y) !in AllBetween(x, rest);
    }
  }

  lemma TunnelsSplit(ids: set<string>, x: string)
    requires x in ids
    ensures Tunnels(ids) == Tunnels(ids - {x}) + AllBetween(x, ids - {x})
    ensures Tunnels(ids - {x}) !! AllBetween(x, ids - {x})
  {
    LexIrreflexive(x);
    forall y | y in ids - {x} ensures ShouldSolicit(Peer, x, y) <==> !ShouldSolicit(Peer, y, x) {
      ExactlyOneSolicits(x, y);
    }
    forall t | t in Tunnels(ids) ensures t in Tunnels(ids - {x}) + AllBetween(x, ids - {x}) {
      if t.0 == x {
        assert Between(x, t.1) == t;
      } else if t.1 == x {
        assert Between(x, t.0) == t;
      }
    }
    assert Tunnels(ids - {x}) + AllBetween(x, ids - {x}) <= Tunnels(ids);
  }

  /** n peers that list each other have n(n-1)/2 tunnels, one per pair. */
  lemma {:induction false} TunnelCount(ids: set<string>)
    ensures 2 * |Tunnels(ids)| == |ids| * (|ids| - 1)
    decreases |ids|
  {
    if ids == {} {
      assert Tunnels(ids) == {};
    } else {
      var x := Pick(ids);
      var rest := ids - {x};
      TunnelCount(rest);
      OneMorePeer(ids, x);
      Triangle(|ids|, |Tunnels(rest)|);
    }
  }

  lemma OneMorePeer(ids: set<string>, x: string)
    requires x in ids
    ensures |ids - {x}| == |ids| - 1
    ensures |Tunnels(ids)| == |Tunnels(ids - {x})| + |ids| - 1
  {
    TunnelsSplit(ids, x);
    OneTunnelEach(x, ids - {x});
  }

  lemma Triangle(n: int, t: int)
    requires 2 * t == (n - 1) * (n - 2)
    ensures 2 * (t + n - 1) == n * (n - 1)
  {
  }

  /** What two agents that list each other record: never a tunnel from both ends, and, when their
      requests are answered with usable ports, one from exactly one end. */
  lemma OneTunnelPerPair(
      a: string, b: string, peersA: seq<string>, answersA: seq<Answer>, portsA: map<string, nat>,
      peersB: seq<string>, answersB: seq<Answer>, portsB: map<string, nat>)
    requires a != b && b in peersA && a in peersB
    requires |answersA| == |peersA| && |answersB| == |peersB|
    requires Recorded(Peer, a, peersA, answersA, portsA) && Recorded(Peer, b, peersB, answersB, portsB)
    ensures !(b in portsA && a in portsB)
    ensures (forall x :: x in answersA || x in answersB ==> Usable(x)) ==> (b in portsA <==> a !in portsB)
  {
    ExactlyOneSolicits(a, b);
    SolicitedOnly(a, peersA, answersA, portsA, b);
    SolicitedOnly(b, peersB, answersB, portsB, a);
    if forall x :: x in answersA || x in answersB ==> Usable(x) {
      var i: nat :| i < |peersA| && peersA[i] == b;
      var j: nat :| j < |peersB| && peersB[j] == a;
      assert Usable(answersA[i]) && Usable(answersB[j]);
      if ShouldSolicit(Peer, a, b) {
        assert Good(Peer, a, peersA, answersA, i);
      } else {
        assert Good(Peer, b, peersB, answersB, j);
      }
    }
  }

  /** Whatever requests fail, the recorded ports are not zero and belong to solicited peers. */
  lemma SolicitedOnly(me: string, peers: seq<string>, answers: seq<Answer>, ports: map<string, nat>, p: string)
    requires |answers| == |peers| && Recorded(Peer, me, peers, answers, ports)
    ensures p in ports ==> ports[p] != 0 && p in peers && ShouldSolicit(Peer, me, p)
  {
    if p in ports {
      var i: nat :| i < |peers| && IsLastGood(Peer, me, peers, answers, p, ports[p], i);
    }
  }
}
