/**
 Pairing: which end of a connection is host and which is guest, and when the handshake starts.
 The role decides the sender id, so two ends with one role would share their nonces.
 */
module Pairing {
  import opened Ciphers
  import opened Peers

  /** A connection: how it was configured, and its state. */
  datatype Link = Link(cfg: Config, peer: Peer)

  /** `acceptPairRequest`: a new connection as host, replacing any connection to that peer. */
  ghost function AcceptRequest(links: map<string, Link>, id: string, cfg: Config): map<string, Link> {
    links[id := Link(cfg.(role := Host), FRESH)]
  }

  /** A PAIR_ACCEPT from the peer: a new connection as guest if there is none; a connecting one starts. */
  ghost function PairAccepted(links: map<string, Link>, id: string, cfg: Config): map<string, Link> {
    var link := if id in links then links[id] else Link(cfg.(role := Guest), FRESH);
    links[id := if link.peer.status == Connecting then link.(peer := StartHandshake(link.cfg, link.peer)) else link]
  }

  /** A connection to the peer closes, the present one or one it replaced: the entry for that peer goes. */
  ghost function Removed(links: map<string, Link>, id: string): map<string, Link> {
    links - {id}
  }

  /** Accepting leaves exactly one new connection for the peer, as host, with nothing sent yet, whatever was there. */
  lemma AcceptMakesHost(links: map<string, Link>, id: string, cfg: Config, other: string)
    ensures var now := AcceptRequest(links, id, cfg);
            && id in now && now[id].cfg == cfg.(role := Host)
            && now[id].peer.status == Connecting && now[id].peer.sent == [] && now[id].peer.subscribed
            && (other != id ==>
                  && (other in now <==> other in links) && (other in links ==> now[other] == links[other]))
  {
  }

  function KeysSent(links: map<string, Link>, id: string): seq<Message> {
    if id in links then links[id].peer.sent else []
  }

  /**
   After a PAIR_ACCEPT there is a connection to the peer and it has begun its handshake: exactly if it
   was missing or not begun, it has now sent its own public key, and nothing else.  A connection that was
   there keeps its role and its keys, a new one is guest, and other peers' connections stay as they were.
   */
  lemma PairAcceptStarts(links: map<string, Link>, id: string, cfg: Config, other: string)
    ensures var now := PairAccepted(links, id, cfg);
            && id in now && now[id].peer.status != Connecting
            && now[id].cfg == (if id in links then links[id].cfg else cfg.(role := Guest))
            && KeysSent(now, id) == KeysSent(links, id)
               + (if id !in links || links[id].peer.status == Connecting then [KeyExchange(Public(now[id].cfg))] else [])
            && (id in links && links[id].peer.status != Connecting ==> now[id] == links[id])
            && (other != id ==>
                  && (other in now <==> other in links) && (other in links ==> now[other] == links[other]))
  {
    assert KeysSent(links, id) + [] == KeysSent(links, id);
  }

  // ---------------------------------------------------------------- two managers

  /**
   Each manager's connections, and whether it has ever accepted a request of the other: without that
   no PAIR_ACCEPT of it arrives there.
   */
  datatype Managers = Managers(a: map<string, Link>, b: map<string, Link>, aAccepted: bool, bAccepted: bool)

  datatype Action =
    | AAccepts(cfg: Config)
    | BAccepts(cfg: Config)
    | AHears(cfg: Config)  // B's PAIR_ACCEPT arrives at A, perhaps again
    | BHears(cfg: Config)
    | ACloses
    | BCloses

  const UNPAIRED := Managers(map[], map[], false, false)

  ghost predicate Enabled(m: Managers, act: Action) {
    && (act.AHears? ==> m.bAccepted)
    && (act.BHears? ==> m.aAccepted)
  }

  ghost function Next(idA: string, idB: string, m: Managers, act: Action): Managers {
    match act
    case AAccepts(cfg) => m.(a := AcceptRequest(m.a, idB, cfg), aAccepted := true)
    case BAccepts(cfg) => m.(b := AcceptRequest(m.b, idA, cfg), bAccepted := true)
    case AHears(cfg) => m.(a := PairAccepted(m.a, idB, cfg))
    case BHears(cfg) => m.(b := PairAccepted(m.b, idA, cfg))
    case ACloses => m.(a := Removed(m.a, idB))
    case BCloses => m.(b := Removed(m.b, idA))
  }

  ghost predicate IsRun(idA: string, idB: string, m: Managers, acts: seq<Action>)
    decreases |acts|
  {
    acts != [] ==> Enabled(m, acts[0]) && IsRun(idA, idB, Next(idA, idB, m, acts[0]), acts[1..])
  }

  ghost function Run(idA: string, idB: string, m: Managers, acts: seq<Action>): Managers
    decreases |acts|
  {
    if acts == [] then m else Run(idA, idB, Next(idA, idB, m, acts[0]), acts[1..])
  }

  datatype Side = A | B

  predicate Accepts(act: Action, side: Side) {
    if side == A then act.AAccepts? else act.BAccepts?
  }

  predicate Closes(act: Action, side: Side) {
    if side == A then act.ACloses? else act.BCloses?
  }

  /** The last of the side's accepts and closes is an accept. */
  ghost predicate AcceptedSinceClose(acts: seq<Action>, side: Side) {
    exists i :: 0 <= i < |acts| && Accepts(acts[i], side) && forall j | i < j < |acts| :: !Closes(acts[j], side)
  }

  ghost predicate IsHost(links: map<string, Link>, id: string) {
    id in links && links[id].cfg.role == Host
  }

  /** The side that has taken these steps is host of a connection exactly if it has accepted since its last close. */
  ghost predicate RolesOk(idA: string, idB: string, m: Managers, acts: seq<Action>) {
    && (IsHost(m.a, idB) <==> AcceptedSinceClose(acts, A))
    && (IsHost(m.b, idA) <==> AcceptedSinceClose(acts, B))
  }

  lemma AcceptedSinceCloseNext(acts: seq<Action>, act: Action, side: Side)
    ensures AcceptedSinceClose(acts + [act], side)
       <==> Accepts(act, side) || (AcceptedSinceClose(acts, side) && !Closes(act, side))
  {
    var now := acts + [act];
    if Accepts(act, side) {
      assert Accepts(now[|acts|], side);
    } else if AcceptedSinceClose(acts, side) && !Closes(act, side) {
      var i :| 0 <= i < |acts| && Accepts(acts[i], side) && forall j | i < j < |acts| :: !Closes(acts[j], side);
      assert Accepts(now[i], side);
    }
    if AcceptedSinceClose(now, side) && !Accepts(act, side) {
      var i :| 0 <= i < |now| && Accepts(now[i], side) && forall j | i < j < |now| :: !Closes(now[j], side);
      assert i < |acts| && !Closes(now[|acts|], side) && Accepts(acts[i], side);
      assert forall j | i < j < |acts| :: acts[j] == now[j];
    }
  }

  lemma NextRoles(idA: string, idB: string, m: Managers, done: seq<Action>, act: Action)
    requires RolesOk(idA, idB, m, done)
    ensures RolesOk(idA, idB, Next(idA, idB, m, act), done + [act])
  {
    AcceptedSinceCloseNext(done, act, A);
    AcceptedSinceCloseNext(done, act, B);
    hide AcceptedSinceClose;
  }

  /**
   In every run, closes included, a side is host of its connection if and only if it has accepted since
   its last close.
   */
  lemma {:induction false} RunRoles(idA: string, idB: string, m: Managers, done: seq<Action>, acts: seq<Action>)
    requires RolesOk(idA, idB, m, done)
    ensures RolesOk(idA, idB, Run(idA, idB, m, acts), done + acts)
    decreases |acts|
  {
    if acts == [] {
      assert done + acts == done;
    } else {
      NextRoles(idA, idB, m, done, acts[0]);
      hide Next, RolesOk;
      RunRoles(idA, idB, Next(idA, idB, m, acts[0]), done + [acts[0]], acts[1..]);
      assert done + [acts[0]] + acts[1..] == done + acts;
    }
  }

  lemma UnpairedRoles(idA: string, idB: string)
    ensures RolesOk(idA, idB, UNPAIRED, [])
  {
  }

  /**
   In every run in which both sides have a connection, the roles differ, so that the ciphers' sender
   ids do, if and only if exactly one side has accepted since its last close.
   */
  lemma RolesDifferIff(idA: string, idB: string, acts: seq<Action>)
    requires IsRun(idA, idB, UNPAIRED, acts)
    ensures var m, host := Run(idA, idB, UNPAIRED, acts), AcceptedSinceClose(acts, A);
            idB in m.a && idA in m.b ==>
              && (m.a[idB].cfg.role != m.b[idA].cfg.role <==> host != AcceptedSinceClose(acts, B))
              && (SenderId(m.a[idB].cfg.role) != SenderId(m.b[idA].cfg.role) <==> host != AcceptedSinceClose(acts, B))
  {
    UnpairedRoles(idA, idB);
    RunRoles(idA, idB, UNPAIRED, [], acts);
    assert [] + acts == acts;
    hide Run, AcceptedSinceClose;
  }

  predicate NothingCloses(acts: seq<Action>) {
    forall i | 0 <= i < |acts| :: !acts[i].ACloses? && !acts[i].BCloses?
  }

  /** The side has accepted at some time. */
  predicate HasAccepted(acts: seq<Action>, side: Side) {
    exists i :: 0 <= i < |acts| && Accepts(acts[i], side)
  }

  /** The flags say who has accepted, and no connection is made before someone has. */
  ghost predicate Standing(idA: string, idB: string, m: Managers, acts: seq<Action>) {
    && (m.aAccepted <==> HasAccepted(acts, A)) && (m.bAccepted <==> HasAccepted(acts, B))
    && (idB in m.a || idA in m.b ==> m.aAccepted || m.bAccepted)
  }

  lemma NextStands(idA: string, idB: string, m: Managers, done: seq<Action>, act: Action)
    requires Standing(idA, idB, m, done) && Enabled(m, act)
    ensures Standing(idA, idB, Next(idA, idB, m, act), done + [act])
  {
    HasAcceptedNext(done, act, A);
    HasAcceptedNext(done, act, B);
    hide HasAccepted;
  }

  lemma HasAcceptedNext(acts: seq<Action>, act: Action, side: Side)
    ensures HasAccepted(acts + [act], side) <==> HasAccepted(acts, side) || Accepts(act, side)
  {
    var now := acts + [act];
    assert Accepts(now[|acts|], side) <==> Accepts(act, side);
    assert forall i | 0 <= i < |acts| :: Accepts(now[i], side) <==> Accepts(acts[i], side);
  }

  lemma {:induction false} RunStands(idA: string, idB: string, m: Managers, done: seq<Action>, acts: seq<Action>)
    requires Standing(idA, idB, m, done) && IsRun(idA, idB, m, acts)
    ensures Standing(idA, idB, Run(idA, idB, m, acts), done + acts)
    decreases |acts|
  {
    if acts == [] {
      assert done + acts == done;
    } else {
      NextStands(idA, idB, m, done, acts[0]);
      hide Next, Standing, Enabled;
      RunStands(idA, idB, Next(idA, idB, m, acts[0]), done + [acts[0]], acts[1..]);
      assert done + [acts[0]] + acts[1..] == done + acts;
    }
  }

  /** As long as no connection closes, the roles differ if and only if the two did not each accept the other. */
  lemma OpenRolesDifferIff(idA: string, idB: string, acts: seq<Action>)
    requires IsRun(idA, idB, UNPAIRED, acts) && NothingCloses(acts)
    ensures var m := Run(idA, idB, UNPAIRED, acts);
            idB in m.a && idA in m.b ==>
              (m.a[idB].cfg.role != m.b[idA].cfg.role <==> !(HasAccepted(acts, A) && HasAccepted(acts, B)))
  {
    RolesDifferIff(idA, idB, acts);
    RunStands(idA, idB, UNPAIRED, [], acts);
    assert [] + acts == acts;
    OpenAccepted(acts, A);
    OpenAccepted(acts, B);
    hide Run, AcceptedSinceClose, HasAccepted, NothingCloses;
  }

  lemma OpenAccepted(acts: seq<Action>, side: Side)
    requires NothingCloses(acts)
    ensures AcceptedSinceClose(acts, side) <==> HasAccepted(acts, side)
  {
  }

  /** When connections close, both sides can also end up as guests, on acceptances of connections that are gone. */
  lemma BothGuests(idA: string, idB: string, cfg: Config)
    ensures var acts := [AAccepts(cfg), BAccepts(cfg), ACloses, AHears(cfg), BCloses, BHears(cfg)];
            && IsRun(idA, idB, UNPAIRED, acts)
            && var m := Run(idA, idB, UNPAIRED, acts);
            idB in m.a && idA in m.b && m.a[idB].cfg.role == m.b[idA].cfg.role == Guest
  {
    var m1 := Next(idA, idB, UNPAIRED, AAccepts(cfg));
    var m2 := Next(idA, idB, m1, BAccepts(cfg));
    var m3 := Next(idA, idB, m2, ACloses);
    var m4 := Next(idA, idB, m3, AHears(cfg));
    var m5 := Next(idA, idB, m4, BCloses);
    var m6 := Next(idA, idB, m5, BHears(cfg));
    assert idB in m4.a && m4.a[idB].cfg.role == Guest && m6.a == m4.a;
    assert idA in m6.b && m6.b[idA].cfg.role == Guest;
    hide Next;
    Before(idA, idB, m5, BHears(cfg), [], m6);
    Before(idA, idB, m4, BCloses, [BHears(cfg)], m6);
    Before(idA, idB, m3, AHears(cfg), [BCloses, BHears(cfg)], m6);
    Before(idA, idB, m2, ACloses, [AHears(cfg), BCloses, BHears(cfg)], m6);
    Before(idA, idB, m1, BAccepts(cfg), [ACloses, AHears(cfg), BCloses, BHears(cfg)], m6);
    Before(idA, idB, UNPAIRED, AAccepts(cfg), [BAccepts(cfg), ACloses, AHears(cfg), BCloses, BHears(cfg)], m6);
  }

  lemma Before(idA: string, idB: string, m: Managers, act: Action, acts: seq<Action>, end: Managers)
    requires Enabled(m, act)
    requires IsRun(idA, idB, Next(idA, idB, m, act), acts) && Run(idA, idB, Next(idA, idB, m, act), acts) == end
    ensures IsRun(idA, idB, m, [act] + acts) && Run(idA, idB, m, [act] + acts) == end
  {
    hide Next, Enabled;
    assert ([act] + acts)[1..] == acts;
  }
}

module NetworkManagers {
  import C = Ciphers
  import P = Peers
  import X = Pairing
  import S = PeerConnections

  class NetworkManager {
    const prim: P.Primitives
    const heard: bool  // whether whoever gets the connections listens for their errors
    var connections: map<string, S.PeerConnection>
    var outbox: seq<(string, string)>  // the peers a PAIR_ACCEPT was sent to

    ghost predicate Valid()
      reads this, connections.Values, set id, o | id in connections && o in connections[id].Repr() :: o
    {
      && (forall id | id in connections :: connections[id].Valid())
      && (forall i, j | i in connections && j in connections && i != j :: connections[i] != connections[j])
    }

    ghost function Links(): map<string, X.Link>
      reads this, connections.Values, set id, o | id in connections && o in connections[id].Repr() :: o
    {
      map id | id in connections :: X.Link(connections[id].cfg, connections[id].View())
    }

    constructor (prim: P.Primitives, heard: bool)
      ensures Valid() && Links() == map[] && this.prim == prim && this.heard == heard && outbox == []
    {
      this.prim, this.heard := prim, heard;
      connections, outbox := map[], [];
    }

    /** `ownKey` is the connection's new ephemeral private key. */
    method AcceptPairRequest(user: string, device: string, ownKey: nat) returns (connection: S.PeerConnection)
      requires Valid()
      modifies this
      ensures Valid() && fresh(connection)
      ensures connections == old(connections)[user + ":" + device := connection]
      ensures Links() == X.AcceptRequest(old(Links()), user + ":" + device,
                                         P.Config(prim, ownKey, C.Host, user, device, heard))
      ensures outbox == old(outbox) + [(user, device)]
    {
      connection := Connect(user + ":" + device, P.Config(prim, ownKey, C.Host, user, device, heard));
      outbox := outbox + [(user, device)];
    }

    /** The listener for a connection's close: the entry for its peer goes, whichever connection it names by now. */
    method RemoveConnection(user: string, device: string)
      requires Valid()
      modifies this`connections
      ensures Valid() && connections == old(connections) - {user + ":" + device}
      ensures Links() == X.Removed(old(Links()), user + ":" + device)
    {
      connections := connections - {user + ":" + device};
    }

    method HandlePairAccept(user: string, device: string, ownKey: nat)
      requires Valid()
      modifies this`connections, connections.Values
      ensures Valid()
      ensures Links() == X.PairAccepted(old(Links()), user + ":" + device,
                                        P.Config(prim, ownKey, C.Guest, user, device, heard))
    {
      var id := user + ":" + device;
      var cfg := P.Config(prim, ownKey, C.Guest, user, device, heard);
      assert id in connections <==> id in Links();
      hide Valid, Links, P.StartHandshake;
      if id !in connections {
        var _ := Connect(id, cfg);
      }
      StartIfConnecting(id);
    }

    method Connect(id: string, cfg: P.Config) returns (connection: S.PeerConnection)
      requires Valid()
      modifies this`connections
      ensures Valid() && fresh(connection)
      ensures connections == old(connections)[id := connection]
      ensures Links() == old(Links())[id := X.Link(cfg, P.FRESH)]
    {
      connection := new S.PeerConnection(cfg);
      connections := connections[id := connection];
    }

    method StartIfConnecting(id: string)
      requires Valid() && id in Links()
      modifies connections.Values
      ensures Valid()
      ensures var link := old(Links())[id];
              Links() == old(Links())[id := if link.peer.status == P.Connecting
                                            then link.(peer := P.StartHandshake(link.cfg, link.peer)) else link]
    {
      hide P.StartHandshake;
      var connection := connections[id];
      if connection.status == P.Connecting {
        connection.StartHandshake();
      }
    }
  }
}
