/**
 The session manager as the relay has it: room objects shared by three mutable maps.  Every method
 is proved to move the abstract state as the registry's function of the same name says.
 */
module SessionManagers {
  import opened Wrappers
  import R = Registry

  class RelayRoom {
    ghost const id: nat  // stands for the identity of the object
    const code: string
    const createdAt: int
    const expiresAt: int
    var state: R.RoomState
    var host: R.Peer
    var guest: Option<R.Peer>
    var sessionId: Option<R.Uuid>

    constructor (ghost id: nat, code: string, createdAt: int, expiresAt: int, host: R.Peer)
      ensures this.id == id
      ensures Data() == R.Room(code, createdAt, expiresAt, R.Waiting, host, None, None)
    {
      this.id, this.code, this.createdAt, this.expiresAt := id, code, createdAt, expiresAt;
      this.state, this.host, this.guest, this.sessionId := R.Waiting, host, None, None;
    }

    function Data(): R.Room
      reads this
    {
      R.Room(code, createdAt, expiresAt, state, host, guest, sessionId)
    }
  }

  /** The room objects, by number, have the values of the abstract rooms. */
  ghost predicate RoomsMatch(rooms: seq<RelayRoom>, values: seq<R.Room>)
    reads rooms
  {
    && |rooms| == |values|
    && forall i | 0 <= i < |rooms| :: rooms[i].id == i && rooms[i].Data() == values[i]
  }

  /** A map to room objects is the abstract map to their numbers. */
  ghost predicate IndexMatches<K>(rooms: seq<RelayRoom>, m: map<K, RelayRoom>, ids: map<K, nat>) {
    && m.Keys == ids.Keys
    && forall k | k in m :: m[k].id == ids[k] && ids[k] < |rooms| && rooms[ids[k]] == m[k]
  }

  class SessionManager {
    const codeTtlMs: int
    var roomsByCode: map<string, RelayRoom>
    var roomsBySocket: map<R.Socket, RelayRoom>
    var roomsBySessionId: map<R.Uuid, RelayRoom>
    ghost var rooms: seq<RelayRoom>  // every room ever created
    ghost var model: R.State         // the abstract value of the three maps and the rooms

    ghost predicate Known(room: RelayRoom)
      reads this
    {
      room.id < |rooms| && rooms[room.id] == room
    }

    /** The objects and maps have the values recorded in `model`. */
    ghost predicate Linked()
      reads this, rooms
    {
      && RoomsMatch(rooms, model.rooms)
      && IndexMatches(rooms, roomsByCode, model.byCode)
      && IndexMatches(rooms, roomsBySocket, model.bySocket)
      && IndexMatches(rooms, roomsBySessionId, model.bySession)
    }

    ghost predicate Valid()
      reads this, rooms
    {
      R.Wf(model) && Linked()
    }

    constructor (codeTtlMs: int)
      ensures Valid() && model == R.EMPTY && rooms == []
      ensures this.codeTtlMs == codeTtlMs
    {
      this.codeTtlMs := codeTtlMs;
      roomsByCode, roomsBySocket, roomsBySessionId := map[], map[], map[];
      rooms, model := [], R.EMPTY;
    }

    // The map lookups, map updates and field updates the operations below are made of.

    ghost predicate Is(room: RelayRoom, id: nat)
      reads this, room
    {
      room.id == id && Known(room) && id < |model.rooms| && room.Data() == model.rooms[id]
    }

    method ByCode(c: string) returns (found: Option<RelayRoom>)
      requires Linked()
      ensures found.Some? <==> c in model.byCode
      ensures found.Some? ==> Is(found.value, model.byCode[c])
    {
      found := if c in roomsByCode then Some(roomsByCode[c]) else None;
    }

    method Codes() returns (codes: set<string>)
      requires Linked()
      ensures codes == model.byCode.Keys
    {
      codes := roomsByCode.Keys;
    }

    method BySocket(k: R.Socket) returns (found: Option<RelayRoom>)
      requires Linked()
      ensures found.Some? <==> k in model.bySocket
      ensures found.Some? ==> Is(found.value, model.bySocket[k])
    {
      found := if k in roomsBySocket then Some(roomsBySocket[k]) else None;
    }

    method BySession(u: string) returns (found: Option<RelayRoom>)
      requires Linked()
      ensures found.Some? <==> u in model.bySession
      ensures found.Some? ==> Is(found.value, model.bySession[u])
    {
      found := if u in roomsBySessionId then Some(roomsBySessionId[u]) else None;
    }

    method NewRoom(code: string, now: int, host: R.Peer) returns (room: RelayRoom)
      requires Linked()
      modifies this`rooms, this`model
      ensures Linked() && fresh(room) && Is(room, |old(rooms)|) && rooms == old(rooms) + [room]
      ensures |old(rooms)| == |old(model).rooms|
      ensures room.code == code
      ensures model == old(model).(rooms := old(model).rooms
                + [R.Room(code, now, now + codeTtlMs, R.Waiting, host, None, None)])
    {
      room := new RelayRoom(|rooms|, code, now, now + codeTtlMs, host);
      rooms, model := rooms + [room], model.(rooms := model.rooms + [room.Data()]);
    }

    method DeleteCode(c: string)
      requires Linked()
      modifies this`roomsByCode, this`model
      ensures Linked() && model == old(model).(byCode := old(model).byCode - {c})
    {
      roomsByCode := roomsByCode - {c};
      model := model.(byCode := model.byCode - {c});
    }

    method DeleteSocket(k: R.Socket)
      requires Linked()
      modifies this`roomsBySocket, this`model
      ensures Linked() && model == old(model).(bySocket := old(model).bySocket - {k})
    {
      roomsBySocket := roomsBySocket - {k};
      model := model.(bySocket := model.bySocket - {k});
    }

    method DeleteSession(u: R.Uuid)
      requires Linked()
      modifies this`roomsBySessionId, this`model
      ensures Linked() && model == old(model).(bySession := old(model).bySession - {u})
    {
      roomsBySessionId := roomsBySessionId - {u};
      model := model.(bySession := model.bySession - {u});
    }

    method MapCode(c: string, room: RelayRoom)
      requires Linked() && Known(room)
      modifies this`roomsByCode, this`model
      ensures Linked() && model == old(model).(byCode := old(model).byCode[c := room.id])
    {
      roomsByCode := roomsByCode[c := room];
      model := model.(byCode := model.byCode[c := room.id]);
    }

    method MapSocket(k: R.Socket, room: RelayRoom)
      requires Linked() && Known(room)
      modifies this`roomsBySocket, this`model
      ensures Linked() && model == old(model).(bySocket := old(model).bySocket[k := room.id])
    {
      roomsBySocket := roomsBySocket[k := room];
      model := model.(bySocket := model.bySocket[k := room.id]);
    }

    method MapSession(u: R.Uuid, room: RelayRoom)
      requires Linked() && Known(room)
      modifies this`roomsBySessionId, this`model
      ensures Linked() && model == old(model).(bySession := old(model).bySession[u := room.id])
    {
      roomsBySessionId := roomsBySessionId[u := room];
      model := model.(bySession := model.bySession[u := room.id]);
    }

    method SetState(room: RelayRoom, state: R.RoomState)
      requires Linked() && Is(room, room.id)
      modifies this`model, room`state
      ensures Linked()
      ensures room.state == state
      ensures model == old(model).(rooms := old(model).rooms[room.id := old(room.Data()).(state := state)])
    {
      room.state := state;
      model := model.(rooms := model.rooms[room.id := room.Data()]);
    }

    method SetHost(room: RelayRoom, host: R.Peer)
      requires Linked() && Is(room, room.id)
      modifies this`model, room`host
      ensures Linked()
      ensures room.host == host
      ensures model == old(model).(rooms := old(model).rooms[room.id := old(room.Data()).(host := host)])
    {
      room.host := host;
      model := model.(rooms := model.rooms[room.id := room.Data()]);
    }

    method SetGuest(room: RelayRoom, guest: Option<R.Peer>)
      requires Linked() && Is(room, room.id)
      modifies this`model, room`guest
      ensures Linked()
      ensures room.guest == guest
      ensures model == old(model).(rooms := old(model).rooms[room.id := old(room.Data()).(guest := guest)])
    {
      room.guest := guest;
      model := model.(rooms := model.rooms[room.id := room.Data()]);
    }

    method SetSession(room: RelayRoom, u: R.Uuid)
      requires Linked() && Is(room, room.id)
      modifies this`model, room`sessionId
      ensures Linked()
      ensures room.sessionId == Some(u)
      ensures model == old(model).(rooms := old(model).rooms[room.id := old(room.Data()).(sessionId := Some(u))])
    {
      room.sessionId := Some(u);
      model := model.(rooms := model.rooms[room.id := room.Data()]);
    }

    /** The body of the sweep: end one room and take it out of every index. */
    method Retire(room: RelayRoom)
      requires Valid() && Is(room, room.id)
      modifies this`roomsByCode, this`roomsBySocket, this`roomsBySessionId, this`model, room
      ensures Valid()
      ensures model == RetireAt(old(model), room.id)
    {
      hide R.Wf, RoomsMatch, IndexMatches;
      RetireAtWf(model, room.id);
      SetState(room, R.Ended);
      DeleteCode(room.code);
      DeleteSocket(room.host.socket);
      if room.sessionId.Some? {
        DeleteSession(room.sessionId.value);
      }
      if room.guest.Some? {
        DeleteSocket(room.guest.value.socket);
      }
    }

    /** The sweep's visit to one code. */
    method Visit(c: string, now: int) returns (room: RelayRoom, gone: bool)
      requires Valid() && c in model.byCode
      modifies this`roomsByCode, this`roomsBySocket, this`roomsBySessionId, this`model, rooms
      ensures Valid()
      ensures room.id == old(model).byCode[c] && Known(room)
      ensures gone <==> Overdue(old(model).rooms[room.id], now)
      ensures model == if gone then RetireAt(old(model), room.id) else old(model)
    {
      hide R.Wf, RoomsMatch, IndexMatches;
      var found := ByCode(c);
      room := found.value;
      gone := room.state != R.Active && room.expiresAt <= now;
      if gone {
        Retire(room);
      }
    }

    method ExpireRooms(now: int) returns (expired: seq<RelayRoom>)
      requires Valid()
      modifies this`roomsByCode, this`roomsBySocket, this`roomsBySessionId, this`model, rooms
      ensures Valid()
      ensures model == R.Expire(old(model), now)
      ensures Listed(rooms, expired, R.Due(old(model), now))
    {
      hide R.Wf, RoomsMatch, IndexMatches;
      expired := [];
      ghost var s, all := model, rooms;
      var todo := Codes();
      VisitNone(s, now);
      while todo != {}
        invariant Valid() && rooms == all
        invariant todo <= s.byCode.Keys
        invariant model == R.Retire(s, Visited(s, now, todo))
        invariant Listed(all, expired, Visited(s, now, todo))
        decreases todo
      {
        var c :| c in todo;
        ghost var done := Visited(s, now, todo);
        VisitOne(s, now, todo, c);
        var room, gone := Visit(c, now);
        if gone {
          ListedOne(all, expired, done, room);
          expired := expired + [room];
        }
        todo := todo - {c};
      }
      VisitAll(s, now);
    }

    /** The reply names the room that the registry's own function names, or fails as it does. */
    ghost predicate Answers(reply: Result<RelayRoom, R.Error>, spec: Result<nat, R.Error>)
      reads this
    {
      match reply
      case Ok(room) => Known(room) && spec == Ok(room.id)
      case Err(e) => spec == Err(e)
    }

    method RegisterHost(socket: R.Socket, code: string, identity: R.Identity, now: int)
      returns (reply: Result<RelayRoom, R.Error>)
      requires Valid()
      modifies this, rooms
      ensures Valid() && old(rooms) <= rooms && fresh(rooms[|old(rooms)|..])
      ensures model == R.RegisterHost(codeTtlMs, old(model), socket, code, identity, now).0
      ensures Answers(reply, R.RegisterHost(codeTtlMs, old(model), socket, code, identity, now).1)
    {
      hide R.Wf, RoomsMatch, IndexMatches;
      var _ := ExpireRooms(now);
      if code == "" {
        return Err(R.CodeRequired);
      }
      var taken := ByCode(code);
      if taken.Some? {
        return Err(R.CodeAlreadyActive);
      }
      R.OpenRoomWf(codeTtlMs, model, socket, code, identity, now);
      var room := NewRoom(code, now, R.Peer(socket, identity));
      MapCode(code, room);
      MapSocket(socket, room);
      return Ok(room);
    }

    method RegisterGuest(socket: R.Socket, code: string, identity: R.Identity, now: int)
      returns (reply: Result<RelayRoom, R.Error>)
      requires Valid()
      modifies this, rooms
      ensures Valid() && rooms == old(rooms)
      ensures model == R.RegisterGuest(old(model), socket, code, identity, now).0
      ensures Answers(reply, R.RegisterGuest(old(model), socket, code, identity, now).1)
    {
      hide R.Wf, RoomsMatch, IndexMatches;
      var _ := ExpireRooms(now);
      var found := ByCode(code);
      if found.None? {
        return Err(R.CodeNotFound);
      }
      var room := found.value;
      if room.state != R.Waiting {
        return Err(R.CodeIs(room.state));
      }
      R.JoinRoomWf(model, socket, code, identity);
      ghost var joined := R.JoinRoom(model, socket, code, identity).0;
      SetGuest(room, Some(R.Peer(socket, identity)));
      SetState(room, R.Pending);
      MapSocket(socket, room);
      assert model.rooms == joined.rooms;
      return Ok(room);
    }

    method Approve(hostSocket: R.Socket, uuid: R.Uuid) returns (reply: Result<RelayRoom, R.Error>)
      requires Valid()
      modifies this`roomsByCode, this`roomsBySessionId, this`model, rooms
      ensures Valid()
      ensures model == R.Approve(old(model), hostSocket, uuid).0
      ensures Answers(reply, R.Approve(old(model), hostSocket, uuid).1)
      ensures reply.Ok? ==> Is(reply.value, reply.value.id) && reply.value.guest.Some?
    {
      hide R.Wf, RoomsMatch, IndexMatches;
      var found := BySocket(hostSocket);
      if found.None? {
        return Err(R.NoPendingRequest);
      }
      var room := found.value;
      if room.host.socket != hostSocket || room.guest.None? {
        return Err(R.NoPendingRequest);
      }
      if room.state != R.Pending {
        return Err(R.SessionIs(room.state));
      }
      R.ApproveWf(model, hostSocket, uuid);
      SetSession(room, uuid);
      SetState(room, R.Active);
      DeleteCode(room.code);
      MapSession(uuid, room);
      assert model.rooms == R.Approve(old(model), hostSocket, uuid).0.rooms;
      return Ok(room);
    }

    method Reject(hostSocket: R.Socket) returns (reply: Result<RelayRoom, R.Error>)
      requires Valid()
      modifies this`roomsByCode, this`model, rooms
      ensures Valid()
      ensures model == R.Reject(old(model), hostSocket).0
      ensures Answers(reply, R.Reject(old(model), hostSocket).1)
      ensures reply.Ok? ==> Is(reply.value, reply.value.id) && reply.value.guest.Some?
    {
      hide R.Wf, RoomsMatch, IndexMatches;
      var found := BySocket(hostSocket);
      if found.None? {
        return Err(R.NoPendingRequest);
      }
      var room := found.value;
      if room.host.socket != hostSocket || room.guest.None? {
        return Err(R.NoPendingRequest);
      }
      R.RejectWf(model, hostSocket);
      SetState(room, R.Ended);
      DeleteCode(room.code);
      return Ok(room);
    }

    method Reconnect(socket: R.Socket, sessionId: string, identity: R.Identity)
      returns (reply: Result<RelayRoom, R.Error>, role: R.Role)
      requires Valid()
      modifies this`roomsBySocket, this`model, rooms
      ensures Valid()
      ensures model == R.Reconnect(old(model), socket, sessionId, identity).0
      ensures match reply
              case Ok(room) =>
                && Is(room, room.id)
                && R.Reconnect(old(model), socket, sessionId, identity).1 == Ok((room.id, role))
              case Err(e) => R.Reconnect(old(model), socket, sessionId, identity).1 == Err(e)
    {
      hide R.Wf, RoomsMatch, IndexMatches;
      role := R.HostRole;
      var found := BySession(sessionId);
      if found.None? {
        return Err(R.SessionNotFound), role;
      }
      var room := found.value;
      if room.state != R.Active {
        return Err(R.SessionIs(room.state)), role;
      }
      R.ReconnectWf(model, socket, sessionId, identity);
      if room.host.identity.deviceId == identity.deviceId {
        DeleteSocket(room.host.socket);
        SetHost(room, R.Peer(socket, identity));
        MapSocket(socket, room);
        return Ok(room), R.HostRole;
      }
      if room.guest.Some? && room.guest.value.identity.deviceId == identity.deviceId {
        DeleteSocket(room.guest.value.socket);
        SetGuest(room, Some(R.Peer(socket, identity)));
        MapSocket(socket, room);
        return Ok(room), R.GuestRole;
      }
      return Err(R.IdentityMismatch), role;
    }

    method GetPeer(socket: R.Socket) returns (reply: Result<R.Socket, R.Error>)
      requires Valid()
      ensures match R.GetPeer(model, socket)
              case Ok(found) => reply == Ok(found.1)
              case Err(e) => reply == Err(e)
    {
      hide R.Wf, RoomsMatch, IndexMatches;
      var found := BySocket(socket);
      if found.None? {
        return Err(R.SessionNotFound);
      }
      var room := found.value;
      if room.state != R.Active {
        return Err(R.SessionNotReady);
      }
      if socket == room.host.socket {
        return if room.guest.Some? then Ok(room.guest.value.socket) else Err(R.PeerNotConnected);
      }
      return Ok(room.host.socket);
    }

    method ReleaseSocket(socket: R.Socket) returns (released: Option<RelayRoom>)
      requires Valid()
      modifies this`roomsByCode, this`roomsBySocket, this`roomsBySessionId, this`model, rooms
      ensures Valid()
      ensures model == R.Release(old(model), socket).0
      ensures match released
              case Some(room) => Known(room) && R.Release(old(model), socket).1 == Some(room.id)
              case None => R.Release(old(model), socket).1 == None
    {
      hide R.Wf, RoomsMatch, IndexMatches;
      var found := BySocket(socket);
      if found.None? {
        return None;
      }
      var room := found.value;
      R.ReleaseWf(model, socket);
      DeleteSocket(socket);
      if socket == room.host.socket {
        SetState(room, R.Ended);
        DeleteCode(room.code);
        if room.sessionId.Some? {
          DeleteSession(room.sessionId.value);
        }
        if room.guest.Some? {
          DeleteSocket(room.guest.value.socket);
        }
        return Some(room);
      }
      if room.guest.Some? && room.guest.value.socket == socket {
        SetGuest(room, None);
        if room.state == R.Pending || room.state == R.Active {
          SetState(room, R.Ended);
          DeleteCode(room.code);
          if room.sessionId.Some? {
            DeleteSession(room.sessionId.value);
          }
        }
      }
      assert model.rooms == R.Release(old(model), socket).0.rooms;
      return Some(room);
    }
  }

  /** `expired` lists, once each, the rooms of `all` whose numbers are in `ids`. */
  ghost predicate Listed(all: seq<RelayRoom>, expired: seq<RelayRoom>, ids: set<nat>) {
    && (forall room | room in expired :: room.id in ids && room.id < |all| && all[room.id] == room)
    && (forall id | id in ids :: id < |all| && all[id] in expired)
    && (forall i, j | 0 <= i < j < |expired| :: expired[i] != expired[j])
  }

  lemma ListedOne(all: seq<RelayRoom>, expired: seq<RelayRoom>, ids: set<nat>, room: RelayRoom)
    requires Listed(all, expired, ids)
    requires room.id < |all| && all[room.id] == room && room.id !in ids
    ensures Listed(all, expired + [room], ids + {room.id})
  {
  }

  predicate Overdue(r: R.Room, now: int) {
    r.state != R.Active && r.expiresAt <= now
  }

  /** The overdue rooms whose codes the sweep has visited. */
  ghost function Visited(s: R.State, now: int, todo: set<string>): set<nat>
    requires R.Wf(s)
  {
    set c | c in s.byCode && c !in todo && Overdue(s.rooms[s.byCode[c]], now) :: s.byCode[c]
  }

  lemma VisitNone(s: R.State, now: int)
    requires R.Wf(s)
    ensures Visited(s, now, s.byCode.Keys) == {}
    ensures R.Retire(s, Visited(s, now, s.byCode.Keys)) == s
  {
    assert R.Retire(s, {}).rooms == s.rooms;
  }

  lemma VisitAll(s: R.State, now: int)
    requires R.Wf(s)
    ensures Visited(s, now, {}) == R.Due(s, now)
  {
  }

  lemma VisitOne(s: R.State, now: int, todo: set<string>, c: string)
    requires R.Wf(s) && c in todo && c in s.byCode
    ensures var id, done := s.byCode[c], Visited(s, now, todo);
            var m := R.Retire(s, done);
            && id !in done && c in m.byCode && m.byCode[c] == id && m.rooms[id] == s.rooms[id]
            && if Overdue(s.rooms[id], now) then
                 && Visited(s, now, todo - {c}) == done + {id}
                 && R.Retire(s, Visited(s, now, todo - {c})) == RetireAt(m, id)
               else
                 Visited(s, now, todo - {c}) == done
  {
    var id, done := s.byCode[c], Visited(s, now, todo);
    if Overdue(s.rooms[id], now) {
      assert Visited(s, now, todo - {c}) == done + {id};
      RetireOne(R.Retire(s, done), id);
      RetireTwice(s, done, id);
    } else {
      assert Visited(s, now, todo - {c}) == done;
    }
  }

  function RetireAt(s: R.State, id: nat): R.State
    requires id < |s.rooms|
  {
    var r := s.rooms[id];
    R.State(
      s.rooms[id := r.(state := R.Ended)],
      s.byCode - {r.code},
      if r.guest.Some? then s.bySocket - {r.host.socket} - {r.guest.value.socket} else s.bySocket - {r.host.socket},
      if r.sessionId.Some? then s.bySession - {r.sessionId.value} else s.bySession)
  }

  lemma RetireAtWf(s: R.State, id: nat)
    requires R.Wf(s) && id < |s.rooms|
    ensures R.Wf(RetireAt(s, id))
  {
  }

  lemma RetireOne(s: R.State, id: nat)
    requires id < |s.rooms|
    ensures R.Retire(s, {id}) == RetireAt(s, id)
  {
    assert R.CodesOf(s.rooms, {id}) == {s.rooms[id].code};
    assert R.SocketsOf(s.rooms, {id}) == R.Endpoints(s.rooms[id]);
    assert R.SessionsOf(s.rooms, {id})
        == if s.rooms[id].sessionId.Some? then {s.rooms[id].sessionId.value} else {};
  }

  lemma RetireTwice(s: R.State, ids: set<nat>, id: nat)
    requires id < |s.rooms|
    ensures R.Retire(R.Retire(s, ids), {id}) == R.Retire(s, ids + {id})
  {
    var once, both := R.Retire(s, ids), R.Retire(s, ids + {id});
    RetireOne(once, id);
    OfSum(s.rooms, ids, id);
    RetireRooms(s, ids, id);
    RetireMaps(s, ids);
    RetireMaps(s, ids + {id});
    hide R.Retire, R.CodesOf, R.SocketsOf, R.SessionsOf;
    var r := once.rooms[id];
    Minus(s.byCode, R.CodesOf(s.rooms, ids), {r.code});
    Minus(s.bySocket, R.SocketsOf(s.rooms, ids), R.Endpoints(r));
    Minus(s.bySession, R.SessionsOf(s.rooms, ids), if r.sessionId.Some? then {r.sessionId.value} else {});
    RetireAtMaps(once, id);
  }

  lemma Minus<K, V>(m: map<K, V>, a: set<K>, b: set<K>)
    ensures m - a - b == m - (a + b)
  {
  }

  lemma RetireAtMaps(s: R.State, id: nat)
    requires id < |s.rooms|
    ensures var r, t := s.rooms[id], RetireAt(s, id);
            && t.bySocket == s.bySocket - R.Endpoints(r)
            && t.bySession == s.bySession - if r.sessionId.Some? then {r.sessionId.value} else {}
  {
    var r := s.rooms[id];
    if r.guest.Some? {
      Minus(s.bySocket, {r.host.socket}, {r.guest.value.socket});
    }
    assert s.bySession - {} == s.bySession;
  }

  lemma RetireRooms(s: R.State, ids: set<nat>, id: nat)
    requires id < |s.rooms|
    ensures var once := R.Retire(s, ids);
            && |once.rooms| == |s.rooms|
            && once.rooms[id].(state := s.rooms[id].state) == s.rooms[id]
            && RetireAt(once, id).rooms == R.Retire(s, ids + {id}).rooms
  {
  }

  lemma RetireMaps(s: R.State, ids: set<nat>)
    ensures var t := R.Retire(s, ids);
            && t.byCode == s.byCode - R.CodesOf(s.rooms, ids)
            && t.bySocket == s.bySocket - R.SocketsOf(s.rooms, ids)
            && t.bySession == s.bySession - R.SessionsOf(s.rooms, ids)
  {
  }

  lemma OfSum(rooms: seq<R.Room>, ids: set<nat>, id: nat)
    requires id < |rooms|
    ensures R.CodesOf(rooms, ids + {id}) == R.CodesOf(rooms, ids) + {rooms[id].code}
    ensures R.SocketsOf(rooms, ids + {id}) == R.SocketsOf(rooms, ids) + R.Endpoints(rooms[id])
    ensures R.SessionsOf(rooms, ids + {id}) == R.SessionsOf(rooms, ids)
              + if rooms[id].sessionId.Some? then {rooms[id].sessionId.value} else {}
  {
  }
}
