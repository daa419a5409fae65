/**
 * The registry of rooms (server.js:19) and the socket handlers that find a
 * room by token or by socket before handing over to it (server.js:29-137),
 * with the lobby listing of broadcastRooms (server.js:141-150) and the room
 * search of findRoomBySocket (server.js:205-212).
 *
 * The rooms object is a map from token to room plus `order`, the order in
 * which `for … in` and `Object.entries` visit its keys: the order in which
 * the tokens were added.
 */
module Server {
  import opened Wrappers
  import opened Board
  import opened Protocol
  import opened Rooms

  predicate Distinct(ts: seq<Token>) {
    forall i, j :: 0 <= i < j < |ts| ==> ts[i] != ts[j]
  }

  /** The visiting order once `delete rooms[t]` has run (server.js:134). */
  function Remove(ts: seq<Token>, t: Token): (r: seq<Token>)
    ensures forall u :: u in r <==> u in ts && u != t
    ensures Distinct(ts) ==> Distinct(r)
    ensures |r| <= |ts|
  {
    if ts == [] then []
    else if ts[0] == t then Remove(ts[1..], t)
    else
      var tail := Remove(ts[1..], t);
      assert Distinct(ts) ==> ts[0] !in ts[1..];
      [ts[0]] + tail
  }

  /** Deleting a key that is not there leaves the visiting order as it was. */
  lemma {:induction false} RemoveAbsent(ts: seq<Token>, t: Token)
    requires t !in ts
    ensures Remove(ts, t) == ts
  {
    if ts != [] {
      RemoveAbsent(ts[1..], t);
      assert ts == [ts[0]] + ts[1..];
    }
  }

  /** Deleting a key drops exactly its place from the visiting order; the
      other keys keep their order. */
  lemma {:induction false} RemoveKeepsOrder(ts: seq<Token>, t: Token, k: int)
    requires Distinct(ts) && 0 <= k < |ts| && ts[k] == t
    ensures Remove(ts, t) == ts[..k] + ts[k + 1..]
  {
    if k == 0 {
      RemoveAbsent(ts[1..], t);
      assert ts[..0] + ts[1..] == ts[1..];
    } else {
      assert ts[0] != ts[k];
      assert Distinct(ts[1..]) by {
        forall i, j | 0 <= i < j < |ts[1..]| ensures ts[1..][i] != ts[1..][j] {
          assert ts[1..][i] == ts[i + 1] && ts[1..][j] == ts[j + 1];
        }
      }
      RemoveKeepsOrder(ts[1..], t, k - 1);
      assert ts[..k] == [ts[0]] + ts[1..][..k - 1];
      assert ts[k + 1..] == ts[1..][k..];
    }
  }

  class Registry {
    var rooms: map<Token, Room>
    var order: seq<Token>

    /** Every listed token is visited once, and each room knows its own
        token and is valid. */
    ghost predicate Stored()
      reads this, rooms.Values
    {
      && (forall t :: t in rooms <==> t in order)
      && Distinct(order)
      && (forall t :: t in rooms ==> rooms[t].token == t && rooms[t].Valid())
    }

    /** Besides, no room is empty: the last leaver deletes it. */
    ghost predicate Valid()
      reads this, rooms.Values
    {
      Stored() && forall t :: t in rooms ==> 1 <= |rooms[t].players|
    }

    /** `const rooms = {}` (server.js:19). */
    constructor()
      ensures Valid() && rooms == map[] && order == []
    {
      rooms := map[];
      order := [];
    }

    /** Position `k` of `ts` is the first room, in visiting order, that
        seats `id`. */
    predicate FirstSeating(ts: seq<Token>, id: SocketId, k: int)
      reads this, rooms.Values
      requires forall t :: t in ts ==> t in rooms
    {
      && 0 <= k < |ts| && Seated(rooms[ts[k]].players, id)
      && forall j :: 0 <= j < k ==> !Seated(rooms[ts[j]].players, id)
    }

    /** The loop of findRoomBySocket over `ts` (server.js:206-211). */
    function FindIn(ts: seq<Token>, id: SocketId): (r: Option<Token>)
      reads this, rooms.Values
      requires forall t :: t in ts ==> t in rooms
      ensures r.None? <==> forall i :: 0 <= i < |ts| ==> !Seated(rooms[ts[i]].players, id)
      ensures r.Some? ==> exists k :: FirstSeating(ts, id, k) && ts[k] == r.value
    {
      if ts == [] then None
      else if Seated(rooms[ts[0]].players, id) then
        assert FirstSeating(ts, id, 0);
        Some(ts[0])
      else
        var r := FindIn(ts[1..], id);
        assert forall k :: FirstSeating(ts[1..], id, k) ==> FirstSeating(ts, id, k + 1);
        assert forall i :: 1 <= i < |ts| ==> ts[i] == ts[1..][i - 1];
        r
    }

    /** findRoomBySocket (server.js:205-212): the first room, in visiting
        order, that seats the socket, or none when no room does. */
    function FindRoomBySocket(id: SocketId): (r: Option<Token>)
      reads this, rooms.Values
      requires Valid()
      ensures r.None? <==> forall t :: t in rooms ==> !Seated(rooms[t].players, id)
      ensures r.Some? ==> r.value in rooms && exists k :: FirstSeating(order, id, k) && order[k] == r.value
    {
      var r := FindIn(order, id);
      assert r.None? ==> forall t :: t in rooms ==> !Seated(rooms[t].players, id) by {
        if r.None? {
          forall t | t in rooms ensures !Seated(rooms[t].players, id) {
            var i :| 0 <= i < |order| && order[i] == t;
          }
        }
      }
      r
    }

    /** The room a per-socket handler acts on: the one findRoomBySocket
        finds, unless its token is the empty string, which `if (!token)
        return;` takes for none (server.js:62-63, 106-107, 116-117, 123-124). */
    function Routed(id: SocketId): (r: Option<Token>)
      reads this, rooms.Values
      requires Valid()
      ensures r.Some? ==> r == FindRoomBySocket(id) && r.value != "" && r.value in rooms
      ensures r.None? <==> FindRoomBySocket(id).None? || FindRoomBySocket(id) == Some("")
    {
      var found := FindRoomBySocket(id);
      if found.Some? && found.value != "" then found else None
    }

    /** The entry of one room in roomsUpdate (server.js:143-147). */
    function Info(t: Token): RoomInfo
      reads this, rooms.Values
      requires t in rooms
    {
      RoomInfo(t, StatusOf(|rooms[t].players|).Code(), rooms[t].createdDate)
    }

    function Listing(ts: seq<Token>): (l: seq<RoomInfo>)
      reads this, rooms.Values
      requires forall t :: t in ts ==> t in rooms
      ensures |l| == |ts|
      ensures forall i :: 0 <= i < |ts| ==> l[i] == Info(ts[i])
    {
      if ts == [] then [] else [Info(ts[0])] + Listing(ts[1..])
    }

    /** The list broadcastRooms sends (server.js:142-148): every room once,
        in visiting order, Full when both seats are taken and ReadyToPlay
        when one is. */
    function RoomsNow(): (l: seq<RoomInfo>)
      reads this, rooms.Values
      requires Valid()
      ensures |l| == |order|
      ensures forall i :: 0 <= i < |l| ==>
        && l[i].id == order[i] && l[i].createdDate == rooms[order[i]].createdDate
        && (l[i].status == Full.Code() <==> |rooms[order[i]].players| == 2)
        && (l[i].status == ReadyToPlay.Code() <==> |rooms[order[i]].players| == 1)
    {
      Listing(order)
    }

    /** joinRoom (server.js:29-59). `now` stands for `new Date().getTime()`
        and `start`, `swapSeats` for the random choices of a reset. */
    method JoinRoom(socket: SocketId, token: Token, now: int, start: Mark, swapSeats: bool)
      returns (admitted: bool, events: seq<Event>)
      requires Valid()
      modifies this, rooms.Values
      ensures Valid() && token in rooms
      ensures admitted ==> |events| >= 1 && events[|events| - 1] == RoomsUpdate(RoomsNow())
      ensures forall r :: r in old(rooms).Values && r != rooms[token] ==> unchanged(r)
      ensures token in old(rooms) ==>
        && rooms == old(rooms) && order == old(order)
        && rooms[token].JoinEffect(socket, start, swapSeats, admitted,
                                   if admitted then events[..|events| - 1] else events)
      ensures token !in old(rooms) ==>
        && fresh(rooms[token]) && rooms == old(rooms)[token := rooms[token]]
        && order == old(order) + [token] && admitted
        && rooms[token].createdDate == now && rooms[token].Opened([Player(socket, None)])
        && events == [CheckWaiting(token, true), RoomsUpdate(RoomsNow())]
    {
      if token !in rooms {
        Open(token, now);
      }
      admitted, events := Enter(socket, token, start, swapSeats);
    }

    /** joinRoom once a room is stored under `token` (server.js:40-58). */
    method Enter(socket: SocketId, token: Token, start: Mark, swapSeats: bool)
      returns (admitted: bool, events: seq<Event>)
      requires Stored() && token in rooms
      requires forall t :: t in rooms && t != token ==> 1 <= |rooms[t].players|
      modifies rooms[token]
      ensures Valid()
      ensures admitted ==> |events| >= 1 && events[|events| - 1] == RoomsUpdate(RoomsNow())
      ensures rooms[token].JoinEffect(socket, start, swapSeats, admitted,
                                      if admitted then events[..|events| - 1] else events)
    {
      var room := rooms[token];
      admitted, events := room.Join(socket, start, swapSeats);
      if admitted {
        events := events + [RoomsUpdate(RoomsNow())];
      }
    }

    /** The room literal stored under a new token (server.js:30-39). */
    method Open(token: Token, now: int)
      requires Valid() && token !in rooms
      modifies this
      ensures token in rooms && fresh(rooms[token]) && rooms == old(rooms)[token := rooms[token]]
      ensures order == old(order) + [token]
      ensures rooms[token].token == token && rooms[token].createdDate == now
      ensures rooms[token].Valid() && rooms[token].Opened([])
      ensures Stored()
      ensures forall t :: t in old(rooms) ==> 1 <= |rooms[t].players|
    {
      var room := new Room(token, now);
      rooms := rooms[token := room];
      order := order + [token];
    }

    /** makeMove (server.js:61-103): the caller provides a row on the board
        whenever the move reaches the board. */
    method MakeMove(socket: SocketId, row: int, col: int) returns (events: seq<Event>)
      requires Valid()
      requires Routed(socket).Some? && rooms[Routed(socket).value].MayMove(socket)
               ==> 0 <= row < SIZE
      modifies rooms.Values
      ensures Valid()
      ensures var found := old(Routed(socket));
        && (found.None? ==> events == [] && unchanged(rooms.Values))
        && (found.Some? ==>
              && rooms[found.value].MoveEffect(socket, row, col, events)
              && forall r :: r in rooms.Values && r != rooms[found.value] ==> unchanged(r))
    {
      var found := Routed(socket);
      if found.None? {
        return [];
      }
      events := rooms[found.value].MakeMove(socket, row, col);
    }

    /** passTurn (server.js:105-113). */
    method PassTurn(socket: SocketId) returns (events: seq<Event>)
      requires Valid()
      modifies rooms.Values
      ensures Valid()
      ensures var found := old(Routed(socket));
        && (found.None? ==> events == [] && unchanged(rooms.Values))
        && (found.Some? ==>
              && rooms[found.value].PassEffect(socket, events)
              && forall r :: r in rooms.Values && r != rooms[found.value] ==> unchanged(r))
    {
      var found := Routed(socket);
      if found.None? {
        return [];
      }
      events := rooms[found.value].PassTurn(socket);
    }

    /** resetRequest (server.js:115-119). */
    method ResetRequest(socket: SocketId, start: Mark, swapSeats: bool) returns (events: seq<Event>)
      requires Valid()
      modifies rooms.Values
      ensures Valid()
      ensures var found := old(Routed(socket));
        && (found.None? ==> events == [] && unchanged(rooms.Values))
        && (found.Some? ==>
              && rooms[found.value].ResetEffect(start, swapSeats, events)
              && forall r :: r in rooms.Values && r != rooms[found.value] ==> unchanged(r))
    {
      var found := Routed(socket);
      if found.None? {
        return [];
      }
      events := rooms[found.value].Reset(start, swapSeats);
    }

    /** disconnect (server.js:121-137): the last leaver deletes the room. */
    method Disconnect(socket: SocketId) returns (events: seq<Event>)
      requires Valid()
      modifies this, rooms.Values
      ensures Valid()
      ensures var found := old(Routed(socket));
        && (found.None? ==> events == [] && rooms == old(rooms) && order == old(order) && unchanged(rooms.Values))
        && (found.Some? ==>
              && VacateEffect(socket, found.value, old(rooms)[found.value], events)
              && forall r :: r in old(rooms).Values && r != old(rooms)[found.value] ==> unchanged(r))
    {
      var found := Routed(socket);
      if found.None? {
        return [];
      }
      events := Vacate(socket, found.value);
    }

    /** disconnect once the leaver's room `t` is found (server.js:125-136):
        the room's own effect, then the room is deleted exactly when it is
        left empty, and the lobby gets the new listing. */
    twostate predicate VacateEffect(socket: SocketId, t: Token, room: Room, events: seq<Event>)
      reads this, rooms.Values, room
      requires old(Valid()) && t in old(rooms) && old(rooms)[t] == room && Valid()
    {
      && |events| >= 1 && events[|events| - 1] == RoomsUpdate(RoomsNow())
      && room.LeaveEffect(socket, events[..|events| - 1])
      && (|room.players| == 0 ==> rooms == old(rooms) - {t} && order == Remove(old(order), t))
      && (|room.players| > 0 ==> rooms == old(rooms) && order == old(order))
    }

    /** disconnect once the leaver's room `t` is found (server.js:125-136). */
    method Vacate(socket: SocketId, t: Token) returns (events: seq<Event>)
      requires Valid() && t in rooms
      modifies this, rooms[t]
      ensures Valid() && VacateEffect(socket, t, old(rooms)[t], events)
    {
      var room := rooms[t];
      events := room.Leave(socket);
      if |room.players| == 0 {
        Close(t);
      }
      events := events + [RoomsUpdate(RoomsNow())];
    }

    /** `delete rooms[t]` for a room nobody sits in any more (server.js:133-135). */
    method Close(t: Token)
      requires Stored() && t in rooms && |rooms[t].players| == 0
      requires forall u :: u in rooms && u != t ==> 1 <= |rooms[u].players|
      modifies this
      ensures Valid()
      ensures rooms == old(rooms) - {t} && order == Remove(old(order), t)
    {
      rooms := rooms - {t};
      order := Remove(order, t);
    }

    /** One firing of the interval of room `token` (server.js:194-202). */
    method TimerFired(token: Token) returns (events: seq<Event>)
      requires Valid()
      modifies rooms.Values
      ensures Valid()
      ensures token !in rooms ==> events == [] && unchanged(rooms.Values)
      ensures token in rooms ==>
        && rooms[token].TickEffect(events)
        && forall r :: r in rooms.Values && r != rooms[token] ==> unchanged(r)
    {
      if token !in rooms {
        return [];
      }
      events := rooms[token].Tick();
    }
  }
}
