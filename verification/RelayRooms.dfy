/** The room table with its key index and counters: each operation changes the rooms
    as `RelaySpec` says and keeps the index and the counters equal to a scan. */
module RelayRooms {
  import opened Text
  import opened RelaySpec
  import opened RelayIndex
  import opened RelayEntry

  datatype Tables = Tables(rooms: map<Room, RoomEntry>, ipCounts: Index,
                           totalRoomCount: int, inRoomPendingTotal: int)

  const EMPTY := Tables(map[], map[], 0, 0)

  /** The rooms without what the indexes repeat. */
  function Rooms(rooms: map<Room, RoomEntry>): (v: map<Room, Entry>)
    ensures v.Keys == rooms.Keys
  {
    map r | r in rooms :: View(rooms[r])
  }

  /** The index and the two counters equal what a scan of the rooms gives. */
  ghost predicate Exact(c: Config, view: map<Room, Entry>, idx: Index, count: int, total: int) {
    && IndexExact(c, view, idx)
    && count == |view|
    && total == |InRoom(view)|
  }

  ghost predicate EntriesValid(c: Config, rooms: map<Room, RoomEntry>) {
    forall r | r in rooms :: EntryValid(c, rooms[r])
  }

  lemma EntriesPut(c: Config, rooms: map<Room, RoomEntry>, room: Room, e: RoomEntry)
    requires EntriesValid(c, rooms) && EntryValid(c, e)
    ensures EntriesValid(c, rooms[room := e])
  {
  }

  ghost predicate TablesValid(c: Config, t: Tables) {
    && EntriesValid(c, t.rooms)
    && Exact(c, Rooms(t.rooms), t.ipCounts, t.totalRoomCount, t.inRoomPendingTotal)
  }

  lemma EmptyValid(c: Config)
    ensures TablesValid(c, EMPTY) && Rooms(EMPTY.rooms) == map[]
  {
    assert forall ip :: IpRooms(c, map[], ip) == {};
    assert InRoom(map[]) == {};
  }

  lemma PutExact(c: Config, view: map<Room, Entry>, idx: Index, count: int, total: int, room: Room, e: Entry,
      idx': Index)
    requires Exact(c, view, idx, count, total) && room in view
    requires NoEmpty(idx') && Synced(c, idx', room, e) && OthersSame(idx, idx', room)
    ensures Exact(c, view[room := e], idx', count, total + |e.pending| - |view[room].pending|)
  {
    PutSynced(c, view, idx, room, e, idx');
    InRoomPut(view, room, e);
    assert view[room := e].Keys == view.Keys;
  }

  /** What the operations on one entry may rely on. */
  lemma Covers(c: Config, t: Tables, room: Room)
    requires TablesValid(c, t) && room in t.rooms
    ensures t.inRoomPendingTotal >= |t.rooms[room].pending|
    ensures NoEmpty(t.ipCounts) && Synced(c, t.ipCounts, room, View(t.rooms[room]))
  {
    InRoomSplit(Rooms(t.rooms), room);
    IndexSynced(c, Rooms(t.rooms), t.ipCounts, room);
  }

  function Put(t: Tables, room: Room, e: RoomEntry, idx: Index, total: int): Tables {
    t.(rooms := t.rooms[room := e], ipCounts := idx, inRoomPendingTotal := total)
  }

  lemma RoomsPut(rooms: map<Room, RoomEntry>, room: Room, e: RoomEntry)
    ensures Rooms(rooms[room := e]) == Rooms(rooms)[room := View(e)]
  {
  }

  /** Replacing one entry in step with the index and the total keeps the tables valid. */
  lemma PutValid(c: Config, t: Tables, room: Room, e: RoomEntry, idx: Index, total: int)
    requires TablesValid(c, t) && room in t.rooms && EntryValid(c, e)
    requires NoEmpty(idx) && Synced(c, idx, room, View(e)) && OthersSame(t.ipCounts, idx, room)
    requires total == t.inRoomPendingTotal + |e.pending| - |t.rooms[room].pending|
    ensures TablesValid(c, Put(t, room, e, idx, total))
    ensures Rooms(t.rooms[room := e]) == Rooms(t.rooms)[room := View(e)]
  {
    RoomsPut(t.rooms, room, e);
    EntriesPut(c, t.rooms, room, e);
    PutExact(c, Rooms(t.rooms), t.ipCounts, t.totalRoomCount, t.inRoomPendingTotal, room, View(e), idx);
  }

  /** An entry that changes no client needs no change of the index. */
  lemma PutSameClients(c: Config, t: Tables, room: Room, e: RoomEntry, total: int)
    requires TablesValid(c, t) && room in t.rooms && EntryValid(c, e)
    requires e.udpClients.Keys == t.rooms[room].udpClients.Keys
    requires total == t.inRoomPendingTotal + |e.pending| - |t.rooms[room].pending|
    ensures TablesValid(c, Put(t, room, e, t.ipCounts, total))
    ensures Rooms(t.rooms[room := e]) == Rooms(t.rooms)[room := View(e)]
  {
    Covers(c, t, room);
    SyncedSameClients(c, t.ipCounts, room, View(t.rooms[room]), View(e));
    PutValid(c, t, room, e, t.ipCounts, total);
  }

  // ----- operations -----

  method SweepRoom(c: Config, t: Tables, room: Room, now: Time) returns (t': Tables)
    requires TablesValid(c, t) && room in t.rooms
    ensures TablesValid(c, t') && room in t'.rooms
    ensures Rooms(t'.rooms) == Rooms(t.rooms)[room := Sweep(c, Rooms(t.rooms)[room], now)]
  {
    Covers(c, t, room);
    var e, idx, total := SweepEntry(c, t.rooms[room], t.ipCounts, t.inRoomPendingTotal, room, now);
    PutValid(c, t, room, e, idx, total);
    t' := Put(t, room, e, idx, total);
  }

  method DropPending(c: Config, t: Tables, room: Room, src: Addr) returns (t': Tables)
    requires TablesValid(c, t) && room in t.rooms
    ensures TablesValid(c, t') && room in t'.rooms
    ensures Rooms(t'.rooms) ==
      Rooms(t.rooms)[room := Rooms(t.rooms)[room].(pending := Rooms(t.rooms)[room].pending - {src})]
  {
    Covers(c, t, room);
    ViewPendingDrop(t.rooms[room].pending, src);
    var e, total := RemovePending(c, t.rooms[room], t.inRoomPendingTotal, src);
    PutSameClients(c, t, room, e, total);
    t' := Put(t, room, e, t.ipCounts, total);
  }

  /** Tidies one room and drops it when it is dead, together with any challenge still fresh in it. */
  method EvictRoom(c: Config, t: Tables, room: Room, now: Time) returns (t': Tables, evicted: bool)
    requires TablesValid(c, t) && room in t.rooms
    ensures TablesValid(c, t')
    ensures evicted == Dead(c, Rooms(t.rooms)[room], now)
    ensures t'.totalRoomCount == t.totalRoomCount - (if evicted then 1 else 0)
    ensures Rooms(t'.rooms) == if evicted then Rooms(t.rooms) - {room}
      else Rooms(t.rooms)[room := Tidy(c, Rooms(t.rooms)[room], now)]
  {
    Covers(c, t, room);
    var e, idx := RemoveStaleClients(c, t.rooms[room], t.ipCounts, room, now);
    var v := View(e);
    var total;
    e, total := RemoveStalePending(c, e, t.inRoomPendingTotal, now);
    SyncedSameClients(c, idx, room, v, View(e));
    PutValid(c, t, room, e, idx, total);
    t' := Put(t, room, e, idx, total);
    var empty := |e.udpClients| == 0;
    var stale := now - e.t > c.regTTL;
    evicted := empty && stale;
    EmptyClients(e);
    if evicted {
      t' := RemoveRoom(c, t', room);
      RePutDrop(Rooms(t.rooms), room, View(e));
    }
  }

  lemma EmptyClients(e: RoomEntry)
    ensures |e.udpClients| == 0 <==> View(e).clients == map[]
  {
  }

  lemma RePutDrop(v: map<Room, Entry>, room: Room, e: Entry)
    ensures v[room := e] - {room} == v - {room}
  {
  }

  /** `removeAllPending` and the deletion of an empty room. */
  method RemoveRoom(c: Config, t: Tables, room: Room) returns (t': Tables)
    requires TablesValid(c, t) && room in t.rooms && t.rooms[room].udpClients == map[]
    ensures TablesValid(c, t') && Rooms(t'.rooms) == Rooms(t.rooms) - {room}
    ensures t'.totalRoomCount == t.totalRoomCount - 1
  {
    var n := |t.rooms[room].pending|;
    Covers(c, t, room);
    DropExact(c, Rooms(t.rooms), t.ipCounts, t.totalRoomCount, t.inRoomPendingTotal, room);
    RoomsDrop(t.rooms, room);
    t' := t.(rooms := t.rooms - {room}, totalRoomCount := t.totalRoomCount - 1,
             inRoomPendingTotal := AdjustTotal(t.inRoomPendingTotal, -n));
  }

  lemma RoomsDrop(rooms: map<Room, RoomEntry>, room: Room)
    ensures Rooms(rooms - {room}) == Rooms(rooms) - {room}
  {
  }

  lemma DropExact(c: Config, view: map<Room, Entry>, idx: Index, count: int, total: int, room: Room)
    requires Exact(c, view, idx, count, total) && room in view && view[room].clients == map[]
    ensures Exact(c, view - {room}, idx, count - 1, total - |view[room].pending|)
  {
    DropRoomIndex(c, view, idx, room);
    InRoomSplit(view, room);
    assert (view - {room}).Keys == view.Keys - {room};
  }

  // ----- eviction -----

  /** Sweeps the rooms of one shard and drops the dead ones. */
  method EvictStaleRooms(c: Config, t: Tables, sh: nat, now: Time) returns (t': Tables, evicted: nat)
    requires TablesValid(c, t)
    ensures TablesValid(c, t')
    ensures Rooms(t'.rooms) == Evict(c, Rooms(t.rooms), ShardRooms(c, Rooms(t.rooms), sh), now)
    ensures evicted == t.totalRoomCount - t'.totalRoomCount
  {
    var shard := set r | r in t.rooms && Shard(c, r) == sh;
    assert shard == ShardRooms(c, Rooms(t.rooms), sh);
    t', evicted := EvictRooms(c, t, shard, now);
  }

  method EvictRooms(c: Config, t: Tables, which: set<Room>, now: Time) returns (t': Tables, evicted: nat)
    requires TablesValid(c, t) && which <= t.rooms.Keys
    ensures TablesValid(c, t')
    ensures Rooms(t'.rooms) == Evict(c, Rooms(t.rooms), which, now)
    ensures evicted == t.totalRoomCount - t'.totalRoomCount
  {
    t', evicted := t, 0;
    var todo := which;
    ghost var v := Rooms(t.rooms);
    Ends(which);
    EvictNone(c, v, now);
    while todo != {}
      invariant TablesValid(c, t') && todo <= which
      invariant Rooms(t'.rooms) == Evict(c, v, which - todo, now)
      invariant evicted == t.totalRoomCount - t'.totalRoomCount
    {
      var room :| room in todo;
      StepDone(which, todo, room);
      var gone;
      t', gone := EvictAlso(c, t', v, which - todo, room, now);
      evicted := evicted + if gone then 1 else 0;
      todo := todo - {room};
    }
  }

  lemma Ends(all: set<Room>)
    ensures all - all == {} && all - {} == all
  {
  }

  /** One more room of the sweep of v that has done some already. */
  method EvictAlso(c: Config, t: Tables, ghost v: map<Room, Entry>, ghost done: set<Room>, room: Room, now: Time)
    returns (t': Tables, evicted: bool)
    requires TablesValid(c, t) && Rooms(t.rooms) == Evict(c, v, done, now) && room in v && room !in done
    ensures TablesValid(c, t') && Rooms(t'.rooms) == Evict(c, v, done + {room}, now)
    ensures t'.totalRoomCount == t.totalRoomCount - if evicted then 1 else 0
  {
    EvictOne(c, v, done, room, now);
    t', evicted := EvictRoom(c, t, room, now);
  }

  lemma StepDone(all: set<Room>, todo: set<Room>, room: Room)
    requires room in todo && todo <= all
    ensures all - (todo - {room}) == all - todo + {room}
  {
  }

  lemma EvictNone(c: Config, v: map<Room, Entry>, now: Time)
    ensures Evict(c, v, {}, now) == v
  {
  }

  lemma EvictOne(c: Config, v: map<Room, Entry>, done: set<Room>, room: Room, now: Time)
    requires room in v && room !in done
    ensures room in Evict(c, v, done, now) && Evict(c, v, done, now)[room] == v[room]
    ensures Evict(c, v, done + {room}, now) ==
            if Dead(c, v[room], now) then Evict(c, v, done, now) - {room}
            else Evict(c, v, done, now)[room := Tidy(c, v[room], now)]
  {
  }

  /** Sweeps every shard in turn. */
  method EvictStaleRoomsAll(c: Config, t: Tables, now: Time) returns (t': Tables, total: nat)
    requires TablesValid(c, t)
    ensures TablesValid(c, t')
    ensures Rooms(t'.rooms) == Evict(c, Rooms(t.rooms), Rooms(t.rooms).Keys, now)
    ensures total == t.totalRoomCount - t'.totalRoomCount
  {
    t', total := t, 0;
    ghost var v := Rooms(t.rooms);
    EvictEnds(c, v, now);
    for i := 0 to NUM_SHARDS
      invariant TablesValid(c, t')
      invariant Rooms(t'.rooms) == Evict(c, v, ShardsBelow(c, v, i), now)
      invariant total == t.totalRoomCount - t'.totalRoomCount
    {
      EvictNext(c, v, i, now);
      var n;
      t', n := EvictStaleRooms(c, t', i, now);
      total := total + n;
    }
  }

  lemma EvictEnds(c: Config, v: map<Room, Entry>, now: Time)
    ensures Evict(c, v, ShardsBelow(c, v, 0), now) == v
    ensures ShardsBelow(c, v, NUM_SHARDS) == v.Keys
  {
    EvictNone(c, v, now);
    assert ShardsBelow(c, v, 0) == {};
  }

  function ShardsBelow(c: Config, v: map<Room, Entry>, n: nat): set<Room> {
    set r | r in v && Shard(c, r) < n
  }

  /** Sweeping shard after shard amounts to one sweep of them all. */
  lemma EvictNext(c: Config, v: map<Room, Entry>, i: nat, now: Time)
    ensures var w := Evict(c, v, ShardsBelow(c, v, i), now);
            Evict(c, w, ShardRooms(c, w, i), now) == Evict(c, v, ShardsBelow(c, v, i + 1), now)
  {
  }

  // ----- admission -----

  method CountIPRooms(c: Config, t: Tables, ip: Ip) returns (n: nat)
    requires TablesValid(c, t)
    ensures n == |IpRooms(c, Rooms(t.rooms), ip)|
  {
    assert Get(t.ipCounts, ip) == IpRooms(c, Rooms(t.rooms), ip);
    n := if ip in t.ipCounts then |t.ipCounts[ip]| else 0;
  }

  function ClientIndex(c: Config, idx: Index, room: Room, e: Entry, a: Addr): Index {
    if HasIp(c, e, c.ipKey(a)) then idx else AddIpRoom(idx, c.ipKey(a), room)
  }

  lemma ClientSynced(c: Config, idx: Index, room: Room, e: Entry, e': Entry, a: Addr)
    requires NoEmpty(idx) && Synced(c, idx, room, e) && e'.clients.Keys == e.clients.Keys + {a}
    ensures NoEmpty(ClientIndex(c, idx, room, e, a)) && Synced(c, ClientIndex(c, idx, room, e, a), room, e')
    ensures OthersSame(idx, ClientIndex(c, idx, room, e, a), room)
  {
    AddIpRoomGet(idx, c.ipKey(a), room);
    var idx' := ClientIndex(c, idx, room, e, a);
    forall ip ensures room in Get(idx', ip) <==> HasIp(c, e', ip) {
      assert room in Get(idx, ip) <==> HasIp(c, e, ip);
      assert a in e'.clients;
      assert forall b :: b in e'.clients <==> b == a || b in e.clients;
    }
  }

  function WithClient(e: RoomEntry, src: Addr, now: Time): RoomEntry {
    e.(udpClients := e.udpClients[src := UdpClient(now, Limiter(0, now), src)], t := now)
  }

  lemma WithClientView(c: Config, e: RoomEntry, src: Addr, now: Time)
    ensures View(WithClient(e, src, now)) == AddClient(View(e), src, now)
    ensures EntryValid(c, e) ==> EntryValid(c, WithClient(e, src, now))
  {
    ViewClientsPut(e.udpClients, src, UdpClient(now, Limiter(0, now), src));
  }

  /** Puts a client in its room, listing the room under its key unless the key was already there. */
  method PutClient(c: Config, t: Tables, room: Room, src: Addr, now: Time, ipAlreadyInRoom: bool, resolved: Addr)
    returns (t': Tables)
    requires TablesValid(c, t) && room in t.rooms && resolved == src
    requires ipAlreadyInRoom == HasIp(c, Rooms(t.rooms)[room], c.ipKey(src))
    ensures TablesValid(c, t')
    ensures Rooms(t'.rooms) == Rooms(t.rooms)[room := AddClient(Rooms(t.rooms)[room], src, now)]
  {
    var u := UdpClient(now, Limiter(0, now), resolved);
    var e := t.rooms[room].(udpClients := t.rooms[room].udpClients[src := u], t := now);
    var idx := if ipAlreadyInRoom then t.ipCounts else AddIpRoom(t.ipCounts, c.ipKey(src), room);
    PutClientValid(c, t, room, src, now);
    t' := Put(t, room, e, idx, t.inRoomPendingTotal);
  }

  lemma PutClientValid(c: Config, t: Tables, room: Room, src: Addr, now: Time)
    requires TablesValid(c, t) && room in t.rooms
    ensures var e, idx :=
      WithClient(t.rooms[room], src, now), ClientIndex(c, t.ipCounts, room, View(t.rooms[room]), src);
            && TablesValid(c, Put(t, room, e, idx, t.inRoomPendingTotal))
            && Rooms(t.rooms[room := e]) == Rooms(t.rooms)[room := AddClient(View(t.rooms[room]), src, now)]
  {
    var e0 := t.rooms[room];
    WithClientView(c, e0, src, now);
    Covers(c, t, room);
    ClientSynced(c, t.ipCounts, room, View(e0), View(WithClient(e0, src, now)), src);
    PutValid(c, t, room, WithClient(e0, src, now), ClientIndex(c, t.ipCounts, room, View(e0), src),
      t.inRoomPendingTotal);
  }

  /** Cookie completion for a room that already exists. */
  method JoinRoom(c: Config, t: Tables, room: Room, src: Addr, now: Time, resolved: Addr)
    returns (t': Tables, reply: Reply)
    requires TablesValid(c, t) && room in t.rooms && resolved == src
    ensures TablesValid(c, t')
    ensures Rooms(t'.rooms) == Join(c, Rooms(t.rooms), room, src, now).0
    ensures reply == Join(c, Rooms(t.rooms), room, src, now).1
  {
    t' := SweepRoom(c, t, room, now);
    t', reply := JoinNow(c, t', room, src, now, resolved);
  }

  method JoinNow(c: Config, t: Tables, room: Room, src: Addr, now: Time, resolved: Addr)
    returns (t': Tables, reply: Reply)
    requires TablesValid(c, t) && room in t.rooms && resolved == src
    ensures TablesValid(c, t')
    ensures Rooms(t'.rooms) == JoinSwept(c, Rooms(t.rooms), room, src, now).0
    ensures reply == JoinSwept(c, Rooms(t.rooms), room, src, now).1
  {
    var ipRooms := CountIPRooms(c, t, c.ipKey(src));
    var ipAlreadyInRoom;
    ipAlreadyInRoom, reply := CheckJoin(c, t.rooms[room], ipRooms, src);
    t' := t;
    if reply.Registered? {
      t' := PutClient(c, t, room, src, now, ipAlreadyInRoom, resolved);
    }
  }

  method CheckJoin(c: Config, e: RoomEntry, ipRooms: nat, src: Addr) returns (ipAlreadyInRoom: bool, reply: Reply)
    ensures ipAlreadyInRoom == HasIp(c, View(e), c.ipKey(src))
    ensures reply == JoinReply(c, View(e), ipRooms, src)
  {
    var ip := c.ipKey(src);
    ipAlreadyInRoom := IpInRoom(c, e, ip, None);
    if |e.udpClients| >= c.maxClientsHard && src !in e.udpClients {
      return ipAlreadyInRoom, Drop(HardCap);
    }
    var n := CountPrefixClients(c, e, ip);
    if src !in e.udpClients && n >= c.maxClientsPerPrefix {
      return ipAlreadyInRoom, Drop(PrefixCap);
    }
    if !ipAlreadyInRoom && ipRooms >= c.maxRoomsPerIP {
      return ipAlreadyInRoom, Drop(RoomsPerIp);
    }
    reply := Registered(src);
  }

  /** Cookie completion for a room that does not exist, re-checking the caps. */
  method CreateRoom(c: Config, t: Tables, room: Room, src: Addr, now: Time, resolved: Addr)
    returns (t': Tables, reply: Reply)
    requires TablesValid(c, t) && room !in t.rooms && resolved == src
    ensures TablesValid(c, t')
    ensures Rooms(t'.rooms) == Create(c, Rooms(t.rooms), room, src, now).0
    ensures reply == Create(c, Rooms(t.rooms), room, src, now).1
  {
    t' := t;
    if t'.totalRoomCount >= c.maxRooms {
      var n;
      t', n := EvictStaleRooms(c, t', Shard(c, room), now);
    }
    t', reply := CreateIfSpace(c, t', room, src, now, resolved);
  }

  method CreateIfSpace(c: Config, t: Tables, room: Room, src: Addr, now: Time, resolved: Addr) returns (t': Tables,
          reply: Reply)
    requires TablesValid(c, t) && room !in t.rooms && resolved == src
    ensures TablesValid(c, t')
    ensures Rooms(t'.rooms) == CreateNow(c, Rooms(t.rooms), room, src, now).0
    ensures reply == CreateNow(c, Rooms(t.rooms), room, src, now).1
  {
    var ipRooms := CountIPRooms(c, t, c.ipKey(src));
    reply := CreateReply(c, t.totalRoomCount, ipRooms, src);
    t' := t;
    if reply.Registered? {
      t' := AddRoom(c, t, room, src, now, resolved);
    }
  }

  method AddRoom(c: Config, t: Tables, room: Room, src: Addr, now: Time, resolved: Addr) returns (t': Tables)
    requires TablesValid(c, t) && room !in t.rooms && resolved == src
    ensures TablesValid(c, t')
    ensures Rooms(t'.rooms) == Rooms(t.rooms)[room := Entry(map[src := NewClient(now)], map[], now, 0)]
  {
    AddRoomValid(c, t, room, src, now);
    var e := RoomEntry(map[src := UdpClient(now, Limiter(0, now), resolved)], map[], map[], now, 0);
    t' := Tables(t.rooms[room := e], AddIpRoom(t.ipCounts, c.ipKey(src), room), t.totalRoomCount + 1,
      t.inRoomPendingTotal);
  }

  function FirstEntry(src: Addr, now: Time): RoomEntry {
    RoomEntry(map[src := UdpClient(now, Limiter(0, now), src)], map[], map[], now, 0)
  }

  function WithRoom(c: Config, t: Tables, room: Room, src: Addr, now: Time): Tables {
    Tables(t.rooms[room := FirstEntry(src, now)], AddIpRoom(t.ipCounts, c.ipKey(src), room),
           t.totalRoomCount + 1, t.inRoomPendingTotal)
  }

  lemma AddRoomValid(c: Config, t: Tables, room: Room, src: Addr, now: Time)
    requires TablesValid(c, t) && room !in t.rooms
    ensures TablesValid(c, WithRoom(c, t, room, src, now))
    ensures Rooms(WithRoom(c, t, room, src, now).rooms)
            == Rooms(t.rooms)[room := Entry(map[src := NewClient(now)], map[], now, 0)]
  {
    var e := FirstEntry(src, now);
    FirstEntryView(c, src, now);
    RoomsPut(t.rooms, room, e);
    EntriesPut(c, t.rooms, room, e);
    NewExact(c, Rooms(t.rooms), t.ipCounts, t.totalRoomCount, t.inRoomPendingTotal, room, View(e), src);
  }

  lemma FirstEntryView(c: Config, src: Addr, now: Time)
    ensures EntryValid(c, FirstEntry(src, now))
    ensures View(FirstEntry(src, now)) == Entry(map[src := NewClient(now)], map[], now, 0)
  {
    assert View(FirstEntry(src, now)).clients == map[src := NewClient(now)];
  }

  lemma NewExact(c: Config, view: map<Room, Entry>, idx: Index, count: int, total: int, room: Room, e: Entry, a: Addr)
    requires Exact(c, view, idx, count, total) && room !in view && e.clients.Keys == {a} && e.pending == map[]
    ensures Exact(c, view[room := e], AddIpRoom(idx, c.ipKey(a), room), count + 1, total)
  {
    NewIndex(c, view, idx, room, e, a);
    NewSizes(view, room, e);
  }

  lemma NewIndex(c: Config, view: map<Room, Entry>, idx: Index, room: Room, e: Entry, a: Addr)
    requires IndexExact(c, view, idx) && room !in view && e.clients.Keys == {a}
    ensures IndexExact(c, view[room := e], AddIpRoom(idx, c.ipKey(a), room))
  {
    NewSynced(c, view, idx, room, e, a);
    PutSynced(c, view, idx, room, e, AddIpRoom(idx, c.ipKey(a), room));
  }

  lemma NewSizes(view: map<Room, Entry>, room: Room, e: Entry)
    requires room !in view && e.pending == map[]
    ensures |view[room := e]| == |view| + 1 && |InRoom(view[room := e])| == |InRoom(view)|
  {
    InRoomPut(view, room, e);
    assert view[room := e].Keys == view.Keys + {room};
  }

  lemma NewSynced(c: Config, view: map<Room, Entry>, idx: Index, room: Room, e: Entry, a: Addr)
    requires IndexExact(c, view, idx) && room !in view && e.clients.Keys == {a}
    ensures NoEmpty(AddIpRoom(idx, c.ipKey(a), room)) && Synced(c, AddIpRoom(idx, c.ipKey(a), room), room, e)
    ensures OthersSame(idx, AddIpRoom(idx, c.ipKey(a), room), room)
  {
    AddIpRoomGet(idx, c.ipKey(a), room);
    var idx' := AddIpRoom(idx, c.ipKey(a), room);
    forall ip ensures room in Get(idx', ip) <==> HasIp(c, e, ip) {
      assert Get(idx, ip) == IpRooms(c, view, ip);
      assert a in e.clients;
    }
  }

  /** A valid store cookie.  A full table is swept first, shard by shard. */
  method EnterRoom(c: Config, t: Tables, room: Room, src: Addr, now: Time, resolved: Addr)
    returns (t': Tables, reply: Reply)
    requires TablesValid(c, t) && resolved == src
    ensures TablesValid(c, t')
    ensures Rooms(t'.rooms) == Enter(c, Rooms(t.rooms), room, src, now).0
    ensures reply == Enter(c, Rooms(t.rooms), room, src, now).1
  {
    t' := t;
    if t'.totalRoomCount >= c.maxRooms {
      var n;
      t', n := EvictStaleRoomsAll(c, t', now);
    }
    if room in t'.rooms {
      t', reply := JoinRoom(c, t', room, src, now, resolved);
    } else {
      t', reply := CreateRoom(c, t', room, src, now, resolved);
    }
  }

  /** A cookie for a room's own challenge. */
  method AdmitClient(c: Config, t: Tables, room: Room, cookie: Bytes, src: Addr, now: Time)
    returns (t': Tables, reply: Reply)
    requires TablesValid(c, t) && room in t.rooms
    ensures TablesValid(c, t')
    ensures Rooms(t'.rooms) == Admit(c, Rooms(t.rooms), room, cookie, src, now).0
    ensures reply == Admit(c, Rooms(t.rooms), room, cookie, src, now).1
  {
    var e0 := t.rooms[room];
    if src !in e0.pending || e0.pending[src].cookie != cookie {
      return t, Drop(RoomMismatch);
    }
    var pend := e0.pending[src];
    if now - pend.createdAt > PENDING_REG_TTL {
      t' := DropPending(c, t, room, src);
      return t', Drop(RoomExpired);
    }
    t', reply := SweepAndAdmit(c, t, room, src, now, pend.resolvedAddr);
  }

  method SweepAndAdmit(c: Config, t: Tables, room: Room, src: Addr, now: Time, resolved: Addr) returns (t': Tables,
          reply: Reply)
    requires TablesValid(c, t) && room in t.rooms && resolved == src
    ensures TablesValid(c, t')
    ensures var v := Rooms(t.rooms);
      Rooms(t'.rooms) == AdmitSwept(c, v[room := Sweep(c, v[room], now)], room, src, now).0
    ensures var v := Rooms(t.rooms); reply == AdmitSwept(c, v[room := Sweep(c, v[room], now)], room, src, now).1
  {
    t' := SweepRoom(c, t, room, now);
    t', reply := FinishAdmit(c, t', room, src, now, resolved);
  }

  method FinishAdmit(c: Config, t: Tables, room: Room, src: Addr, now: Time, resolved: Addr) returns (t': Tables,
          reply: Reply)
    requires TablesValid(c, t) && room in t.rooms && resolved == src
    ensures TablesValid(c, t')
    ensures Rooms(t'.rooms) == AdmitSwept(c, Rooms(t.rooms), room, src, now).0
    ensures reply == AdmitSwept(c, Rooms(t.rooms), room, src, now).1
  {
    var ipRooms := CountIPRooms(c, t, c.ipKey(src));
    var ipAlreadyInRoom;
    ipAlreadyInRoom, reply := CheckAdmit(c, t.rooms[room], ipRooms, src);
    t' := t;
    if reply.Registered? {
      t' := DropPending(c, t, room, src);
      RePut(Rooms(t.rooms), room);
      t' := PutClient(c, t', room, src, now, ipAlreadyInRoom, resolved);
    }
  }

  method CheckAdmit(c: Config, e: RoomEntry, ipRooms: nat, src: Addr) returns (ipAlreadyInRoom: bool, reply: Reply)
    ensures ipAlreadyInRoom == HasIp(c, View(e), c.ipKey(src))
    ensures reply == AdmitReply(c, View(e), ipRooms, src)
  {
    ipAlreadyInRoom := IpInRoom(c, e, c.ipKey(src), None);
    if |e.udpClients| >= c.maxClientsHard && src !in e.udpClients {
      return ipAlreadyInRoom, Drop(HardCap);
    }
    if src !in e.udpClients && !ipAlreadyInRoom && ipRooms >= c.maxRoomsPerIP {
      return ipAlreadyInRoom, Drop(RoomsPerIp);
    }
    reply := Registered(src);
  }

  lemma RePut(v: map<Room, Entry>, room: Room)
    ensures forall e1: Entry, e2: Entry {:trigger v[room := e1][room := e2]} ::
      v[room := e1][room := e2] == v[room := e2]
  {
  }

  // ----- a REG without a cookie for an existing room -----

  /** `stored` is the store's count for the key; `rnd` the fresh cookie, if randomness was available. */
  method RevisitRoom(c: Config, t: Tables, stored: nat, room: Room, src: Addr, now: Time, rnd: Option<Bytes>)
    returns (t': Tables, reply: Reply)
    requires TablesValid(c, t) && room in t.rooms
    ensures TablesValid(c, t')
    ensures Rooms(t'.rooms) == Revisit(c, Rooms(t.rooms), stored, room, src, now, rnd).0
    ensures reply == Revisit(c, Rooms(t.rooms), stored, room, src, now, rnd).1
  {
    t' := SweepRoom(c, t, room, now);
    t', reply := RevisitNow(c, t', stored, room, src, now, rnd);
  }

  method RevisitNow(c: Config, t: Tables, stored: nat, room: Room, src: Addr, now: Time, rnd: Option<Bytes>)
    returns (t': Tables, reply: Reply)
    requires TablesValid(c, t) && room in t.rooms
    ensures TablesValid(c, t')
    ensures Rooms(t'.rooms) == RevisitSwept(c, Rooms(t.rooms), stored, room, src, now, rnd).0
    ensures reply == RevisitSwept(c, Rooms(t.rooms), stored, room, src, now, rnd).1
  {
    t' := t;
    var e := t.rooms[room];
    if |e.udpClients| >= c.maxClientsHard && src !in e.udpClients {
      return t', Drop(HardCap);
    }
    if src in e.udpClients {
      t' := TouchClient(c, t', room, src, now);
      return t', Registered(src);
    }
    t', reply := RevisitStranger(c, t', stored, room, src, now, rnd);
  }

  /** An address that is not a client of a room with space. */
  method RevisitStranger(c: Config, t: Tables, stored: nat, room: Room, src: Addr, now: Time, rnd: Option<Bytes>)
    returns (t': Tables, reply: Reply)
    requires TablesValid(c, t) && room in t.rooms
    requires src !in t.rooms[room].udpClients && |t.rooms[room].udpClients| < c.maxClientsHard
    ensures TablesValid(c, t')
    ensures Rooms(t'.rooms) == RevisitSwept(c, Rooms(t.rooms), stored, room, src, now, rnd).0
    ensures reply == RevisitSwept(c, Rooms(t.rooms), stored, room, src, now, rnd).1
  {
    t' := t;
    var e := t.rooms[room];
    var n := CountPrefixClients(c, e, c.ipKey(src));
    if n >= c.maxClientsPerPrefix {
      return t', Drop(PrefixCap);
    }
    if src in e.pending {
      t' := RefreshPending(c, t', room, src, now);
      return t', Challenged(src, e.pending[src].cookie);
    }
    t', reply := ChallengeInRoom(c, t', stored, room, src, now, rnd);
  }

  /** Re-registration of an admitted client. */
  method TouchClient(c: Config, t: Tables, room: Room, src: Addr, now: Time) returns (t': Tables)
    requires TablesValid(c, t) && room in t.rooms && src in t.rooms[room].udpClients
    ensures TablesValid(c, t')
    ensures var e := Rooms(t.rooms)[room];
            Rooms(t'.rooms) == Rooms(t.rooms)[room := e.(clients := e.clients[src := e.clients[src].(lastSeen := now)])]
  {
    var u := t.rooms[room].udpClients[src].(lastSeen := now, resolvedAddr := src);
    PutUdpValid(c, t, room, src, u);
    t' := Put(t, room, t.rooms[room].(udpClients := t.rooms[room].udpClients[src := u]), t.ipCounts,
      t.inRoomPendingTotal);
  }

  /** Replacing an admitted client's record touches no index. */
  lemma PutUdpValid(c: Config, t: Tables, room: Room, src: Addr, u: UdpClient)
    requires TablesValid(c, t) && room in t.rooms && src in t.rooms[room].udpClients && u.resolvedAddr == src
    ensures var e := t.rooms[room].(udpClients := t.rooms[room].udpClients[src := u]);
            var v := View(t.rooms[room]);
            && TablesValid(c, Put(t, room, e, t.ipCounts, t.inRoomPendingTotal))
            && Rooms(t.rooms[room := e]) ==
              Rooms(t.rooms)[room := v.(clients := v.clients[src := Client(u.lastSeen, u.limiter)])]
  {
    var e := t.rooms[room].(udpClients := t.rooms[room].udpClients[src := u]);
    ViewClientsPut(t.rooms[room].udpClients, src, u);
    assert e.udpClients.Keys == t.rooms[room].udpClients.Keys;
    PutSameClients(c, t, room, e, t.inRoomPendingTotal);
  }

  /** The same cookie is issued again with a new deadline. */
  method RefreshPending(c: Config, t: Tables, room: Room, src: Addr, now: Time) returns (t': Tables)
    requires TablesValid(c, t) && room in t.rooms && src in t.rooms[room].pending
    ensures TablesValid(c, t')
    ensures var e := Rooms(t.rooms)[room];
            Rooms(t'.rooms) ==
              Rooms(t.rooms)[room := e.(pending := e.pending[src := e.pending[src].(createdAt := now)])]
  {
    var p := t.rooms[room].pending[src].(createdAt := now, resolvedAddr := src);
    RefreshValid(c, t, room, src, p);
    t' := Put(t, room, WithPending(c, t.rooms[room], src, p), t.ipCounts, t.inRoomPendingTotal);
  }

  lemma RefreshValid(c: Config, t: Tables, room: Room, src: Addr, p: PendingReg)
    requires TablesValid(c, t) && room in t.rooms && src in t.rooms[room].pending && p.resolvedAddr == src
    ensures var e := WithPending(c, t.rooms[room], src, p);
            var v := View(t.rooms[room]);
            && TablesValid(c, Put(t, room, e, t.ipCounts, t.inRoomPendingTotal))
            && Rooms(t.rooms[room := e]) == Rooms(t.rooms)[room := v.(pending := v.pending[src := Strip(p)])]
  {
    WithPendingView(c, t.rooms[room], src, p);
    PutSameClients(c, t, room, WithPending(c, t.rooms[room], src, p), t.inRoomPendingTotal);
  }

  method ChallengeInRoom(c: Config, t: Tables, stored: nat, room: Room, src: Addr, now: Time, rnd: Option<Bytes>)
    returns (t': Tables, reply: Reply)
    requires TablesValid(c, t) && room in t.rooms && src !in t.rooms[room].pending
    ensures TablesValid(c, t')
    ensures Rooms(t'.rooms) == IssueInRoom(c, Rooms(t.rooms), stored, room, src, now, rnd).0
    ensures reply == IssueInRoom(c, Rooms(t.rooms), stored, room, src, now, rnd).1
  {
    var ip := c.ipKey(src);
    var m := PendingCountForIP(c, t.rooms[room], ip);
    if stored + m >= c.maxPendingPerIP {
      return t, Drop(PendingPerIp);
    }
    if rnd.None? {
      return t, Silent;
    }
    t', reply := AddChallenge(c, t, room, src, PendingReg(rnd.value, now, src));
  }

  /** Within the limits of the room and of the relay. */
  method AddChallenge(c: Config, t: Tables, room: Room, src: Addr, p: PendingReg) returns (t': Tables, reply: Reply)
    requires TablesValid(c, t) && room in t.rooms && src !in t.rooms[room].pending && p.resolvedAddr == src
    ensures TablesValid(c, t')
    ensures Rooms(t'.rooms) == AddInRoom(c, Rooms(t.rooms), room, src, Strip(p)).0
    ensures reply == AddInRoom(c, Rooms(t.rooms), room, src, Strip(p)).1
  {
    var ok, e, total := AddPending(c, t.rooms[room], t.inRoomPendingTotal, src, c.ipKey(src), p);
    if !ok {
      return t, Drop(RoomPendingFull);
    }
    PutSameClients(c, t, room, e, total);
    t' := Put(t, room, e, t.ipCounts, total);
    reply := Challenged(src, p.cookie);
  }

  // ----- MSG -----

  /** The sender's limiter and the addresses of everyone else in its room. */
  method RelayMessage(c: Config, t: Tables, room: Room, src: Addr, now: Time) returns (t': Tables, reply: Reply,
          targets: seq<Addr>)
    requires TablesValid(c, t)
    ensures TablesValid(c, t')
    ensures Rooms(t'.rooms) == MsgRooms(c, Rooms(t.rooms), room, src, now).0
    ensures reply == MsgRooms(c, Rooms(t.rooms), room, src, now).1
    ensures reply.Relayed? ==> (forall a :: a in targets <==> a in reply.targets)
    ensures forall i, j | 0 <= i < j < |targets| :: targets[i] != targets[j]
  {
    targets := [];
    if room !in t.rooms {
      return t, Drop(UnknownRoom), [];
    }
    var e := t.rooms[room];
    if src !in e.udpClients {
      return t, Drop(NotRegistered), [];
    }
    var (l, limited) := MsgLimit(c, e.udpClients[src].limiter, now);
    var u := e.udpClients[src].(limiter := l);
    PutUdpValid(c, t, room, src, u);
    t' := Put(t, room, e.(udpClients := e.udpClients[src := u]), t.ipCounts, t.inRoomPendingTotal);
    if limited {
      return t', Drop(MsgRate), [];
    }
    targets := OtherAddrs(c, e, src);
    reply := Relayed(e.udpClients.Keys - {src});
  }

  /** The return addresses of a room's other clients: one each, and each the address it was admitted under. */
  method OtherAddrs(c: Config, e: RoomEntry, src: Addr) returns (targets: seq<Addr>)
    requires EntryValid(c, e)
    ensures forall a :: a in targets <==> a in e.udpClients && a != src
    ensures forall i, j | 0 <= i < j < |targets| :: targets[i] != targets[j]
  {
    targets := [];
    var todo := e.udpClients.Keys;
    while todo != {}
      invariant todo <= e.udpClients.Keys
      invariant forall a :: a in targets <==> a in e.udpClients.Keys - todo && a != src
      invariant forall i, j | 0 <= i < j < |targets| :: targets[i] != targets[j]
    {
      var addr :| addr in todo;
      if addr != src {
        assert addr !in targets;
        targets := targets + [e.udpClients[addr].resolvedAddr];
      }
      todo := todo - {addr};
    }
  }
}
