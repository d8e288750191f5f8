/** When the relay's redundant indexes agree with a scan of its tables, and what
    an elementary table change must do to them. */
module RelayIndex {
  import opened Text
  import opened RelaySpec

  // ----- the per-key room index -----

  type Index = map<Ip, set<Room>>

  function Get(idx: Index, ip: Ip): set<Room> {
    if ip in idx then idx[ip] else {}
  }

  ghost predicate NoEmpty(idx: Index) {
    forall ip | ip in idx :: idx[ip] != {}
  }

  /** The index lists exactly the rooms a scan finds, and keeps no empty set. */
  ghost predicate IndexExact(c: Config, rooms: map<Room, Entry>, idx: Index) {
    NoEmpty(idx) && forall ip :: Get(idx, ip) == IpRooms(c, rooms, ip)
  }

  /** The part of the index that is about one room. */
  ghost predicate Synced(c: Config, idx: Index, room: Room, e: Entry) {
    forall ip :: room in Get(idx, ip) <==> HasIp(c, e, ip)
  }

  ghost predicate OthersSame(idx: Index, idx': Index, room: Room) {
    forall ip :: Get(idx, ip) - {room} == Get(idx', ip) - {room}
  }

  function AddIpRoom(idx: Index, ip: Ip, room: Room): Index {
    idx[ip := Get(idx, ip) + {room}]
  }

  function RemoveIpRoom(idx: Index, ip: Ip, room: Room): Index {
    if ip !in idx then idx
    else if |idx[ip] - {room}| == 0 then idx - {ip}
    else idx[ip := idx[ip] - {room}]
  }

  lemma AddIpRoomGet(idx: Index, ip: Ip, room: Room)
    ensures forall k :: Get(AddIpRoom(idx, ip, room), k) == Get(idx, k) + (if k == ip then {room} else {})
    ensures NoEmpty(idx) ==> NoEmpty(AddIpRoom(idx, ip, room))
  {
  }

  lemma RemoveIpRoomGet(idx: Index, ip: Ip, room: Room)
    ensures forall k :: Get(RemoveIpRoom(idx, ip, room), k) == Get(idx, k) - (if k == ip then {room} else {})
    ensures NoEmpty(idx) ==> NoEmpty(RemoveIpRoom(idx, ip, room))
  {
  }

  lemma IndexSynced(c: Config, rooms: map<Room, Entry>, idx: Index, room: Room)
    requires IndexExact(c, rooms, idx) && room in rooms
    ensures Synced(c, idx, room, rooms[room])
  {
    forall ip ensures room in Get(idx, ip) <==> HasIp(c, rooms[room], ip) {
      assert Get(idx, ip) == IpRooms(c, rooms, ip);
    }
  }

  /** An update of one room that is mirrored in its part of the index keeps the whole index exact. */
  lemma PutSynced(c: Config, rooms: map<Room, Entry>, idx: Index, room: Room, e: Entry, idx': Index)
    requires IndexExact(c, rooms, idx)
    requires NoEmpty(idx') && Synced(c, idx', room, e) && OthersSame(idx, idx', room)
    ensures IndexExact(c, rooms[room := e], idx')
  {
    var rooms' := rooms[room := e];
    forall ip ensures Get(idx', ip) == IpRooms(c, rooms', ip) {
      assert IpRooms(c, rooms', ip) == IpRooms(c, rooms, ip) - {room} + (if HasIp(c, e, ip) then {room} else {});
      assert Get(idx, ip) == IpRooms(c, rooms, ip);
      assert Get(idx, ip) - {room} == Get(idx', ip) - {room};
      assert room in Get(idx', ip) <==> HasIp(c, e, ip);
    }
  }

  lemma DropRoomIndex(c: Config, rooms: map<Room, Entry>, idx: Index, room: Room)
    requires IndexExact(c, rooms, idx) && room in rooms && rooms[room].clients == map[]
    ensures IndexExact(c, rooms - {room}, idx)
  {
    forall ip ensures Get(idx, ip) == IpRooms(c, rooms - {room}, ip) {
      assert Get(idx, ip) == IpRooms(c, rooms, ip);
    }
  }

  /** Only the set of admitted addresses matters to the index. */
  lemma SyncedSameClients(c: Config, idx: Index, room: Room, e: Entry, e': Entry)
    requires Synced(c, idx, room, e) && e.clients.Keys == e'.clients.Keys
    ensures Synced(c, idx, room, e')
  {
    forall ip ensures room in Get(idx, ip) <==> HasIp(c, e', ip) {
      assert room in Get(idx, ip) <==> HasIp(c, e, ip);
      assert forall a :: a in e.clients <==> a in e'.clients;
    }
  }

  // ----- per-key counts -----

  type Counts = map<Ip, int>

  function CountOf(counts: Counts, ip: Ip): int {
    if ip in counts then counts[ip] else 0
  }

  /** The keys that `f` collapses to `ip`. */
  function Of<K>(f: K -> Ip, keys: set<K>, ip: Ip): set<K> {
    set k | k in keys && f(k) == ip
  }

  function PairIp(c: Config): Key -> Ip {
    (k: Key) => c.ipKey(k.src)
  }

  /** How many keys collapse to each address key; addresses with none do not occur. */
  function CountMap<K>(f: K -> Ip, keys: set<K>): Counts {
    map ip | ip in (set k | k in keys :: f(k)) :: |Of(f, keys, ip)|
  }

  /** The relay's adjustment of a count: a result of zero or less removes the key. */
  function Adjust(counts: Counts, ip: Ip, delta: int): Counts {
    if CountOf(counts, ip) + delta > 0 then counts[ip := CountOf(counts, ip) + delta] else counts - {ip}
  }

  lemma CountMapAt<K>(f: K -> Ip, keys: set<K>, ip: Ip)
    ensures CountOf(CountMap(f, keys), ip) == |Of(f, keys, ip)|
    ensures ip in CountMap(f, keys) <==> |Of(f, keys, ip)| > 0
  {
    if k :| k in keys && f(k) == ip {
      assert k in Of(f, keys, ip);
      assert f(k) in (set k | k in keys :: f(k));
    } else {
      assert Of(f, keys, ip) == {};
    }
  }

  lemma SameCounts<K>(f: K -> Ip, keys: set<K>, counts: Counts)
    requires forall ip :: CountOf(counts, ip) == |Of(f, keys, ip)|
    requires forall ip | ip in counts :: counts[ip] > 0
    ensures counts == CountMap(f, keys)
  {
    forall ip ensures (ip in counts <==> ip in CountMap(f, keys))
      && CountOf(counts, ip) == CountOf(CountMap(f, keys), ip) {
      CountMapAt(f, keys, ip);
      assert CountOf(counts, ip) == |Of(f, keys, ip)|;
    }
  }

  lemma OfAdd<K>(f: K -> Ip, keys: set<K>, k: K, ip: Ip)
    requires k !in keys
    ensures |Of(f, keys + {k}, ip)| == |Of(f, keys, ip)| + (if ip == f(k) then 1 else 0)
  {
    assert Of(f, keys + {k}, ip) == Of(f, keys, ip) + (if ip == f(k) then {k} else {});
  }

  lemma CountMapAdd<K>(f: K -> Ip, keys: set<K>, k: K)
    requires k !in keys
    ensures CountMap(f, keys + {k}) == Adjust(CountMap(f, keys), f(k), 1)
    ensures CountOf(CountMap(f, keys), f(k)) >= 0
  {
    var counts, keys' := Adjust(CountMap(f, keys), f(k), 1), keys + {k};
    forall ip ensures CountOf(counts, ip) == |Of(f, keys', ip)| && (ip in counts ==> counts[ip] > 0) {
      CountMapAt(f, keys, ip);
      OfAdd(f, keys, k, ip);
    }
    CountMapAt(f, keys, f(k));
    SameCounts(f, keys', counts);
  }

  lemma OfDrop<K>(f: K -> Ip, keys: set<K>, gone: set<K>, ip: Ip, i: Ip)
    requires gone <= Of(f, keys, ip)
    ensures |Of(f, keys - gone, i)| == |Of(f, keys, i)| - (if i == ip then |gone| else 0)
  {
    assert Of(f, keys - gone, i) == Of(f, keys, i) - (if i == ip then gone else {});
    if i == ip { assert Of(f, keys, ip) == Of(f, keys - gone, ip) + gone; }
  }

  /** Taking away some keys that all collapse to `ip` lowers its count by their number, never below zero. */
  lemma CountMapDrop<K>(f: K -> Ip, keys: set<K>, gone: set<K>, ip: Ip)
    requires gone <= Of(f, keys, ip)
    ensures CountMap(f, keys - gone) == Adjust(CountMap(f, keys), ip, -|gone|)
    ensures CountOf(CountMap(f, keys), ip) >= |gone|
  {
    var counts, keys' := Adjust(CountMap(f, keys), ip, -|gone|), keys - gone;
    forall i ensures CountOf(counts, i) == |Of(f, keys', i)| && (i in counts ==> counts[i] > 0) {
      CountMapAt(f, keys, i);
      OfDrop(f, keys, gone, ip, i);
    }
    CountMapAt(f, keys, ip);
    OfDrop(f, keys, gone, ip, ip);
    SameCounts(f, keys', counts);
  }

  // ----- the total of in-room challenges -----

  lemma PutMinus(rooms: map<Room, Entry>, room: Room, e: Entry)
    ensures rooms[room := e] - {room} == rooms - {room}
    ensures room !in rooms ==> rooms - {room} == rooms
  {
  }

  lemma InRoomPut(rooms: map<Room, Entry>, room: Room, e: Entry)
    ensures |InRoom(rooms[room := e])| ==
            |InRoom(rooms)| - (if room in rooms then |rooms[room].pending| else 0) + |e.pending|
  {
    PutMinus(rooms, room, e);
    InRoomSplit(rooms[room := e], room);
    if room in rooms { InRoomSplit(rooms, room); }
  }

  lemma InRoomSplit(rooms: map<Room, Entry>, room: Room)
    requires room in rooms
    ensures |InRoom(rooms)| == |InRoom(rooms - {room})| + |rooms[room].pending|
  {
    var here := set a | a in rooms[room].pending.Keys :: Key(room, a);
    assert InRoom(rooms) == InRoom(rooms - {room}) + here;
    PairCount(room, rooms[room].pending.Keys);
  }

  lemma {:induction false} PairCount(room: Room, addrs: set<Addr>)
    ensures |set a | a in addrs :: Key(room, a)| == |addrs|
  {
    if addrs == {} {
    } else {
      var x :| x in addrs;
      PairCount(room, addrs - {x});
      assert (set a | a in addrs :: Key(room, a)) == (set a | a in addrs - {x} :: Key(room, a)) + {Key(room, x)};
    }
  }
}
