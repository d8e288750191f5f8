# A verified model of qvole

qvole connects two peers that share a short code.  A relay on the public internet keeps
rooms, proves with a cookie that a client can receive at its address, and passes messages
between the clients of a room.  Through it the peers run a SPAKE2 exchange, confirm the
keys, learn each other's address and certificate fingerprint, and then open tunnels or run
a command over a direct connection.

This project models, in Dafny, the parts where those steps have to fit together, and
proves what they are meant to guarantee.  `dafny verify dfyconfig.toml` checks everything.

## The parts

**The relay, one packet at a time.**  `RelaySpec` is the relay as its base tables only:
rooms with admitted clients and in-room challenges, the pre-cookie store, the registration
windows.  Every cap is decided by scanning those tables.  `RelayIndex`, `RelayEntry`,
`RelayStore`, `RelayRooms` and `RelayServer` are the relay as it is built, with the
per-key room index, the per-key pending counts and the totals it keeps for speed, updated
step by step; each method is proved to do what the scan-based specification says and to
leave every index and counter equal to a scan.  `RelayPackets` and `Wire` add the text of
the datagrams.  Over all runs of the specification, `RelayCaps` proves the limits,
`RelayProvenance` how clients came in, `RelayNewest` and `RelayStale` when they came in on
their newest cookie, and `RelayRates`, `RelayMsgRates` and `RelayStays` what the rate
limiters guarantee.
The clock and fresh cookies are inputs of a step; `ipKey` and the two shard hashes are
arbitrary functions.

**The relay, interleaved.**  `RelayLocks` is the locking protocol of the rooms with one
program counter per thread (workers, cleanup, statistics), a read-write lock per shard and
a mutex per room entry.  `RelaySafety` proves that clients enter only rooms the table
still holds and that no reachable configuration is stuck.  `RelayShared` proves what the
per-key index and the challenge total are worth under every interleaving and
`RelayBounds` how far each cap can be exceeded; `RelayOvershoot`, `RelayCrowds` and
`RelayGuests` have runs that reach each of these bounds, built from the single steps of
`RelayVisits`.  `RelayRaces` is the pre-cookie store in the same style, with every lookup,
deletion, insertion and count a step of its own; `RelayRaceBounds` proves how often a
challenge can admit and how far counts and caps can be off, `RelayRaceExact` when a count
is exact, and `RelayRaceRuns` and `RelayRaceCaps` have the runs that reach the bounds.
`Tally` sums over threads, and `RelaySupplies` shows that the rooms and addresses these runs
take as given exist.

**The exchange.**  `Numbers` goes up to Fermat's little theorem for `Curve`, which has the
square root and hash-to-curve.  `Spake2` has the two-point key agreement over a cyclic
group of prime order, the key schedule and the transcript; `Confirm` has the confirm
payload; `Exchange`, `ExchangeRuns`, `ExchangePrompt`, `ExchangeLoop`, `ExchangeHonest`,
`ExchangeSent` and `ExchangeRates` have the client's loop with its candidate table and its
buffer of early confirms.  SHA-256, HKDF, HMAC and AES-GCM are function parameters with
only length laws and "open undoes seal"; `Spake2.LawsCanHold` shows the laws can be met.

**Tunnels and commands.**  `TunnelText` and `Tunnel` have the configuration exchange,
`TunnelSpec` the command-line form of a request, `TunnelAccept` which of those reach the
peer, `SplitCommand` the quote scanner.

## What the code does not promise

- *The cookie that admits is the last one issued to that room and address.*  This fails,
  because the pre-cookie store is asked before the room.  `RelayStale.OldCookieAdmits` is
  a run of five packets in which a client is admitted on its first cookie although it was
  given a second one since.  For admissions on the room's own challenge it always holds
  (`RelayNewest.RoomAdmissionNewest`).  For admissions from the store it holds if and only
  if the room holds no challenge for that address when the packet arrives
  (`RelayNewest.StoreAdmissionNewest`); this takes regTTL >= pendingRegTTL, as in the
  default configuration, because then no room dies before the challenges it holds.  With a
  smaller regTTL an eviction can hide the newer cookie (`RelayStale.EvictedRoomHides`), so
  for the default limits the condition on regTTL is exact (`RelayStale.RoomTellsExactly`).
- *The caps hold.*  They do with one packet at a time (`RelayCaps.RunCaps`).  With
  concurrent workers each cap whose check and count are separate steps can be exceeded, by
  an exact amount, and stays within under every interleaving if and only if:
  - the room count: there is one worker or all rooms share a shard
    (`RelayBounds.RoomsBounded`, `RelayOvershoot.BoundReached`, `RelayOvershoot.WithinExactly`);
  - a key's rooms: there is one worker or there cannot be more rooms than that
    (`RelayBounds.KeysAndChallengesBounded`, `RelayCrowds.KeyRoomsReached`,
    `RelayCrowds.KeysWithinExactly`);
  - the in-room challenges: there is one worker, or at most one room, or the rooms cannot
    hold more (`RelayGuests.ChallengesReached`, `RelayGuests.ChallengesWithinExactly`);
  - the store: there is one worker (`RelayRaceBounds.StoreBounded`,
    `RelayRaceCaps.StoreReached`, `RelayRaceCaps.StoreWithinExactly`);
  - a key's challenges in the store: there is one worker or the store cannot hold more
    (`RelayRaceCaps.KeyReached`, `RelayRaceCaps.KeyWithinExactly`).
- *A challenge of the store admits at most once.*  It does with one packet at a time
  (`RelayProvenance.Admissions`).  Lookup and deletion are separate critical sections, so
  with concurrent workers it can admit as often as there are workers, and no more; at most
  once exactly with a single worker (`RelayRaceBounds.AdmissionsBounded`,
  `RelayRaceRuns.AdmissionsReached`, `RelayRaceRuns.OnceExactly`).
- *The store's per-key counts equal its contents.*  They do with one packet at a time
  (`RelayServer.Serve`).  A sweep between an insertion and its count runs into the clamp at
  zero.  Whenever no thread is at work, a count is too high by just what the clamp has
  swallowed, so it is exact if and only if no step took more from it than was there
  (`RelayRaceExact.CountsExactly`); the clamp acts only while an insertion of the key is
  not counted yet (`RelayRaceExact.ClampsEarly`).  The excess is at most the number of
  workers, which is reached, and the total stays exact (`RelayRaceBounds.CountsBounded`,
  `RelayRaceRuns.CountsReached`).
- *A tunnel specification that is accepted reaches the peer as meant.*  If and only if it is
  printable, has no space in its listen fields and gives a line within the scanner's limit
  (`TunnelAccept.SpecArrives`); a space in the listen host is read as another request
  (`TunnelAccept.SpaceMisread`).
- *The receiver of a confirm recovers the sender's address.*  Exactly when the address
  does not end in NUL (`Confirm.AddressRecovered`).
- *Parsing undoes printing of a tunnel configuration.*  Exactly for at most 100 sendable
  requests (`TunnelText.ConfigRoundTrip`).

Where docs/PROTOCOL.md and the code differ, the model follows the code: two independent
scalars per peer where the document describes one (docs/PROTOCOL.md:150-158), and
candidates told apart by the whole payload where the document says by point value
(docs/PROTOCOL.md:175).

## Model

| member | source | states |
|---|---|---|
| `RelayServer.Serve` | relay/relay.go:254-667 | After any sequence of packets and ticks on an empty relay: the per-key room index equals the rooms holding an admitted client with that key and has no empty set, the room counter equals the number of rooms, every pending count and total equals its table, and the tables are those of the specification's run. |
| `RelayServer.Relay.Handle` | relay/room.go:779-806 | One packet or tick takes the abstract state where the scan-based step takes it, gives that step's reply, and keeps every index exact. |
| `RelayServer.Relay.HandleReg` | relay/relay.go:254-605 | A REG, through all its exits, does what the scan-based step does and keeps every index exact. |
| `RelayServer.Relay.HandleAllowed` | relay/relay.go:267-279 | Past the limiter: no cookie, a malformed cookie, or a cookie of 16 bytes in hex. |
| `RelayServer.Relay.HandleInitial` | relay/relay.go:504-545 | A REG without cookie challenges through the store if the room is missing and in the room otherwise. |
| `RelayServer.Relay.HandleCookie` | relay/relay.go:280-437 | The store decides alone if it knows the pair; then the room; a missing room is challenged again. |
| `RelayServer.Relay.FromStore` | relay/relay.go:282-346 | A wrong cookie changes nothing; a right one spends the store entry whatever follows; an expired one only that. |
| `RelayServer.Relay.IssueFromStore` | relay/relay.go:404-435 | A challenge is stored exactly within the per-key room cap, the per-key pending cap and the global cap, all counted by scan. |
| `RelayServer.Relay.HandleMsg` | relay/relay.go:626-667 | A message goes once to each other admitted address of the sender's room, exactly if the sender is admitted and within its rate. |
| `RelayServer.Relay.CleanupRooms` | relay/room.go:801-803 | The tick drops exactly the dead rooms, stale clients and expired challenges, and returns all of them to the counters. |
| `RelayServer.Relay.CleanupRates` | relay/room.go:788-799 | The tick drops exactly the windows older than two rate windows. |
| `RelayPackets.HandlePacket` | relay/relay.go:155-190 | A datagram either changes nothing and writes nothing, or is the step of the event it stands for, and exactly the datagrams of that step's reply are written. |
| `RelayPackets.ChallengeEchoed` | internal/engine/spake2_exchange.go:303-310 | A challenge the relay writes comes back as a REG event carrying the same cookie bytes. |
| `RelayPackets.MessageArrives` | relay/relay.go:607-667 | Any datagram taken for a message reaches an address with a line read as the same phase and body if and only if it is passed on and that address is another admitted client of the room. |
| `RelayRooms.EnterRoom` | relay/relay.go:296-354 | A spent store cookie creates the room or joins it, after a global sweep if the table is full; indexes stay exact. |
| `RelayRooms.CreateRoom` | relay/relay.go:309-346 | A room is created exactly if, after sweeping its shard when full, the table and the key's room cap have space. |
| `RelayRooms.AddRoom` | relay/relay.go:328-342 | The new room holds exactly its first client, and counter and index follow. |
| `RelayRooms.JoinRoom` | relay/relay.go:352-395 | Joining sweeps first, then admits exactly within the hard cap, the per-prefix cap and the key's room cap. |
| `RelayRooms.CheckJoin` | relay/relay.go:358-379 | The loop over the clients finds whether the key is in the room; the reply is the first cap that refuses. |
| `RelayRooms.AdmitClient` | relay/relay.go:436-454 | The room's own challenge admits only with the same cookie within its lifetime; an expired one is dropped and returned to the budget. |
| `RelayRooms.FinishAdmit` | relay/relay.go:454-501 | The admission removes the challenge, adds the client and indexes the key exactly if it is new to the room. |
| `RelayRooms.CheckAdmit` | relay/relay.go:455-473 | The hard cap and, for a new client of a new key, the key's room cap; the per-prefix cap is not asked here. |
| `RelayRooms.RevisitRoom` | relay/relay.go:544-605 | A REG without cookie in an existing room sweeps, then refreshes, repeats or issues a challenge, or refuses. |
| `RelayRooms.TouchClient` | relay/relay.go:557-565 | Only the client's last-seen time changes. |
| `RelayRooms.RefreshPending` | relay/relay.go:573-581 | The same cookie gets a new time; no count changes. |
| `RelayRooms.ChallengeInRoom` | relay/relay.go:583-605 | A new in-room challenge exactly within the per-key, per-room and relay-wide budgets. |
| `RelayRooms.RevisitStranger` | relay/relay.go:567-605 | For an address that is not a client: the per-prefix cap, then the known challenge again, then a new one. |
| `RelayRooms.AddChallenge` | relay/relay.go:597-605 | A challenge is added exactly within the room's and the relay's budgets, and the totals follow. |
| `RelayRooms.RelayMessage` | relay/relay.go:628-662 | The limiter of exactly the sender changes; the targets are the other clients, each once. |
| `RelayRooms.SweepRoom` | relay/room.go:734-739 | Client expiry always, challenge expiry at most once per lifetime; indexes and totals follow. |
| `RelayRooms.EvictRoom` | relay/room.go:744-761 | Tidies one room and deletes it exactly if no client is left and its last join is too old, returning its challenges to the budget. |
| `RelayRooms.EvictStaleRooms` | relay/room.go:741-763 | A shard sweep tidies exactly the shard's rooms, drops the dead ones and returns how many. |
| `RelayRooms.EvictStaleRoomsAll` | relay/room.go:768-777 | The shards together cover every room exactly once. |
| `RelayRooms.CountIPRooms` | relay/room.go:453-458 | The index lookup equals the number of rooms a scan finds for the key. |
| `RelayRooms.PutValid` | relay/room.go:315-340 | Replacing one room's entry keeps all indexes exact if the index agrees for that room and is unchanged for the others. |
| `RelayEntry.AddPending` | relay/room.go:626-642 | Accepted exactly if known or within both budgets; the per-key counts mirror the map and the total moves by the change in size. |
| `RelayEntry.RemovePending` | relay/room.go:646-660 | The per-key counts mirror the map and the total moves by exactly the change in size, so the clamp at zero changes nothing. |
| `RelayEntry.RemoveStaleClients` | relay/room.go:694-711 | Drops exactly the stale clients while looping, and leaves the index holding the room for exactly the keys still in it. |
| `RelayEntry.RemoveStalePending` | relay/room.go:716-729 | Drops exactly the expired challenges and sets the next sweep. |
| `RelayEntry.CountPrefixClients` | relay/room.go:684-692 | The loop counts the set of clients with the key. |
| `RelayEntry.PendingCountForIP` | relay/room.go:677-679 | The stored count equals a scan of the room's challenges. |
| `RelayStore.PendingStore.Issue` | relay/relay.go:412-435 | A challenge is stored exactly if the key's rooms, the key's challenges by scan and the store have space; nothing else changes. |
| `RelayStore.PendingStore.Store` | relay/room.go:511-539 | Stored exactly if already there or below the global cap; a replacement changes no count. |
| `RelayStore.PendingStore.Lookup` | relay/room.go:541-549 | Finds exactly what the store holds for the pair. |
| `RelayStore.PendingStore.Delete` | relay/room.go:552-569 | Removes exactly the pair, an emptied inner map with it, and its share of the counts. |
| `RelayStore.PendingStore.CountForIP` | relay/room.go:573-578 | The per-key counter equals a scan of the store. |
| `RelayStore.PendingStore.CountIn` | relay/room.go:533-537 | The counts that were exact for the pairs before are exact with the new pair. |
| `RelayStore.PendingStore.CountOut` | relay/room.go:552-569 | The counts that were exact for the pairs before are exact without the removed pair, so no clamp changes them. |
| `RelayStore.PendingStore.RemoveStale` | relay/room.go:582-603 | Exactly the expired registrations go, although counts are returned in one batch per key and shard. |
| `RelayStore.RegLimiter.IsLimited` | relay/room.go:389-414 | The two maps together are the window table of the specification, before and after. |
| `RelayStore.RegLimiter.Clean` | relay/room.go:788-799 | Deleting while looping leaves exactly the windows that are not too old. |
| `RelayIndex.PutSynced` | relay/room.go:315-340 | An index that agrees for the changed room and is untouched elsewhere is exact for the changed table. |
| `RelayIndex.CountMapDrop` | relay/room.go:466-476 | Taking a batch of one key's entries out of a table is one adjustment of that key's count. |
| `RelayCaps.RunCaps` | relay/relay.go:302-605 | With one packet per step every reachable state is within maxRooms, maxRoomsPerIP, maxClientsHard, maxPendingGlobal, maxInRoomPending, maxPendingPerRoom, and maxPendingPerIP for the store and for each room. |
| `RelayProvenance.AdmittedClients` | relay/relay.go:282-501 | In every reachable state each client was admitted by a packet from its own address echoing the last cookie issued to that room and address by the same container, not older than pendingRegTTL and not used since; and it has been a client ever since that packet. |
| `RelayProvenance.Admissions` | relay/relay.go:282-501 | Every admission rests on such a challenge, and no challenge admits twice. |
| `RelayNewest.RoomAdmissionNewest` | relay/relay.go:436-501 | An admission on the room's own challenge echoes the newest cookie issued to that room and address by anyone. |
| `RelayNewest.StoreAdmissionNewest` | relay/relay.go:282-395 | On a clock that never goes back and with regTTL >= pendingRegTTL, an admission from the store echoes the newest cookie if and only if the room holds no challenge for the address when the packet arrives. |
| `RelayNewest.LaterChallengeSeen` | relay/relay.go:282-395 | For every regTTL: if the room does hold a challenge for the address, the store's cookie is not the newest. |
| `RelayStale.OldCookieAdmits` | relay/relay.go:282-286 | With the default limits, whatever regTTL and cookies: five packets that admit a client on a cookie older than its newest one. |
| `RelayStale.EvictedRoomHides` | relay/room.go:741-763 | With the default limits and any regTTL below pendingRegTTL: a run in which the room that held the newer challenge was evicted, so the room holds none and the older cookie admits. |
| `RelayStale.RoomTellsExactly` | relay/room.go:741-763 | With the default limits, looking for a challenge in the room tells on every run whether the store's cookie is the newest if and only if regTTL >= pendingRegTTL. |
| `RelayProvenance.RelayedTo` | relay/relay.go:637-662 | A message passed on goes to exactly those other addresses whose own admission to the room still stands, and the sender's stands too. |
| `RelayProvenance.StepOrigin` | relay/relay.go:254-605 | After any step a challenge is the one just issued or an unused old one, and a new client was just admitted on an unexpired challenge with its cookie. |
| `RelayRates.RegRate` | relay/room.go:389-414 | On a clock that never goes back, at most 2 * maxRegRate REGs of one key pass in any interval of one rateWindow, cleanup ticks included. |
| `RelayMsgRates.MsgRateBound` | relay/room.go:85-96 | On a clock that never goes back, in any interval of one rateWindow at most 2 * maxMsgRate messages of a client pass, and maxMsgRate more for each admission of it in the interval. |
| `RelayStays.ReadmittedOnce` | relay/relay.go:436-501 | While a client stays it is admitted again at most once, and only on a challenge of the room. |
| `RelayStays.StayRate` | relay/room.go:85-96 | While a client stays, admitted again or not, at most 3 * maxMsgRate of its messages pass in any interval of one rateWindow. |
| `RelayLocks.MoveLocks` | relay/relay.go:302-353 | Every step keeps the lock variables in agreement with what the program counters hold, and readers apart from writers. |
| `RelaySafety.ExecInv` | relay/relay.go:302-545 | Every interleaving keeps lock variables and program counters in agreement, every thread's entry mapped and its own, and two insertions of one room apart. |
| `RelaySafety.ClientsAreMapped` | relay/relay.go:347-353 | Under every interleaving a thread about to let a client or challenge in owns an entry the table still maps from that room, and no dropped entry holds any. |
| `RelaySafety.NoDeadlock` | relay/room.go:346-359 | In every reachable configuration with a thread at work (worker, cleanup or statistics), some thread at work can take a step that changes the state, and does not even have to wait for a reader's turn behind a writer that has asked for the shard. |
| `RelayShared.IndexExact` | relay/room.go:315-340 | Under every interleaving the per-key index holds a room for exactly the keys of its clients, except for a room that is just being created. |
| `RelayShared.ChallengesExact` | relay/room.go:626-673 | Under every interleaving the challenge total equals the sum over the entries, so its clamp changes nothing, and each room is within its client and challenge caps. |
| `RelayBounds.RoomsBounded` | relay/relay.go:307-342 | Counter and table never exceed maxRooms plus one less than the smaller of the workers and the shards in use, and agree when all threads are idle. |
| `RelayBounds.KeysAndChallengesBounded` | relay/relay.go:583-605 | Under every interleaving a key is in no more rooms than maxRoomsPerIP plus the workers less one, nor than there can be rooms; and the in-room challenges are no more than maxInRoomPending plus the workers or rooms less one, nor than the rooms can hold. |
| `RelayOvershoot.Overshoot` | relay/relay.go:311-339 | Any m workers with rooms in m different shards can drive the counter to maxRooms + m - 1. |
| `RelayOvershoot.BoundReached` | relay/relay.go:311-339 | In every configuration some interleaving with acceptable room names reaches the bound on the rooms. |
| `RelayOvershoot.WithinExactly` | relay/relay.go:307-342 | The counter stays within maxRooms under every interleaving if and only if there is one worker or all rooms with acceptable names share a shard. |
| `RelayCrowds.KeyRoomsReached` | relay/relay.go:455-501 | Some interleaving lists a key in as many rooms as the bound says. |
| `RelayCrowds.KeysWithinExactly` | relay/relay.go:455-501 | Every key stays within maxRoomsPerIP under every interleaving if and only if there is one worker or there cannot be more rooms than that. |
| `RelayGuests.ChallengesReached` | relay/room.go:626-642 | Some interleaving leaves as many challenges in the rooms as the bound says. |
| `RelayGuests.ChallengesWithinExactly` | relay/room.go:626-642 | The in-room challenges stay within maxInRoomPending under every interleaving if and only if there is one worker, or at most one room, or the rooms cannot hold more. |
| `RelayRaces.ExecInv` | relay/room.go:511-603 | Every interleaving on the store keeps identities of challenges unique, insertions of one shard apart, and a looked-up challenge at no other key. |
| `RelaySupplies.PlentyCanHold` | relay/room.go:361-371 | If every address has its own key, limits of together up to 2^64 leave enough acceptable rooms and addresses for the runs above. |
| `RelayRaceBounds.AdmissionsBounded` | relay/relay.go:282-294 | Under every interleaving one stored challenge admits at most once per worker. |
| `RelayRaceBounds.CountsBounded` | relay/room.go:582-603 | Whenever no thread is at work the store's total is exact and a key's count is never below its challenges and at most the number of workers above. |
| `RelayRaceBounds.StoreBounded` | relay/room.go:511-539 | Under every interleaving the store exceeds maxPendingGlobal, and a key's share of it the smaller of maxPendingPerIP and maxPendingGlobal, by at most the number of workers less one. |
| `RelayRaceExact.CountsExactly` | relay/room.go:466-476 | Whenever no thread is at work a key's count equals its challenges in the store plus what the clamp at zero has swallowed in the run; it is exact if and only if no step took more from the count than was there. |
| `RelayRaceExact.ClampsEarly` | relay/room.go:533-537 | The clamp acts only while an insertion of the key has not been counted. |
| `RelayRaceCaps.StoreReached` | relay/room.go:511-539 | Some interleaving stores maxPendingGlobal plus the workers less one. |
| `RelayRaceCaps.StoreWithinExactly` | relay/room.go:511-539 | The store stays within maxPendingGlobal under every interleaving if and only if there is one worker. |
| `RelayRaceCaps.KeyReached` | relay/relay.go:412-435 | Some interleaving stores as many challenges of one key as the bound says. |
| `RelayRaceCaps.KeyWithinExactly` | relay/relay.go:412-435 | A key stays within maxPendingPerIP in the store under every interleaving if and only if there is one worker or the store cannot hold more than that. |
| `RelaySupplies.ManyKeysCanHold` | relay/room.go:511-539 | The same for pairs of different keys. |
| `RelaySupplies.ManyPairsCanHold` | relay/room.go:511-539 | One address in different rooms gives enough pairs of one key, whatever the keys are. |
| `RelayRaceRuns.AdmissionsReached` | relay/relay.go:282-294 | Some interleaving admits as often as there are workers on one challenge. |
| `RelayRaceRuns.OnceExactly` | relay/relay.go:282-294 | A stored challenge admits at most once under every interleaving if and only if there is one worker. |
| `RelayRaceRuns.CountsReached` | relay/room.go:533-600 | Some interleaving leaves a key's count at the number of workers over an empty store, with the total at zero. |
| `Text.HexRoundTrip` | relay/relay.go:274-278 | Decoding the hex text of any bytes gives them back. |
| `Wire.MsgToRelay` | relay/relay.go:607-625 | A message the client formats for a valid room and known phase is read as that room, phase and body if it has 1 to 512 bytes, and dropped otherwise. |
| `Wire.MsgdToClient` | internal/engine/spake2_exchange.go:313-314 | What the relay passes on is read as the same phase and body. |
| `Wire.MsgRoundTrip` | internal/engine/spake2_exchange.go:240-250 | From client through relay to client the phase and the bytes are the same. |
| `Wire.AcceptedMsgReadable` | relay/relay.go:659-662 | Whatever datagram is accepted as a message, what is passed on fits a datagram and decodes to 1 to 512 bytes. |
| `Wire.ChallengeRoundTrip` | relay/relay.go:236-240 | A challenge is read as that cookie and never as an OK line, and the REG that echoes it carries the same 16 bytes. |
| `Wire.RegRead` | relay/relay.go:163-181 | A REG with or without cookie, as the client formats it, is read as that room and cookie. |
| `Wire.OkRead` | relay/relay.go:230-234 | An OK line is read as the address it carries. |
| `Numbers.Fermat` | spake2/spake2.go:105-114 | For a prime p and a not divisible by p, a to the power p - 1 is 1 modulo p. |
| `Curve.WeierstrassYExact` | spake2/spake2.go:85-115 | For every prime p with p % 4 == 3, a value comes back exactly when x^3 - 3x + B is a square modulo p, and it is a root in [0, p). |
| `Curve.HashToCurve` | spake2/spake2.go:56-81 | The point comes from the first counter with a non-zero residue and a square right-hand side; it is on the curve and x is not 0. |
| `Curve.PasswordToScalar` | spake2/spake2.go:123-151 | The scalar is the first non-zero residue, so it lies in [1, N-1]. |
| `Spake2.NewStatesAgree` | spake2/spake2.go:195-234 | Any two states made from one password scalar whose points can be encoded agree as below. |
| `Spake2.SharedAgrees` | spake2/spake2.go:287-333 | Server and client succeed or fail together, exactly when the shared point has a non-zero x-coordinate, and on success have the same secret. |
| `Spake2.SharedLogZero` | spake2/spake2.go:306-324 | The shared point is the identity exactly if one of the two ephemeral scalars used is zero. |
| `Spake2.Agreement` | internal/engine/spake2_exchange.go:41-81 | For two states with one password: both ends succeed or fail together, exactly if M-points and fingerprints differ and the shared point has a non-zero x-coordinate; on success opposite roles by the larger M-point, the same two points, equal keys and each other's fingerprint. |
| `Spake2.AADPair` | spake2/spake2.go:338-347 | The ordered concatenation is equal exactly for the same unordered pair. |
| `Spake2.KeysSymmetric` | spake2/spake2.go:361-383 | Both ends derive the same keys from the same secret. |
| `Spake2.SaltInputPairs` | spake2/spake2.go:361-376 | The salt input is equal exactly for the same unordered points and the same unordered fingerprints. |
| `Spake2.TranscriptInjective` | spake2/spake2.go:430-456 | Transcripts are equal exactly for the same unordered points, sender, receiver and nonce. |
| `Spake2.ConfirmAccepted` | spake2/spake2.go:464-470 | The MAC one side makes as sender verifies at the other side as receiver. |
| `Spake2.LawsCanHold` | spake2/spake2.go:30-37 | The laws asked of the group and of the primitives can be met. |
| `Confirm.BuildConfirmPayload` | internal/engine/spake2_exchange.go:83-119 | Returns the specified payload or error; the caller's address buffer is wiped exactly if it is 52 bytes long and the MAC could be made, and is unchanged otherwise. |
| `Confirm.ZeroBytes` | spake2/spake2.go:250-254 | Every byte is zero afterwards. |
| `Confirm.ConfirmRoundTrip` | internal/engine/spake2_exchange.go:83-142 | A confirm of 160 bytes exists exactly for addresses of up to 52 bytes, and the other end accepts it and recovers the address up to trailing NULs. |
| `Confirm.AddressRecovered` | internal/engine/spake2_exchange.go:121-142 | The address comes back exactly when it does not end in NUL. |
| `Confirm.HonestHandshake` | internal/engine/spake2_exchange.go:41-142 | From two fresh states both ends succeed or fail together, and on success each accepts the other's confirm and has the other's address. |
| `ExchangeHonest.RegisterAndExchange` | internal/engine/spake2_exchange.go:179-402 | Ends with the outcome of a run of the specified passes, and leaves the state's scalars and points and every key buffer wiped. |
| `ExchangeLoop.ExchangeAndWipe` | internal/engine/spake2_exchange.go:199-400 | The loop is a run of the specified passes, ends with the last pass's outcome, and leaves every key buffer wiped. |
| `ExchangeLoop.DoPass` | internal/engine/spake2_exchange.go:221-274 | One pass: what is due is sent, the inbound budget is counted, the line is handled. |
| `ExchangeLoop.ResendConfirms` | internal/engine/spake2_exchange.go:245-251 | Exactly the due confirms are sent and stamped, in whatever order the map is walked. |
| `ExchangeLoop.FindOldest` | internal/engine/spake2_exchange.go:348-355 | A candidate with the least last-sent time. |
| `ExchangeLoop.HandleSpake` | internal/engine/spake2_exchange.go:313-383 | Only a complete, new and valid payload is added, after making room if the table is full, and the early confirms are tried in order. |
| `ExchangeLoop.ScanBuffered` | internal/engine/spake2_exchange.go:375-382 | The first early confirm that fits the new candidate decides. |
| `ExchangeLoop.ScanCandidates` | internal/engine/spake2_exchange.go:388-395 | Some fitting candidate is returned if there is one. |
| `ExchangeLoop.HandleConfirm` | internal/engine/spake2_exchange.go:385-400 | A confirm that fits no candidate is buffered while there is space. |
| `ExchangeRuns.LoopInvariant` | internal/engine/spake2_exchange.go:313-400 | At every pass: at most 50 candidates, the same keys as in the last-sent table, each with its keys intact and its confirm sent; and while the loop runs no early confirm fits any candidate. |
| `ExchangePrompt.ReturnsPromptly` | internal/engine/spake2_exchange.go:375-400 | Once a confirm and a candidate it fits have both arrived, in either order, the loop has ended with a result from that candidate or on that confirm; the buffer needs space only if the confirm came first. |
| `ExchangeRuns.ResultFromOneCandidate` | internal/engine/spake2_exchange.go:375-395 | Address, fingerprint and role come from one candidate whose own confirm was sent, on a confirm that was heard. |
| `ExchangeRuns.EvictionOnlyForValid` | internal/engine/spake2_exchange.go:342-363 | A candidate leaves only for a payload that passed validation, only from a full table, and only the one with the least last-sent time. |
| `ExchangeRuns.DropSession` | internal/engine/spake2_exchange.go:356-361 | Wiping the evicted candidate's keys leaves every other candidate's session as it was. |
| `ExchangeHonest.HonestPeersFinish` | internal/engine/spake2_exchange.go:179-402 | When an honest peer's payload is a candidate and its confirm has been heard, the loop has ended with that peer's fingerprint and the role against it, unless its confirm fits another candidate too. |
| `ExchangeHonest.HonestResult` | internal/engine/spake2_exchange.go:375-395 | Ending on an honest peer's payload and confirm returns that peer's address and fingerprint and the role opposite to the peer's. |
| `ExchangeSent.SentIsRead` | internal/engine/spake2_exchange.go:231-250 | Every datagram any run of an honest client's loop writes is read by the relay as the registration or message it was meant to be. |
| `ExchangeRates.InboundBound` | internal/engine/spake2_exchange.go:264-274 | At most 1000 relayed messages are worked on in any interval shorter than a second. |
| `TunnelText.WriteTunnelConfig` | internal/app/tunnel.go:268-281 | The loop writes the rendering of the whole list. |
| `TunnelText.ReadRequestsFromStream` | internal/app/tunnel_request.go:26-53 | The loop returns what the line-by-line reading gives, errors included. |
| `TunnelText.ParseAddr` | internal/app/tunnel_request.go:94-103 | Keeps exactly the printable ASCII characters, in order. |
| `TunnelText.ReadIsClean` | internal/app/tunnel_request.go:26-53 | Whatever the peer writes, at most 100 requests come out, each of a known type with printable addresses and no space in the listen address. |
| `TunnelText.ConfigRoundTrip` | internal/app/tunnel.go:250-281 | Reading a written configuration gives it back if and only if it has at most 100 requests and all are sendable. |
| `Tunnel.SidesAgree` | internal/app/tunnel.go:186-246 | Both ends get the same ordered list, the client's requests first, their own ranges partition it, and each learns the other's consent. |
| `Tunnel.ListsAgreeOnlyIfSendable` | internal/app/tunnel.go:186-246 | If both ends get the same list split at the same place, all requests were sendable. |
| `Tunnel.IndexMeansTheSame` | internal/app/tunnel.go:326-343 | From two sendable configurations: for each index exactly one end may listen and exactly the other one dials, the two-byte header decodes to that index on both sides, and the same request stands there. |
| `Tunnel.ListenIndexes` | internal/app/tunnel.go:326-343 | The loop picks exactly the requests this end listens for, in order. |
| `Tunnel.StreamReachesTarget` | internal/app/tunnel.go:473-539 | The two-byte header of a listening end's stream is read by the other end as the same request, which it dials if its allowlist agrees, while the listening end never would. |
| `TunnelSpec.SplitTunnelRequest` | internal/app/tunnel_request.go:57-82 | The loop over depth and start computes the specified split. |
| `TunnelSpec.SplitExact` | internal/app/tunnel_request.go:57-82 | A split is found if and only if the text is a colon-join of fields with balanced brackets and no colon outside them, and it is those fields. |
| `TunnelSpec.SpecRoundTrip` | internal/app/tunnel_request.go:104-125 | A specification written from host and port fields, IPv6 hosts in brackets, is read back as those addresses, with loopback for a missing listen host. |
| `TunnelAccept.SpecSendable` | internal/app/tunnel_request.go:104-125 | The request of an accepted specification is sendable if and only if the specification is printable, has no space in its listen fields and gives a line within the scanner's limit. |
| `TunnelAccept.SpecArrives` | internal/app/tunnel_request.go:26-125 | Exactly those specifications are read by the peer as the request they stand for. |
| `TunnelAccept.SpaceMisread` | internal/app/tunnel_request.go:26-125 | A space in the listen host is accepted and written, and the peer reads another request. |
| `SplitCommand.SplitCommand` | internal/app/exec.go:168-220 | The byte loop computes the specified split. |
| `SplitCommand.QuoteRoundTrip` | internal/app/exec.go:168-220 | Every list of arguments has a quoted rendering that is split into exactly that list. |
| `SplitCommand.RejectedExactly` | internal/app/exec.go:214-219 | Nothing comes out exactly when the scan ends inside a quote or there are only blanks. |

## Left out

- Time: one reading of the clock per packet, tick or loop pass, where the code reads it several times.
- Room entries as objects: in the sequential relay an entry is a value in the room table, so two references to one entry and nil against empty maps are not captured there; the interleaved model has entry identities.
- Leaf locks: the locks of the IP index and the registration windows are taken and released around one map access with nothing else acquired, so the interleaved models make each such access one step; a step may also include what its thread does next to the access to its own variables or to an entry whose lock it holds, such as the update of a room's challenges next to that of their total.
- The two interleaved models: `RelayLocks` has the rooms and `RelayRaces` has the store; an admission in one is not tied to an entry in the other, because no shard of the store is locked while a room lock is held.
- RelayOvershoot.BoundReached: takes enough acceptable rooms and addresses of different keys as given, because with fewer the run may not exist; `RelaySupplies` has such a supply.
- RelayOvershoot.WithinExactly: takes enough acceptable rooms and addresses of different keys as given, for the same reason.
- RelayCrowds.KeyRoomsReached: takes enough acceptable rooms and addresses of different keys as given, for the same reason.
- RelayCrowds.KeysWithinExactly: takes enough acceptable rooms and addresses of different keys as given, for the same reason.
- RelayGuests.ChallengesReached: takes enough acceptable rooms and addresses of different keys as given, for the same reason.
- RelayGuests.ChallengesWithinExactly: takes enough acceptable rooms and addresses of different keys as given, for the same reason.
- RelayRaceCaps.StoreReached: takes enough pairs of different keys as given, for the same reason.
- RelayRaceCaps.StoreWithinExactly: takes enough pairs of different keys as given, for the same reason.
- RelayRaceCaps.KeyReached: takes enough pairs of the one key as given, for the same reason.
- RelayRaceCaps.KeyWithinExactly: takes enough pairs of the one key as given, for the same reason.
- RelayRaceRuns.CountsReached: takes one address per worker with the same key as given.
- RelayStale.RoomTellsExactly: for the default limits other than regTTL, because with other limits, such as a single client per room, the breaking run may not exist.
- Spake2.Agreement: a blinded point that is the identity cannot be encoded and panics in the code; the honest states here exclude it.
- Curve.HashToCurve: takes a usable counter below 2^64 as given, since the loop in the code runs on until it finds one.
- Curve.PasswordToScalar: takes a counter with a non-zero residue as given, for the same reason; wiping of intermediate buffers is not modelled.
- Exchange buffers: candidate keys are positions in a list of buffers, so wiping in place and sharing are modelled there and not on the Go heap; keys of a payload whose confirm could not be built never enter the list.
- RelayServer.Relay.HandleMsg: a datagram the write pool refuses when full is not modelled; every target counts as written to.
- Text parsing inside ipKey and netip.ParseAddrPort, the FNV hash, and the randomness of cookies, nonces and scalars: parameters.
- Secrecy, unforgeability and any probability: no claim is made.
- Sockets, QUIC, TLS, hole punching, stream copying, process handling, the tunnel allowlist with its DNS lookups, statistics, log limiting, options and the word list: input/output, wrappers or easy next to the rest.
