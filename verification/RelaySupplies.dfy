/** What the runs that reach the bounds take as given can be had: acceptable room names and
    addresses as binary numerals. */
module RelaySupplies {
  import opened Text
  import opened RelaySpec
  import Wire
  import Races = RelayRaces
  import RaceBounds = RelayRaceBounds
  import RaceCaps = RelayRaceCaps
  import opened RelayLocks
  import opened RelayCrowds

  function Pow2(k: nat): pos {
    if k == 0 then 1 else 2 * Pow2(k - 1)
  }

  /** The k lowest binary digits of n. */
  function Digits(k: nat, n: nat): (s: string)
    ensures |s| == k && Wire.Visible(s)
  {
    if k == 0 then "" else Digits(k - 1, n / 2) + [if n % 2 == 1 then '1' else '0']
  }

  lemma {:induction false} DigitsDiffer(k: nat, m: nat, n: nat)
    requires m < Pow2(k) && n < Pow2(k) && m != n
    ensures Digits(k, m) != Digits(k, n)
  {
    if k == 0 {
    } else if m % 2 == n % 2 {
      DigitsDiffer(k - 1, m / 2, n / 2);
      assert Digits(k, m)[..k - 1] == Digits(k - 1, m / 2) && Digits(k, n)[..k - 1] == Digits(k - 1, n / 2);
    } else {
      assert Digits(k, m)[k - 1] != Digits(k, n)[k - 1];
    }
  }

  /** Names of k characters. */
  function Names(k: nat): nat -> Named
    requires 1 <= k <= Wire.MAX_ROOM_NAME_LEN
  {
    (i: nat) => Room(Digits(k, i))
  }

  function Addresses(k: nat): nat -> Addr {
    (i: nat) => Addr(Digits(k, i))
  }

  ghost predicate KeyPerAddress(f: Addr -> Ip) {
    forall a, b | a != b :: f(a) != f(b)
  }

  lemma AddressKeys(f: Addr -> Ip, k: nat, i: nat, j: nat)
    requires KeyPerAddress(f) && i < j < Pow2(k)
    ensures f(Addresses(k)(i)) != f(Addresses(k)(j))
  {
    DigitsDiffer(k, i, j);
    assert Addresses(k)(i) != Addresses(k)(j);
  }

  /** With a key per address, limits of up to 2^64 in all leave enough rooms and keys. */
  lemma PlentyCanHold(c: Limits, k: nat)
    requires KeyPerAddress(c.ipKey) && 1 <= k <= Wire.MAX_ROOM_NAME_LEN
    requires c.maxRooms + c.workers + c.maxPendingPerRoom <= Pow2(k)
    ensures Plenty(c, Names(k), Addresses(k))
  {
    forall i: nat, j: nat | i < j < c.maxRooms + c.workers ensures Names(k)(i) != Names(k)(j) {
      DigitsDiffer(k, i, j);
    }
    forall i: nat, j: nat | i < j < c.maxRooms + c.workers + c.maxPendingPerRoom
      ensures c.ipKey(Addresses(k)(i)) != c.ipKey(Addresses(k)(j))
    {
      AddressKeys(c.ipKey, k, i, j);
    }
  }

  function Pairs(k: nat): RaceCaps.Supply {
    (i: nat) => Key(Room("x"), Addresses(k)(i))
  }

  /** Likewise for the store as a whole ... */
  lemma ManyKeysCanHold(c: Races.Caps, k: nat)
    requires KeyPerAddress(c.ipKey) && c.maxPendingGlobal + c.workers <= Pow2(k)
    ensures RaceCaps.ManyKeys(c, Pairs(k))
  {
    forall i: nat, j: nat | i < j < c.maxPendingGlobal + c.workers
      ensures Races.KeyOf(c, Pairs(k)(i)) != Races.KeyOf(c, Pairs(k)(j))
    {
      AddressKeys(c.ipKey, k, i, j);
    }
  }

  function RoomsOf(k: nat, a: Addr): RaceCaps.Supply {
    (i: nat) => Key(Room(Digits(k, i)), a)
  }

  /** ... and for one address, whatever its key. */
  lemma ManyPairsCanHold(c: Races.Caps, k: nat, a: Addr)
    requires RaceBounds.MostOfKey(c) <= Pow2(k)
    ensures RaceCaps.ManyPairs(c, RoomsOf(k, a), c.ipKey(a))
  {
    forall i: nat, j: nat | i < j < RaceBounds.MostOfKey(c) ensures RoomsOf(k, a)(i) != RoomsOf(k, a)(j) {
      DigitsDiffer(k, i, j);
    }
  }
}
