/** Open addressing with linear probing over decoded slots: what the hash table means,
    apart from the bytes that store it. Ids are told apart by their bytes; nothing here
    assumes that the hash is injective. */
module SlotTable {
  import Bits
  import opened Bytes

  type HashFn = Buffer -> u64

  datatype Slot =
    | Vacant
    | Taken(hash: nat, id: Buffer, idOff: nat, row: nat)
    | Broken

  datatype Find = Hit(at: nat) | Free(at: nat) | Exhausted

  /** The writer-visible state: decoded slots and the two cursors. */
  datatype Table = Table(slots: seq<Slot>, nextRow: nat, poolCursor: nat)

  function Succ(i: nat, n: nat): (j: nat)
    requires i < n
    ensures j < n
  {
    if i + 1 == n then 0 else i + 1
  }

  /** The probe loop of lookup and insert: at most `fuel` slots from `at` on. */
  function Probe(slots: seq<Slot>, h: nat, id: Buffer, at: nat, fuel: nat): (r: Find)
    requires at < |slots|
    ensures r.Hit? ==> r.at < |slots| && slots[r.at].Taken? && slots[r.at].id == id && slots[r.at].hash == h
    ensures r.Free? ==> r.at < |slots| && slots[r.at].Vacant?
    decreases fuel
  {
    if fuel == 0 then Exhausted
    else if slots[at].Vacant? then Free(at)
    else if slots[at].Taken? && slots[at].hash == h && slots[at].id == id then Hit(at)
    else Probe(slots, h, id, Succ(at, |slots|), fuel - 1)
  }

  function Search(slots: seq<Slot>, h: nat, id: Buffer): (r: Find)
    requires |slots| > 0
    ensures r.Hit? ==> r.at < |slots| && slots[r.at].Taken? && slots[r.at].id == id && slots[r.at].hash == h
    ensures r.Free? ==> r.at < |slots| && slots[r.at].Vacant?
  {
    Probe(slots, h, id, Bits.Remainder(h, |slots|), |slots|)
  }

  ghost predicate SlotOk(s: Slot, T: Table, H: HashFn, maxId: nat)
  {
    match s
    case Vacant => true
    case Broken => false
    case Taken(h, id, off, row) =>
      h == H(id) && 0 < |id| <= maxId && off + 4 + |id| <= T.poolCursor && row < T.nextRow
  }

  /** The invariant every insert keeps. The last clause says that probing for a stored
      id reaches its slot. */
  ghost predicate TableOk(T: Table, H: HashFn, capacity: nat, maxId: nat)
  {
    && 1 <= capacity && 2 * capacity <= |T.slots|
    && T.nextRow <= capacity
    && T.poolCursor <= Bits.Times(T.nextRow, 4 + maxId)
    && (forall i {:trigger SlotOk(T.slots[i], T, H, maxId)} :: 0 <= i < |T.slots| ==> SlotOk(T.slots[i], T, H, maxId))
    && RowsDistinct(T.slots)
    && Reachable(T.slots)
  }

  ghost predicate RowsDistinct(slots: seq<Slot>)
  {
    forall i, j {:trigger slots[i].row, slots[j].row} ::
      0 <= i < j < |slots| && slots[i].Taken? && slots[j].Taken? ==> slots[i].row != slots[j].row
  }

  ghost predicate Reachable(slots: seq<Slot>)
  {
    forall i {:trigger Reaches(slots, i)} :: 0 <= i < |slots| ==> Reaches(slots, i)
  }

  ghost predicate Reaches(slots: seq<Slot>, i: nat)
    requires i < |slots|
  {
    slots[i].Taken? ==> Search(slots, slots[i].hash, slots[i].id) == Hit(i)
  }

  ghost predicate IdsDistinct(slots: seq<Slot>)
  {
    forall i, j {:trigger slots[i].id, slots[j].id} ::
      (0 <= i < |slots| && 0 <= j < |slots| && slots[i].Taken? && slots[j].Taken? && slots[i].id == slots[j].id)
      ==> i == j
  }

  /** The table as a plain map from id to row index. */
  ghost function Entries(slots: seq<Slot>): map<Buffer, nat>
    requires IdsDistinct(slots)
  {
    EntriesBelow(slots, |slots|)
  }

  ghost function EntriesBelow(slots: seq<Slot>, n: nat): map<Buffer, nat>
    requires n <= |slots|
  {
    if n == 0 then map[]
    else if slots[n - 1].Taken? then EntriesBelow(slots, n - 1)[slots[n - 1].id := slots[n - 1].row]
    else EntriesBelow(slots, n - 1)
  }

  lemma {:induction false} EntryBelow(slots: seq<Slot>, n: nat, i: nat)
    requires IdsDistinct(slots) && i < n <= |slots| && slots[i].Taken?
    ensures slots[i].id in EntriesBelow(slots, n) && EntriesBelow(slots, n)[slots[i].id] == slots[i].row
  {
    if i < n - 1 {
      EntryBelow(slots, n - 1, i);
      assert slots[n - 1].Taken? ==> slots[n - 1].id != slots[i].id;
    }
  }

  lemma {:induction false} VacantEntries(slots: seq<Slot>, n: nat)
    requires n <= |slots| && forall i :: 0 <= i < n ==> slots[i].Vacant?
    ensures EntriesBelow(slots, n) == map[]
  {
    if n > 0 {
      VacantEntries(slots, n - 1);
    }
  }

  lemma {:induction false} SlotBelow(slots: seq<Slot>, n: nat, id: Buffer) returns (i: nat)
    requires n <= |slots| && id in EntriesBelow(slots, n)
    ensures i < n && slots[i].Taken? && slots[i].id == id && slots[i].row == EntriesBelow(slots, n)[id]
  {
    if slots[n - 1].Taken? && slots[n - 1].id == id {
      i := n - 1;
    } else {
      i := SlotBelow(slots, n - 1, id);
    }
  }

  lemma OkIdsDistinct(T: Table, H: HashFn, capacity: nat, maxId: nat)
    requires TableOk(T, H, capacity, maxId)
    ensures IdsDistinct(T.slots)
  {
    forall i, j | 0 <= i < |T.slots| && 0 <= j < |T.slots| && T.slots[i].Taken? && T.slots[j].Taken?
                  && T.slots[i].id == T.slots[j].id
      ensures i == j
    {
      assert SlotOk(T.slots[i], T, H, maxId) && SlotOk(T.slots[j], T, H, maxId);
      assert Reaches(T.slots, i) && Reaches(T.slots, j);
    }
  }

  /** Lookup is membership: probing hits exactly when the id is stored, at its own row. */
  lemma SearchIsMembership(T: Table, H: HashFn, capacity: nat, maxId: nat, id: Buffer)
    requires TableOk(T, H, capacity, maxId)
    ensures IdsDistinct(T.slots)
    ensures var r := Search(T.slots, H(id), id);
            && (r.Hit? <==> id in Entries(T.slots))
            && (r.Hit? ==> Entries(T.slots)[id] == T.slots[r.at].row)
            && !r.Exhausted?
  {
    OkIdsDistinct(T, H, capacity, maxId);
    NeverExhausted(T, H, capacity, maxId, H(id), id);
    var r := Search(T.slots, H(id), id);
    if r.Hit? {
      EntryBelow(T.slots, |T.slots|, r.at);
    }
    if id in Entries(T.slots) {
      var i := SlotBelow(T.slots, |T.slots|, id);
      assert SlotOk(T.slots[i], T, H, maxId) && Reaches(T.slots, i);
    }
  }

  /** Distinct naturals below `m` number at most `m`. */
  lemma {:induction false} Pigeonhole(s: seq<nat>, m: nat)
    requires forall i, j :: 0 <= i < j < |s| ==> s[i] != s[j]
    requires forall i :: 0 <= i < |s| ==> s[i] < m
    ensures |s| <= m
  {
    if s != [] {
      assert s[0] < m;
      if k :| 0 <= k < |s| && s[k] == m - 1 {
        Pigeonhole(s[..k] + s[k + 1..], m - 1);
      } else {
        Pigeonhole(s, m - 1);
      }
    }
  }

  /** Steps from `at` to `j` around the table. */
  function Distance(at: nat, j: nat, n: nat): int
  {
    if j >= at then j - at else j - at + n
  }

  lemma {:induction false} ExhaustedVisits(slots: seq<Slot>, h: nat, id: Buffer, at: nat, fuel: nat, j: nat)
    requires at < |slots| && j < |slots| && fuel <= |slots|
    requires Probe(slots, h, id, at, fuel) == Exhausted
    requires Distance(at, j, |slots|) < fuel
    ensures !slots[j].Vacant?
    decreases fuel
  {
    if j != at {
      ExhaustedVisits(slots, h, id, Succ(at, |slots|), fuel - 1, j);
    }
  }

  /** The table is at most half full, so a probe always meets its id or a vacancy. */
  lemma NeverExhausted(T: Table, H: HashFn, capacity: nat, maxId: nat, h: nat, id: Buffer)
    requires TableOk(T, H, capacity, maxId)
    ensures !Search(T.slots, h, id).Exhausted?
  {
    if Search(T.slots, h, id).Exhausted? {
      forall j | 0 <= j < |T.slots|
        ensures T.slots[j].Taken? && T.slots[j].row < T.nextRow
      {
        ExhaustedVisits(T.slots, h, id, Bits.Remainder(h, |T.slots|), |T.slots|, j);
        assert SlotOk(T.slots[j], T, H, maxId);
      }
      Pigeonhole(seq(|T.slots|, j requires 0 <= j < |T.slots| => T.slots[j].row), T.nextRow);
    }
  }

  /** Filling a vacancy disturbs no probe that hit. */
  lemma {:induction false} ProbeKept(slots: seq<Slot>, e: nat, x: Slot, h: nat, id: Buffer, at: nat, fuel: nat)
    requires at < |slots| && e < |slots| && slots[e].Vacant? && x.Taken?
    requires Probe(slots, h, id, at, fuel).Hit?
    ensures Probe(slots[e := x], h, id, at, fuel) == Probe(slots, h, id, at, fuel)
    decreases fuel
  {
    if fuel > 0 && !(slots[at].Taken? && slots[at].hash == h && slots[at].id == id) {
      ProbeKept(slots, e, x, h, id, Succ(at, |slots|), fuel - 1);
    }
  }

  /** The vacancy a probe found is where that id is found afterwards. */
  lemma {:induction false} ProbeFound(slots: seq<Slot>, e: nat, x: Slot, at: nat, fuel: nat)
    requires at < |slots| && e < |slots| && x.Taken?
    requires Probe(slots, x.hash, x.id, at, fuel) == Free(e)
    ensures Probe(slots[e := x], x.hash, x.id, at, fuel) == Hit(e)
    decreases fuel
  {
    if at != e {
      ProbeFound(slots, e, x, Succ(at, |slots|), fuel - 1);
    }
  }

  /** The slot table after inserting `id` at the vacancy its probe found. */
  function WithEntry(T: Table, e: nat, h: nat, id: Buffer): (R: Table)
    requires e < |T.slots|
  {
    Table(T.slots[e := Taken(h, id, T.poolCursor, T.nextRow)], T.nextRow + 1, T.poolCursor + 4 + |id|)
  }

  lemma InsertKeepsOk(T: Table, H: HashFn, capacity: nat, maxId: nat, e: nat, id: Buffer)
    requires TableOk(T, H, capacity, maxId)
    requires 0 < |id| <= maxId && T.nextRow < capacity
    requires Search(T.slots, H(id), id) == Free(e)
    ensures TableOk(WithEntry(T, e, H(id), id), H, capacity, maxId)
  {
    var R := WithEntry(T, e, H(id), id);
    var n := |T.slots|;
    forall i | 0 <= i < n
      ensures SlotOk(R.slots[i], R, H, maxId)
    {
      assert SlotOk(T.slots[i], T, H, maxId);
    }
    forall i, j | 0 <= i < j < n && R.slots[i].Taken? && R.slots[j].Taken?
      ensures R.slots[i].row != R.slots[j].row
    {
      assert SlotOk(T.slots[i], T, H, maxId) && SlotOk(T.slots[j], T, H, maxId);
      assert i != e && j != e ==> T.slots[i].row != T.slots[j].row;
    }
    forall i | 0 <= i < n
      ensures Reaches(R.slots, i)
    {
      assert Reaches(T.slots, i);
      if i == e {
        ProbeFound(T.slots, e, R.slots[e], Bits.Remainder(H(id), n), n);
      } else if T.slots[i].Taken? {
        ProbeKept(T.slots, e, R.slots[e], T.slots[i].hash, T.slots[i].id, Bits.Remainder(T.slots[i].hash, n), n);
      }
    }
  }

  /** One insert of a new id adds that id at the next row, and nothing else. */
  lemma InsertAddsEntry(T: Table, H: HashFn, capacity: nat, maxId: nat, e: nat, id: Buffer)
    requires TableOk(T, H, capacity, maxId)
    requires 0 < |id| <= maxId && T.nextRow < capacity
    requires Search(T.slots, H(id), id) == Free(e)
    ensures IdsDistinct(T.slots) && IdsDistinct(WithEntry(T, e, H(id), id).slots)
    ensures id !in Entries(T.slots)
    ensures Entries(WithEntry(T, e, H(id), id).slots) == Entries(T.slots)[id := T.nextRow]
  {
    InsertKeepsOk(T, H, capacity, maxId, e, id);
    OkIdsDistinct(T, H, capacity, maxId);
    SearchIsMembership(T, H, capacity, maxId, id);
    OkIdsDistinct(WithEntry(T, e, H(id), id), H, capacity, maxId);
    EntriesUpdate(T.slots, e, Taken(H(id), id, T.poolCursor, T.nextRow));
  }

  lemma EntryOf(slots: seq<Slot>, i: nat)
    requires IdsDistinct(slots) && i < |slots| && slots[i].Taken?
    ensures slots[i].id in Entries(slots) && Entries(slots)[slots[i].id] == slots[i].row
  {
    EntryBelow(slots, |slots|, i);
  }

  lemma SlotOfEntry(slots: seq<Slot>, id: Buffer) returns (i: nat)
    requires IdsDistinct(slots) && id in Entries(slots)
    ensures i < |slots| && slots[i].Taken? && slots[i].id == id && slots[i].row == Entries(slots)[id]
  {
    i := SlotBelow(slots, |slots|, id);
  }

  lemma EntriesUpdate(slots: seq<Slot>, e: nat, x: Slot)
    requires e < |slots| && slots[e].Vacant? && x.Taken?
    requires IdsDistinct(slots) && IdsDistinct(slots[e := x])
    ensures Entries(slots[e := x]) == Entries(slots)[x.id := x.row]
  {
    hide Entries, IdsDistinct;
    var filled := slots[e := x];
    EntryOf(filled, e);
    forall k | k in Entries(slots)
      ensures k in Entries(filled) && (k != x.id ==> Entries(filled)[k] == Entries(slots)[k])
    {
      var i := SlotOfEntry(slots, k);
      EntryOf(filled, i);
    }
    forall k | k in Entries(filled) && k != x.id
      ensures k in Entries(slots)
    {
      var i := SlotOfEntry(filled, k);
      EntryOf(slots, i);
    }
  }

  lemma EntryRowsDistinct(slots: seq<Slot>, id: Buffer, k: Buffer)
    requires IdsDistinct(slots) && RowsDistinct(slots)
    requires id in Entries(slots) && k in Entries(slots) && k != id
    ensures Entries(slots)[k] != Entries(slots)[id]
  {
    var i := SlotBelow(slots, |slots|, id);
    var j := SlotBelow(slots, |slots|, k);
    assert slots[i].row == Entries(slots)[id] && slots[j].row == Entries(slots)[k];
  }
}
