/**
 Generation-tagged handles (kernel/src/bpf/handles.rs).

 A table keeps a vector of optional entries and a parallel vector of generations. A
 handle packs a slot number in its low ten bits and the slot's generation above them.
 Freeing an entry leaves the generation in place, reusing the slot increments it, and a
 slot whose generation reached the maximum is retired.
 */
module Handles {
  import opened Common

  const SLOT_COUNT: nat := 1024
  const MAX_GENERATION: nat := 2097151
  const I32_MAX: nat := 2147483647

  datatype Table<+T> = Table(slots: seq<Option<T>>, gens: seq<nat>)

  datatype InsertError = SlotLimit | NoMemory

  datatype Inserted<+T> = Inserted(table: Table<T>, handle: nat) | Refused(error: InsertError)

  function Slot(handle: nat): nat {
    handle % SLOT_COUNT
  }

  function Generation(handle: nat): nat {
    handle / SLOT_COUNT
  }

  predicate CanReuse(generation: nat) {
    generation < MAX_GENERATION
  }

  function Encode(slot: nat, generation: nat): (handle: nat)
    requires slot < SLOT_COUNT && generation <= MAX_GENERATION
    ensures handle <= I32_MAX
    ensures Slot(handle) == slot && Generation(handle) == generation
  {
    generation * SLOT_COUNT + slot
  }

  lemma EncodeOnto(handle: nat)
    requires handle <= I32_MAX
    ensures Slot(handle) < SLOT_COUNT && Generation(handle) <= MAX_GENERATION
    ensures Encode(Slot(handle), Generation(handle)) == handle
  {
  }

  ghost predicate Valid<T>(t: Table<T>) {
    && |t.slots| == |t.gens| <= SLOT_COUNT
    && forall i :: 0 <= i < |t.gens| ==> t.gens[i] <= MAX_GENERATION
  }

  function Decode(gens: seq<nat>, handle: nat): Option<nat> {
    if Slot(handle) < |gens| && gens[Slot(handle)] == Generation(handle) then Some(Slot(handle)) else None
  }

  /** The slot a handle names, when that slot is occupied by the same generation. */
  function LiveSlot<T>(t: Table<T>, handle: nat): Option<nat> {
    var slot := Slot(handle);
    if slot < |t.gens| && t.gens[slot] == Generation(handle) && slot < |t.slots| && t.slots[slot].Some?
    then Some(slot) else None
  }

  predicate Live<T>(t: Table<T>, handle: nat) {
    LiveSlot(t, handle).Some?
  }

  function Entry<T>(t: Table<T>, handle: nat): T
    requires Live(t, handle)
  {
    t.slots[Slot(handle)].value
  }

  predicate Occupied<T>(t: Table<T>, i: int) {
    0 <= i < |t.slots| && t.slots[i].Some?
  }

  function HandleOf<T>(t: Table<T>, i: nat): (handle: nat)
    requires Valid(t) && i < |t.slots|
    ensures Slot(handle) == i && Generation(handle) == t.gens[i]
  {
    Encode(i, t.gens[i])
  }

  predicate Reusable<T>(t: Table<T>, i: int) {
    0 <= i < |t.slots| && i < |t.gens| && t.slots[i].None? && CanReuse(t.gens[i])
  }

  /** First reusable slot at or after `i`, or the table length. */
  function FirstReusable<T>(t: Table<T>, i: nat): (k: nat)
    requires i <= |t.slots|
    ensures i <= k <= |t.slots|
    ensures k < |t.slots| ==> Reusable(t, k)
    ensures forall j :: i <= j < k ==> !Reusable(t, j)
    decreases |t.slots| - i
  {
    if i == |t.slots| || Reusable(t, i) then i else FirstReusable(t, i + 1)
  }

  predicate HasSlot<T>(t: Table<T>, maxSlots: nat) {
    |t.slots| < maxSlots || FirstReusable(t, 0) < |t.slots|
  }

  /** `insert_with_reservations`; the two flags are the answers of the vector reservations. */
  function Insert<T>(t: Table<T>, maxSlots: nat, value: T, slotMemory: bool, genMemory: bool): Inserted<T>
    requires Valid(t)
  {
    var k := FirstReusable(t, 0);
    if k < |t.slots| then
      var g := t.gens[k] + 1;
      Inserted(Table(t.slots[k := Some(value)], t.gens[k := g]), Encode(k, g))
    else if |t.slots| >= maxSlots || |t.slots| >= SLOT_COUNT then Refused(SlotLimit)
    else if !slotMemory || !genMemory then Refused(NoMemory)
    else Inserted(Table(t.slots + [Some(value)], t.gens + [0]), Encode(|t.slots|, 0))
  }

  function Free<T>(t: Table<T>, i: nat): Table<T>
    requires i < |t.slots|
  {
    t.(slots := t.slots[i := None])
  }

  /**
   What an insertion does, without its search: the handle was never issued before, it is
   live and names the value, and no other handle changes its meaning.
   */
  lemma InsertEffect<T>(t: Table<T>, maxSlots: nat, value: T, slotMemory: bool, genMemory: bool)
    requires Valid(t)
    ensures var r := Insert(t, maxSlots, value, slotMemory, genMemory);
            r.Inserted? ==>
              && Valid(r.table) && Later(t, r.table)
              && !Issued(t, r.handle) && Issued(r.table, r.handle)
              && Live(r.table, r.handle) && Entry(r.table, r.handle) == value
              && (Slot(r.handle) < |t.slots| ==> t.slots[Slot(r.handle)].None?)
              && (forall h :: h != r.handle && Live(r.table, h) ==> Live(t, h))
              && (forall h :: Live(t, h) ==> Live(r.table, h) && Entry(r.table, h) == Entry(t, h))
  {
  }

  /** A passed slot check leaves only memory as a reason to refuse, provided the slot limit fits the handle format. */
  lemma InsertRefusal<T>(t: Table<T>, maxSlots: nat, value: T, slotMemory: bool, genMemory: bool)
    requires Valid(t)
    ensures HasSlot(t, maxSlots) && maxSlots <= SLOT_COUNT && slotMemory && genMemory ==>
              Insert(t, maxSlots, value, slotMemory, genMemory).Inserted?
    ensures Insert(t, maxSlots, value, slotMemory, genMemory) == Refused(SlotLimit) <==>
              !HasSlot(t, maxSlots) || (|t.slots| == SLOT_COUNT && FirstReusable(t, 0) == |t.slots|)
  {
  }

  // -------------------------------------------------- handles over the life of a table

  /** Some insertion so far returned this handle. */
  ghost predicate Issued<T>(t: Table<T>, handle: nat) {
    Slot(handle) < |t.gens| && Generation(handle) <= t.gens[Slot(handle)]
  }

  /** Issued, and its entry has been freed since. */
  ghost predicate Dead<T>(t: Table<T>, handle: nat) {
    Issued(t, handle) && !Live(t, handle)
  }

  /** `u` is reachable from `t` by insertions and frees. */
  ghost predicate Later<T>(t: Table<T>, u: Table<T>) {
    && |t.slots| == |t.gens| <= |u.gens| == |u.slots|
    && forall i :: 0 <= i < |t.gens| ==>
      && t.gens[i] <= u.gens[i]
      && (t.gens[i] == u.gens[i] && t.slots[i].None? ==> u.slots[i].None?)
  }

  lemma LaterTransitive<T>(t: Table<T>, u: Table<T>, v: Table<T>)
    requires Later(t, u) && Later(u, v)
    ensures Later(t, v)
  {
    forall i | 0 <= i < |t.gens|
      ensures t.gens[i] <= v.gens[i]
      ensures t.gens[i] == v.gens[i] && t.slots[i].None? ==> v.slots[i].None?
    {
      assert t.gens[i] <= u.gens[i] <= v.gens[i];
    }
  }

  /** Once freed, a handle never resolves again: not while its slot is empty, reused or retired. */
  lemma DeadForever<T>(t: Table<T>, u: Table<T>, handle: nat)
    requires Later(t, u) && Dead(t, handle)
    ensures Dead(u, handle)
  {
  }

  /** The find loop and the two publication paths of `insert_with_reservations`. */
  method InsertInto<T>(slots: seq<Option<T>>, gens: seq<nat>, maxSlots: nat, value: T,
                       slotMemory: bool, genMemory: bool)
    returns (slots': seq<Option<T>>, gens': seq<nat>, r: Option<nat>, error: InsertError)
    requires Valid(Table(slots, gens))
    ensures match Insert(Table(slots, gens), maxSlots, value, slotMemory, genMemory)
            case Inserted(t, h) => slots' == t.slots && gens' == t.gens && r == Some(h)
            case Refused(e) => slots' == slots && gens' == gens && r == None && error == e
  {
    slots', gens', r, error := slots, gens, None, SlotLimit;
    ghost var t := Table(slots, gens);
    var k := 0;
    while k < |slots| && !(slots[k].None? && CanReuse(gens[k]))
      invariant k <= |slots|
      invariant FirstReusable(t, 0) == FirstReusable(t, k)
    {
      k := k + 1;
    }
    if k < |slots| {
      gens' := gens[k := gens[k] + 1];
      slots' := slots[k := Some(value)];
      r := Some(Encode(k, gens'[k]));
    } else if |slots| >= maxSlots || |slots| >= SLOT_COUNT {
      error := SlotLimit;
    } else if !slotMemory || !genMemory {
      error := NoMemory;
    } else {
      slots' := slots + [Some(value)];
      gens' := gens + [0];
      r := Some(Encode(|slots|, 0));
    }
  }
}
