/**
 The edge storage of a graph body. An entry, for a node or for a pin, holds its edges in packed 16-bit
 slots, in two words for long edges, or in a set of a shared pool.
 */
module PackedEdges {
  import opened Options

  // ---------- identifiers ----------

  // An id is four times the number of the entry; bit 0 tells a pin from a node, and bit 1, on the far end
  // of an edge, a driver from a sink.

  function Num(v: nat): nat { v / 4 }

  predicate IsDriver(v: nat) { v / 2 % 2 == 1 }

  predicate IsPin(v: nat) { v % 2 == 1 }

  /** The id of the entry itself. */
  function Key(v: nat): nat
  {
    if IsDriver(v) then v - 2 else v
  }

  function AsDriver(k: nat): nat
  {
    if IsDriver(k) then k else k + 2
  }

  /** An id is a number with a mark for drivers in bit 1 and one for pins in bit 0. */
  lemma {:induction false} IdParts(n: nat, driver: bool, pin: bool)
    ensures
      var v := 4 * n + (if driver then 2 else 0) + (if pin then 1 else 0);
      Num(v) == n && (IsDriver(v) <==> driver) && (IsPin(v) <==> pin)
  {
    var d, p := if driver then 1 else 0, if pin then 1 else 0;
    var v := 4 * n + 2 * d + p;
    assert v == 4 * n + (if driver then 2 else 0) + p;
    assert v / 2 == 2 * n + d && v % 2 == p && v / 4 == n;
    assert (2 * n + d) % 2 == d;
  }

  lemma {:induction false} KeyAndRole(v: nat)
    ensures !IsDriver(Key(v)) && Num(Key(v)) == Num(v) && (IsPin(Key(v)) <==> IsPin(v))
    ensures IsDriver(v) ==> AsDriver(Key(v)) == v
    ensures !IsDriver(v) ==> Key(v) == v && Key(AsDriver(v)) == v && IsDriver(AsDriver(v)) && Num(AsDriver(v)) == Num(v)
  {
  }

  // ---------- packed slots ----------

  const MAXMAG: nat := 8191
  const SIGN: nat := 0x8000

  function Delta(self: nat, v: nat): int
  {
    self - Num(v)
  }

  predicate Short(self: nat, v: nat)
  {
    Delta(self, v) <= MAXMAG && -Delta(self, v) <= MAXMAG
  }

  /** Bit 15 holds the sign of the delta, bits 2 to 14 its magnitude, and bits 0 and 1 the flags. */
  function Encode(self: nat, v: nat): (raw: nat)
    requires Short(self, v)
    ensures raw < 0x1_0000
  {
    var d := Delta(self, v);
    (if d < 0 then SIGN else 0) + (if d < 0 then -d else d) * 4 + v % 4
  }

  function Decode(self: nat, raw: nat): int
    requires raw < 0x1_0000
  {
    var mag := raw / 4 % 8192;
    (self - (if raw >= SIGN then -mag else mag)) * 4 + raw % 4
  }

  /** A packed edge is read back as it was. Only an edge to the sink of the node with the entry's own number
      is packed into the empty slot. */
  lemma {:induction false} DecodeEncode(self: nat, v: nat)
    requires Short(self, v)
    ensures Decode(self, Encode(self, v)) == v
    ensures Encode(self, v) == 0 <==> v == 4 * self
  {
    var d := Delta(self, v);
    var mag := if d < 0 then -d else d;
    var raw := Encode(self, v);
    assert raw % 4 == v % 4;
    assert raw / 4 == (if d < 0 then 8192 else 0) + mag;
    assert raw / 4 % 8192 == mag;
    assert raw >= SIGN <==> d < 0;
    assert Num(v) * 4 + v % 4 == v;
  }

  /** Every slot that stands for an edge is its packed form, unless it spells the delta zero as negative. */
  lemma {:induction false} EncodeDecode(self: nat, raw: nat)
    requires raw < 0x1_0000 && Decode(self, raw) >= 0
    ensures Short(self, Decode(self, raw))
    ensures Encode(self, Decode(self, raw)) == raw <==> !(raw >= SIGN && raw / 4 % 8192 == 0)
  {
    var mag := raw / 4 % 8192;
    var d := if raw >= SIGN then -mag else mag;
    var v := Decode(self, raw);
    assert v == (self - d) * 4 + raw % 4;
    assert Num(v) == self - d && v % 4 == raw % 4;
    assert raw / 4 == (if raw >= SIGN then 8192 else 0) + mag;
    assert raw == raw / 4 * 4 + raw % 4;
  }

  // ---------- entries ----------

  /** A node has four slots and three extra ones, a pin four. Zero marks a slot or a word that is free. With
      an overflow set, the first word of a node holds the graph that it instantiates. */
  datatype Entry = Entry(slots: seq<nat>, ledge0: nat, ledge1: nat, overflow: Option<nat>)

  predicate Sized(e: Entry, key: nat)
  {
    |e.slots| == (if IsPin(key) then 4 else 7) && forall i :: 0 <= i < |e.slots| ==> e.slots[i] < 0x1_0000
  }

  function Fresh(key: nat): Entry
  {
    Entry(if IsPin(key) then [0, 0, 0, 0] else [0, 0, 0, 0, 0, 0, 0], 0, 0, None)
  }

  predicate SlotHolds(slots: seq<nat>, self: nat, i: int, v: nat)
    requires forall k :: 0 <= k < |slots| ==> slots[k] < 0x1_0000
  {
    0 <= i < |slots| && slots[i] != 0 && Decode(self, slots[i]) == v
  }

  /** Every slot stands for some id. The same id may be held more than once. */
  ghost predicate Tidy(e: Entry, key: nat)
    requires Sized(e, key)
  {
    forall i :: 0 <= i < |e.slots| && e.slots[i] != 0 ==> Decode(Num(key), e.slots[i]) > 0
  }

  /** The id that a slot holds, if it holds one. */
  ghost function OfSlot(self: nat, raw: nat): multiset<nat>
  {
    if raw == 0 || raw >= 0x1_0000 || Decode(self, raw) < 0 then multiset{} else multiset{Decode(self, raw) as nat}
  }

  ghost function OfSlots(self: nat, slots: seq<nat>): multiset<nat>
  {
    if slots == [] then multiset{} else OfSlots(self, slots[..|slots| - 1]) + OfSlot(self, slots[|slots| - 1])
  }

  ghost function OfWord(v: nat): multiset<nat>
  {
    if v == 0 then multiset{} else multiset{v}
  }

  /** The edges that an entry holds outside a set, each as often as it holds it. */
  ghost function Inline(e: Entry, key: nat): multiset<nat>
  {
    OfSlots(Num(key), e.slots) + OfWord(e.ledge0) + OfWord(e.ledge1)
  }

  lemma {:induction false} BagInline(entries: Entries, sets: seq<set<nat>>, k: nat)
    requires k in entries && entries[k].overflow == None && EntryFits(entries[k], k, sets)
    ensures Bag(entries, sets, k) == Inline(entries[k], k)
  {
  }

  /** An entry that is cleared holds no edge. */
  lemma {:induction false} FreshIsEmpty(key: nat)
    ensures Sized(Fresh(key), key) && Inline(Fresh(key), key) == multiset{}
  {
    ZerosAreEmpty(Num(key), Fresh(key).slots);
  }

  lemma {:induction false} ZerosAreEmpty(self: nat, slots: seq<nat>)
    requires forall i :: 0 <= i < |slots| ==> slots[i] == 0
    ensures OfSlots(self, slots) == multiset{}
  {
    if slots != [] {
      ZerosAreEmpty(self, slots[..|slots| - 1]);
    }
  }

  ghost predicate EntryFits(e: Entry, key: nat, sets: seq<set<nat>>)
  {
    Sized(e, key) && !IsDriver(key)
    && if e.overflow.Some? then e.overflow.value < |sets| && 0 !in sets[e.overflow.value]
       else Tidy(e, key)
  }

  /** The edges that an entry holds. */
  ghost function Held(e: Entry, key: nat, sets: seq<set<nat>>): multiset<nat>
    requires EntryFits(e, key, sets)
  {
    if e.overflow.Some? then multiset(sets[e.overflow.value]) else Inline(e, key)
  }

  /** Each of them once. */
  ghost function Once(b: multiset<nat>): multiset<nat>
  {
    multiset(set x | x in b)
  }

  lemma {:induction false} SlotAppended(self: nat, front: seq<nat>, raw: nat)
    ensures OfSlots(self, front + [raw]) == OfSlots(self, front) + OfSlot(self, raw)
  {
    assert (front + [raw])[..|front|] == front;
  }

  lemma {:induction false} SlotChanged(self: nat, slots: seq<nat>, i: nat, raw: nat)
    requires i < |slots|
    ensures OfSlots(self, slots[i := raw]) + OfSlot(self, slots[i]) == OfSlots(self, slots) + OfSlot(self, raw)
    decreases |slots|
  {
    var n := |slots| - 1;
    var front, last := slots[..n], slots[n];
    assert slots == front + [last];
    SlotAppended(self, front, last);
    if i == n {
      assert slots[i := raw] == front + [raw];
      SlotAppended(self, front, raw);
      LastMoved(OfSlots(self, front), OfSlot(self, raw), OfSlots(self, front), OfSlot(self, last));
    } else {
      assert slots[i := raw] == front[i := raw] + [last];
      SlotAppended(self, front[i := raw], last);
      SlotChanged(self, front, i, raw);
      InnerMoved(OfSlots(self, front[i := raw]), OfSlot(self, front[i]), OfSlots(self, front), OfSlot(self, raw), OfSlot(self, last));
    }
  }

  lemma {:induction false} LastMoved(a: multiset<nat>, x: multiset<nat>, b: multiset<nat>, y: multiset<nat>)
    requires a == b
    ensures a + x + y == b + y + x
  {
  }

  lemma {:induction false} InnerMoved(a: multiset<nat>, x: multiset<nat>, b: multiset<nat>, y: multiset<nat>, last: multiset<nat>)
    requires a + x == b + y
    ensures a + last + x == b + last + y
  {
    assert a + last + x == (a + x) + last;
    assert b + last + y == (b + y) + last;
  }

  lemma {:induction false} SlotIs(self: nat, raw: nat)
    requires raw < 0x1_0000 && (raw != 0 ==> Decode(self, raw) > 0)
    ensures OfSlot(self, raw) == if raw == 0 then multiset{} else multiset{Decode(self, raw) as nat}
  {
  }

  lemma {:induction false} SlotsNext(self: nat, slots: seq<nat>, i: nat)
    requires i < |slots|
    ensures OfSlots(self, slots[..i + 1]) == OfSlots(self, slots[..i]) + OfSlot(self, slots[i])
  {
    assert slots[..i + 1][..i] == slots[..i];
  }

  lemma {:induction false} MinusOne(a: multiset<nat>, b: multiset<nat>, v: nat)
    requires a + multiset{v} == b
    ensures a == b - multiset{v}
  {
  }

  lemma {:induction false} MiddleOut(a: multiset<nat>, b: multiset<nat>, v: nat)
    ensures (a + multiset{} + b) + multiset{v} == a + multiset{v} + b
    ensures (a + b + multiset{}) + multiset{v} == a + b + multiset{v}
  {
  }

  lemma {:induction false} NotThere(a: multiset<nat>, v: nat)
    requires v !in a
    ensures a - multiset{v} == a
  {
  }

  lemma {:induction false} OnceAgain(b: multiset<nat>, v: nat)
    ensures Once(Once(b) + multiset{v}) == Once(b + multiset{v})
  {
    assert (set x | x in Once(b) + multiset{v}) == set x | x in b + multiset{v};
  }

  lemma {:induction false} SetLess(s: set<nat>, v: nat)
    ensures multiset(s - {v}) == multiset(s) - multiset{v}
  {
  }

  lemma {:induction false} InSlot(self: nat, slots: seq<nat>, i: nat, v: nat)
    requires i < |slots| && forall k :: 0 <= k < |slots| ==> slots[k] < 0x1_0000
    ensures v in OfSlot(self, slots[i]) <==> SlotHolds(slots, self, i, v)
  {
  }

  lemma {:induction false} InSlots(self: nat, slots: seq<nat>, v: nat)
    requires forall k :: 0 <= k < |slots| ==> slots[k] < 0x1_0000
    ensures v in OfSlots(self, slots) <==> exists i :: SlotHolds(slots, self, i, v)
  {
    if slots != [] {
      var n := |slots| - 1;
      InSlots(self, slots[..n], v);
      if i :| SlotHolds(slots[..n], self, i, v) {
        assert SlotHolds(slots, self, i, v);
      }
      if i :| SlotHolds(slots, self, i, v) {
        assert i < n ==> SlotHolds(slots[..n], self, i, v);
      }
      InSlot(self, slots, n, v);
      assert v in OfSlots(self, slots) <==> v in OfSlots(self, slots[..n]) || v in OfSlot(self, slots[n]);
    }
  }

  lemma {:induction false} NoZeroInline(e: Entry, key: nat)
    requires Sized(e, key) && Tidy(e, key)
    ensures 0 !in Inline(e, key)
  {
    InSlots(Num(key), e.slots, 0);
  }

  // ---------- the store ----------

  type Entries = map<nat, Entry>

  /** Every entry fits; overflow sets are not shared, and none is on the free list. */
  ghost predicate StoreFits(entries: Entries, sets: seq<set<nat>>, free: seq<nat>)
  {
    (forall k :: k in entries ==> EntryFits(entries[k], k, sets))
    && (forall j, k :: j in entries && k in entries && j != k && entries[j].overflow.Some? ==> entries[j].overflow != entries[k].overflow)
    && (forall i :: 0 <= i < |free| ==> free[i] < |sets|)
    && (forall i, j :: 0 <= i < j < |free| ==> free[i] != free[j])
    && forall k, i :: k in entries && 0 <= i < |free| ==> entries[k].overflow != Some(free[i])
  }

  /** A set of the pool is on the free list, or belongs to an entry. */
  ghost predicate Kept(entries: Entries, free: seq<nat>, i: nat)
  {
    i in free || exists k :: k in entries && entries[k].overflow == Some(i)
  }

  /** No set of the pool is lost, except perhaps one that is about to be given to an entry. */
  ghost predicate NoneLost(entries: Entries, pool: nat, free: seq<nat>, but: Option<nat>)
  {
    forall i: nat {:trigger Kept(entries, free, i)} :: i < pool && but != Some(i) ==> Kept(entries, free, i)
  }

  lemma {:induction false} SamePool(entries: Entries, now: Entries, pool: nat, free: seq<nat>, but: Option<nat>)
    requires NoneLost(entries, pool, free, but) && entries.Keys <= now.Keys
    requires forall k :: k in entries ==> now[k].overflow == entries[k].overflow || (entries[k].overflow == None && now[k].overflow == but)
    requires but.Some? ==> exists k :: k in now && now[k].overflow == but
    ensures NoneLost(now, pool, free, None)
  {
    forall i: nat | i < pool
      ensures Kept(now, free, i)
    {
      if but != Some(i) {
        assert Kept(entries, free, i);
        if i !in free {
          var k :| k in entries && entries[k].overflow == Some(i);
          assert now[k].overflow == Some(i);
        }
      }
    }
  }

  lemma {:induction false} GivenBack(entries: Entries, pool: nat, free: seq<nat>, k: nat)
    requires NoneLost(entries, pool, free, None) && k in entries
    ensures NoneLost(entries - {k}, pool, if entries[k].overflow.Some? then free + [entries[k].overflow.value] else free, None)
  {
    var freed := if entries[k].overflow.Some? then free + [entries[k].overflow.value] else free;
    forall i: nat | i < pool
      ensures Kept(entries - {k}, freed, i)
    {
      assert Kept(entries, free, i);
      if i !in free {
        var j :| j in entries && entries[j].overflow == Some(i);
        assert j == k ==> freed[|free|] == i;
        assert j != k ==> j in entries - {k};
      }
    }
  }

  lemma {:induction false} Taken(entries: Entries, pool: nat, free: seq<nat>)
    requires NoneLost(entries, pool, free, None)
    ensures free != [] ==> NoneLost(entries, pool, free[..|free| - 1], Some(free[|free| - 1]))
    ensures NoneLost(entries, pool + 1, free, Some(pool))
  {
    if free != [] {
      var left, last := free[..|free| - 1], free[|free| - 1];
      assert free == left + [last];
      forall i: nat | i < pool && i != last
        ensures Kept(entries, left, i)
      {
        assert Kept(entries, free, i);
      }
    }
    forall i: nat | i < pool
      ensures Kept(entries, free, i)
    {
      assert Kept(entries, free, i);
    }
  }

  /** The edges of entry k, each as often as it is held. */
  ghost function Bag(entries: Entries, sets: seq<set<nat>>, k: nat): multiset<nat>
  {
    if k in entries && EntryFits(entries[k], k, sets) then Held(entries[k], k, sets) else multiset{}
  }

  /** Entry k holds edge v. */
  ghost predicate Has(entries: Entries, sets: seq<set<nat>>, k: nat, v: nat)
  {
    v in Bag(entries, sets, k)
  }

  /** A number between the bounds whose slot is free. */
  method FreeSlot(slots: seq<nat>) returns (i: nat)
    ensures i < |slots| ==> slots[i] == 0
    ensures i == |slots| <==> forall j :: 0 <= j < |slots| ==> slots[j] != 0
    ensures i <= |slots|
  {
    i := 0;
    while i < |slots| && slots[i] != 0
      invariant i <= |slots| && forall j :: 0 <= j < i ==> slots[j] != 0
    {
      i := i + 1;
    }
  }

  /** There is room for an edge: one of the two long words, or a slot when the edge is a short one. */
  predicate Fits(e: Entry, key: nat, v: nat)
  {
    e.ledge0 == 0 || e.ledge1 == 0 || (Short(Num(key), v) && Encode(Num(key), v) != 0 && 0 in e.slots)
  }

  /** Where an edge goes: a slot, one of the long words, or nowhere inline. It may be there already. */
  method PlaceInline(e: Entry, key: nat, v: nat) returns (placed: bool, f: Entry)
    requires Sized(e, key) && Tidy(e, key) && e.overflow == None && v != 0
    ensures placed <==> Fits(e, key, v)
    ensures !placed ==> f == e
    ensures f.overflow == None && Sized(f, key) && Tidy(f, key)
    ensures placed ==> Inline(f, key) == Inline(e, key) + multiset{v}
  {
    if Short(Num(key), v) {
      var raw := Encode(Num(key), v);
      DecodeEncode(Num(key), v);
      if raw != 0 {
        var i := FreeSlot(e.slots);
        if i < |e.slots| {
          f := e.(slots := e.slots[i := raw]);
          SlotTaken(e, key, i, raw, v);
          return true, f;
        }
      }
    }
    if e.ledge0 == 0 {
      f := e.(ledge0 := v);
      MiddleOut(OfSlots(Num(key), e.slots), OfWord(e.ledge1), v);
      return true, f;
    }
    if e.ledge1 == 0 {
      f := e.(ledge1 := v);
      MiddleOut(OfSlots(Num(key), e.slots), OfWord(e.ledge0), v);
      return true, f;
    }
    return false, e;
  }

  lemma {:induction false} SlotTaken(e: Entry, key: nat, i: nat, raw: nat, v: nat)
    requires Sized(e, key) && Tidy(e, key) && i < |e.slots| && e.slots[i] == 0 && 0 < raw < 0x1_0000 && Decode(Num(key), raw) == v && v != 0
    ensures
      var f := e.(slots := e.slots[i := raw]);
      Sized(f, key) && Tidy(f, key) && Inline(f, key) == Inline(e, key) + multiset{v}
  {
    var f := e.(slots := e.slots[i := raw]);
    SlotChanged(Num(key), e.slots, i, raw);
    var a, b := OfSlots(Num(key), f.slots), OfSlots(Num(key), e.slots);
    assert a == b + multiset{v};
    assert (b + multiset{v}) + OfWord(e.ledge0) + OfWord(e.ledge1) == (b + OfWord(e.ledge0) + OfWord(e.ledge1)) + multiset{v};
  }

  method FlushSlots(self: nat, slots: seq<nat>) returns (s: set<nat>)
    requires forall k :: 0 <= k < |slots| ==> slots[k] < 0x1_0000 && (slots[k] != 0 ==> Decode(self, slots[k]) > 0)
    ensures forall x :: x in s <==> x in OfSlots(self, slots)
  {
    s := {};
    for i := 0 to |slots|
      invariant forall x :: x in s <==> x in OfSlots(self, slots[..i])
    {
      SlotsNext(self, slots, i);
      if slots[i] != 0 {
        s := s + {Decode(self, slots[i])};
      }
    }
    assert slots[..|slots|] == slots;
  }

  /** All edges that an entry holds inline, as a set of the pool. */
  method Flush(e: Entry, key: nat) returns (s: set<nat>)
    requires Sized(e, key) && Tidy(e, key)
    ensures multiset(s) == Once(Inline(e, key)) && 0 !in s
  {
    s := FlushSlots(Num(key), e.slots);
    if e.ledge0 != 0 {
      s := s + {e.ledge0};
    }
    if e.ledge1 != 0 {
      s := s + {e.ledge1};
    }
    InInline(e, key);
    NoZeroInline(e, key);
    SetIsOnce(s, Inline(e, key));
  }

  lemma {:induction false} SetIsOnce(s: set<nat>, b: multiset<nat>)
    requires forall x :: x in s <==> x in b
    ensures multiset(s) == Once(b)
  {
    assert s == set x | x in b;
  }

  lemma {:induction false} InInline(e: Entry, key: nat)
    ensures forall x :: x in Inline(e, key) <==> x in OfSlots(Num(key), e.slots) || (x != 0 && (x == e.ledge0 || x == e.ledge1))
  {
  }

  /** Frees the first place that holds the edge. */
  method RemoveInline(e: Entry, key: nat, v: nat) returns (found: bool, f: Entry)
    requires Sized(e, key) && Tidy(e, key) && e.overflow == None && v != 0
    ensures f.overflow == None && Sized(f, key) && Tidy(f, key)
    ensures found <==> v in Inline(e, key)
    ensures Inline(f, key) == Inline(e, key) - multiset{v}
  {
    if e.ledge0 == v {
      f := e.(ledge0 := 0);
      MiddleOut(OfSlots(Num(key), e.slots), OfWord(e.ledge1), v);
      MinusOne(Inline(f, key), Inline(e, key), v);
      return true, f;
    }
    if e.ledge1 == v {
      f := e.(ledge1 := 0);
      MiddleOut(OfSlots(Num(key), e.slots), OfWord(e.ledge0), v);
      MinusOne(Inline(f, key), Inline(e, key), v);
      return true, f;
    }
    for i := 0 to |e.slots|
      invariant forall j :: 0 <= j < i ==> !SlotHolds(e.slots, Num(key), j, v)
    {
      if e.slots[i] != 0 && Decode(Num(key), e.slots[i]) == v {
        f := e.(slots := e.slots[i := 0]);
        SlotFreed(e, key, i, v);
        return true, f;
      }
    }
    InSlots(Num(key), e.slots, v);
    NotThere(Inline(e, key), v);
    return false, e;
  }

  lemma {:induction false} SlotFreed(e: Entry, key: nat, i: nat, v: nat)
    requires Sized(e, key) && Tidy(e, key) && SlotHolds(e.slots, Num(key), i, v)
    ensures
      var f := e.(slots := e.slots[i := 0]);
      Sized(f, key) && Tidy(f, key) && v in Inline(e, key) && Inline(f, key) == Inline(e, key) - multiset{v}
  {
    var f := e.(slots := e.slots[i := 0]);
    SlotChanged(Num(key), e.slots, i, 0);
    FirstLess(OfSlots(Num(key), f.slots), OfSlots(Num(key), e.slots), OfWord(e.ledge0), OfWord(e.ledge1), v);
  }

  lemma {:induction false} FirstLess(a: multiset<nat>, b: multiset<nat>, c: multiset<nat>, d: multiset<nat>, v: nat)
    requires a + multiset{v} == b + multiset{}
    ensures v in b + c + d && a + c + d == b + c + d - multiset{v}
  {
    assert b == a + multiset{v};
    assert (a + multiset{v}) + c + d == (a + c + d) + multiset{v};
  }

  // ---------- operations on one entry ----------

  /** Replacing one entry, and no set of another, leaves the others as they are. */
  lemma {:induction false} Replaced(entries: Entries, sets: seq<set<nat>>, free: seq<nat>, k: nat, f: Entry, now: seq<set<nat>>)
    requires StoreFits(entries, sets, free) && k in entries && EntryFits(f, k, now) && |sets| <= |now|
    requires forall j :: j in entries && j != k && entries[j].overflow.Some? ==>
               now[entries[j].overflow.value] == sets[entries[j].overflow.value] && entries[j].overflow != f.overflow
    requires forall i :: 0 <= i < |free| ==> f.overflow != Some(free[i])
    ensures StoreFits(entries[k := f], now, free)
    ensures Bag(entries[k := f], now, k) == Held(f, k, now)
    ensures forall j :: j != k ==> Bag(entries[k := f], now, j) == Bag(entries, sets, j)
  {
  }

  /** Nothing but the edges of one entry differs; every other entry stays as it is. */
  twostate predicate OnlyBag(store: EdgeStore, k: nat, b: multiset<nat>)
    reads store
  {
    store.entries.Keys == old(store.entries.Keys)
    && (forall j :: Bag(store.entries, store.sets, j) == if j == k then b else old(Bag(store.entries, store.sets, j)))
    && forall j :: j in store.entries && j != k ==> store.entries[j] == old(store.entries)[j]
  }

  /** Every entry that stays is an instance of the graph that it was an instance of. */
  twostate predicate SameGraphs(store: EdgeStore)
    reads store
  {
    forall j :: j in store.entries && j in old(store.entries) ==> GetSubnode(store.entries[j]) == GetSubnode(old(store.entries)[j])
  }

  class EdgeStore {
    var entries: Entries
    var sets: seq<set<nat>>
    var free: seq<nat>

    ghost predicate Valid()
      reads this
    {
      StoreFits(entries, sets, free) && NoneLost(entries, |sets|, free, None)
    }

    constructor ()
      ensures Valid() && entries == map[]
    {
      entries, sets, free := map[], [], [];
    }

    /** A new entry, which holds no edge. */
    method Create(k: nat)
      requires Valid() && k !in entries && !IsDriver(k)
      modifies this`entries
      ensures Valid() && entries.Keys == old(entries.Keys) + {k} && forall j :: Bag(entries, sets, j) == old(Bag(entries, sets, j))
      ensures (forall j :: j in old(entries) ==> entries[j] == old(entries)[j]) && GetSubnode(entries[k]) == None
    {
      FreshIsEmpty(k);
      SamePool(entries, entries[k := Fresh(k)], |sets|, free, None);
      entries := entries[k := Fresh(k)];
    }

    /** An empty set of the pool that no entry uses: a freed one, or a new one. */
    method Alloc() returns (idx: nat)
      requires Valid()
      modifies this`sets, this`free
      ensures StoreFits(entries, sets, free) && NoneLost(entries, |sets|, free, Some(idx))
      ensures idx < |sets| && sets[idx] == {} && |old(sets)| <= |sets|
      ensures forall i :: 0 <= i < |old(sets)| && i != idx ==> sets[i] == old(sets)[i]
      ensures (forall k :: k in entries ==> entries[k].overflow != Some(idx)) && forall i :: 0 <= i < |free| ==> free[i] != idx
    {
      Taken(entries, |sets|, free);
      if free != [] {
        idx := free[|free| - 1];
        free := free[..|free| - 1];
        sets := sets[idx := {}];
      } else {
        sets := sets + [{}];
        idx := |sets| - 1;
      }
    }

    /** Moves the inline edges of an entry to a set of its own, which holds each of them once. */
    method Promote(k: nat)
      requires Valid() && k in entries && entries[k].overflow == None
      modifies this
      ensures Valid() && OnlyBag(this, k, Once(old(Bag(entries, sets, k)))) && k in entries
      ensures entries[k].overflow.Some? && entries[k].ledge0 == 0 && SameGraphs(this)
    {
      var e := entries[k];
      var held := Flush(e, k);
      ghost var sets0 := sets;
      var idx := Alloc();
      SameBags(entries, sets0, sets, idx);
      Adopt(k, idx, held);
    }

    /** Gives an entry a set that no entry uses, with these edges. */
    method Adopt(k: nat, idx: nat, held: set<nat>)
      requires StoreFits(entries, sets, free) && NoneLost(entries, |sets|, free, Some(idx))
      requires k in entries && entries[k].overflow == None && idx < |sets| && 0 !in held
      requires (forall j :: j in entries ==> entries[j].overflow != Some(idx)) && forall i :: 0 <= i < |free| ==> free[i] != idx
      modifies this`entries, this`sets
      ensures Valid() && OnlyBag(this, k, multiset(held)) && k in entries
      ensures entries[k].overflow.Some? && entries[k].ledge0 == 0 && SameGraphs(this)
    {
      ghost var was := sets;
      sets := sets[idx := held];
      var f := Fresh(k).(overflow := Some(idx));
      assert EntryFits(f, k, sets);
      Replaced(entries, was, free, k, f, sets);
      assert entries[k := f][k].overflow == Some(idx);
      SamePool(entries, entries[k := f], |sets|, free, Some(idx));
      entries := entries[k := f];
    }

    /** Writes an entry back that keeps its set, or its having none. */
    method Put(k: nat, f: Entry)
      requires Valid() && k in entries && EntryFits(f, k, sets) && f.overflow == entries[k].overflow
      modifies this`entries
      ensures Valid() && entries == old(entries)[k := f] && OnlyBag(this, k, Held(f, k, sets))
    {
      Replaced(entries, sets, free, k, f, sets);
      SamePool(entries, entries[k := f], |sets|, free, None);
      entries := entries[k := f];
    }

    /** Changes the set of an entry. */
    method PutSet(k: nat, s: set<nat>)
      requires Valid() && k in entries && entries[k].overflow.Some? && 0 !in s
      modifies this`sets
      ensures Valid() && OnlyBag(this, k, multiset(s)) && entries == old(entries)
    {
      ghost var was := sets;
      sets := sets[entries[k].overflow.value := s];
      Replaced(entries, was, free, k, entries[k], sets);
      assert entries[k := entries[k]] == entries;
    }

    /** Adds an edge, which the entry may hold already: once more while it is held inline, and else no more than once. */
    method Add(k: nat, v: nat)
      requires Valid() && k in entries && v != 0
      modifies this
      ensures Valid() && k in entries
      ensures OnlyBag(this, k, if entries[k].overflow == None then old(Bag(entries, sets, k)) + multiset{v}
                               else Once(old(Bag(entries, sets, k)) + multiset{v}))
      ensures SameGraphs(this)
      ensures entries[k].overflow == None <==> old(entries[k].overflow == None && Fits(entries[k], k, v))
    {
      var e := entries[k];
      if e.overflow == None {
        var placed, f := PlaceInline(e, k, v);
        if placed {
          Put(k, f);
          return;
        }
        Promote(k);
        OnceAgain(old(Bag(entries, sets, k)), v);
      }
      AddToSet(k, v);
    }

    method AddToSet(k: nat, v: nat)
      requires Valid() && k in entries && v != 0 && entries[k].overflow.Some?
      modifies this`sets
      ensures Valid() && OnlyBag(this, k, Once(old(Bag(entries, sets, k)) + multiset{v})) && entries == old(entries)
    {
      var s := sets[entries[k].overflow.value];
      assert (set x | x in multiset(s) + multiset{v}) == s + {v};
      PutSet(k, s + {v});
    }

    /** Removes an edge once, and tells whether it was there. */
    method Remove(k: nat, v: nat) returns (found: bool)
      requires Valid() && k in entries && v != 0
      modifies this
      ensures Valid() && OnlyBag(this, k, old(Bag(entries, sets, k)) - multiset{v}) && (found <==> old(Has(entries, sets, k, v)))
      ensures SameGraphs(this)
    {
      if entries[k].overflow.Some? {
        found := RemoveFromSet(k, v);
      } else {
        found := RemoveHeld(k, v);
      }
    }

    method RemoveHeld(k: nat, v: nat) returns (found: bool)
      requires Valid() && k in entries && entries[k].overflow == None && v != 0
      modifies this
      ensures Valid() && OnlyBag(this, k, old(Bag(entries, sets, k)) - multiset{v}) && (found <==> old(Has(entries, sets, k, v)))
      ensures SameGraphs(this)
    {
      BagInline(entries, sets, k);
      var f;
      found, f := RemoveInline(entries[k], k, v);
      PutInline(k, f);
    }

    /** Writes back an entry that has no set. */
    method PutInline(k: nat, f: Entry)
      requires Valid() && k in entries && entries[k].overflow == None && f.overflow == None && Sized(f, k) && Tidy(f, k)
      modifies this`entries
      ensures Valid() && OnlyBag(this, k, Inline(f, k)) && SameGraphs(this)
    {
      Put(k, f);
    }

    method RemoveFromSet(k: nat, v: nat) returns (found: bool)
      requires Valid() && k in entries && entries[k].overflow.Some? && v != 0
      modifies this
      ensures Valid() && OnlyBag(this, k, old(Bag(entries, sets, k)) - multiset{v}) && (found <==> old(Has(entries, sets, k, v)))
      ensures SameGraphs(this)
    {
      var s := sets[entries[k].overflow.value];
      found := v in s;
      SetLess(s, v);
      PutSet(k, s - {v});
    }

    /** Makes a node an instance of a graph: its edges move to a set, and the freed word names the graph. */
    method SetSubnode(k: nat, gid: nat)
      requires Valid() && k in entries && !IsPin(k)
      modifies this
      ensures Valid() && OnlyBag(this, k, if gid == 0 || old(entries[k].overflow.Some?) then old(Bag(entries, sets, k)) else Once(old(Bag(entries, sets, k))))
      ensures GetSubnode(entries[k]) == if gid == 0 then GetSubnode(old(entries)[k]) else Some(gid)
      ensures forall j :: j in entries && j != k ==> GetSubnode(entries[j]) == GetSubnode(old(entries)[j])
    {
      if gid == 0 {
        return;
      }
      if entries[k].overflow == None {
        Promote(k);
      }
      NameGraph(k, gid);
    }

    /** Names the graph in the word that an entry with a set does not need. */
    method NameGraph(k: nat, gid: nat)
      requires Valid() && k in entries && !IsPin(k) && entries[k].overflow.Some? && gid != 0
      modifies this
      ensures Valid() && OnlyBag(this, k, old(Bag(entries, sets, k))) && GetSubnode(entries[k]) == Some(gid)
    {
      Put(k, entries[k].(ledge0 := gid));
    }

    /** The edges of an entry, each as often as it is held. */
    method Edges(k: nat) returns (l: seq<nat>, ghost at: seq<nat>)
      requires Valid() && k in entries
      ensures multiset(l) == Bag(entries, sets, k)
      ensures entries[k].overflow == None ==> InStorageOrder(entries[k], k, l, at)
    {
      var e := entries[k];
      at := [];
      if e.overflow.Some? {
        l := Listed(sets[e.overflow.value]);
      } else {
        l, at := InlineEdges(e, k);
      }
    }

    /** Gives up an entry and its set. */
    method Discard(k: nat)
      requires Valid() && k in entries
      modifies this
      ensures Valid() && entries == old(entries) - {k} && entries.Keys == old(entries.Keys) - {k}
      ensures forall j :: Bag(entries, sets, j) == if j == k then multiset{} else old(Bag(entries, sets, j))
    {
      var e := entries[k];
      GivenBack(entries, |sets|, free, k);
      if e.overflow.Some? {
        free := free + [e.overflow.value];
        sets := sets[e.overflow.value := {}];
      }
      entries := entries - {k};
    }
  }

  /** A set of the pool that no entry uses does not matter. */
  lemma {:induction false} SameBags(entries: Entries, sets0: seq<set<nat>>, sets: seq<set<nat>>, idx: nat)
    requires |sets0| <= |sets| && forall i :: 0 <= i < |sets0| && i != idx ==> sets[i] == sets0[i]
    requires forall k :: k in entries ==> EntryFits(entries[k], k, sets0) && EntryFits(entries[k], k, sets) && entries[k].overflow != Some(idx)
    ensures forall j :: Bag(entries, sets, j) == Bag(entries, sets0, j)
  {
  }

  function GetSubnode(e: Entry): Option<nat>
  {
    if e.overflow.Some? && e.ledge0 != 0 then Some(e.ledge0) else None
  }

  /** The members of a set in some order. */
  method Listed(s: set<nat>) returns (l: seq<nat>)
    ensures multiset(l) == multiset(s)
  {
    l := [];
    var left := s;
    while left != {}
      invariant left <= s && multiset(l) == multiset(s - left)
      decreases |left|
    {
      var x :| x in left;
      assert s - (left - {x}) == (s - left) + {x};
      l, left := l + [x], left - {x};
    }
    assert s - {} == s;
  }

  /** The ids are those of the first n slots as far as they are in use, in the order of the slots. */
  ghost predicate InSlotOrder(self: nat, slots: seq<nat>, n: nat, l: seq<nat>, at: seq<nat>)
    requires forall k :: 0 <= k < |slots| ==> slots[k] < 0x1_0000
  {
    |at| == |l| && (forall j :: 0 <= j < |at| ==> at[j] < n && SlotHolds(slots, self, at[j], l[j]))
    && (forall i, j :: 0 <= i < j < |at| ==> at[i] < at[j])
    && forall k: nat :: k < n && k < |slots| && slots[k] != 0 ==> k in at
  }

  lemma {:induction false} NextInSlotOrder(self: nat, slots: seq<nat>, n: nat, l: seq<nat>, at: seq<nat>)
    requires n < |slots| && forall k :: 0 <= k < |slots| ==> slots[k] < 0x1_0000
    requires InSlotOrder(self, slots, n, l, at)
    ensures slots[n] == 0 ==> InSlotOrder(self, slots, n + 1, l, at)
    ensures slots[n] != 0 && Decode(self, slots[n]) >= 0 ==> InSlotOrder(self, slots, n + 1, l + [Decode(self, slots[n])], at + [n])
  {
    assert (at + [n])[|at|] == n;
    assert forall k :: k in at ==> k in at + [n];
  }

  lemma {:induction false} NextOfSlots(self: nat, slots: seq<nat>, i: nat, l: seq<nat>)
    requires i < |slots| && slots[i] < 0x1_0000 && (slots[i] != 0 ==> Decode(self, slots[i]) > 0)
    requires multiset(l) == OfSlots(self, slots[..i])
    ensures slots[i] == 0 ==> multiset(l) == OfSlots(self, slots[..i + 1])
    ensures slots[i] != 0 ==> multiset(l + [Decode(self, slots[i]) as nat]) == OfSlots(self, slots[..i + 1])
  {
    SlotsNext(self, slots, i);
    SlotIs(self, slots[i]);
  }

  method SlotEdges(self: nat, slots: seq<nat>) returns (l: seq<nat>, ghost at: seq<nat>)
    requires forall k :: 0 <= k < |slots| ==> slots[k] < 0x1_0000 && (slots[k] != 0 ==> Decode(self, slots[k]) > 0)
    ensures multiset(l) == OfSlots(self, slots) && InSlotOrder(self, slots, |slots|, l, at)
  {
    l, at := [], [];
    for i := 0 to |slots|
      invariant multiset(l) == OfSlots(self, slots[..i])
      invariant InSlotOrder(self, slots, i, l, at)
    {
      NextOfSlots(self, slots, i, l);
      NextInSlotOrder(self, slots, i, l, at);
      if slots[i] != 0 {
        l, at := l + [Decode(self, slots[i])], at + [i];
      }
    }
    assert slots[..|slots|] == slots;
  }

  /** The inline edges in storage order: the slots, then the two words. */
  method InlineEdges(e: Entry, key: nat) returns (l: seq<nat>, ghost at: seq<nat>)
    requires Sized(e, key) && Tidy(e, key)
    ensures multiset(l) == Inline(e, key) && InStorageOrder(e, key, l, at)
  {
    l, at := SlotEdges(Num(key), e.slots);
    InlineListed(e, key, l, at);
    l := AppendWords(l, e);
  }

  method AppendWords(slots: seq<nat>, e: Entry) returns (l: seq<nat>)
    ensures l == slots + Words(e)
  {
    l := slots;
    if e.ledge0 != 0 {
      l := l + [e.ledge0];
    }
    if e.ledge1 != 0 {
      l := l + [e.ledge1];
    }
  }

  lemma {:induction false} InlineListed(e: Entry, key: nat, slots: seq<nat>, at: seq<nat>)
    requires Sized(e, key) && multiset(slots) == OfSlots(Num(key), e.slots) && InSlotOrder(Num(key), e.slots, |e.slots|, slots, at)
    ensures multiset(slots + Words(e)) == Inline(e, key) && InStorageOrder(e, key, slots + Words(e), at)
  {
    WordsAre(e);
    Behind(slots, Words(e));
  }

  lemma {:induction false} WordsAre(e: Entry)
    ensures multiset(Words(e)) == OfWord(e.ledge0) + OfWord(e.ledge1)
  {
  }

  function Words(e: Entry): seq<nat>
  {
    (if e.ledge0 == 0 then [] else [e.ledge0]) + (if e.ledge1 == 0 then [] else [e.ledge1])
  }

  lemma {:induction false} Behind(a: seq<nat>, b: seq<nat>)
    ensures (a + b)[..|a|] == a && (a + b)[|a|..] == b
  {
  }

  ghost predicate InStorageOrder(e: Entry, key: nat, l: seq<nat>, at: seq<nat>)
    requires Sized(e, key)
  {
    |at| <= |l| && InSlotOrder(Num(key), e.slots, |e.slots|, l[..|at|], at)
    && l[|at|..] == Words(e)
  }

  // ---------- the edges of a graph ----------

  /** The id under which the far end of edge v of entry k knows entry k. */
  function Back(k: nat, v: nat): nat
  {
    if IsDriver(v) then k else AsDriver(k)
  }

  /** Every edge is known at both ends. */
  ghost predicate Symmetric(entries: Entries, sets: seq<set<nat>>)
  {
    forall k: nat, v: nat {:trigger Has(entries, sets, k, v)} :: Has(entries, sets, k, v) ==> Has(entries, sets, Key(v), Back(k, v))
  }

  /** No edge is held twice. */
  ghost predicate AllOnce(entries: Entries, sets: seq<set<nat>>)
  {
    forall k: nat, v: nat {:trigger Bag(entries, sets, k)[v]} :: Bag(entries, sets, k)[v] <= 1
  }

  /** An edge from the driver of one entry to the sink of another. */
  ghost predicate Edge(entries: Entries, sets: seq<set<nat>>, d: nat, s: nat)
  {
    !IsDriver(s) && Has(entries, sets, d, s)
  }

  lemma {:induction false} BackAndForth(k: nat, v: nat)
    requires !IsDriver(k)
    ensures Key(Back(k, v)) == k && Back(Key(v), Back(k, v)) == v
  {
    KeyAndRole(k);
    KeyAndRole(v);
  }

  lemma {:induction false} HoldersAreKeys(entries: Entries, sets: seq<set<nat>>, k: nat, v: nat)
    requires Has(entries, sets, k, v)
    ensures k in entries && !IsDriver(k)
  {
  }

  lemma {:induction false} OneEdgeMore(was: Entries, sets0: seq<set<nat>>, entries: Entries, sets: seq<set<nat>>, d: nat, s: nat)
    requires Symmetric(was, sets0) && !IsDriver(d) && !IsDriver(s)
    requires forall j: nat, x: nat :: Has(entries, sets, j, x) <==> Has(was, sets0, j, x) || (j == d && x == s) || (j == s && x == AsDriver(d))
    ensures Symmetric(entries, sets)
    ensures forall x: nat, y: nat :: Edge(entries, sets, x, y) <==> Edge(was, sets0, x, y) || (x == d && y == s)
  {
    KeyAndRole(d);
    KeyAndRole(s);
  }

  lemma {:induction false} OneEdgeLess(was: Entries, sets0: seq<set<nat>>, entries: Entries, sets: seq<set<nat>>, d: nat, s: nat)
    requires Symmetric(was, sets0) && !IsDriver(d) && !IsDriver(s)
    requires forall j: nat, x: nat :: Has(entries, sets, j, x) <==> Has(was, sets0, j, x) && !(j == d && x == s) && !(j == s && x == AsDriver(d))
    ensures Symmetric(entries, sets)
    ensures forall x: nat, y: nat :: Edge(entries, sets, x, y) <==> Edge(was, sets0, x, y) && !(x == d && y == s)
  {
    KeyAndRole(d);
    KeyAndRole(s);
    forall k: nat, v: nat | Has(entries, sets, k, v)
      ensures Has(entries, sets, Key(v), Back(k, v))
    {
      assert Has(was, sets0, k, v);
      HoldersAreKeys(was, sets0, k, v);
      BackAndForth(k, v);
      KeyAndRole(v);
      KeyAndRole(k);
    }
  }

  /** What the entries hold after an edge was added to one of them. */
  ghost predicate Added(was: Entries, sets0: seq<set<nat>>, entries: Entries, sets: seq<set<nat>>, k: nat, v: nat)
  {
    (forall j: nat, x: nat :: Has(entries, sets, j, x) <==> Has(was, sets0, j, x) || (j == k && x == v))
    && (AllOnce(was, sets0) && !Has(was, sets0, k, v) ==> AllOnce(entries, sets))
  }

  lemma {:induction false} AddedIs(was: Entries, sets0: seq<set<nat>>, entries: Entries, sets: seq<set<nat>>, k: nat, v: nat)
    requires forall j :: j != k ==> Bag(entries, sets, j) == Bag(was, sets0, j)
    requires Bag(entries, sets, k) == Bag(was, sets0, k) + multiset{v} || Bag(entries, sets, k) == Once(Bag(was, sets0, k) + multiset{v})
    ensures Added(was, sets0, entries, sets, k, v)
  {
    forall x: nat
      ensures Has(entries, sets, k, x) <==> Has(was, sets0, k, x) || x == v
    {
    }
    if AllOnce(was, sets0) && !Has(was, sets0, k, v) {
      forall j: nat, x: nat
        ensures Bag(entries, sets, j)[x] <= 1
      {
        assert Bag(was, sets0, j)[x] <= 1;
      }
    }
  }

  /** Adds an edge, to both ends. */
  method AddEdge(store: EdgeStore, driver: nat, sink: nat)
    requires store.Valid() && Symmetric(store.entries, store.sets)
    requires Key(driver) in store.entries && Key(sink) in store.entries && Key(driver) > 0 && Key(sink) > 0
    modifies store
    ensures store.Valid() && Symmetric(store.entries, store.sets) && store.entries.Keys == old(store.entries.Keys)
    ensures forall x: nat, y: nat :: Edge(store.entries, store.sets, x, y) <==>
              old(Edge(store.entries, store.sets, x, y)) || (x == Key(driver) && y == Key(sink))
    ensures old(AllOnce(store.entries, store.sets) && !Edge(store.entries, store.sets, Key(driver), Key(sink))) ==> AllOnce(store.entries, store.sets)
    ensures SameGraphs(store)
  {
    var d, s := Key(driver), Key(sink);
    ghost var was, sets0 := store.entries, store.sets;
    KeyAndRole(driver);
    KeyAndRole(sink);
    store.Add(d, s);
    ghost var mid, sets1 := store.entries, store.sets;
    AddedIs(was, sets0, mid, sets1, d, s);
    store.Add(s, AsDriver(d));
    AddedIs(mid, sets1, store.entries, store.sets, s, AsDriver(d));
    OneEdgeMore(was, sets0, store.entries, store.sets, d, s);
    BackAndForth(s, AsDriver(d));
    assert Has(was, sets0, s, AsDriver(d)) ==> Has(was, sets0, d, s);
  }

  // ---------- deleting an edge ----------

  ghost function Removed(b: multiset<nat>, yes: bool, v: nat): multiset<nat>
  {
    if yes then b - multiset{v} else b
  }

  /** What the removal of each of two ids from the entry of the other leaves. */
  ghost predicate Unlinked(was: Entries, sets0: seq<set<nat>>, entries: Entries, sets: seq<set<nat>>, driver: nat, sink: nat)
  {
    forall j: nat :: Bag(entries, sets, j) == Removed(Removed(Bag(was, sets0, j), j == Key(driver), sink), j == Key(sink), driver)
  }

  /** The edge from d to s is gone at both ends, and no other is touched. */
  ghost predicate OnlyItWent(was: Entries, sets0: seq<set<nat>>, entries: Entries, sets: seq<set<nat>>, d: nat, s: nat)
  {
    forall j: nat, x: nat :: Has(entries, sets, j, x) <==>
      Has(was, sets0, j, x) && !(j == d && x == s) && !(j == s && x == AsDriver(d))
  }

  /** The marks with which deletion names the two places of one edge. */
  predicate MarksFit(driver: nat, sink: nat)
  {
    if IsDriver(driver) then !IsDriver(sink) else IsDriver(sink) && Key(driver) == Key(sink)
  }

  /** When deletion does what it says. With fitting marks, the edge must not be held twice at either end. With others there must be no
      such edge, and what is named instead must be missing, or held more than once. */
  ghost predicate Clean(entries: Entries, sets: seq<set<nat>>, driver: nat, sink: nat)
  {
    var d, s := Key(driver), Key(sink);
    if MarksFit(driver, sink) then Bag(entries, sets, d)[s] <= 1 && Bag(entries, sets, s)[AsDriver(d)] <= 1
    else !Edge(entries, sets, d, s) && Bag(entries, sets, d)[sink] != 1 && Bag(entries, sets, s)[driver] != 1
  }

  lemma {:induction false} LeftAt(was: Entries, sets0: seq<set<nat>>, entries: Entries, sets: seq<set<nat>>, driver: nat, sink: nat, j: nat, x: nat)
    requires Unlinked(was, sets0, entries, sets, driver, sink)
    ensures Has(entries, sets, j, x) <==>
            Bag(was, sets0, j)[x] > (if j == Key(driver) && x == sink then 1 else 0) + if j == Key(sink) && x == driver then 1 else 0
  {
    assert Bag(entries, sets, j) == Removed(Removed(Bag(was, sets0, j), j == Key(driver), sink), j == Key(sink), driver);
  }

  lemma {:induction false} GoneByMarks(was: Entries, sets0: seq<set<nat>>, entries: Entries, sets: seq<set<nat>>, driver: nat, sink: nat)
    requires Symmetric(was, sets0) && Unlinked(was, sets0, entries, sets, driver, sink)
    ensures OnlyItWent(was, sets0, entries, sets, Key(driver), Key(sink)) <==> Clean(was, sets0, driver, sink)
  {
    KeyAndRole(driver);
    KeyAndRole(sink);
    KnownAtBoth(was, sets0, Key(driver), Key(sink));
    if Clean(was, sets0, driver, sink) {
      forall j: nat, x: nat
        ensures Has(entries, sets, j, x) <==>
                Has(was, sets0, j, x) && !(j == Key(driver) && x == Key(sink)) && !(j == Key(sink) && x == AsDriver(Key(driver)))
      {
        CleanAt(was, sets0, entries, sets, driver, sink, j, x);
      }
    } else {
      UncleanShows(was, sets0, entries, sets, driver, sink);
    }
  }

  lemma {:induction false} KnownAtBoth(entries: Entries, sets: seq<set<nat>>, d: nat, s: nat)
    requires Symmetric(entries, sets) && !IsDriver(d) && !IsDriver(s)
    ensures Has(entries, sets, d, s) <==> Has(entries, sets, s, AsDriver(d))
  {
    KeyAndRole(d);
    KeyAndRole(s);
    BackAndForth(d, s);
    BackAndForth(s, AsDriver(d));
  }

  lemma {:induction false} CleanAt(was: Entries, sets0: seq<set<nat>>, entries: Entries, sets: seq<set<nat>>, driver: nat, sink: nat, j: nat, x: nat)
    requires Unlinked(was, sets0, entries, sets, driver, sink) && Clean(was, sets0, driver, sink)
    requires Has(was, sets0, Key(driver), Key(sink)) <==> Has(was, sets0, Key(sink), AsDriver(Key(driver)))
    ensures Has(entries, sets, j, x) <==>
            Has(was, sets0, j, x) && !(j == Key(driver) && x == Key(sink)) && !(j == Key(sink) && x == AsDriver(Key(driver)))
  {
    KeyAndRole(driver);
    KeyAndRole(sink);
    LeftAt(was, sets0, entries, sets, driver, sink, j, x);
  }

  lemma {:induction false} UncleanShows(was: Entries, sets0: seq<set<nat>>, entries: Entries, sets: seq<set<nat>>, driver: nat, sink: nat)
    requires Unlinked(was, sets0, entries, sets, driver, sink) && !Clean(was, sets0, driver, sink)
    requires Has(was, sets0, Key(driver), Key(sink)) <==> Has(was, sets0, Key(sink), AsDriver(Key(driver)))
    ensures !OnlyItWent(was, sets0, entries, sets, Key(driver), Key(sink))
  {
    var d, s := Key(driver), Key(sink);
    KeyAndRole(driver);
    KeyAndRole(sink);
    if MarksFit(driver, sink) || Edge(was, sets0, d, s) {
      LeftAt(was, sets0, entries, sets, driver, sink, d, s);
      LeftAt(was, sets0, entries, sets, driver, sink, s, AsDriver(d));
      assert Has(entries, sets, d, s) || Has(entries, sets, s, AsDriver(d));
    } else {
      LeftAt(was, sets0, entries, sets, driver, sink, d, sink);
      LeftAt(was, sets0, entries, sets, driver, sink, s, driver);
      assert (Has(was, sets0, d, sink) && !Has(entries, sets, d, sink)) || (Has(was, sets0, s, driver) && !Has(entries, sets, s, driver));
    }
  }

  /** Removes what each of two ids holds about the other, once. */
  method DelEdgeInt(store: EdgeStore, driver: nat, sink: nat)
    requires store.Valid()
    requires Key(driver) in store.entries && Key(sink) in store.entries && Key(driver) > 0 && Key(sink) > 0
    modifies store
    ensures store.Valid() && store.entries.Keys == old(store.entries.Keys) && SameGraphs(store)
    ensures Unlinked(old(store.entries), old(store.sets), store.entries, store.sets, driver, sink)
  {
    var _ := store.Remove(Key(driver), sink);
    var _ := store.Remove(Key(sink), driver);
  }

  /** Deletes an edge, by two ids that are used with the marks they come with. Exactly this edge goes, at both
      ends, if and only if the deletion is clean. */
  method DelEdge(store: EdgeStore, driver: nat, sink: nat)
    requires store.Valid() && Symmetric(store.entries, store.sets)
    requires Key(driver) in store.entries && Key(sink) in store.entries && Key(driver) > 0 && Key(sink) > 0
    modifies store
    ensures store.Valid() && store.entries.Keys == old(store.entries.Keys) && SameGraphs(store)
    ensures Unlinked(old(store.entries), old(store.sets), store.entries, store.sets, driver, sink)
    ensures OnlyItWent(old(store.entries), old(store.sets), store.entries, store.sets, Key(driver), Key(sink)) <==>
            old(Clean(store.entries, store.sets, driver, sink))
    ensures OnlyItWent(old(store.entries), old(store.sets), store.entries, store.sets, Key(driver), Key(sink)) ==>
              Symmetric(store.entries, store.sets)
              && forall x: nat, y: nat :: Edge(store.entries, store.sets, x, y) <==>
                   old(Edge(store.entries, store.sets, x, y)) && !(x == Key(driver) && y == Key(sink))
  {
    ghost var was, sets0 := store.entries, store.sets;
    KeyAndRole(driver);
    KeyAndRole(sink);
    DelEdgeInt(store, driver, sink);
    GoneByMarks(was, sets0, store.entries, store.sets, driver, sink);
    if OnlyItWent(was, sets0, store.entries, store.sets, Key(driver), Key(sink)) {
      OneEdgeLess(was, sets0, store.entries, store.sets, Key(driver), Key(sink));
    }
  }

  /** Where no edge is held twice, a deletion is clean exactly when the marks fit or the two have no edge in either direction. */
  lemma {:induction false} CleanIs(entries: Entries, sets: seq<set<nat>>, driver: nat, sink: nat)
    requires Symmetric(entries, sets) && AllOnce(entries, sets)
    ensures Clean(entries, sets, driver, sink) <==>
            MarksFit(driver, sink) || (!Edge(entries, sets, Key(driver), Key(sink)) && !Edge(entries, sets, Key(sink), Key(driver)))
  {
    var d, s := Key(driver), Key(sink);
    KeyAndRole(driver);
    KeyAndRole(sink);
    BackAndForth(d, s);
    BackAndForth(s, AsDriver(d));
    BackAndForth(s, d);
    BackAndForth(d, AsDriver(s));
    assert Has(entries, sets, d, s) <==> Has(entries, sets, s, AsDriver(d));
    assert Has(entries, sets, s, d) <==> Has(entries, sets, d, AsDriver(s));
    assert Bag(entries, sets, d)[sink] <= 1 && Bag(entries, sets, s)[driver] <= 1;
    assert Bag(entries, sets, d)[s] <= 1 && Bag(entries, sets, s)[AsDriver(d)] <= 1;
  }

  // ---------- where a deletion is not clean ----------

  /** A node that holds at most two edges, in its first slots. */
  function Slots(a: nat, b: nat): Entry
  {
    Entry([a, b, 0, 0, 0, 0, 0], 0, 0, None)
  }

  lemma {:induction false} NoEdges(self: nat, slots: seq<nat>)
    requires forall k :: 0 <= k < |slots| ==> slots[k] == 0
    ensures OfSlots(self, slots) == multiset{}
  {
    if slots != [] {
      NoEdges(self, slots[..|slots| - 1]);
    }
  }

  lemma {:induction false} TwoSlots(self: nat, none: seq<nat>, a: nat, b: nat)
    requires |none| >= 2 && forall k :: 0 <= k < |none| ==> none[k] == 0
    ensures var one: seq<nat> := none[0 := a]; OfSlots(self, one[1 := b]) == OfSlot(self, a) + OfSlot(self, b)
  {
    var one: seq<nat> := none[0 := a];
    NoEdges(self, none);
    SlotChanged(self, none, 0, a);
    assert OfSlots(self, one) == OfSlots(self, one) + OfSlot(self, 0) == multiset{} + OfSlot(self, a) == OfSlot(self, a);
    SlotChanged(self, one, 1, b);
    assert OfSlots(self, one[1 := b]) == OfSlots(self, one[1 := b]) + OfSlot(self, 0);
  }

  /** The same edge in the first n slots. */
  function Copies(raw: nat, n: nat): Entry
  {
    Slots(if n > 0 then raw else 0, if n > 1 then raw else 0)
  }

  lemma {:induction false} HeldCopies(raw: nat, n: nat, key: nat, v: nat, sets: seq<set<nat>>)
    requires 0 < raw < 0x1_0000 && n <= 2 && !IsDriver(key) && !IsPin(key) && Decode(Num(key), raw) == v && v > 0
    ensures EntryFits(Copies(raw, n), key, sets) && Held(Copies(raw, n), key, sets) == multiset{}[v := n]
  {
    CopiesFit(raw, n, key, sets);
    var a, b := if n > 0 then raw else 0, if n > 1 then raw else 0;
    SlotsOf(Num(key), a, b, Slots(a, b).slots);
    CopiesAdd(OfSlot(Num(key), a), OfSlot(Num(key), b), v, n);
  }

  lemma {:induction false} CopiesFit(raw: nat, n: nat, key: nat, sets: seq<set<nat>>)
    requires raw < 0x1_0000 && !IsDriver(key) && !IsPin(key) && Decode(Num(key), raw) > 0
    ensures EntryFits(Copies(raw, n), key, sets)
  {
  }

  lemma {:induction false} SlotsOf(self: nat, a: nat, b: nat, slots: seq<nat>)
    requires slots == Slots(a, b).slots
    ensures OfSlots(self, slots) == OfSlot(self, a) + OfSlot(self, b)
  {
    var none: seq<nat> := [0, 0, 0, 0, 0, 0, 0];
    TwoSlots(self, none, a, b);
    var one: seq<nat> := none[0 := a];
    assert one[1 := b] == slots;
  }

  lemma {:induction false} CopiesAdd(a: multiset<nat>, b: multiset<nat>, v: nat, n: nat)
    requires n <= 2 && a == (if n > 0 then multiset{v} else multiset{}) && b == if n > 1 then multiset{v} else multiset{}
    ensures a + b + multiset{} + multiset{} == multiset{}[v := n]
  {
  }

  /** Nodes 4 and 8, and how often they hold an edge from the one to the other. */
  function Pair(atDriver: nat, atSink: nat): Entries
  {
    map[4 := Copies(0x8004, atDriver), 8 := Copies(6, atSink)]
  }

  lemma {:induction false} BagOfPair(atDriver: nat, atSink: nat, k: nat)
    requires atDriver <= 2 && atSink <= 2
    ensures Bag(Pair(atDriver, atSink), [], k) ==
            if k == 4 then multiset{}[8 := atDriver] else if k == 8 then multiset{}[6 := atSink] else multiset{}
  {
    if k == 4 {
      assert Decode(1, 0x8004) == 8;
      HeldCopies(0x8004, atDriver, 4, 8, []);
    } else if k == 8 {
      assert Decode(2, 6) == 6;
      HeldCopies(6, atSink, 8, 6, []);
    }
  }

  lemma {:induction false} OneFewer(v: nat, n: nat, x: nat)
    ensures multiset{}[v := n] - multiset{x} == if x == v && n > 0 then multiset{}[v := n - 1] else multiset{}[v := n]
  {
  }

  lemma {:induction false} PairUnlinked(driver: nat, sink: nat, a: nat, b: nat, atDriver: nat, atSink: nat)
    requires 0 < a <= 2 && 0 < b <= 2 && Key(driver) != Key(sink)
    requires atDriver == if (Key(driver) == 4 && sink == 8) || (Key(sink) == 4 && driver == 8) then a - 1 else a
    requires atSink == if (Key(driver) == 8 && sink == 6) || (Key(sink) == 8 && driver == 6) then b - 1 else b
    ensures Unlinked(Pair(a, b), [], Pair(atDriver, atSink), [], driver, sink)
  {
    forall j: nat
      ensures Bag(Pair(atDriver, atSink), [], j) == Removed(Removed(Bag(Pair(a, b), [], j), j == Key(driver), sink), j == Key(sink), driver)
    {
      BagOfPair(a, b, j);
      BagOfPair(atDriver, atSink, j);
      OneFewer(8, a, sink);
      OneFewer(8, a, driver);
      OneFewer(6, b, sink);
      OneFewer(6, b, driver);
    }
  }

  lemma {:induction false} HasPair(atDriver: nat, atSink: nat, k: nat, x: nat)
    requires atDriver <= 2 && atSink <= 2
    ensures Has(Pair(atDriver, atSink), [], k, x) <==> (atDriver > 0 && k == 4 && x == 8) || (atSink > 0 && k == 8 && x == 6)
  {
    BagOfPair(atDriver, atSink, k);
  }

  lemma {:induction false} PairSymmetric(atDriver: nat, atSink: nat)
    requires atDriver <= 2 && atSink <= 2
    ensures Symmetric(Pair(atDriver, atSink), []) <==> (atDriver > 0 <==> atSink > 0)
    ensures Edge(Pair(atDriver, atSink), [], 4, 8) <==> atDriver > 0
    ensures !Edge(Pair(atDriver, atSink), [], 8, 4)
  {
    HasPair(atDriver, atSink, 4, 8);
    HasPair(atDriver, atSink, 8, 6);
    HasPair(atDriver, atSink, 8, 4);
    PairKeys();
    if atDriver > 0 <==> atSink > 0 {
      forall k: nat, x: nat | Has(Pair(atDriver, atSink), [], k, x)
        ensures Has(Pair(atDriver, atSink), [], Key(x), Back(k, x))
      {
        HasPair(atDriver, atSink, k, x);
      }
    }
  }

  lemma {:induction false} PairKeys()
    ensures Key(8) == 8 && Back(4, 8) == 6 && Key(6) == 4 && Back(8, 6) == 8
  {
  }

  /** Two unmarked ids leave the edge known at its sink alone. */
  lemma {:induction false} UnmarkedDriverLeavesHalf()
    ensures Symmetric(Pair(1, 1), []) && Edge(Pair(1, 1), [], 4, 8)
    ensures Unlinked(Pair(1, 1), [], Pair(0, 1), [], 4, 8) && !Symmetric(Pair(0, 1), [])
  {
    PairUnlinked(4, 8, 1, 1, 0, 1);
    PairSymmetric(1, 1);
    PairSymmetric(0, 1);
  }

  /** Two marked ids leave it known at its driver alone. */
  lemma {:induction false} MarkedSinkLeavesHalf()
    ensures Symmetric(Pair(1, 1), []) && Edge(Pair(1, 1), [], 4, 8)
    ensures Unlinked(Pair(1, 1), [], Pair(1, 0), [], 6, 10) && !Symmetric(Pair(1, 0), [])
  {
    PairUnlinked(6, 10, 1, 1, 1, 0);
    PairSymmetric(1, 1);
    PairSymmetric(1, 0);
  }

  /** With the marks exchanged, deleting an edge from 8 to 4 deletes the one from 4 to 8. */
  lemma {:induction false} ExchangedMarksReverse()
    ensures !Edge(Pair(1, 1), [], 8, 4) && Edge(Pair(1, 1), [], 4, 8)
    ensures Unlinked(Pair(1, 1), [], Pair(0, 0), [], 8, 6) && !Edge(Pair(0, 0), [], 4, 8)
  {
    PairUnlinked(8, 6, 1, 1, 0, 0);
    PairSymmetric(1, 1);
    PairSymmetric(0, 0);
  }

  /** An edge that its driver holds twice and its sink once is left at the driver alone, with marks that fit. */
  lemma {:induction false} SecondCopyStays()
    ensures Symmetric(Pair(2, 1), []) && MarksFit(6, 8)
    ensures Unlinked(Pair(2, 1), [], Pair(1, 0), [], 6, 8) && !Symmetric(Pair(1, 0), [])
  {
    PairUnlinked(6, 8, 2, 1, 1, 0);
    PairSymmetric(2, 1);
    PairSymmetric(1, 0);
  }

  // ---------- deleting a pin ----------

  /** What the far ends of these edges of entry p hold of them, at entry k. */
  ghost function Backs(l: seq<nat>, p: nat, k: nat): multiset<nat>
  {
    if l == [] then multiset{}
    else Backs(l[..|l| - 1], p, k) + if Key(l[|l| - 1]) == k then multiset{Back(p, l[|l| - 1])} else multiset{}
  }

  lemma {:induction false} BacksNext(l: seq<nat>, i: nat, p: nat, k: nat)
    requires i < |l|
    ensures Backs(l[..i + 1], p, k) == Backs(l[..i], p, k) + if Key(l[i]) == k then multiset{Back(p, l[i])} else multiset{}
  {
    assert l[..i + 1][..i] == l[..i];
  }

  lemma {:induction false} OneBack(v: nat, p: nat, k: nat, x: nat)
    requires !IsDriver(p) && !IsDriver(k)
    ensures Key(v) == k && Back(p, v) == x <==> Key(x) == p && v == Back(k, x)
  {
    BackAndForth(p, v);
    BackAndForth(k, x);
  }

  lemma {:induction false} CountNext(l: seq<nat>, n: nat, y: nat)
    requires |l| == n + 1
    ensures multiset(l)[y] == multiset(l[..n])[y] + if l[n] == y then 1 else 0
  {
    assert l == l[..n] + [l[n]];
  }

  lemma {:induction false} BacksCount(l: seq<nat>, p: nat, k: nat, x: nat)
    requires !IsDriver(p) && !IsDriver(k)
    ensures Backs(l, p, k)[x] == if Key(x) == p then multiset(l)[Back(k, x)] else 0
  {
    if l != [] {
      var n := |l| - 1;
      BacksCount(l[..n], p, k, x);
      OneBack(l[n], p, k, x);
      CountNext(l, n, Back(k, x));
    }
  }

  lemma {:induction false} MinusTwice(a: multiset<nat>, b: multiset<nat>, c: multiset<nat>)
    ensures a - b - c == a - (b + c)
  {
  }

  lemma {:induction false} BackRemoved(l: seq<nat>, i: nat, p: nat, k: nat, first: multiset<nat>, mid: multiset<nat>, now: multiset<nat>)
    requires i < |l| && mid == first - Backs(l[..i], p, k) && now == if k == Key(l[i]) then mid - multiset{Back(p, l[i])} else mid
    ensures now == first - Backs(l[..i + 1], p, k)
  {
    BacksNext(l, i, p, k);
    MinusTwice(first, Backs(l[..i], p, k), multiset{Back(p, l[i])});
  }

  method RemoveBackEdges(store: EdgeStore, p: nat, l: seq<nat>)
    requires store.Valid() && p > 0 && !IsDriver(p)
    requires forall v: nat :: v in l ==> Key(v) in store.entries
    modifies store
    ensures store.Valid() && store.entries.Keys == old(store.entries.Keys)
    ensures forall k :: Bag(store.entries, store.sets, k) == old(Bag(store.entries, store.sets, k)) - Backs(l, p, k)
    ensures SameGraphs(store)
  {
    for i := 0 to |l|
      invariant store.Valid() && store.entries.Keys == old(store.entries.Keys) && SameGraphs(store)
      invariant forall k :: Bag(store.entries, store.sets, k) == old(Bag(store.entries, store.sets, k)) - Backs(l[..i], p, k)
    {
      assert l[i] in l;
      KeyAndRole(p);
      ghost var was, sets0 := store.entries, store.sets;
      var _ := store.Remove(Key(l[i]), Back(p, l[i]));
      forall k
        ensures Bag(store.entries, store.sets, k) == old(Bag(store.entries, store.sets, k)) - Backs(l[..i + 1], p, k)
      {
        BackRemoved(l, i, p, k, old(Bag(store.entries, store.sets, k)), Bag(was, sets0, k), Bag(store.entries, store.sets, k));
      }
    }
    assert l[..|l|] == l;
  }

  /** No entry that stays holds an edge of one that goes more often than that one holds it. */
  ghost predicate Settled(entries: Entries, sets: seq<set<nat>>, gone: set<nat>)
  {
    forall k: nat, x: nat :: k !in gone && Key(x) in gone ==> Bag(entries, sets, k)[x] <= Bag(entries, sets, Key(x))[Back(k, x)]
  }

  /** What stays when entries go with what they hold at the far ends of their edges. */
  ghost predicate Cleared(was: Entries, sets0: seq<set<nat>>, entries: Entries, sets: seq<set<nat>>, gone: set<nat>)
  {
    forall k: nat, x: nat :: Has(entries, sets, k, x) <==>
      Has(was, sets0, k, x) && k !in gone
      && (Key(x) in gone ==> Bag(was, sets0, k)[x] > Bag(was, sets0, Key(x))[Back(k, x)])
  }

  /** Nothing mentions what is gone, and the edges that are left are known at both ends, exactly when all was settled. */
  lemma {:induction false} ClearedIff(was: Entries, sets0: seq<set<nat>>, entries: Entries, sets: seq<set<nat>>, gone: set<nat>)
    requires Symmetric(was, sets0) && Cleared(was, sets0, entries, sets, gone)
    ensures Symmetric(entries, sets) <==> Settled(was, sets0, gone)
    ensures Settled(was, sets0, gone) ==> forall k: nat, x: nat :: Has(entries, sets, k, x) <==> Has(was, sets0, k, x) && k !in gone && Key(x) !in gone
  {
    if Settled(was, sets0, gone) {
      forall k: nat, x: nat | Has(entries, sets, k, x)
        ensures Has(entries, sets, Key(x), Back(k, x))
      {
        assert Has(was, sets0, k, x);
        HoldersAreKeys(was, sets0, k, x);
        BackAndForth(k, x);
      }
    } else {
      var k: nat, x: nat :| k !in gone && Key(x) in gone && Bag(was, sets0, k)[x] > Bag(was, sets0, Key(x))[Back(k, x)];
      assert Has(entries, sets, k, x) && !Has(entries, sets, Key(x), Back(k, x));
    }
  }

  /** Where no edge is held twice, all is settled. */
  lemma {:induction false} OnceIsSettled(entries: Entries, sets: seq<set<nat>>, gone: set<nat>)
    requires Symmetric(entries, sets) && AllOnce(entries, sets)
    ensures Settled(entries, sets, gone)
  {
    forall k: nat, x: nat | k !in gone && Key(x) in gone
      ensures Bag(entries, sets, k)[x] <= Bag(entries, sets, Key(x))[Back(k, x)]
    {
      assert Bag(entries, sets, k)[x] <= 1;
      if Has(entries, sets, k, x) {
        assert Has(entries, sets, Key(x), Back(k, x));
      }
    }
  }

  lemma {:induction false} PinCleared(was: Entries, sets0: seq<set<nat>>, entries: Entries, sets: seq<set<nat>>, l: seq<nat>, p: nat)
    requires multiset(l) == Bag(was, sets0, p) && !IsDriver(p)
    requires forall k :: Bag(entries, sets, k) == if k == p then multiset{} else Bag(was, sets0, k) - Backs(l, p, k)
    ensures Cleared(was, sets0, entries, sets, {p})
  {
    var gone := {p};
    forall k: nat, x: nat
      ensures Has(entries, sets, k, x) <==>
              Has(was, sets0, k, x) && k !in gone && (Key(x) in gone ==> Bag(was, sets0, k)[x] > Bag(was, sets0, Key(x))[Back(k, x)])
    {
      PinClearedAt(was, sets0, entries, sets, l, p, gone, k, x);
    }
  }

  lemma {:induction false} PinClearedAt(was: Entries, sets0: seq<set<nat>>, entries: Entries, sets: seq<set<nat>>, l: seq<nat>, p: nat,
                                        gone: set<nat>, k: nat, x: nat)
    requires multiset(l) == Bag(was, sets0, p) && !IsDriver(p) && gone == {p}
    requires Bag(entries, sets, k) == if k == p then multiset{} else Bag(was, sets0, k) - Backs(l, p, k)
    ensures Has(entries, sets, k, x) <==>
            Has(was, sets0, k, x) && k !in gone && (Key(x) in gone ==> Bag(was, sets0, k)[x] > Bag(was, sets0, Key(x))[Back(k, x)])
  {
    if k != p && Has(was, sets0, k, x) {
      HoldersAreKeys(was, sets0, k, x);
      BacksCount(l, p, k, x);
    }
    LessIn(Bag(was, sets0, k), Backs(l, p, k), x);
  }

  lemma {:induction false} LessIn(a: multiset<nat>, b: multiset<nat>, x: nat)
    ensures x in a - b <==> a[x] > b[x]
  {
  }

  /** Deletes a pin: at the far ends of its edges, and then the entry. */
  method DeletePin(store: EdgeStore, p: nat)
    requires store.Valid() && Symmetric(store.entries, store.sets) && p in store.entries && IsPin(p)
    modifies store
    ensures store.Valid() && store.entries.Keys == old(store.entries.Keys) - {p}
    ensures Cleared(old(store.entries), old(store.sets), store.entries, store.sets, {p})
    ensures Symmetric(store.entries, store.sets) <==> old(Settled(store.entries, store.sets, {p}))
    ensures SameGraphs(store)
  {
    ghost var was, sets0 := store.entries, store.sets;
    var l, _ := store.Edges(p);
    forall v: nat | v in l
      ensures Key(v) in store.entries
    {
      assert v in multiset(l) && Has(was, sets0, p, v);
      HoldersAreKeys(was, sets0, Key(v), Back(p, v));
    }
    RemoveBackEdges(store, p, l);
    store.Discard(p);
    PinCleared(was, sets0, store.entries, store.sets, l, p);
    ClearedIff(was, sets0, store.entries, store.sets, {p});
  }

  /** Node 8 drives pin 5. The node holds the edge twice, in slots, and the pin once, in a set. */
  function Doubled(): Entries
  {
    map[5 := Fresh(5).(overflow := Some(0)), 8 := Copies(5, 2)]
  }

  lemma {:induction false} BagOfDoubled(k: nat)
    ensures Bag(Doubled(), [{10}], k) == if k == 5 then multiset{10} else if k == 8 then multiset{}[5 := 2] else multiset{}
    ensures k in Doubled() ==> EntryFits(Doubled()[k], k, [{10}])
  {
    if k == 8 {
      assert Decode(2, 5) == 5;
      HeldCopies(5, 2, 8, 5, [{10}]);
    } else if k == 5 {
      assert EntryFits(Doubled()[5], 5, [{10}]);
    }
  }

  /** Such an edge is known at both ends, but not settled: deleting the pin leaves it at the node. */
  lemma {:induction false} DoubledEdgeStays()
    ensures StoreFits(Doubled(), [{10}], []) && Symmetric(Doubled(), [{10}]) && !Settled(Doubled(), [{10}], {5})
  {
    BagOfDoubled(5);
    BagOfDoubled(8);
    assert Key(5) == 5 && Back(8, 5) == 10 && Key(10) == 8 && Back(5, 10) == 5;
    forall k: nat, x: nat | Has(Doubled(), [{10}], k, x)
      ensures Has(Doubled(), [{10}], Key(x), Back(k, x))
    {
      BagOfDoubled(k);
      assert (k == 8 && x == 5) || (k == 5 && x == 10);
    }
    assert Bag(Doubled(), [{10}], 8)[5] == 2 && Bag(Doubled(), [{10}], 5)[10] == 1;
  }

  // ---------- deleting a node ----------

  /** The two ids of an edge that entry k holds. */
  function Ends(k: nat, v: nat): (nat, nat)
  {
    if IsDriver(v) then (v, k) else (AsDriver(k), v)
  }

  /** What a pair of ids names at entry k. */
  ghost function Named(e: (nat, nat), k: nat): multiset<nat>
  {
    (if Key(e.0) == k then multiset{e.1} else multiset{}) + if Key(e.1) == k then multiset{e.0} else multiset{}
  }

  ghost function AllNamed(l: seq<(nat, nat)>, k: nat): multiset<nat>
  {
    if l == [] then multiset{} else AllNamed(l[..|l| - 1], k) + Named(l[|l| - 1], k)
  }

  lemma {:induction false} NamedJoin(a: seq<(nat, nat)>, b: seq<(nat, nat)>, k: nat)
    ensures AllNamed(a + b, k) == AllNamed(a, k) + AllNamed(b, k)
  {
    if b == [] {
      assert a + b == a;
    } else {
      assert (a + b)[..|a + b| - 1] == a + b[..|b| - 1];
      NamedJoin(a, b[..|b| - 1], k);
    }
  }

  lemma {:induction false} NamedEnds(j: nat, v: nat, k: nat, x: nat)
    requires !IsDriver(j) && !IsDriver(k) && j != k
    ensures Named(Ends(j, v), k)[x] == if Key(x) == j && v == Back(k, x) then 1 else 0
  {
    KeyAndRole(v);
    KeyAndRole(j);
    KeyAndRole(k);
    KeyAndRole(x);
  }

  /** What the ends of the edges of one entry name at another. */
  lemma {:induction false} NamedByEnds(j: nat, edges: seq<nat>, l: seq<(nat, nat)>, k: nat, x: nat)
    requires !IsDriver(j) && !IsDriver(k) && j != k && |l| == |edges| && forall i :: 0 <= i < |l| ==> l[i] == Ends(j, edges[i])
    ensures AllNamed(l, k)[x] == if Key(x) == j then multiset(edges)[Back(k, x)] else 0
  {
    if l != [] {
      var n := |l| - 1;
      NamedByEnds(j, edges[..n], l[..n], k, x);
      NamedEnds(j, edges[n], k, x);
      assert edges == edges[..n] + [edges[n]];
    }
  }

  /** What the ends of all edges of the given entries name at an entry that is none of them. */
  ghost predicate NamesBacks(entries: Entries, sets: seq<set<nat>>, keys: seq<nat>, l: seq<(nat, nat)>)
  {
    forall k: nat, x: nat {:trigger NamesBack(entries, sets, keys, l, k, x)} :: NamesBack(entries, sets, keys, l, k, x)
  }

  ghost predicate NamesBack(entries: Entries, sets: seq<set<nat>>, keys: seq<nat>, l: seq<(nat, nat)>, k: nat, x: nat)
  {
    !IsDriver(k) && k !in keys ==> AllNamed(l, k)[x] == if Key(x) in keys then Bag(entries, sets, Key(x))[Back(k, x)] else 0
  }

  method EndsOf(k: nat, edges: seq<nat>) returns (l: seq<(nat, nat)>)
    ensures |l| == |edges| && forall i :: 0 <= i < |l| ==> l[i] == Ends(k, edges[i])
  {
    l := [];
    for i := 0 to |edges|
      invariant |l| == i && forall j :: 0 <= j < i ==> l[j] == Ends(k, edges[j])
    {
      l := l + [Ends(k, edges[i])];
    }
  }

  /** The ends of an edge of one of the entries. */
  ghost predicate OfSome(entries: Entries, sets: seq<set<nat>>, keys: seq<nat>, e: (nat, nat))
  {
    exists k: nat, v: nat :: k in keys && Has(entries, sets, k, v) && e == Ends(k, v)
  }

  /** The ends of every edge of the given entries. */
  method EdgesOf(store: EdgeStore, keys: seq<nat>) returns (l: seq<(nat, nat)>)
    requires store.Valid() && forall k :: k in keys ==> k in store.entries
    requires forall i, j :: 0 <= i < j < |keys| ==> keys[i] != keys[j]
    ensures forall e :: e in l ==> OfSome(store.entries, store.sets, keys, e)
    ensures NamesBacks(store.entries, store.sets, keys, l)
  {
    l := [];
    for i := 0 to |keys|
      invariant forall e :: e in l ==> OfSome(store.entries, store.sets, keys, e)
      invariant NamesBacks(store.entries, store.sets, keys[..i], l)
    {
      assert keys[i] in keys;
      var edges, _ := store.Edges(keys[i]);
      var more := EndsOf(keys[i], edges);
      forall e | e in more
        ensures OfSome(store.entries, store.sets, keys, e)
      {
        var j :| 0 <= j < |more| && more[j] == e;
        assert edges[j] in multiset(edges);
        assert Has(store.entries, store.sets, keys[i], edges[j]) && e == Ends(keys[i], edges[j]);
      }
      NamesOneMore(store.entries, store.sets, keys, i, l, edges, more);
      l := l + more;
    }
    assert keys[..|keys|] == keys;
  }

  lemma {:induction false} NamesOneMore(entries: Entries, sets: seq<set<nat>>, keys: seq<nat>, i: nat, l: seq<(nat, nat)>, edges: seq<nat>, more: seq<(nat, nat)>)
    requires i < |keys| && keys[i] in entries && !IsDriver(keys[i]) && keys[i] !in keys[..i] && NamesBacks(entries, sets, keys[..i], l)
    requires multiset(edges) == Bag(entries, sets, keys[i])
    requires |more| == |edges| && forall j :: 0 <= j < |more| ==> more[j] == Ends(keys[i], edges[j])
    ensures NamesBacks(entries, sets, keys[..i + 1], l + more)
  {
    OneMoreKey(keys, i);
    NamesAll(entries, sets, keys[..i], keys[i], l, edges, more, keys[..i + 1]);
  }

  lemma {:induction false} NamesAll(entries: Entries, sets: seq<set<nat>>, keys: seq<nat>, key: nat, l: seq<(nat, nat)>, edges: seq<nat>, more: seq<(nat, nat)>,
                                    after: seq<nat>)
    requires key in entries && !IsDriver(key) && key !in keys && NamesBacks(entries, sets, keys, l) && multiset(edges) == Bag(entries, sets, key)
    requires |more| == |edges| && forall j :: 0 <= j < |more| ==> more[j] == Ends(key, edges[j])
    requires forall k :: k in after <==> k in keys || k == key
    ensures NamesBacks(entries, sets, after, l + more)
  {
    forall k: nat, x: nat
      ensures NamesBack(entries, sets, after, l + more, k, x)
    {
      if !IsDriver(k) && k !in after {
        NamesAt(entries, sets, keys, key, l, edges, more, k, x);
      }
    }
  }

  lemma {:induction false} OneMoreKey(keys: seq<nat>, i: nat)
    requires i < |keys|
    ensures forall k :: k in keys[..i + 1] <==> k in keys[..i] || k == keys[i]
  {
    assert keys[..i + 1] == keys[..i] + [keys[i]];
  }

  lemma {:induction false} NamesAt(entries: Entries, sets: seq<set<nat>>, keys: seq<nat>, key: nat, l: seq<(nat, nat)>, edges: seq<nat>, more: seq<(nat, nat)>,
                                   k: nat, x: nat)
    requires !IsDriver(key) && key !in keys && NamesBacks(entries, sets, keys, l) && multiset(edges) == Bag(entries, sets, key)
    requires |more| == |edges| && forall j :: 0 <= j < |more| ==> more[j] == Ends(key, edges[j])
    requires !IsDriver(k) && k !in keys && k != key
    ensures AllNamed(l + more, k)[x] == if Key(x) in keys || Key(x) == key then Bag(entries, sets, Key(x))[Back(k, x)] else 0
  {
    NamedJoin(l, more, k);
    NamedByEnds(key, edges, more, k, x);
    assert NamesBack(entries, sets, keys, l, k, x);
  }

  lemma {:induction false} RemovedIs(b: multiset<nat>, e: (nat, nat), k: nat)
    ensures Removed(Removed(b, k == Key(e.0), e.1), k == Key(e.1), e.0) == b - Named(e, k)
  {
  }

  lemma {:induction false} PairRemoved(l: seq<(nat, nat)>, i: nat, k: nat, first: multiset<nat>, mid: multiset<nat>, now: multiset<nat>)
    requires i < |l| && mid == first - AllNamed(l[..i], k)
    requires now == Removed(Removed(mid, k == Key(l[i].0), l[i].1), k == Key(l[i].1), l[i].0)
    ensures now == first - AllNamed(l[..i + 1], k)
  {
    RemovedIs(mid, l[i], k);
    MinusTwice(first, AllNamed(l[..i], k), Named(l[i], k));
    assert l[..i + 1][..i] == l[..i];
  }

  method RemovePairs(store: EdgeStore, l: seq<(nat, nat)>)
    requires store.Valid()
    requires forall e :: e in l ==> Key(e.0) in store.entries && Key(e.1) in store.entries && Key(e.0) > 0 && Key(e.1) > 0
    modifies store
    ensures store.Valid() && store.entries.Keys == old(store.entries.Keys)
    ensures forall k: nat :: Bag(store.entries, store.sets, k) == old(Bag(store.entries, store.sets, k)) - AllNamed(l, k)
    ensures SameGraphs(store)
  {
    for i := 0 to |l|
      invariant store.Valid() && store.entries.Keys == old(store.entries.Keys) && SameGraphs(store)
      invariant forall k: nat :: Bag(store.entries, store.sets, k) == old(Bag(store.entries, store.sets, k)) - AllNamed(l[..i], k)
    {
      assert l[i] in l;
      ghost var was, sets0 := store.entries, store.sets;
      DelEdgeInt(store, l[i].0, l[i].1);
      forall k: nat
        ensures Bag(store.entries, store.sets, k) == old(Bag(store.entries, store.sets, k)) - AllNamed(l[..i + 1], k)
      {
        PairRemoved(l, i, k, old(Bag(store.entries, store.sets, k)), Bag(was, sets0, k), Bag(store.entries, store.sets, k));
      }
    }
    assert l[..|l|] == l;
  }

  lemma {:induction false} AllEndsFit(entries: Entries, sets: seq<set<nat>>, keys: seq<nat>, l: seq<(nat, nat)>)
    requires Symmetric(entries, sets) && 0 !in entries && forall e :: e in l ==> OfSome(entries, sets, keys, e)
    ensures forall e :: e in l ==> Key(e.0) in entries && Key(e.1) in entries && Key(e.0) > 0 && Key(e.1) > 0
  {
    forall e | e in l
      ensures Key(e.0) in entries && Key(e.1) in entries && Key(e.0) > 0 && Key(e.1) > 0
    {
      var k: nat, v: nat :| k in keys && Has(entries, sets, k, v) && e == Ends(k, v);
      EndsFit(entries, sets, k, v);
    }
  }

  /** Deletes entries with all their edges: nothing that is left mentions them, where all was settled. */
  method DeleteEntries(store: EdgeStore, keys: seq<nat>)
    requires store.Valid() && Symmetric(store.entries, store.sets) && 0 !in store.entries && forall k :: k in keys ==> k in store.entries
    requires forall i, j :: 0 <= i < j < |keys| ==> keys[i] != keys[j]
    modifies store
    ensures store.Valid() && forall k :: k in store.entries <==> k in old(store.entries) && k !in keys
    ensures Cleared(old(store.entries), old(store.sets), store.entries, store.sets, set k | k in keys)
    ensures Symmetric(store.entries, store.sets) <==> old(Settled(store.entries, store.sets, set k | k in keys))
    ensures SameGraphs(store)
  {
    ghost var was, sets0 := store.entries, store.sets;
    var l := EdgesOf(store, keys);
    AllEndsFit(was, sets0, keys, l);
    RemovePairs(store, l);
    ghost var mid, sets1 := store.entries, store.sets;
    DiscardAll(store, keys);
    NodeCleared(was, sets0, mid, sets1, store.entries, store.sets, l, keys);
    ClearedIff(was, sets0, store.entries, store.sets, set k | k in keys);
  }

  /** Deletes a node and its pins. */
  method DeleteNode(store: EdgeStore, n: nat, pins: seq<nat>)
    requires store.Valid() && Symmetric(store.entries, store.sets) && 0 !in store.entries
    requires n in store.entries && !IsPin(n) && forall p :: p in pins ==> p in store.entries && IsPin(p)
    requires forall i, j :: 0 <= i < j < |pins| ==> pins[i] != pins[j]
    modifies store
    ensures store.Valid() && forall k :: k in store.entries <==> k in old(store.entries) && k !in [n] + pins
    ensures Cleared(old(store.entries), old(store.sets), store.entries, store.sets, set k | k in [n] + pins)
    ensures Symmetric(store.entries, store.sets) <==> old(Settled(store.entries, store.sets, set k | k in [n] + pins))
    ensures SameGraphs(store)
  {
    forall i, j | 0 <= i < j < |[n] + pins|
      ensures ([n] + pins)[i] != ([n] + pins)[j]
    {
      assert ([n] + pins)[j] == pins[j - 1] && pins[j - 1] in pins;
    }
    DeleteEntries(store, [n] + pins);
  }

  lemma {:induction false} NodeCleared(was: Entries, sets0: seq<set<nat>>, mid: Entries, sets1: seq<set<nat>>, entries: Entries, sets: seq<set<nat>>,
                                       l: seq<(nat, nat)>, keys: seq<nat>)
    requires NamesBacks(was, sets0, keys, l)
    requires forall k: nat :: Bag(mid, sets1, k) == Bag(was, sets0, k) - AllNamed(l, k)
    requires forall j: nat :: Bag(entries, sets, j) == if j in keys then multiset{} else Bag(mid, sets1, j)
    ensures Cleared(was, sets0, entries, sets, set k | k in keys)
  {
    var gone := set k | k in keys;
    forall k: nat, x: nat
      ensures Has(entries, sets, k, x) <==>
              Has(was, sets0, k, x) && k !in gone && (Key(x) in gone ==> Bag(was, sets0, k)[x] > Bag(was, sets0, Key(x))[Back(k, x)])
    {
      if k !in keys {
        assert Bag(entries, sets, k) == Bag(mid, sets1, k) == Bag(was, sets0, k) - AllNamed(l, k);
        KeptAt(was, sets0, l, keys, k, x);
      }
    }
  }

  lemma {:induction false} KeptAt(was: Entries, sets0: seq<set<nat>>, l: seq<(nat, nat)>, keys: seq<nat>, k: nat, x: nat)
    requires NamesBacks(was, sets0, keys, l) && k !in keys
    ensures x in Bag(was, sets0, k) - AllNamed(l, k) <==>
            Has(was, sets0, k, x) && (Key(x) in keys ==> Bag(was, sets0, k)[x] > Bag(was, sets0, Key(x))[Back(k, x)])
  {
    LessIn(Bag(was, sets0, k), AllNamed(l, k), x);
    if Has(was, sets0, k, x) {
      HoldersAreKeys(was, sets0, k, x);
      assert NamesBack(was, sets0, keys, l, k, x);
    }
  }

  lemma {:induction false} EndsFit(entries: Entries, sets: seq<set<nat>>, k: nat, v: nat)
    requires Symmetric(entries, sets) && Has(entries, sets, k, v) && 0 !in entries
    ensures var e := Ends(k, v); Key(e.0) in entries && Key(e.1) in entries && Key(e.0) > 0 && Key(e.1) > 0
  {
    KeyAndRole(k);
    KeyAndRole(v);
    HoldersAreKeys(entries, sets, k, v);
    HoldersAreKeys(entries, sets, Key(v), Back(k, v));
  }

  lemma {:induction false} InPrefix(keys: seq<nat>, i: nat, j: nat)
    requires i < |keys|
    ensures j in keys[..i + 1] <==> j in keys[..i] || j == keys[i]
  {
    assert keys[..i + 1] == keys[..i] + [keys[i]];
  }

  ghost function FirstKeys(keys: seq<nat>, n: nat): set<nat>
    requires n <= |keys|
  {
    set k | k in keys[..n]
  }

  lemma {:induction false} OneMoreGone(keys: seq<nat>, i: nat)
    requires i < |keys| && forall j, k :: 0 <= j < k < |keys| ==> keys[j] != keys[k]
    ensures keys[i] in keys && keys[i] !in FirstKeys(keys, i) && FirstKeys(keys, i + 1) == FirstKeys(keys, i) + {keys[i]}
  {
    assert keys[..i + 1] == keys[..i] + [keys[i]];
  }

  /** These entries are gone, and the others hold the edges and the graph that they held. */
  ghost predicate WithoutKeys(entries: Entries, sets: seq<set<nat>>, now: Entries, nowSets: seq<set<nat>>, gone: set<nat>)
  {
    now.Keys == entries.Keys - gone
    && (forall j: nat :: Bag(now, nowSets, j) == if j in gone then multiset{} else Bag(entries, sets, j))
    && forall j :: j in now ==> GetSubnode(now[j]) == GetSubnode(entries[j])
  }

  lemma {:induction false} OneKeyLess(entries: Entries, sets: seq<set<nat>>, e1: Entries, s1: seq<set<nat>>, e2: Entries, s2: seq<set<nat>>,
                                      gone: set<nat>, k: nat)
    requires WithoutKeys(entries, sets, e1, s1, gone) && k in e1 && e2 == e1 - {k}
    requires forall j :: Bag(e2, s2, j) == if j == k then multiset{} else Bag(e1, s1, j)
    ensures WithoutKeys(entries, sets, e2, s2, gone + {k})
  {
  }

  method DiscardAll(store: EdgeStore, keys: seq<nat>)
    requires store.Valid() && (forall k :: k in keys ==> k in store.entries) && forall i, j :: 0 <= i < j < |keys| ==> keys[i] != keys[j]
    modifies store
    ensures store.Valid() && forall k :: k in store.entries <==> k in old(store.entries) && k !in keys
    ensures forall j: nat :: Bag(store.entries, store.sets, j) == if j in keys then multiset{} else old(Bag(store.entries, store.sets, j))
    ensures SameGraphs(store)
  {
    ghost var entries, sets := store.entries, store.sets;
    for i := 0 to |keys|
      invariant store.Valid() && WithoutKeys(entries, sets, store.entries, store.sets, FirstKeys(keys, i))
    {
      OneMoreGone(keys, i);
      ghost var e1, s1 := store.entries, store.sets;
      store.Discard(keys[i]);
      OneKeyLess(entries, sets, e1, s1, store.entries, store.sets, FirstKeys(keys, i), keys[i]);
    }
    assert keys[..|keys|] == keys;
  }
}
