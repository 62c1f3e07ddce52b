/**
 `wsp::string`: a slot that owns at most one heap buffer. Setting a new buffer
 frees the one held before; destruction sets the null pointer. Buffers are
 opaque handles and `freed` records the calls of `free`, in order.
 */
module OwnedString {
  import opened Wrappers

  /** The address of a heap buffer; the null pointer is `None`. */
  type Handle = nat

  datatype Slot = Slot(held: Option<Handle>, freed: seq<Handle>)

  /** The buffer held by the slot, as a list of zero or one handles. */
  function Held(slot: Slot): seq<Handle> {
    if slot.held.Some? then [slot.held.value] else []
  }

  /** The non-null pointers of a sequence, in order. */
  function NonNull(ptrs: seq<Option<Handle>>): (hs: seq<Handle>)
    ensures |hs| <= |ptrs|
  {
    if |ptrs| == 0 then []
    else (if ptrs[0].Some? then [ptrs[0].value] else []) + NonNull(ptrs[1..])
  }

  /** `string()`: the slot holds nothing. */
  function Empty(): (slot: Slot)
    ensures slot.held.None? && slot.freed == []
  {
    Slot(None, [])
  }

  /** `string(size)`: the slot holds what `malloc` returned, possibly the null pointer. */
  function Allocated(buffer: Option<Handle>): (slot: Slot)
    ensures slot.held == buffer && slot.freed == []
  {
    Slot(buffer, [])
  }

  /** `set(str)`: the old buffer, if any, is freed once and `str` is held from then on. */
  function SetTo(slot: Slot, str: Option<Handle>): (r: Slot)
    ensures r.held == str
    ensures r.freed == slot.freed + Held(slot)
  {
    match slot.held
    case Some(previous) => Slot(str, slot.freed + [previous])
    case None => Slot(str, slot.freed)
  }

  /** `~string()`: the held buffer, if any, is freed and nothing is held. */
  function Destroy(slot: Slot): (r: Slot)
    ensures r.held.None?
    ensures r.freed == slot.freed + Held(slot)
  {
    SetTo(slot, None)
  }

  /** The slot after a sequence of `set` calls. */
  function Run(slot: Slot, ptrs: seq<Option<Handle>>): Slot
    decreases |ptrs|
  {
    if |ptrs| == 0 then slot else Run(SetTo(slot, ptrs[0]), ptrs[1..])
  }

  /** Every buffer ever handed to the slot is either still held or freed, and freed exactly once. */
  lemma {:induction false} RunAccountsForEveryBuffer(slot: Slot, ptrs: seq<Option<Handle>>)
    ensures Run(slot, ptrs).freed + Held(Run(slot, ptrs)) == slot.freed + Held(slot) + NonNull(ptrs)
    decreases |ptrs|
  {
    if |ptrs| > 0 {
      var next := SetTo(slot, ptrs[0]);
      RunAccountsForEveryBuffer(next, ptrs[1..]);
      assert Held(next) == (if ptrs[0].Some? then [ptrs[0].value] else []);
      assert NonNull(ptrs) == Held(next) + NonNull(ptrs[1..]);
    }
  }

  /**
   The whole life of a slot: starting empty, taking a sequence of buffers and
   being destroyed frees exactly the non-null buffers it was given, in the order
   it was given them. Nothing leaks and nothing is freed that was not given.
   */
  lemma Lifetime(ptrs: seq<Option<Handle>>)
    ensures Destroy(Run(Empty(), ptrs)).freed == NonNull(ptrs)
    ensures Destroy(Run(Empty(), ptrs)).held.None?
  {
    RunAccountsForEveryBuffer(Empty(), ptrs);
  }

  /**
   The life of a slot built with `string(size)`: destruction frees the
   allocated buffer, if the allocation succeeded, and then every non-null
   buffer handed over later, in order.
   */
  lemma AllocatedLifetime(buffer: Option<Handle>, ptrs: seq<Option<Handle>>)
    ensures Destroy(Run(Allocated(buffer), ptrs)).freed == Held(Allocated(buffer)) + NonNull(ptrs)
  {
    RunAccountsForEveryBuffer(Allocated(buffer), ptrs);
  }

  /** No buffer is freed twice and the held buffer has not been freed. */
  predicate Sound(slot: Slot) {
    && (forall i, j :: 0 <= i < j < |slot.freed| ==> slot.freed[i] != slot.freed[j])
    && (slot.held.Some? ==> slot.held.value !in slot.freed)
  }

  /** Handing the slot a buffer it has neither freed nor holds keeps it sound. */
  lemma SetKeepsSound(slot: Slot, str: Option<Handle>)
    requires Sound(slot)
    requires str.Some? ==> str.value !in slot.freed && str != slot.held
    ensures Sound(SetTo(slot, str))
  {
  }

  /** A slot that starts empty and is only ever given distinct buffers never frees one twice. */
  lemma DistinctBuffersKeepSound(ptrs: seq<Option<Handle>>)
    requires var hs := NonNull(ptrs); forall i, j :: 0 <= i < j < |hs| ==> hs[i] != hs[j]
    ensures Sound(Run(Empty(), ptrs))
  {
    var r := Run(Empty(), ptrs);
    var hs := NonNull(ptrs);
    RunAccountsForEveryBuffer(Empty(), ptrs);
    assert r.freed + Held(r) == hs;
    forall i, j | 0 <= i < j < |r.freed|
      ensures r.freed[i] != r.freed[j]
    {
      assert r.freed[i] == hs[i] && r.freed[j] == hs[j];
    }
    if r.held.Some? {
      assert hs[|r.freed|] == r.held.value;
      forall i | 0 <= i < |r.freed|
        ensures r.freed[i] != r.held.value
      {
        assert r.freed[i] == hs[i];
      }
    }
  }

  /**
   `set` with the pointer the slot already holds frees it and keeps holding it:
   the slot is left owning a freed buffer.
   */
  lemma SetSameBufferDangles(slot: Slot)
    requires slot.held.Some?
    ensures var r := SetTo(slot, slot.held); r.held.Some? && r.held.value in r.freed
  {
  }
}
