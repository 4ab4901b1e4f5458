/** lib/failedHelpers.ts: removing a slot id from a contact's slot list. */
module FailedHelpers {
  import opened Seqs
  import SlotHelpers

  /** `removeSlotFromArray(slotArray, slotId)`: `slotArray.filter(s => s !== slotId)`. */
  function RemoveSlotFromArray<T(==)>(slotArray: seq<T>, slotId: T): (r: seq<T>)
    ensures slotId !in r
    ensures forall i :: 0 <= i < |r| ==> r[i] in slotArray
    ensures forall i :: 0 <= i < |slotArray| && slotArray[i] != slotId ==> slotArray[i] in r
    ensures |r| == |slotArray| - Count(slotArray, slotId)
    ensures IsSubsequence(r, slotArray)
  {
    if slotArray == [] then []
    else
      var rest := RemoveSlotFromArray(slotArray[1..], slotId);
      if slotArray[0] == slotId then rest
      else
        assert ([slotArray[0]] + rest)[1..] == rest;
        [slotArray[0]] + rest
  }

  /** Removal distributes over concatenation, so the kept elements stay in order. */
  lemma {:induction false} RemoveAppend<T>(a: seq<T>, b: seq<T>, slotId: T)
    ensures RemoveSlotFromArray(a + b, slotId) == RemoveSlotFromArray(a, slotId) + RemoveSlotFromArray(b, slotId)
  {
    if a == [] {
      assert a + b == b;
    } else {
      var ab := a + b;
      assert ab != [] && ab[0] == a[0] && ab[1..] == a[1..] + b;
      RemoveAppend(a[1..], b, slotId);
      if a[0] != slotId {
        assert RemoveSlotFromArray(ab, slotId) == [a[0]] + RemoveSlotFromArray(a[1..] + b, slotId);
      }
    }
  }

  /** Removal drops every occurrence of the id and keeps every occurrence of
      any other element. */
  lemma {:induction false} RemoveCount<T>(slotArray: seq<T>, slotId: T, x: T)
    ensures Count(RemoveSlotFromArray(slotArray, slotId), x) == if x == slotId then 0 else Count(slotArray, x)
  {
    if slotArray != [] {
      RemoveCount(slotArray[1..], slotId, x);
      if slotArray[0] != slotId {
        CountAppend([slotArray[0]], RemoveSlotFromArray(slotArray[1..], slotId), x);
      }
    }
  }

  /** A list without the id is returned unchanged. */
  lemma {:induction false} RemoveAbsent<T>(slotArray: seq<T>, slotId: T)
    requires slotId !in slotArray
    ensures RemoveSlotFromArray(slotArray, slotId) == slotArray
  {
    if slotArray != [] {
      RemoveAbsent(slotArray[1..], slotId);
    }
  }

  /** Removing twice is removing once. */
  lemma RemoveIdempotent<T>(slotArray: seq<T>, slotId: T)
    ensures RemoveSlotFromArray(RemoveSlotFromArray(slotArray, slotId), slotId)
         == RemoveSlotFromArray(slotArray, slotId)
  {
    RemoveAbsent(RemoveSlotFromArray(slotArray, slotId), slotId);
  }

  /** Removal keeps a duplicate-free list duplicate-free. */
  lemma {:induction false} RemoveNoDup<T>(slotArray: seq<T>, slotId: T)
    requires NoDup(slotArray)
    ensures NoDup(RemoveSlotFromArray(slotArray, slotId))
  {
    if slotArray != [] {
      RemoveNoDup(slotArray[1..], slotId);
      assert slotArray[0] !in slotArray[1..];
    }
  }

  /** Removing an id undoes appending it: `removeSlotFromArray(appendSlot(xs, s), s)`
      equals `removeSlotFromArray(xs, s)`. */
  lemma RemoveUndoesAppend<T>(slotArray: seq<T>, slotId: T)
    ensures RemoveSlotFromArray(SlotHelpers.AppendSlot(Some(slotArray), slotId), slotId)
         == RemoveSlotFromArray(slotArray, slotId)
  {
    if slotId !in slotArray {
      RemoveAppend(slotArray, [slotId], slotId);
      assert RemoveSlotFromArray([slotId], slotId) == [];
      assert RemoveSlotFromArray(slotArray, slotId) + [] == RemoveSlotFromArray(slotArray, slotId);
    }
  }
}
