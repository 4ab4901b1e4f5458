/** lib/slotHelpers.ts: the required-contact count for a duration split into
    intervals, and the append-if-absent update of a contact's slot list. */
module SlotHelpers {
  import opened Seqs

  /** `Math.floor(a / b)` on integers. Dafny's `/` is Euclidean and rounds the
      other way when `b` is negative, so that case divides the negated operands. */
  function FloorDiv(a: int, b: int): (q: int)
    requires b != 0
    ensures b > 0 ==> q * b <= a < (q + 1) * b
    ensures b < 0 ==> (q + 1) * b < a <= q * b
  {
    if b > 0 then a / b else (-a) / (-b)
  }

  /** `calculateRequiredContacts(duration, interval)`: how many whole intervals fit in the duration. */
  function CalculateRequiredContacts(duration: int, interval: int): (r: int)
    ensures interval <= 0 ==> r == 0
    ensures interval > 0 ==> r * interval <= duration < (r + 1) * interval
    ensures interval > 0 && duration >= 0 ==> r >= 0
  {
    if interval <= 0 then 0 else FloorDiv(duration, interval)
  }

  /** `appendSlot(existingSlots, slotId)`; `None` stands for a missing (null or
      undefined) list. The id is added at the end unless it is already there. */
  function AppendSlot<T(==)>(existingSlots: Option<seq<T>>, slotId: T): (r: seq<T>)
    ensures slotId in r
    ensures existingSlots.None? ==> r == [slotId]
    ensures existingSlots.Some? ==>
      var xs := existingSlots.value;
      |r| == |xs| + (if slotId in xs then 0 else 1) && r[..|xs|] == xs
  {
    match existingSlots
    case None => [slotId]
    case Some(xs) => if slotId in xs then xs else xs + [slotId]
  }

  /** Appending the same id twice is the same as appending it once. */
  lemma AppendSlotIdempotent<T>(existingSlots: Option<seq<T>>, slotId: T)
    ensures AppendSlot(Some(AppendSlot(existingSlots, slotId)), slotId) == AppendSlot(existingSlots, slotId)
  {
  }

  /** A duplicate-free slot list stays duplicate-free. */
  lemma AppendSlotNoDup<T>(existingSlots: Option<seq<T>>, slotId: T)
    requires existingSlots.Some? ==> NoDup(existingSlots.value)
    ensures NoDup(AppendSlot(existingSlots, slotId))
  {
    if existingSlots.Some? && slotId !in existingSlots.value {
      var xs := existingSlots.value;
      var r := AppendSlot(existingSlots, slotId);
      forall i, j | 0 <= i < j < |r| ensures r[i] != r[j] {
        if j == |xs| {
          assert r[i] == xs[i];
        }
      }
    }
  }
}
