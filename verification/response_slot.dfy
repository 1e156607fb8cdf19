/**
 * The completion source a bridge hands to its receiver before it sends a
 * command. The receiver offers every reply to it with `TrySetResult`: only
 * the first offer after the slot is armed sticks, later ones are ignored.
 */
module ResponseSlot {
  datatype Slot =
    | NoSlot              // no command has armed the receiver yet
    | Pending             // armed and waiting for its reply
    | Resolved(value: string)

  /** `TrySetResult(v)` on the slot (a no-op when there is none). */
  function Offer(slot: Slot, v: string): (r: Slot)
    ensures r.Resolved? <==> slot.Resolved? || slot.Pending?
    ensures slot.Resolved? ==> r == slot
    ensures r.Resolved? && !slot.Resolved? ==> r.value == v
    ensures slot.NoSlot? ==> r == NoSlot
  {
    if slot.Pending? then Resolved(v) else slot
  }

  /** The slot after a run of offers, in arrival order. */
  function OfferAll(slot: Slot, vs: seq<string>): Slot
    decreases |vs|
  {
    if |vs| == 0 then slot else OfferAll(Offer(slot, vs[0]), vs[1..])
  }

  /** A resolved slot keeps its value whatever is offered afterwards. */
  lemma {:induction false} ResolvedIsFinal(v: string, vs: seq<string>)
    ensures OfferAll(Resolved(v), vs) == Resolved(v)
    decreases |vs|
  {
    if |vs| > 0 {
      ResolvedIsFinal(v, vs[1..]);
    }
  }

  /** First write wins: an armed slot ends up holding the first value offered to it. */
  lemma {:induction false} FirstOfferWins(vs: seq<string>)
    requires |vs| > 0
    ensures OfferAll(Pending, vs) == Resolved(vs[0])
  {
    ResolvedIsFinal(vs[0], vs[1..]);
  }

  /** Offers to a receiver nobody armed are lost. */
  lemma {:induction false} UnarmedStaysEmpty(vs: seq<string>)
    ensures OfferAll(NoSlot, vs) == NoSlot
    decreases |vs|
  {
    if |vs| > 0 {
      UnarmedStaysEmpty(vs[1..]);
    }
  }
}
