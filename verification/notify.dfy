/** The element-change listener list and the deliveries each fire method
    makes. Listeners are foreign code; a delivery records one callback. */
module Notify {

  import opened Elements

  /** A registered `ElementChangeListener`, by identity. */
  datatype Listener = Listener(id: nat)

  /** One callback: `elementAdded` or `elementDeleted` on one listener. */
  datatype Delivery = Added(listener: Listener, element: Element) | Deleted(listener: Listener, element: Element)

  /** `List.remove(Object)`: drops the first occurrence, if any. */
  function RemoveFirst(listeners: seq<Listener>, l: Listener): seq<Listener>
  {
    if listeners == [] then []
    else if listeners[0] == l then listeners[1..]
    else [listeners[0]] + RemoveFirst(listeners[1..], l)
  }

  /** Index of the first occurrence of `l`. */
  function FirstIndex(listeners: seq<Listener>, l: Listener): (i: nat)
    requires l in listeners
    ensures i < |listeners| && listeners[i] == l && l !in listeners[..i]
  {
    if listeners[0] == l then 0
    else
      var i := FirstIndex(listeners[1..], l);
      assert listeners[..i + 1] == [listeners[0]] + listeners[1..][..i];
      i + 1
  }

  /** The removal keeps the order of the listeners that stay: the ones
      before the first occurrence, then all the ones after it. */
  lemma {:induction false} RemoveFirstSplits(listeners: seq<Listener>, l: Listener)
    requires l in listeners
    ensures RemoveFirst(listeners, l)
      == listeners[..FirstIndex(listeners, l)] + listeners[FirstIndex(listeners, l) + 1..]
  {
    if listeners[0] != l {
      var i := FirstIndex(listeners[1..], l);
      RemoveFirstSplits(listeners[1..], l);
      assert listeners[..i + 1] == [listeners[0]] + listeners[1..][..i];
      assert listeners[i + 2..] == listeners[1..][i + 1..];
    }
  }

  lemma {:induction false} RemoveFirstAbsent(listeners: seq<Listener>, l: Listener)
    requires l !in listeners
    ensures RemoveFirst(listeners, l) == listeners
  {
    if listeners != [] {
      RemoveFirstAbsent(listeners[1..], l);
      assert listeners == [listeners[0]] + listeners[1..];
    }
  }

  /** Dropping the element at `k` drops one occurrence of it. */
  lemma DropAt(s: seq<Listener>, k: nat)
    requires k < |s|
    ensures |s[..k] + s[k + 1..]| == |s| - 1
    ensures multiset(s[..k] + s[k + 1..]) == multiset(s) - multiset{s[k]}
  {
    assert s == s[..k] + [s[k]] + s[k + 1..];
    assert multiset(s) == multiset(s[..k]) + multiset{s[k]} + multiset(s[k + 1..]);
  }

  /** Removing an unregistered listener changes nothing; removing a
      registered one drops exactly one registration of it. */
  lemma {:induction false} RemoveFirstRemovesOne(listeners: seq<Listener>, l: Listener)
    ensures l !in listeners ==> RemoveFirst(listeners, l) == listeners
    ensures l in listeners ==> |RemoveFirst(listeners, l)| == |listeners| - 1
    ensures multiset(RemoveFirst(listeners, l)) == multiset(listeners) - multiset{l}
  {
    if l in listeners {
      RemoveFirstSplits(listeners, l);
      DropAt(listeners, FirstIndex(listeners, l));
    } else {
      RemoveFirstAbsent(listeners, l);
    }
  }

  /** `fireElementAddedEvent`: `elementAdded` once per listener, in order. */
  function AddedDeliveries(listeners: seq<Listener>, e: Element): (r: seq<Delivery>)
    ensures |r| == |listeners|
    ensures forall i :: 0 <= i < |r| ==> r[i] == Added(listeners[i], e)
  {
    if listeners == [] then [] else [Added(listeners[0], e)] + AddedDeliveries(listeners[1..], e)
  }

  /** `fireElementDeletedEvent`: `elementDeleted` once per listener, in order. */
  function DeletedDeliveries(listeners: seq<Listener>, e: Element): (r: seq<Delivery>)
    ensures |r| == |listeners|
    ensures forall i :: 0 <= i < |r| ==> r[i] == Deleted(listeners[i], e)
  {
    if listeners == [] then [] else [Deleted(listeners[0], e)] + DeletedDeliveries(listeners[1..], e)
  }

  /** A bundle element that has lost its owning bundle is not reported as
      modified. */
  predicate ModificationSuppressed(e: Element)
  {
    e.isBundleElement && e.owningBundle.None?
  }

  /** The deliveries of a modification to the given listeners, when it is
      not suppressed: each listener hears `elementDeleted` then
      `elementAdded` before the next listener hears anything. */
  function DeleteThenAdd(listeners: seq<Listener>, e: Element): seq<Delivery>
  {
    if listeners == [] then []
    else [Deleted(listeners[0], e), Added(listeners[0], e)] + DeleteThenAdd(listeners[1..], e)
  }

  /** The `i`-th listener's two deliveries sit at `2 * i` and `2 * i + 1`. */
  lemma {:induction false} DeleteThenAddPairs(listeners: seq<Listener>, e: Element)
    ensures |DeleteThenAdd(listeners, e)| == 2 * |listeners|
    ensures forall i :: 0 <= i < |listeners| ==>
      DeleteThenAdd(listeners, e)[2 * i] == Deleted(listeners[i], e)
      && DeleteThenAdd(listeners, e)[2 * i + 1] == Added(listeners[i], e)
  {
    if listeners != [] {
      var rest := DeleteThenAdd(listeners[1..], e);
      DeleteThenAddPairs(listeners[1..], e);
      forall i | 1 <= i < |listeners|
        ensures DeleteThenAdd(listeners, e)[2 * i] == Deleted(listeners[i], e)
        ensures DeleteThenAdd(listeners, e)[2 * i + 1] == Added(listeners[i], e)
      {
        assert DeleteThenAdd(listeners, e)[2 * i] == rest[2 * (i - 1)];
        assert DeleteThenAdd(listeners, e)[2 * i + 1] == rest[2 * (i - 1) + 1];
      }
    }
  }

  lemma {:induction false} DeleteThenAddAppend(listeners: seq<Listener>, l: Listener, e: Element)
    ensures DeleteThenAdd(listeners + [l], e) == DeleteThenAdd(listeners, e) + [Deleted(l, e), Added(l, e)]
  {
    if listeners != [] {
      assert (listeners + [l])[1..] == listeners[1..] + [l];
      DeleteThenAddAppend(listeners[1..], l, e);
    }
  }

  /** `fireElementModifiedEvent`: nothing when suppressed, otherwise
      `DeleteThenAdd`. */
  function ModifiedDeliveries(listeners: seq<Listener>, e: Element): (r: seq<Delivery>)
    ensures ModificationSuppressed(e) ==> r == []
    ensures !ModificationSuppressed(e) ==> |r| == 2 * |listeners|
  {
    if ModificationSuppressed(e) then []
    else
      DeleteThenAddPairs(listeners, e);
      DeleteThenAdd(listeners, e)
  }

  /** How many deliveries go to `l`. */
  function CountFor(ds: seq<Delivery>, l: Listener): nat
  {
    if ds == [] then 0 else (if ds[0].listener == l then 1 else 0) + CountFor(ds[1..], l)
  }

  function Occurrences(listeners: seq<Listener>, l: Listener): nat
  {
    multiset(listeners)[l]
  }

  /** A listener registered once hears one `elementAdded` per added element
      and no `elementDeleted`; registered k times, it hears it k times. */
  lemma {:induction false} AddedReachesEachRegistration(listeners: seq<Listener>, e: Element, l: Listener)
    ensures CountFor(AddedDeliveries(listeners, e), l) == Occurrences(listeners, l)
    ensures forall d :: d in AddedDeliveries(listeners, e) ==> d.Added?
  {
    if listeners != [] {
      AddedReachesEachRegistration(listeners[1..], e, l);
      assert listeners == [listeners[0]] + listeners[1..];
      assert AddedDeliveries(listeners, e)[1..] == AddedDeliveries(listeners[1..], e);
    }
  }
}
