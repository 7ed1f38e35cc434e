/**
  Value holders: the wrapper a store keeps for each value. A basic holder owns its
  value for good; a weak holder keeps a reference the memory manager may clear.
  Reclamation is an explicit environment step (`Reclaim`), never a store operation.
 */
module ValueHolder {
  import opened Wrappers

  /** A weak reference; its referent becomes `None` once the collector clears it. */
  datatype WeakReference<V> = WeakReference(referent: Option<V>)

  datatype Holder<V> =
    | Basic(value: Option<V>)
      /** `reference` is `None` exactly when the holder was built from null. */
    | WeakRef(reference: Option<WeakReference<V>>)

  /**
    The holder's `value()`. A basic holder yields its value. A weak holder yields null
    when it was built from null or its referent was cleared, and the referent otherwise.
   */
  function Read<V>(h: Holder<V>): (r: Option<V>)
    ensures h.Basic? ==> r == h.value
    ensures h.WeakRef? ==> (r == None <==> h.reference == None || h.reference.value.referent == None)
    ensures h.WeakRef? && r != None ==> r == h.reference.value.referent
  {
    match h
    case Basic(v) => v
    case WeakRef(None) => None
    case WeakRef(Some(r)) => r.referent
  }

  /** `new BasicValueHolder<>(v)`: an immutable wrapper that reads back exactly `v`, null included. */
  function NewBasic<V>(v: Option<V>): (h: Holder<V>)
    ensures Read(h) == v
    ensures Reclaim(h) == h
  {
    Basic(v)
  }

  /** `new WeakRefValueHolder<>(v)`: no reference at all for null, otherwise a fresh weak reference to `v`. */
  function NewWeak<V>(v: Option<V>): (h: Holder<V>)
    ensures Read(h) == v
    ensures h.WeakRef? && (v == None <==> h.reference == None)
    ensures v != None ==> Read(Reclaim(h)) == None
  {
    if v == None then WeakRef(None) else WeakRef(Some(WeakReference(v)))
  }

  /**
    One collection of the holder's referent. A basic holder is a strong reference and is
    never affected; a weak holder's reference, if any, is cleared.
   */
  function Reclaim<V>(h: Holder<V>): (r: Holder<V>)
    ensures h.Basic? ==> r == h
    ensures h.WeakRef? ==> r.WeakRef? && Read(r) == None
    ensures h.WeakRef? ==> (r.reference == None <==> h.reference == None)
  {
    match h
    case WeakRef(Some(_)) => WeakRef(Some(WeakReference(None)))
    case _ => h
  }

  /** The holder after `n` collections (any amount of collector activity). */
  function ReclaimTimes<V>(h: Holder<V>, n: nat): Holder<V>
  {
    if n == 0 then h else Reclaim(ReclaimTimes(h, n - 1))
  }

  /**
    Whatever the collector does, a weak holder built from `v` reads `v` or null and never
    any other value; one built from null always reads null. A basic holder always reads `v`.
   */
  lemma {:induction false} ReadAfterReclaims<V>(v: Option<V>, n: nat)
    ensures Read(ReclaimTimes(NewWeak(v), n)) in {v, None}
    ensures v == None ==> Read(ReclaimTimes(NewWeak(v), n)) == None
    ensures Read(ReclaimTimes(NewBasic(v), n)) == v
  {
    if n > 0 {
      ReadAfterReclaims(v, n - 1);
    }
  }
}
