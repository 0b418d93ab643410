/** The toast provider (src/components/Toast.jsx): an ordered list of
    transient notices. `push` appends one entry under a fresh random id and
    schedules its removal 4.5 s later; the removal keeps every entry whose id
    differs. The random id is a parameter of `Push`, and the timer is the
    explicit call `Expire`. */
module Toast {

  datatype Variant = Success | Error

  /** The arguments of one `push(message, variant)` call. */
  datatype Notice = Notice(message: string, variant: Variant)

  /** One `{ id, message, variant }` record in the list. */
  datatype Entry = Entry(id: string, message: string, variant: Variant)

  /** `t.filter(x => x.id !== id)`. */
  function Without(ts: seq<Entry>, id: string): (r: seq<Entry>)
    ensures |r| <= |ts|
    ensures forall e :: e in r <==> e in ts && e.id != id
  {
    if ts == [] then []
    else (if ts[0].id != id then [ts[0]] else []) + Without(ts[1..], id)
  }

  /** Removal distributes over concatenation, so it keeps the remaining
      entries in their relative order. */
  lemma {:induction false} WithoutAppend(a: seq<Entry>, b: seq<Entry>, id: string)
    ensures Without(a + b, id) == Without(a, id) + Without(b, id)
  {
    if a == [] {
      assert a + b == b;
    } else {
      assert (a + b)[1..] == a[1..] + b;
      WithoutAppend(a[1..], b, id);
    }
  }

  /** Expiring an id that no entry carries changes nothing. */
  lemma {:induction false} WithoutAbsent(ts: seq<Entry>, id: string)
    requires forall e :: e in ts ==> e.id != id
    ensures Without(ts, id) == ts
  {
    if ts != [] {
      assert ts[0] in ts;
      assert forall e :: e in ts[1..] ==> e in ts;
      WithoutAbsent(ts[1..], id);
    }
  }

  /** Expiry is idempotent. */
  lemma WithoutIdempotent(ts: seq<Entry>, id: string)
    ensures Without(Without(ts, id), id) == Without(ts, id)
  {
    WithoutAbsent(Without(ts, id), id);
  }

  /** Pushing an entry under an id not yet in the list and then expiring that
      id gives back the list as it was. */
  lemma PushThenExpire(ts: seq<Entry>, e: Entry)
    requires forall x :: x in ts ==> x.id != e.id
    ensures Without(ts + [e], e.id) == ts
  {
    WithoutAppend(ts, [e], e.id);
    WithoutAbsent(ts, e.id);
    assert Without([e], e.id) == [] by {
      assert [e][1..] == [];
    }
  }

  /** The CSS class of a rendered toast, `toast ${t.variant}`. */
  function ClassName(v: Variant): (c: string)
    ensures |c| > 6 && c[..6] == "toast "
  {
    match v
    case Success => "toast success"
    case Error => "toast error"
  }

  /** What the provider renders: one (class, text) pair per entry. */
  function Render(ts: seq<Entry>): (r: seq<(string, string)>)
    ensures |r| == |ts|
    ensures forall i :: 0 <= i < |ts| ==> r[i] == (ClassName(ts[i].variant), ts[i].message)
  {
    if ts == [] then []
    else
      assert forall i :: 1 <= i < |ts| ==> ts[1..][i - 1] == ts[i];
      [(ClassName(ts[0].variant), ts[0].message)] + Render(ts[1..])
  }

  class Provider {
    var toasts: seq<Entry>

    constructor ()
      ensures toasts == []
    {
      toasts := [];
    }

    /** `push(message, variant = 'success')` under the random id `id`. */
    method Push(message: string, id: string, variant: Variant := Success)
      modifies this
      ensures toasts == old(toasts) + [Entry(id, message, variant)]
    {
      toasts := toasts + [Entry(id, message, variant)];
    }

    /** The timer that `push` scheduled for `id` fires. */
    method Expire(id: string)
      modifies this
      ensures toasts == Without(old(toasts), id)
    {
      toasts := Without(toasts, id);
    }
  }

  /** A notice pushed without a variant is a success toast; the earlier
      toasts stay where they were and render before it. */
  method PushDefaultsToSuccess(p: Provider, message: string, id: string)
    modifies p
    ensures p.toasts == old(p.toasts) + [Entry(id, message, Success)]
    ensures Render(p.toasts) == Render(old(p.toasts)) + [("toast success", message)]
  {
    p.Push(message, id);
  }
}
