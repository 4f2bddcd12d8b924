/** The `None`-terminated queue pattern the backend uses three times: the
    live transcriber's delta queue, the file transcriber's segment queue and
    the audio capture queue. A producer puts items and finally one `None`; the
    consumer takes items in order and stops at the first `None`. The queue is
    modelled by the sequence of everything put on it, in order. */
module SentinelQueue {
  import opened Wrappers

  /** The items a consumer yields: everything before the first `None`. */
  function UntilSentinel<T>(q: seq<Option<T>>): (r: seq<T>)
    ensures |r| <= |q|
  {
    if q == [] || q[0].None? then [] else [q[0].value] + UntilSentinel(q[1..])
  }

  /** The consumer gets a prefix of the queue, unwrapped, that stops at the end
      of the queue or just before a `None`. */
  lemma {:induction false} UntilSentinelIsPrefix<T>(q: seq<Option<T>>)
    ensures forall i :: 0 <= i < |UntilSentinel(q)| ==> q[i] == Some(UntilSentinel(q)[i])
    ensures |UntilSentinel(q)| == |q| || q[|UntilSentinel(q)|] == None
    decreases |q|
  {
    if q != [] && q[0].Some? {
      UntilSentinelIsPrefix(q[1..]);
      var r := UntilSentinel(q);
      assert r == [q[0].value] + UntilSentinel(q[1..]);
      forall i | 0 <= i < |r| ensures q[i] == Some(r[i]) {
        if i > 0 {
          assert r[i] == UntilSentinel(q[1..])[i - 1];
          assert q[i] == q[1..][i - 1];
        }
      }
    }
  }

  /** Each item wrapped in `Some`. */
  function Wrap<T>(xs: seq<T>): (q: seq<Option<T>>)
    ensures |q| == |xs|
    ensures forall i :: 0 <= i < |xs| ==> q[i] == Some(xs[i])
  {
    if xs == [] then [] else [Some(xs[0])] + Wrap(xs[1..])
  }

  /** A producer that puts `xs` and then the sentinel delivers exactly `xs`,
      whatever it puts after the sentinel. */
  lemma {:induction false} UntilSentinelOfWrapped<T>(xs: seq<T>, rest: seq<Option<T>>)
    ensures UntilSentinel(Wrap(xs) + [None] + rest) == xs
    decreases |xs|
  {
    if xs == [] {
      assert Wrap(xs) + [None] + rest == [None] + rest;
    } else {
      assert (Wrap(xs) + [None] + rest)[1..] == Wrap(xs[1..]) + [None] + rest;
      UntilSentinelOfWrapped(xs[1..], rest);
    }
  }

  lemma {:induction false} WrapAppend<T>(a: seq<T>, b: seq<T>)
    ensures Wrap(a + b) == Wrap(a) + Wrap(b)
    decreases |a|
  {
    if a != [] {
      assert (a + b)[1..] == a[1..] + b;
      WrapAppend(a[1..], b);
    } else {
      assert a + b == b;
    }
  }

  /** No `None` among the items put. */
  predicate NoSentinel<T>(q: seq<Option<T>>) {
    forall i :: 0 <= i < |q| ==> q[i].Some?
  }

  /** The consumer loop: take items in order, stop at the first `None`. If the
      producer has not put the sentinel yet the loop stops when the queue runs
      dry (the source would block there instead); `sawSentinel` tells the two
      apart. */
  method Drain<T>(q: seq<Option<T>>) returns (items: seq<T>, sawSentinel: bool)
    ensures items == UntilSentinel(q)
    ensures sawSentinel <==> None in q
  {
    items := [];
    var i := 0;
    while i < |q|
      invariant 0 <= i <= |q|
      invariant forall j :: 0 <= j < i ==> q[j].Some?
      invariant UntilSentinel(q) == items + UntilSentinel(q[i..])
    {
      var item := q[i];
      assert q[i..][0] == item;
      if item.None? {
        return items, true;
      }
      assert q[i..][1..] == q[i + 1..];
      items := items + [item.value];
      i := i + 1;
    }
    assert q[i..] == [];
    return items, false;
  }

  lemma {:induction false} UntilSentinelStep<T>(q: seq<Option<T>>, x: T)
    requires NoSentinel(q)
    ensures UntilSentinel(q + [Some(x)]) == UntilSentinel(q) + [x]
    ensures NoSentinel(q + [Some(x)])
    decreases |q|
  {
    if q == [] {
      assert [Some(x)][1..] == [];
    } else {
      assert (q + [Some(x)])[1..] == q[1..] + [Some(x)];
      UntilSentinelStep(q[1..], x);
    }
  }

  /** When the first `None` sits at `i`, the consumer gets the first `i` items. */
  lemma {:induction false} PrefixUntilSentinel<T>(q: seq<Option<T>>, i: nat)
    requires i < |q| && q[i] == None && NoSentinel(q[..i])
    ensures UntilSentinel(q) == UntilSentinel(q[..i])
    ensures None in q
    decreases i
  {
    if i > 0 {
      assert q[1..][..i - 1] == q[..i][1..];
      PrefixUntilSentinel(q[1..], i - 1);
    }
  }
}
