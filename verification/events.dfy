/**
  The `'updated'` events the PKI members emit, as the listeners a user
  registers receive them.

  Snake family (child.js `emit_update`): the member's listeners get
  `('updated', why, origin)`, then its parent's, up to the root; a visited
  set stops the walk at a member already seen.

  Camel family (pki-member.js): every member registers, in its constructor
  and so before any user listener, a listener that re-emits
  `{now_firing: p, why: 'child-updated', originates_from: this}` on each
  ancestor `p` in turn. Because an ancestor's own re-emitting listener runs
  first, an event reaches user listeners further up before it reaches those
  of the member it was emitted on, and every re-emission is itself re-emitted.
*/
module Events {
  import opened Wrappers
  import opened Errors
  import opened Members

  datatype Event =
    /** Snake: the listeners of the member at `at` receive `('updated', why, origin)`. */
    | Updated(at: Addr, why: string, origin: Addr)
    /** Camel: the listeners of the member at `at` receive `{now_firing, why, originates_from}`; `from` is `None` when the payload has no `originates_from`. */
    | Fired(at: Addr, why: string, from: Option<Addr>)

  /** What an operation leaves behind: its result, the tree after it (also after a throw), and the events in delivery order. */
  datatype Outcome<T> = Outcome(result: Result<T, Error>, root: Member, events: seq<Event>)

  /** `a` is an ancestor-or-self address of `b`. */
  predicate Above(a: Addr, b: Addr) {
    |a| <= |b| && b[..|a|] == a
  }

  // ---------------------------------------------------------------------------
  // Snake family
  // ---------------------------------------------------------------------------

  /** `emit_update(why)` on the member at `a`: it and each ancestor, nearest first, with the member as origin. */
  function EmitUpdate(a: Addr, why: string): (es: seq<Event>)
    ensures |es| == |a| + 1
    ensures forall i :: 0 <= i < |es| ==> es[i] == Updated(a[..|a| - i], why, a)
  {
    seq(|a| + 1, i requires 0 <= i <= |a| => Updated(a[..|a| - i], why, a))
  }

  /** Every member from `a` up to the root hears a snake event exactly once, and no other member does. */
  lemma EmitUpdateOnce(a: Addr, why: string, b: Addr)
    ensures Above(b, a) ==> |set i | 0 <= i < |EmitUpdate(a, why)| && EmitUpdate(a, why)[i].at == b| == 1
    ensures !Above(b, a) ==> forall e :: e in EmitUpdate(a, why) ==> e.at != b
  {
    var es := EmitUpdate(a, why);
    if Above(b, a) {
      var k := |a| - |b|;
      assert es[k].at == b;
      var s := set i | 0 <= i < |es| && es[i].at == b;
      assert s == {k} by {
        forall i | i in s ensures i == k {
          assert |es[i].at| == |a| - i;
        }
      }
    }
  }

  // ---------------------------------------------------------------------------
  // Camel family
  // ---------------------------------------------------------------------------

  /**
    `emit('updated', {now_firing: a, why[, originates_from: from]})` on the
    member at `a`: first the re-emissions on each ancestor, nearest first,
    then the member's own user listeners.
  */
  function Emit(a: Addr, why: string, from: Option<Addr>): (es: seq<Event>)
    ensures |es| > 0 && es[|es| - 1] == Fired(a, why, from)
    decreases |a|, 1, 0
  {
    Reemit(a, |a|) + [Fired(a, why, from)]
  }

  /**
    The re-emissions that `a`'s own listener makes on its ancestors at depths
    `k - 1` down to `0`; with `k == |a|` that is the parent first and the root last.
  */
  function Reemit(a: Addr, k: nat): seq<Event>
    requires k <= |a|
    decreases |a|, 0, k
  {
    if k == 0 then [] else Emit(a[..k - 1], "child-updated", Some(a)) + Reemit(a, k - 1)
  }

  function Pow2(n: nat): (p: nat)
    ensures p >= 1
  {
    if n == 0 then 1 else 2 * Pow2(n - 1)
  }

  /** A camel event on a member at depth `d` reaches user listeners `2^d` times in all. */
  lemma {:induction false} EmitCount(a: Addr, why: string, from: Option<Addr>)
    ensures |Emit(a, why, from)| == Pow2(|a|)
    decreases |a|, 1, 0
  {
    ReemitCount(a, |a|);
  }

  lemma {:induction false} ReemitCount(a: Addr, k: nat)
    requires k <= |a|
    ensures |Reemit(a, k)| == Pow2(k) - 1
    decreases |a|, 0, k
  {
    if k > 0 {
      EmitCount(a[..k - 1], "child-updated", Some(a));
      ReemitCount(a, k - 1);
    }
  }

  /** Every camel event lands on the member it was emitted on or on one of its ancestors. */
  lemma {:induction false} EmitStaysAbove(a: Addr, why: string, from: Option<Addr>)
    ensures forall e :: e in Emit(a, why, from) ==> e.Fired? && Above(e.at, a)
    decreases |a|, 1, 0
  {
    ReemitStaysAbove(a, |a|);
  }

  lemma {:induction false} ReemitStaysAbove(a: Addr, k: nat)
    requires k <= |a|
    ensures forall e :: e in Reemit(a, k) ==> e.Fired? && Above(e.at, a) && |e.at| < |a|
    decreases |a|, 0, k
  {
    if k > 0 {
      var p := a[..k - 1];
      EmitStaysAbove(p, "child-updated", Some(a));
      ReemitStaysAbove(a, k - 1);
      forall e | e in Emit(p, "child-updated", Some(a)) ensures Above(e.at, a) && |e.at| < |a| {
        assert Above(e.at, p);
        assert a[..|e.at|] == p[..|e.at|];
      }
    }
  }

  /** The member a camel event was emitted on hears it exactly once, and last. */
  lemma OwnListenersHearOnce(a: Addr, why: string, from: Option<Addr>)
    ensures forall i :: 0 <= i < |Emit(a, why, from)| - 1 ==> Emit(a, why, from)[i].at != a
  {
    ReemitStaysAbove(a, |a|);
    var es := Emit(a, why, from);
    forall i | 0 <= i < |es| - 1 ensures es[i].at != a {
      assert es[i] in Reemit(a, |a|);
    }
  }

  // ---------------------------------------------------------------------------
  // Either family
  // ---------------------------------------------------------------------------

  /** What one `emit_update(why)` (snake) or `emit('updated', {now_firing: this, why})` (camel) delivers. */
  function Emitted(f: Family, a: Addr, why: string): (es: seq<Event>)
    ensures |es| > 0
    ensures f == Snake ==> |es| == |a| + 1
    ensures f == Camel ==> |es| == Pow2(|a|)
  {
    if f == Snake then EmitUpdate(a, why)
    else
      EmitCount(a, why, None);
      Emit(a, why, None)
  }
}
