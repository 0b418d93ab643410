/** Sequence facts shared by the animation loops that walk an array from the
    end and `splice` out the items that expire. */
module Seqs {

  /** What a backwards `for (i = a.length - 1; i >= 0; i--)` loop that first
      advances `a[i]` by `step` and then removes it unless `live` holds
      leaves behind: the advanced items that are still live, in their
      original order. */
  function Survivors<T>(step: T -> T, live: T -> bool, s: seq<T>): (r: seq<T>)
    ensures |r| <= |s|
    ensures forall x :: x in r ==> live(x)
    ensures forall i :: 0 <= i < |s| && live(step(s[i])) ==> step(s[i]) in r
    ensures forall x :: x in r ==> exists i :: 0 <= i < |s| && x == step(s[i])
  {
    if s == [] then []
    else
      var q := step(s[0]);
      var rest := Survivors(step, live, s[1..]);
      assert forall i :: 1 <= i < |s| ==> s[i] == s[1..][i - 1];
      (if live(q) then [q] else []) + rest
  }

  /** Survivors of a concatenation are the survivors of each part, in order:
      the loop never reorders what it keeps. */
  lemma {:induction false} SurvivorsAppend<T>(step: T -> T, live: T -> bool, a: seq<T>, b: seq<T>)
    ensures Survivors(step, live, a + b) == Survivors(step, live, a) + Survivors(step, live, b)
  {
    if a == [] {
      assert a + b == b;
    } else {
      assert (a + b)[1..] == a[1..] + b;
      SurvivorsAppend(step, live, a[1..], b);
    }
  }

  /** When every item remains live after its step, nothing is removed and
      every item is advanced in place. */
  lemma {:induction false} SurvivorsNoneExpire<T>(step: T -> T, live: T -> bool, s: seq<T>)
    requires forall i :: 0 <= i < |s| ==> live(step(s[i]))
    ensures |Survivors(step, live, s)| == |s|
    ensures forall i :: 0 <= i < |s| ==> Survivors(step, live, s)[i] == step(s[i])
  {
    if s != [] {
      SurvivorsNoneExpire(step, live, s[1..]);
    }
  }

  /** The loop body at index `i` in the backwards splice loops: the survivors
      of `s[i..]` are the item at `i`, if it survives its step, followed by
      the survivors of `s[i+1..]`. */
  lemma SurvivorsFrom<T>(step: T -> T, live: T -> bool, s: seq<T>, i: nat)
    requires i < |s|
    ensures Survivors(step, live, s[i..])
         == (if live(step(s[i])) then [step(s[i])] else []) + Survivors(step, live, s[i + 1..])
  {
    assert s[i..][1..] == s[i + 1..];
  }

  /** One iteration of a backwards splice loop on the list `cur`, which
      holds the untouched prefix `start[..i + 1]` followed by the survivors
      after it: advancing item `i` in place, or splicing it out when it is
      no longer live, leaves the untouched prefix `start[..i]` followed by
      the survivors from `i` on. */
  lemma SpliceStep<T>(step: T -> T, live: T -> bool, start: seq<T>, cur: seq<T>, i: nat)
    requires i < |start|
    requires cur == start[..i + 1] + Survivors(step, live, start[i + 1..])
    ensures i < |cur| && cur[i] == start[i]
    ensures !live(step(cur[i])) ==>
      cur[..i] + cur[i + 1..] == start[..i] + Survivors(step, live, start[i..])
    ensures live(step(cur[i])) ==>
      cur[i := step(cur[i])] == start[..i] + Survivors(step, live, start[i..])
  {
    SurvivorsFrom(step, live, start, i);
    assert cur[..i] == start[..i];
    assert cur[i + 1..] == Survivors(step, live, start[i + 1..]);
    if live(step(cur[i])) {
      assert cur[i := step(cur[i])] == start[..i] + [step(start[i])] + Survivors(step, live, start[i + 1..]);
    }
  }
}
