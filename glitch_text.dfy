/** The decoding text effect (src/components/GlitchText.jsx). `BuildFrame`
    is the loop inside `frame` that writes one scrambled string; the class
    holds the `display` and `done` state that `run` and `frame` set. The
    tick's clock arithmetic is the input `raw`, which stands for
    `(now - start - delay) / duration`; `Math.random` picks are the input
    `picks`. */
module GlitchText {

  /** The scramble alphabet, 67 characters and no space, written in
      ten-character pieces. */
  const Scramble: string :=
    "█▓▒░<>/\\|!" + "?@#$%^&*+=" + "-_~;:[]{}(" + ")ABCDEFGHI" + "JKLMNOPQRS" + "TUVWXYZ012" + "3456789"

  lemma ScrambleHasNoSpace()
    ensures ' ' !in Scramble
    ensures |Scramble| == 67
  {
  }

  /** The frame string for `target` with the first `shown` characters
      revealed: every other position keeps a space as a space and shows the
      picked scramble character otherwise. */
  method BuildFrame(target: string, shown: int, picks: seq<nat>) returns (out: string)
    requires |picks| == |target|
    requires forall i :: 0 <= i < |picks| ==> picks[i] < |Scramble|
    ensures |out| == |target|
    ensures forall i :: 0 <= i < |target| && i < shown ==> out[i] == target[i]
    ensures forall i :: 0 <= i < |target| && i >= shown && target[i] != ' ' ==> out[i] == Scramble[picks[i]]
    ensures forall i :: 0 <= i < |target| ==> (out[i] == ' ' <==> target[i] == ' ')
    ensures forall i :: 0 <= i < |target| ==> out[i] == target[i] || out[i] in Scramble
  {
    ScrambleHasNoSpace();
    out := "";
    for i := 0 to |target|
      invariant |out| == i
      invariant forall k :: 0 <= k < i && k < shown ==> out[k] == target[k]
      invariant forall k :: 0 <= k < i && k >= shown && target[k] != ' ' ==> out[k] == Scramble[picks[k]]
      invariant forall k :: 0 <= k < i ==> (out[k] == ' ' <==> target[k] == ' ')
      invariant forall k :: 0 <= k < i ==> out[k] == target[k] || out[k] in Scramble
    {
      if i < shown {
        out := out + [target[i]];
      } else {
        out := out + [if target[i] == ' ' then ' ' else Scramble[picks[i]]];
      }
    }
  }

  /** `Math.min(1, raw)`: the same clamp of the clock ratio as
      `SemiCircleProgress.Progress`, kept per module as each component
      writes its own. */
  function Progress(raw: real): (t: real)
    ensures t <= 1.0
    ensures raw <= 1.0 ==> t == raw
    ensures raw >= 1.0 ==> t == 1.0
  {
    if raw < 1.0 then raw else 1.0
  }

  /** `Math.floor(t * length)`. */
  function Reveal(t: real, length: nat): (r: int)
    ensures 0.0 < t <= 1.0 ==> 0 <= r <= length
    ensures t == 1.0 ==> r == length
  {
    RevealBounds(t, length);
    (t * length as real).Floor
  }

  lemma RevealBounds(t: real, length: nat)
    ensures 0.0 < t <= 1.0 ==> 0.0 <= t * length as real <= length as real
  {
    if 0.0 < t <= 1.0 {
      assert t * length as real <= 1.0 * length as real;
    }
  }

  class Glitch {
    const text: string
    const locked: bool
    const reduced: bool
    var display: string
    var done: bool
    /** A `frame` callback is scheduled. */
    var animating: bool

    /** First render: `display` starts as the text and `done` as false. */
    constructor (text: string, locked: bool, reduced: bool)
      ensures this.text == text && this.locked == locked && this.reduced == reduced
      ensures display == text && !done && !animating
    {
      this.text := text;
      this.locked := locked;
      this.reduced := reduced;
      display := text;
      done := false;
      animating := false;
    }

    /** `run()`: a locked or reduced-motion component shows its text at
        once and is done; otherwise an animation is (re)started. */
    method Run()
      modifies this
      ensures (locked || reduced) ==> display == text && done && animating == old(animating)
      ensures !(locked || reduced) ==> display == old(display) && !done && animating
    {
      if locked || reduced {
        display := text;
        done := true;
        return;
      }
      done := false;
      animating := true;
    }

    /** The effect's locked shortcut, run when the component mounts. */
    method Mount()
      modifies this
      ensures locked ==> display == text && done
      ensures !locked ==> display == old(display) && done == old(done)
      ensures animating == old(animating)
    {
      if locked {
        display := text;
        done := true;
      }
    }

    /** `onFocus`: re-run unless locked. */
    method Focus()
      modifies this
      ensures locked ==> display == old(display) && done == old(done) && animating == old(animating)
      ensures !locked && reduced ==> display == text && done
      ensures !locked && !reduced ==> !done && animating
    {
      if !locked {
        Run();
      }
    }

    /** One `frame(now)` callback. Before the delay has passed nothing is
        shown; afterwards the frame string replaces the display, and at the
        end of the duration the display is the text and the effect is done. */
    method Frame(raw: real, picks: seq<nat>)
      requires animating
      requires |picks| == |text|
      requires forall i :: 0 <= i < |picks| ==> picks[i] < |Scramble|
      modifies this
      ensures Progress(raw) <= 0.0 ==> display == old(display) && done == old(done) && animating
      ensures Progress(raw) > 0.0 ==> |display| == |text|
      ensures Progress(raw) > 0.0 ==>
        forall i :: 0 <= i < Reveal(Progress(raw), |text|) ==> display[i] == text[i]
      ensures Progress(raw) > 0.0 ==> forall i :: 0 <= i < |text| ==> (display[i] == ' ' <==> text[i] == ' ')
      ensures Progress(raw) >= 1.0 ==> display == text && done && !animating
      ensures 0.0 < Progress(raw) < 1.0 ==> done == old(done) && animating
    {
      var t := Progress(raw);
      if t <= 0.0 {
        return;
      }
      var shown := Reveal(t, |text|);
      var out := BuildFrame(text, shown, picks);
      display := out;
      if t < 1.0 {
        animating := true;
      } else {
        assert shown == |text|;
        done := true;
        animating := false;
      }
    }
  }
}
