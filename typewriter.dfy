/** The typewriter effect of the hero section: an element's text is emptied
    and the given text is appended one character per interval tick; the
    interval stops once the counter has reached the text's length. */
module Typewriter {

  function MinNat(a: nat, b: nat): nat
  {
    if a <= b then a else b
  }

  /** String.prototype.charAt: the character at k, or "" past the end. */
  function CharAt(s: string, k: nat): (r: string)
    ensures k < |s| ==> r == [s[k]]
    ensures k >= |s| ==> r == []
  {
    if k < |s| then [s[k]] else []
  }

  /** What the element shows after k ticks: the first k characters. */
  function TypedAfter(text: string, k: nat): (r: string)
    ensures |r| == MinNat(k, |text|)
    ensures r <= text
  {
    text[..MinNat(k, |text|)]
  }

  /** One tick appends exactly the next character of the text. */
  lemma TypedStep(text: string, k: nat)
    ensures TypedAfter(text, k) + CharAt(text, k) == TypedAfter(text, k + 1)
  {
    if k < |text| {
      assert text[..k + 1] == text[..k] + [text[k]];
    }
  }

  /** After as many ticks as the text has characters, all of it is shown,
      and further ticks add nothing. */
  lemma {:induction false} TypedComplete(text: string, k: nat)
    requires k >= |text|
    ensures TypedAfter(text, k) == text
  {
    assert text[..|text|] == text;
  }

  /** The number of ticks typeText runs: one per character, and a single
      tick for the empty text, whose check comes only after the first
      append. */
  function TickCount(text: string): (n: nat)
    ensures n >= 1 && n >= |text|
    ensures n == |text| || (text == [] && n == 1)
  {
    if text == [] then 1 else |text|
  }

  /** One pending typeText call on one element: the text being typed, the
      element's textContent, the counter i, and whether the interval has
      been cleared. */
  class Typewriter {
    const text: string
    var content: string
    var i: nat
    var finished: bool

    ghost predicate Valid()
      reads this
    {
      && content == TypedAfter(text, i)
      && (finished <==> i >= 1 && i >= |text|)
    }

    /** typeText's set-up: textContent becomes "" and i starts at 0. */
    constructor (text: string)
      ensures Valid()
      ensures this.text == text && content == [] && i == 0 && !finished
    {
      this.text := text;
      content := [];
      i := 0;
      finished := false;
    }

    /** One interval tick: append charAt(i), advance i, and clear the
        interval once i has reached the text's length. */
    method Tick()
      requires Valid() && !finished
      modifies this
      ensures Valid()
      ensures i == old(i) + 1
      ensures content == old(content) + CharAt(text, old(i))
      ensures finished <==> i >= |text|
    {
      TypedStep(text, i);
      content := content + CharAt(text, i);
      i := i + 1;
      if i >= |text| {
        finished := true;
      }
    }

    /** The interval run to its end: the whole text is shown after exactly
        TickCount(text) ticks. */
    method Run() returns (ticks: nat)
      requires Valid() && i == 0 && !finished
      modifies this
      ensures Valid() && finished
      ensures content == text
      ensures ticks == i == TickCount(text)
    {
      ticks := 0;
      while !finished
        invariant Valid()
        invariant ticks == i
        invariant !finished ==> i < TickCount(text)
        invariant finished ==> i == TickCount(text)
        decreases TickCount(text) - i
      {
        Tick();
        ticks := ticks + 1;
      }
      TypedComplete(text, i);
    }
  }
}
