/** The count-up animation of a statistic such as "25+": the text is split
    into its digits and the rest, and the number counts up from 0 to its
    value over fifty interval ticks, shown with the rest as a suffix. */
module StatCounter {

  import opened RealArith

  /** A character of the class \d (ASCII digits only). */
  predicate IsDigit(c: char)
  {
    '0' <= c <= '9'
  }

  predicate AllDigits(s: string)
  {
    forall k :: 0 <= k < |s| ==> IsDigit(s[k])
  }

  /** text.replace(/\D/g, ''): the digits of the text, in order. */
  function Digits(s: string): (d: string)
    ensures AllDigits(d) && |d| <= |s|
  {
    if s == [] then []
    else (if IsDigit(s[0]) then [s[0]] else []) + Digits(s[1..])
  }

  /** text.replace(/\d/g, ''): everything but the digits, in order. */
  function Suffix(s: string): (r: string)
    ensures forall k :: 0 <= k < |r| ==> !IsDigit(r[k])
    ensures |r| <= |s|
  {
    if s == [] then []
    else (if IsDigit(s[0]) then [] else [s[0]]) + Suffix(s[1..])
  }

  /** Digits and suffix split the text: together they hold exactly its
      characters. */
  lemma {:induction false} SplitPartitions(s: string)
    ensures multiset(Digits(s)) + multiset(Suffix(s)) == multiset(s)
    ensures |Digits(s)| + |Suffix(s)| == |s|
  {
    if s != [] {
      SplitPartitions(s[1..]);
      assert s == [s[0]] + s[1..];
    }
  }

  /** Both filters keep the text's order: filtering a concatenation
      concatenates the filtered parts. */
  lemma {:induction false} DigitsConcat(a: string, b: string)
    ensures Digits(a + b) == Digits(a) + Digits(b)
    ensures Suffix(a + b) == Suffix(a) + Suffix(b)
  {
    if a != [] {
      assert (a + b)[1..] == a[1..] + b;
      DigitsConcat(a[1..], b);
      var d := if IsDigit(a[0]) then [a[0]] else [];
      var n := if IsDigit(a[0]) then [] else [a[0]];
      assert d + (Digits(a[1..]) + Digits(b)) == (d + Digits(a[1..])) + Digits(b);
      assert n + (Suffix(a[1..]) + Suffix(b)) == (n + Suffix(a[1..])) + Suffix(b);
    } else {
      assert a + b == b;
    }
  }

  /** The digits are read in text order: "1,000+" counts up to 1000 and keeps
      ",+" as its suffix. */
  lemma ThousandPlus()
    ensures Digits("1,000+") == "1000" && Suffix("1,000+") == ",+"
    ensures CounterValue("1,000+") == 1000
  {
    DigitsConcat("1,", "000+");
    DigitsConcat("1", ",");
    DigitsConcat("000", "+");
    assert "1," == "1" + "," && "000+" == "000" + "+";
    assert "1,000+" == "1," + "000+";
    assert "1000"[..3] == "100" && "100"[..2] == "10" && "10"[..1] == "1";
  }

  /** A text without digits is its own suffix. */
  lemma {:induction false} SuffixOfDigitFree(s: string)
    requires forall k :: 0 <= k < |s| ==> !IsDigit(s[k])
    ensures Suffix(s) == s && Digits(s) == []
  {
    if s != [] {
      SuffixOfDigitFree(s[1..]);
    }
  }

  function DigitValue(c: char): nat
    requires IsDigit(c)
  {
    c as int - '0' as int
  }

  /** parseInt of a string of digits, read most significant first; the
      empty string stands for parseInt's NaN, which `|| 0` turns into 0. */
  function DecimalValue(d: string): nat
    requires AllDigits(d)
  {
    if d == [] then 0 else DecimalValue(d[..|d| - 1]) * 10 + DigitValue(d[|d| - 1])
  }

  /** The counter's numeric value: parseInt(digits) || 0. */
  function CounterValue(text: string): nat
  {
    DecimalValue(Digits(text))
  }

  /** Number-to-string for a non-negative integer, as String(n) writes it
      below 10^21, in plain decimal digits. */
  function NatToDecimal(n: nat): (s: string)
    ensures AllDigits(s) && s != []
    ensures n >= 10 <==> s[0] != '0' && |s| > 1
    ensures |s| > 1 ==> s[0] != '0'
  {
    var last := ['0' + (n % 10) as char];
    if n < 10 then last else NatToDecimal(n / 10) + last
  }

  /** Parsing what was printed gives the number back. */
  lemma {:induction false} DecimalRoundTrip(n: nat)
    ensures DecimalValue(NatToDecimal(n)) == n
  {
    var s := NatToDecimal(n);
    if n >= 10 {
      DecimalRoundTrip(n / 10);
      assert s[..|s| - 1] == NatToDecimal(n / 10);
    }
  }

  /** Printing what was parsed gives back the digits, when they have no
      leading zero. */
  lemma {:induction false} DecimalRoundTripDigits(d: string)
    requires AllDigits(d) && d != [] && (|d| > 1 ==> d[0] != '0')
    ensures NatToDecimal(DecimalValue(d)) == d
  {
    var init := d[..|d| - 1];
    if |init| > 0 {
      assert init[0] == d[0];
      DecimalRoundTripDigits(init);
      DecimalPositive(init);
    }
  }

  lemma {:induction false} DecimalPositive(d: string)
    requires AllDigits(d) && d != [] && d[0] != '0'
    ensures DecimalValue(d) > 0
  {
    if |d| > 1 {
      var init := d[..|d| - 1];
      assert init[0] == d[0];
      DecimalPositive(init);
    }
  }

  // ---------------------------------------------------------------------
  // The interval ticks

  const Steps: nat := 50

  /** The number displayed after tick t of the count-up to value. */
  function Shown(value: nat, t: nat): nat
  {
    ((t * value) as real / 50.0).Floor
  }

  /** After t ticks the running total t * value / 50 has reached the value
      exactly from the fiftieth tick on. */
  lemma {:induction false} ReachedAt(value: nat, t: nat)
    requires 0 < value
    ensures (t * value) as real / 50.0 >= value as real <==> t >= Steps
  {
    if t >= Steps {
      assert t * value >= 50 * value;
    } else {
      assert t * value < 50 * value;
    }
  }

  /** One tick adds value / 50 to the running total; the total reaches the
      value at the fiftieth tick, where it equals the value. */
  lemma NextTotal(value: nat, t: nat)
    requires 0 < value
    ensures (t * value) as real / 50.0 + value as real / 50.0 == ((t + 1) * value) as real / 50.0
    ensures ((t + 1) * value) as real / 50.0 >= value as real <==> t + 1 >= Steps
    ensures t + 1 == Steps ==> ((t + 1) * value) as real / 50.0 == value as real
  {
    assert (t + 1) * value == t * value + value;
    ReachedAt(value, t + 1);
  }

  /** The displayed numbers never go down. */
  lemma {:induction false} ShownMonotone(value: nat, a: nat, b: nat)
    requires a <= b
    ensures Shown(value, a) <= Shown(value, b)
  {
    assert a * value <= b * value;
  }

  /** The displayed numbers stay between 0 and the value, and the fiftieth
      is the value itself. */
  lemma {:induction false} ShownBounds(value: nat, t: nat)
    requires t <= Steps
    ensures Shown(value, t) <= value
    ensures t == Steps ==> Shown(value, t) == value
  {
    assert t * value <= 50 * value;
  }

  /** The .stat-number element: its text and its data-animated mark. */
  class StatNumber {
    var text: string
    var animated: bool

    constructor (text: string)
      ensures this.text == text && !animated
    {
      this.text := text;
      animated := false;
    }

    /** animateCounter with every interval tick carried out: frames are the
        texts shown tick by tick.  An element already marked, or whose digits
        read as 0, is left alone. */
    method AnimateCounter() returns (frames: seq<string>)
      modifies this
      ensures old(animated) || CounterValue(old(text)) == 0 ==>
        text == old(text) && animated == old(animated) && frames == []
      ensures !old(animated) && CounterValue(old(text)) > 0 ==>
        && animated
        && |frames| == Steps
        && (forall m :: 0 <= m < Steps ==>
              frames[m] == NatToDecimal(Shown(CounterValue(old(text)), m + 1)) + Suffix(old(text)))
        && text == frames[|frames| - 1] == NatToDecimal(CounterValue(old(text))) + Suffix(old(text))
    {
      frames := [];
      if animated {
        return;
      }
      var finalValue := text;
      var numericValue := CounterValue(finalValue);
      var suffix := Suffix(finalValue);
      if numericValue == 0 {
        return;
      }
      animated := true;
      var current: real := 0.0;
      var increment := numericValue as real / 50.0;
      var running := true;
      ghost var ticks: nat := 0;
      while running
        invariant ticks <= Steps && |frames| == ticks
        invariant running <==> ticks < Steps
        invariant current == (ticks * numericValue) as real / 50.0
        invariant forall m :: 0 <= m < ticks ==>
          frames[m] == NatToDecimal(Shown(numericValue, m + 1)) + suffix
        invariant ticks > 0 ==> text == frames[ticks - 1]
        invariant animated
        decreases Steps - ticks
      {
        NextTotal(numericValue, ticks);
        current := current + increment;
        ticks := ticks + 1;
        if current >= numericValue as real {
          current := numericValue as real;
          running := false;
        }
        text := NatToDecimal(current.Floor) + suffix;
        frames := frames + [text];
      }
      ShownBounds(numericValue, Steps);
    }
  }
}
