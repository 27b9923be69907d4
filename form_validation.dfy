/** Real-time validation of the contact form's inputs: the trimmed value is
    checked according to the input's type and yields a verdict and a
    feedback message. */
module FormValidation {

  /** The code points ECMAScript counts as WhiteSpace or LineTerminator:
      what String.prototype.trim strips and what the regular expression
      class \s matches. */
  predicate IsWhitespace(c: char)
  {
    var n := c as int;
    || (0x09 <= n <= 0x0D) || n == 0x20 || n == 0xA0 || n == 0x1680
    || (0x2000 <= n <= 0x200A) || n == 0x2028 || n == 0x2029
    || n == 0x202F || n == 0x205F || n == 0x3000 || n == 0xFEFF
  }

  predicate AllWhitespace(s: string)
  {
    forall k :: 0 <= k < |s| ==> IsWhitespace(s[k])
  }

  predicate NoWhitespace(s: string)
  {
    forall k :: 0 <= k < |s| ==> !IsWhitespace(s[k])
  }

  /** Length of the leading run of whitespace. */
  function LeadingWhitespace(s: string): (k: nat)
    ensures k <= |s| && AllWhitespace(s[..k])
    ensures k < |s| ==> !IsWhitespace(s[k])
  {
    if |s| == 0 || !IsWhitespace(s[0]) then 0
    else
      var k := 1 + LeadingWhitespace(s[1..]);
      assert s[..k] == [s[0]] + s[1..][..k - 1];
      k
  }

  /** Index at which the trailing run of whitespace starts. */
  function TrailingStart(s: string): (k: nat)
    ensures k <= |s| && AllWhitespace(s[k..])
    ensures 0 < k ==> !IsWhitespace(s[k - 1])
  {
    if |s| == 0 || !IsWhitespace(s[|s| - 1]) then |s|
    else
      var k := TrailingStart(s[..|s| - 1]);
      TrailingStep(s, k);
      k
  }

  /** A whitespace run of the text without its last, whitespace, character
      extends to the whole text. */
  lemma TrailingStep(s: string, k: nat)
    requires 0 < |s| && k < |s| && IsWhitespace(s[|s| - 1])
    requires AllWhitespace(s[..|s| - 1][k..])
    ensures AllWhitespace(s[k..])
    ensures 0 < k ==> s[k - 1] == s[..|s| - 1][k - 1]
  {
    assert s[k..] == s[..|s| - 1][k..] + [s[|s| - 1]];
  }

  /** The slice between a leading and a trailing whitespace run, each
      ending at a non-whitespace character. */
  lemma TrimSlice(s: string, lo: nat, hi: nat)
    requires lo <= |s| && hi <= |s| - lo
    requires AllWhitespace(s[..lo]) && AllWhitespace(s[lo..][hi..])
    requires lo < |s| ==> !IsWhitespace(s[lo])
    requires 0 < hi ==> !IsWhitespace(s[lo..][hi - 1])
    ensures s[lo..][..hi] == s[lo..lo + hi]
    ensures AllWhitespace(s[lo + hi..])
    ensures 0 < hi ==> !IsWhitespace(s[lo]) && !IsWhitespace(s[lo + hi - 1])
    ensures hi == 0 <==> AllWhitespace(s)
  {
    assert s[lo..][hi..] == s[lo + hi..];
    if hi == 0 {
      assert lo == |s|;
      forall k | 0 <= k < |s| ensures IsWhitespace(s[k]) {
        assert s[k] == s[..lo][k];
      }
    } else {
      assert s[lo + hi - 1] == s[lo..][hi - 1];
    }
  }

  /** String.prototype.trim: the value without its leading and trailing
      whitespace. */
  function Trim(s: string): (r: string)
    ensures var lo := LeadingWhitespace(s);
      && lo + |r| <= |s|
      && r == s[lo..lo + |r|]
      && AllWhitespace(s[..lo]) && AllWhitespace(s[lo + |r|..])
    ensures r != [] ==> !IsWhitespace(r[0]) && !IsWhitespace(r[|r| - 1])
    ensures r == [] <==> AllWhitespace(s)
  {
    var lo := LeadingWhitespace(s);
    var hi := TrailingStart(s[lo..]);
    TrimSlice(s, lo, hi);
    s[lo..][..hi]
  }

  /** Trimming is idempotent. */
  lemma TrimIdempotent(s: string)
    ensures Trim(Trim(s)) == Trim(s)
  {
    var r := Trim(s);
    if r != [] {
      assert LeadingWhitespace(r) == 0;
      assert TrailingStart(r) == |r|;
    }
  }

  /** JavaScript's String.length: UTF-16 code units, two for a code point
      beyond the Basic Multilingual Plane. */
  function Utf16Length(s: string): (n: nat)
    ensures |s| <= n <= 2 * |s|
    ensures n == 0 <==> s == []
  {
    if s == [] then 0
    else (if s[0] as int >= 0x10000 then 2 else 1) + Utf16Length(s[1..])
  }

  // ---------------------------------------------------------------------
  // The e-mail pattern ^[^\s@]+@[^\s@]+\.[^\s@]+$

  /** A character of the class [^\s@]. */
  predicate PatternChar(c: char)
  {
    !IsWhitespace(c) && c != '@'
  }

  /** A match of [^\s@]+ on the whole of t. */
  predicate Segment(t: string)
  {
    |t| > 0 && forall k :: 0 <= k < |t| ==> PatternChar(t[k])
  }

  /** The regular expression, read as written: some split of the value into
      a segment, '@', a segment, '.', a segment. */
  predicate MatchesEmailPattern(s: string)
  {
    exists at, dot | 0 < at < |s| && at + 1 < dot < |s| - 1 ::
      && s[at] == '@' && s[dot] == '.'
      && Segment(s[..at]) && Segment(s[at + 1..dot]) && Segment(s[dot + 1..])
  }

  /** A domain part with a '.' that is neither its first nor its last
      character. */
  ghost predicate DottedDomain(d: string)
  {
    exists k :: 0 < k < |d| - 1 && d[k] == '.'
  }

  /** The shape the pattern describes, in plain terms: no whitespace, exactly
      one '@', something before it, and a dotted domain after it. */
  ghost predicate EmailShape(s: string)
  {
    && NoWhitespace(s)
    && (exists at :: 0 <= at < |s| && s[at] == '@'
         && (forall j :: 0 <= j < |s| && s[j] == '@' ==> j == at)
         && 0 < at
         && DottedDomain(s[at + 1..]))
  }

  /** A stretch of s whose characters are all in the class matches [^\s@]+. */
  lemma SegmentOf(s: string, lo: nat, hi: nat)
    requires lo < hi <= |s|
    requires forall k :: lo <= k < hi ==> PatternChar(s[k])
    ensures Segment(s[lo..hi])
  {
    forall m | 0 <= m < hi - lo ensures PatternChar(s[lo..hi][m]) {
      assert s[lo..hi][m] == s[lo + m];
    }
  }

  lemma {:induction false} PatternHasShape(s: string)
    requires MatchesEmailPattern(s)
    ensures EmailShape(s)
  {
    var at, dot :| 0 < at < |s| && at + 1 < dot < |s| - 1
      && s[at] == '@' && s[dot] == '.'
      && Segment(s[..at]) && Segment(s[at + 1..dot]) && Segment(s[dot + 1..]);
    forall k | 0 <= k < |s| ensures (PatternChar(s[k]) || k == at || k == dot) {
      if k < at {
        assert s[k] == s[..at][k];
      } else if at < k < dot {
        assert s[k] == s[at + 1..dot][k - at - 1];
      } else if dot < k {
        assert s[k] == s[dot + 1..][k - dot - 1];
      }
    }
    var d := s[at + 1..];
    assert d[dot - at - 1] == '.';
    assert DottedDomain(d);
  }

  lemma {:induction false} ShapeMatchesPattern(s: string)
    requires EmailShape(s)
    ensures MatchesEmailPattern(s)
  {
    var at :| 0 <= at < |s| && s[at] == '@'
      && (forall j :: 0 <= j < |s| && s[j] == '@' ==> j == at)
      && 0 < at
      && DottedDomain(s[at + 1..]);
    var d := s[at + 1..];
    var k :| 0 < k < |d| - 1 && d[k] == '.';
    var dot := at + 1 + k;
    assert s[dot] == '.';
    SegmentOf(s, 0, at);
    SegmentOf(s, at + 1, dot);
    SegmentOf(s, dot + 1, |s|);
    assert s[..at] == s[0..at];
    assert s[dot + 1..] == s[dot + 1..|s|];
  }

  /** The pattern matches exactly the values of that shape. */
  lemma EmailPatternIffShape(s: string)
    ensures MatchesEmailPattern(s) <==> EmailShape(s)
  {
    if MatchesEmailPattern(s) {
      PatternHasShape(s);
    }
    if EmailShape(s) {
      ShapeMatchesPattern(s);
    }
  }

  // ---------------------------------------------------------------------
  // The validator

  /** Whether the input passes, and the feedback message shown when not. */
  datatype Verdict = Verdict(isValid: bool, message: string)

  /** validateInput on an input of the given type and name holding rawValue. */
  function ValidateInput(inputType: string, name: string, rawValue: string): (v: Verdict)
    ensures v.isValid <==> v.message == []
    ensures Trim(rawValue) == [] ==> !v.isValid
  {
    var value := Trim(rawValue);
    if inputType == "email" then
      if value == [] then Verdict(false, "Email is required")
      else if !MatchesEmailPattern(value) then Verdict(false, "Please enter a valid email")
      else Verdict(true, "")
    else if inputType == "text" then
      if value == [] then Verdict(false, name + " is required")
      else if Utf16Length(value) < 2 then Verdict(false, name + " must be at least 2 characters")
      else Verdict(true, "")
    else
      if value == [] then Verdict(false, name + " is required")
      else Verdict(true, "")
  }

  /** An empty or all-whitespace value is rejected with the "required"
      message of its type. */
  lemma EmptyIsRequired(inputType: string, name: string, rawValue: string)
    requires AllWhitespace(rawValue)
    ensures !ValidateInput(inputType, name, rawValue).isValid
    ensures ValidateInput(inputType, name, rawValue).message ==
      if inputType == "email" then "Email is required" else name + " is required"
  {
  }

  /** A text input needs at least two UTF-16 code units after trimming. */
  lemma TextRule(name: string, rawValue: string)
    ensures ValidateInput("text", name, rawValue).isValid <==> Utf16Length(Trim(rawValue)) >= 2
  {
  }

  /** An e-mail input is valid exactly when its trimmed value has the e-mail
      shape. */
  lemma EmailRule(name: string, rawValue: string)
    ensures ValidateInput("email", name, rawValue).isValid <==> EmailShape(Trim(rawValue))
  {
    EmailPatternIffShape(Trim(rawValue));
  }

  /** Any other input type only needs a non-blank value. */
  lemma OtherRule(inputType: string, name: string, rawValue: string)
    requires inputType != "email" && inputType != "text"
    ensures ValidateInput(inputType, name, rawValue).isValid <==> !AllWhitespace(rawValue)
  {
  }
}
