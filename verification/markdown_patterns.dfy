/**
  The regular expressions of the message formatter (apps/web/src/messageMarkdown.ts), over UTF-16
  code units. Each pattern is given by the predicate saying that it matches from `open` with its
  closing delimiter at `close`; the search takes the leftmost opening and, since every repetition
  that may contain its own delimiter is lazy, the earliest close for it.
 */
module MarkdownPatterns {
  import opened Options

  /** A code unit. Nothing below needs its upper bound of 0xFFFF. */
  type Unit = int

  type Text = seq<Unit>

  const NEWLINE: Unit := 10
  const STAR: Unit := 42
  const PLUS: Unit := 43
  const MINUS: Unit := 45
  const AT: Unit := 64
  const UNDERSCORE: Unit := 95
  const BACKTICK: Unit := 96
  const TILDE: Unit := 126

  const PLACEHOLDER_START := 0xE000
  const PLACEHOLDER_END := 0xF8FF

  /** The `\p{L}` and `\p{N}` classes, by code point; their tables are left open. */
  type Letters = int -> bool

  predicate IsPlaceholder(c: Unit) {
    PLACEHOLDER_START <= c <= PLACEHOLDER_END
  }

  predicate HasPlaceholder(s: Text) {
    s != [] && (IsPlaceholder(s[0]) || HasPlaceholder(s[1..]))
  }

  /** `\s`: white space and line terminators of ECMAScript. */
  predicate IsSpace(c: Unit) {
    || 9 <= c <= 13 || c == 32 || c == 0xA0 || c == 0x1680 || 0x2000 <= c <= 0x200A
    || c == 0x2028 || c == 0x2029 || c == 0x202F || c == 0x205F || c == 0x3000 || c == 0xFEFF
  }

  /** `[\w+-]`. */
  predicate IsTagUnit(c: Unit) {
    || 48 <= c <= 57 || 65 <= c <= 90 || 97 <= c <= 122
    || c == UNDERSCORE || c == PLUS || c == MINUS
  }

  predicate IsHigh(c: Unit) { 0xD800 <= c <= 0xDBFF }

  predicate IsLow(c: Unit) { 0xDC00 <= c <= 0xDFFF }

  function CodePoint(high: Unit, low: Unit): int
    requires IsHigh(high) && IsLow(low)
  {
    0x10000 + (high - 0xD800) * 0x400 + (low - 0xDC00)
  }

  /** `(?<=[\p{L}\p{N}_])` at `i`: the code point that ends there is a word character. */
  predicate WordBefore(letters: Letters, s: Text, i: nat)
    requires i <= |s|
  {
    i > 0 &&
    if i > 1 && IsLow(s[i - 1]) && IsHigh(s[i - 2]) then letters(CodePoint(s[i - 2], s[i - 1]))
    else s[i - 1] == UNDERSCORE || letters(s[i - 1])
  }

  /** `(?=[\p{L}\p{N}_])` at `i`: the code point that starts there is a word character. */
  predicate WordAfter(letters: Letters, s: Text, i: nat)
    requires i <= |s|
  {
    i < |s| &&
    if i + 1 < |s| && IsHigh(s[i]) && IsLow(s[i + 1]) then letters(CodePoint(s[i], s[i + 1]))
    else s[i] == UNDERSCORE || letters(s[i])
  }

  /** A bold span, a struck-out span, the two italic forms, inline code and a code block. */
  datatype Pattern = Bold | Strike | Star | Underscore | Inline | Fence
  {
    /** The length of the delimiter. */
    function Width(): nat {
      match this
      case Bold => 2
      case Strike => 2
      case Star => 1
      case Underscore => 1
      case Inline => 1
      case Fence => 3
    }

    function Delimiter(): (d: Text)
      ensures |d| == Width()
    {
      match this
      case Bold => [STAR, STAR]
      case Strike => [TILDE, TILDE]
      case Star => [STAR]
      case Underscore => [UNDERSCORE]
      case Inline => [BACKTICK]
      case Fence => [BACKTICK, BACKTICK, BACKTICK]
    }
  }

  /** The delimiter of `p` stands at `i`. */
  predicate DelimiterAt(p: Pattern, s: Text, i: nat) {
    i + p.Width() <= |s| && s[i..i + p.Width()] == p.Delimiter()
  }

  /** The end of the longest run of language-tag units from `i`. */
  function TagEnd(s: Text, i: nat): (e: nat)
    requires i <= |s|
    ensures i <= e <= |s|
    decreases |s| - i
  {
    if i < |s| && IsTagUnit(s[i]) then TagEnd(s, i + 1) else i
  }

  /** Where the text of a code block opened at `i` starts: after `[\w+-]*\n` if that follows. */
  function FenceBody(s: Text, i: nat): (b: nat)
    requires i + 3 <= |s|
    ensures i + 3 <= b <= |s|
  {
    var e := TagEnd(s, i + 3);
    if e < |s| && s[e] == NEWLINE then e + 1 else i + 3
  }

  predicate NoneOf(s: Text, lo: nat, hi: nat, a: Unit, b: Unit)
    requires lo <= hi <= |s|
    decreases hi - lo
  {
    lo < hi ==> s[lo] != a && s[lo] != b && NoneOf(s, lo + 1, hi, a, b)
  }

  /** A delimited body that is not empty and neither starts nor ends with white space. */
  predicate Flanked(p: Pattern, s: Text, open: nat, close: nat) {
    && open + p.Width() < close <= |s|
    && !IsSpace(s[open + p.Width()])
    && !IsSpace(s[close - 1])
  }

  /** `p` matches `s` from `open`, with its closing delimiter at `close`. */
  predicate Matches(letters: Letters, p: Pattern, s: Text, open: nat, close: nat) {
    && DelimiterAt(p, s, open)
    && DelimiterAt(p, s, close)
    && match p
       case Fence => FenceBody(s, open) <= close
       case Inline => open + 1 < close && NoneOf(s, open + 1, close, BACKTICK, NEWLINE)
       case Bold => Flanked(p, s, open, close)
       case Strike => Flanked(p, s, open, close)
       case Star =>
         && Flanked(p, s, open, close)
         && NoneOf(s, open + 1, close, STAR, NEWLINE)
         && (open > 0 ==> s[open - 1] != STAR)
         && (close + 1 < |s| ==> s[close + 1] != STAR)
       case Underscore =>
         && Flanked(p, s, open, close)
         && NoneOf(s, open + 1, close, UNDERSCORE, NEWLINE)
         && !WordBefore(letters, s, open)
         && !WordAfter(letters, s, close + 1)
  }

  /** Every match has a body between two delimiters that do not overlap. */
  lemma MatchShape(letters: Letters, p: Pattern, s: Text, open: nat, close: nat)
    requires Matches(letters, p, s, open, close)
    ensures open + p.Width() <= BodyStart(p, s, open) <= close && close + p.Width() <= |s|
    ensures s[open..open + p.Width()] == p.Delimiter() == s[close..close + p.Width()]
  {
  }

  /** Where a match opens, where the text it captures starts, and where its last delimiter stands. */
  datatype Span = Span(open: nat, body: nat, close: nat)

  /** The earliest close at or after `close` for an opening at `open`. */
  function CloseFrom(letters: Letters, p: Pattern, s: Text, open: nat, close: nat): (r: Option<nat>)
    ensures r.Some? ==> Matches(letters, p, s, open, r.value)
    decreases |s| - close
  {
    if close >= |s| then None
    else if Matches(letters, p, s, open, close) then Some(close)
    else CloseFrom(letters, p, s, open, close + 1)
  }

  function BodyStart(p: Pattern, s: Text, open: nat): (b: nat)
    requires open + p.Width() <= |s|
    ensures open + p.Width() <= b <= |s| && (!p.Fence? ==> b == open + p.Width())
  {
    if p.Fence? then FenceBody(s, open) else open + p.Width()
  }

  /** Executing the pattern from index `from`. */
  function Find(letters: Letters, p: Pattern, s: Text, from: nat): (r: Option<Span>)
    ensures r.Some? ==> from <= r.value.open && Fits(p, s, r.value)
    ensures r.Some? && !p.Fence? ==> r.value.body == r.value.open + p.Width()
    decreases |s| - from
  {
    if from >= |s| then None
    else
      match CloseFrom(letters, p, s, from, 0)
      case Some(close) =>
        MatchShape(letters, p, s, from, close);
        Some(Span(from, BodyStart(p, s, from), close))
      case None => Find(letters, p, s, from + 1)
  }

  /** The two delimiters of a match lie within `s` and do not overlap. */
  predicate Fits(p: Pattern, s: Text, m: Span) {
    m.open + p.Width() <= m.body <= m.close <= |s| - p.Width()
  }

  /** What the search returns is a match. */
  lemma {:induction false} FindMatches(letters: Letters, p: Pattern, s: Text, from: nat)
    requires Find(letters, p, s, from).Some?
    ensures var m := Find(letters, p, s, from).value;
            Matches(letters, p, s, m.open, m.close) && m.body == BodyStart(p, s, m.open)
    decreases |s| - from
  {
    if CloseFrom(letters, p, s, from, 0).None? {
      FindMatches(letters, p, s, from + 1);
    }
  }

  lemma FoundDelimiters(letters: Letters, p: Pattern, s: Text, from: nat)
    requires Find(letters, p, s, from).Some?
    ensures var m := Find(letters, p, s, from).value;
            s[m.open..m.open + p.Width()] == p.Delimiter() == s[m.close..m.close + p.Width()]
  {
    var m := Find(letters, p, s, from).value;
    FindMatches(letters, p, s, from);
    MatchShape(letters, p, s, m.open, m.close);
  }

  lemma {:induction false} CloseIsEarliest(letters: Letters, p: Pattern, s: Text, open: nat, from: nat, c: nat)
    requires from <= c && Matches(letters, p, s, open, c)
    ensures CloseFrom(letters, p, s, open, from).Some?
    ensures from <= CloseFrom(letters, p, s, open, from).value <= c
    decreases c - from
  {
    assert c < |s|;
    if from < c && !Matches(letters, p, s, open, from) {
      CloseIsEarliest(letters, p, s, open, from + 1, c);
    }
  }

  /**
    The search finds a match if there is one, and it is the leftmost one with the earliest close:
    any match of `p` opens later, or opens there and closes no earlier.
   */
  lemma {:induction false} FindIsLeftmost(letters: Letters, p: Pattern, s: Text, from: nat, o: nat, c: nat)
    requires from <= o && Matches(letters, p, s, o, c)
    ensures Find(letters, p, s, from).Some?
    ensures var m := Find(letters, p, s, from).value; m.open < o || (m.open == o && m.close <= c)
    decreases o - from
  {
    if from == o {
      CloseIsEarliest(letters, p, s, o, 0, c);
    } else if CloseFrom(letters, p, s, from, 0).None? {
      FindIsLeftmost(letters, p, s, from + 1, o, c);
    }
  }

  lemma {:induction false} TagStopsBefore(s: Text, i: nat, c: nat)
    requires i <= c < |s| && !IsTagUnit(s[c])
    ensures TagEnd(s, i) <= c
    decreases c - i
  {
    if i < c && IsTagUnit(s[i]) {
      TagStopsBefore(s, i + 1, c);
    }
  }

  /** Taking the optional language tag never loses a closing fence: no backtracking is needed. */
  lemma TagHidesNoFence(s: Text, open: nat, close: nat)
    requires DelimiterAt(Fence, s, open) && DelimiterAt(Fence, s, close) && open + 3 <= close
    ensures FenceBody(s, open) <= close
  {
    assert s[close] == s[close..close + 3][0] == BACKTICK;
    TagStopsBefore(s, open + 3, close);
  }
}
