/**
  The message formatter of apps/web/src/messageMarkdown.ts: code is split off first, then links and
  mentions are masked by placeholder units, then emphasis is parsed with bounded nesting and the
  placeholders are put back. The functions say what each step returns; the methods are its loops.
 */
module MarkdownParser {
  import opened Options
  import opened MarkdownPatterns

  const MAX_DEPTH: nat := 4
  const MAX_PROTECTED: nat := 0x18FF
  const EMPHASIS: seq<Pattern> := [Bold, Strike, Star, Underscore]
  const HTTP: Text := [104, 116, 116, 112, 58, 47, 47]
  const HTTPS: Text := [104, 116, 116, 112, 115, 58, 47, 47]

  /**
    A node of the result. `pattern` (the two italic forms are one type in the source), `opener`
    (what followed the opening fence up to its newline) and `newline` (the trimmed last newline)
    record what the parser strips; the source keeps only the rest.
   */
  datatype Node =
    | Plain(text: Text)
    | Code(text: Text)
    | CodeBlock(text: Text, opener: Text, newline: Text)
    | Emphasis(pattern: Pattern, children: seq<Node>)

  function PushText(nodes: seq<Node>, text: Text): seq<Node> {
    if text == [] then nodes
    else if nodes != [] && nodes[|nodes| - 1].Plain? then
      nodes[..|nodes| - 1] + [Plain(nodes[|nodes| - 1].text + text)]
    else nodes + [Plain(text)]
  }

  // ---------- Masking ----------

  /** The end of the run of units from `i` that are neither white space nor `stop`, up to `limit`. */
  function RunEnd(s: Text, i: nat, stop: Option<Unit>, limit: nat): (e: nat)
    requires i <= |s|
    ensures i <= e <= |s| && (i <= limit ==> e <= limit)
    decreases |s| - i
  {
    if i < |s| && i < limit && !IsSpace(s[i]) && stop != Some(s[i]) then RunEnd(s, i + 1, stop, limit)
    else i
  }

  predicate StartsWith(s: Text, prefix: Text) {
    prefix == [] || (s != [] && s[0] == prefix[0] && StartsWith(s[1..], prefix[1..]))
  }

  /** `https?:\/\/[^\s]+` at the start of `s`: its length, or 0. */
  function LinkLength(s: Text): (n: nat)
    ensures n <= |s|
  {
    var scheme := if StartsWith(s, HTTPS) then |HTTPS| else if StartsWith(s, HTTP) then |HTTP| else 0;
    if 0 < scheme < |s| && RunEnd(s, scheme, None, |s|) > scheme then RunEnd(s, scheme, None, |s|)
    else 0
  }

  /** `@[^\s@]{2,32}` at the start of `s`: its length, or 0. */
  function MentionLength(s: Text): (n: nat)
    ensures n <= |s|
  {
    if s != [] && s[0] == AT && RunEnd(s, 1, Some(AT), 33) >= 3 then RunEnd(s, 1, Some(AT), 33) else 0
  }

  /** The length of the link, or of the mention, that starts `s`; 0 if none does. */
  function ProtectedLength(s: Text): (n: nat)
    ensures n <= |s|
  {
    if LinkLength(s) > 0 then LinkLength(s) else MentionLength(s)
  }

  function Placeholder(index: nat): Unit {
    (PLACEHOLDER_START + index) % 0x1_0000
  }

  /** Replaces each protected part by a placeholder, numbering on from `taken`; lists the parts. */
  function Mask(s: Text, taken: nat): (r: (Text, seq<Text>)) {
    if s == [] then ([], [])
    else
      var n := ProtectedLength(s);
      if n > 0 then
        var (masked, parts) := Mask(s[n..], taken + 1);
        ([Placeholder(taken)] + masked, [s[..n]] + parts)
      else
        var (masked, parts) := Mask(s[1..], taken);
        ([s[0]] + masked, parts)
  }

  function RestoreUnit(c: Unit, parts: seq<Text>): Text {
    if IsPlaceholder(c) && c - PLACEHOLDER_START < |parts| then parts[c - PLACEHOLDER_START]
    else [c]
  }

  function Restore(s: Text, parts: seq<Text>): Text {
    if s == [] then [] else RestoreUnit(s[0], parts) + Restore(s[1..], parts)
  }

  // ---------- Emphasis ----------

  /** A match of the form `EMPHASIS[rank]`. */
  datatype Found = Found(rank: nat, span: Span)
  {
    function Pattern(): Pattern
      requires rank < |EMPHASIS|
    {
      EMPHASIS[rank]
    }
  }

  predicate Usable(s: Text, f: Found) {
    f.rank < |EMPHASIS| && Fits(f.Pattern(), s, f.span) && f.span.body == f.span.open + f.Pattern().Width()
  }

  function BestMatch(letters: Letters, s: Text, n: nat): (best: Option<Found>)
    requires n <= |EMPHASIS|
    ensures best.Some? ==> best.value.rank < n && Usable(s, best.value)
  {
    if n == 0 then None
    else
      var best := BestMatch(letters, s, n - 1);
      match Find(letters, EMPHASIS[n - 1], s, 0)
      case Some(span) =>
        if best.None? || span.open < best.value.span.open then Some(Found(n - 1, span)) else best
      case None => best
  }

  /** The match emphasis parsing takes next, if nesting allows one. */
  function NextMatch(letters: Letters, s: Text, depth: nat): (best: Option<Found>)
    ensures best.Some? ==> depth < MAX_DEPTH && Usable(s, best.value)
  {
    if depth < MAX_DEPTH then BestMatch(letters, s, |EMPHASIS|) else None
  }

  function Before(s: Text, f: Found): Text
    requires Usable(s, f)
  {
    s[..f.span.open]
  }

  function Inside(s: Text, f: Found): Text
    requires Usable(s, f)
  {
    s[f.span.body..f.span.close]
  }

  function After(s: Text, f: Found): Text
    requires Usable(s, f)
  {
    s[f.span.close + f.Pattern().Width()..]
  }

  function ParseEmphasis(letters: Letters, s: Text, parts: seq<Text>, depth: nat): seq<Node>
    decreases |s|
  {
    if s == [] then []
    else
      match NextMatch(letters, s, depth)
      case None => PushText([], Restore(s, parts))
      case Some(f) =>
        PushText([], Restore(Before(s, f), parts))
        + [Emphasis(f.Pattern(), ParseEmphasis(letters, Inside(s, f), parts, depth + 1))]
        + ParseEmphasis(letters, After(s, f), parts, depth)
  }

  method FindBest(letters: Letters, rest: Text, depth: nat) returns (best: Option<Found>)
    ensures best == NextMatch(letters, rest, depth)
  {
    best := None;
    if depth < MAX_DEPTH {
      for k := 0 to |EMPHASIS|
        invariant best == BestMatch(letters, rest, k)
      {
        var found := Find(letters, EMPHASIS[k], rest, 0);
        if found.Some? && (best.None? || found.value.open < best.value.span.open) {
          best := Some(Found(k, found.value));
        }
      }
    }
  }

  lemma Regroup<T>(a: seq<T>, b: seq<T>, c: seq<T>)
    ensures a + (b + c) == (a + b) + c
  {
  }

  /** Text pushed after a node that is not text becomes a node of its own. */
  lemma PushApart(nodes: seq<Node>, text: Text)
    requires nodes != [] ==> !nodes[|nodes| - 1].Plain?
    ensures PushText(nodes, text) == nodes + PushText([], text)
  {
  }

  method EmphasisNodes(letters: Letters, text: Text, parts: seq<Text>, depth: nat)
    returns (nodes: seq<Node>)
    ensures nodes == ParseEmphasis(letters, text, parts, depth)
    decreases |text|
  {
    nodes := [];
    var rest := text;
    while rest != []
      invariant |rest| <= |text|
      invariant nodes != [] ==> !nodes[|nodes| - 1].Plain?
      invariant nodes + ParseEmphasis(letters, rest, parts, depth)
                == ParseEmphasis(letters, text, parts, depth)
      decreases |rest|
    {
      var best := FindBest(letters, rest, depth);
      if best.None? {
        PushApart(nodes, Restore(rest, parts));
        nodes := PushText(nodes, Restore(rest, parts));
        return;
      }
      var f := best.value;
      var children := EmphasisNodes(letters, Inside(rest, f), parts, depth + 1);
      PushApart(nodes, Restore(Before(rest, f), parts));
      Regroup(nodes, PushText([], Restore(Before(rest, f), parts)) + [Emphasis(f.Pattern(), children)],
              ParseEmphasis(letters, After(rest, f), parts, depth));
      Regroup(nodes, PushText([], Restore(Before(rest, f), parts)), [Emphasis(f.Pattern(), children)]);
      nodes := PushText(nodes, Restore(Before(rest, f), parts));
      nodes := nodes + [Emphasis(f.Pattern(), children)];
      rest := After(rest, f);
    }
  }

  function ParseFormattedText(letters: Letters, text: Text): seq<Node> {
    if text == [] then []
    else if HasPlaceholder(text) then [Plain(text)]
    else
      var (masked, parts) := Mask(text, 0);
      if |parts| > MAX_PROTECTED then [Plain(text)]
      else ParseEmphasis(letters, masked, parts, 0)
  }

  method FormattedNodes(letters: Letters, text: Text) returns (nodes: seq<Node>)
    ensures nodes == ParseFormattedText(letters, text)
  {
    if text == [] {
      return [];
    }
    if HasPlaceholder(text) {
      return [Plain(text)];
    }
    var (masked, parts) := Mask(text, 0);
    if |parts| > MAX_PROTECTED {
      return [Plain(text)];
    }
    nodes := EmphasisNodes(letters, masked, parts, 0);
  }

  // ---------- Code ----------

  /** The matches of a pattern, in order. */
  datatype Matches = Done | Next(m: Span, rest: Matches)

  /** `text.matchAll(p)`: the matches from `from` on, each search starting where the last match ended. */
  function MatchAll(letters: Letters, p: Pattern, s: Text, from: nat): (all: Matches)
    requires from <= |s|
    decreases |s| - from
  {
    match Find(letters, p, s, from)
    case None => Done
    case Some(m) => Next(m, MatchAll(letters, p, s, m.close + p.Width()))
  }

  /** Each match stands between two delimiters and starts at or after the end of the one before. */
  predicate Chain(p: Pattern, s: Text, all: Matches, from: nat) {
    && from <= |s|
    && (all.Next? ==>
          && from <= all.m.open && Fits(p, s, all.m)
          && (p.Inline? ==> all.m.body == all.m.open + 1)
          && DelimiterAt(p, s, all.m.open) && DelimiterAt(p, s, all.m.close)
          && Chain(p, s, all.rest, all.m.close + p.Width()))
  }

  /** What one found match adds to a chain. */
  predicate Links(p: Pattern, s: Text, m: Span, from: nat) {
    && from <= m.open && Fits(p, s, m)
    && (p.Inline? ==> m.body == m.open + 1)
    && DelimiterAt(p, s, m.open) && DelimiterAt(p, s, m.close)
  }

  lemma FoundLinks(letters: Letters, p: Pattern, s: Text, from: nat)
    requires Find(letters, p, s, from).Some?
    ensures Links(p, s, Find(letters, p, s, from).value, from)
  {
    FoundDelimiters(letters, p, s, from);
  }

  lemma ChainLonger(p: Pattern, s: Text, m: Span, rest: Matches, from: nat)
    requires from <= |s| && Links(p, s, m, from) && Chain(p, s, rest, m.close + p.Width())
    ensures Chain(p, s, Next(m, rest), from)
  {
  }

  lemma MatchAllNext(letters: Letters, p: Pattern, s: Text, from: nat)
    requires from <= |s| && Find(letters, p, s, from).Some?
    ensures var m := Find(letters, p, s, from).value;
      && from < m.close + p.Width() <= |s|
      && MatchAll(letters, p, s, from) == Next(m, MatchAll(letters, p, s, m.close + p.Width()))
  {
  }

  lemma {:induction false} MatchesChain(letters: Letters, p: Pattern, s: Text, from: nat)
    requires from <= |s|
    ensures Chain(p, s, MatchAll(letters, p, s, from), from)
    decreases |s| - from
  {
    var found := Find(letters, p, s, from);
    if found.Some? {
      var next := found.value.close + p.Width();
      MatchAllNext(letters, p, s, from);
      FoundLinks(letters, p, s, from);
      MatchesChain(letters, p, s, next);
      ChainLonger(p, s, found.value, MatchAll(letters, p, s, next), from);
    }
  }

  /** The node of a code match; the text of a fenced block loses one trailing newline. */
  function CodeNode(p: Pattern, s: Text, m: Span): Node
    requires p.Inline? || p.Fence?
    requires Fits(p, s, m)
  {
    var body := s[m.body..m.close];
    if p.Inline? then Code(body)
    else
      var opener := s[m.open + 3..m.body];
      if body != [] && body[|body| - 1] == NEWLINE then
        CodeBlock(body[..|body| - 1], opener, [NEWLINE])
      else CodeBlock(body, opener, [])
  }

  /** The nodes of the text between the matches, parsed by `inner`, with the code nodes between. */
  function Assemble(p: Pattern, inner: Text -> seq<Node>, s: Text, all: Matches, last: nat): seq<Node>
    requires p.Inline? || p.Fence?
    requires Chain(p, s, all, last)
    decreases all
  {
    match all
    case Done => inner(s[last..])
    case Next(m, rest) =>
      inner(s[last..m.open]) + [CodeNode(p, s, m)] + Assemble(p, inner, s, rest, m.close + p.Width())
  }

  /** One turn of a loop over matches: the piece before the match and its code node. */
  lemma AssembleTurn(
      p: Pattern, inner: Text -> seq<Node>, s: Text, all: Matches, last: nat, nodes: seq<Node>, piece: seq<Node>)
    returns (rest: seq<Node>)
    requires p.Inline? || p.Fence?
    requires Chain(p, s, all, last) && all.Next? && piece == inner(s[last..all.m.open])
    ensures Chain(p, s, all.rest, all.m.close + p.Width())
    ensures rest == Assemble(p, inner, s, all.rest, all.m.close + p.Width())
    ensures nodes + Assemble(p, inner, s, all, last) == nodes + piece + [CodeNode(p, s, all.m)] + rest
  {
    var code := [CodeNode(p, s, all.m)];
    rest := Assemble(p, inner, s, all.rest, all.m.close + p.Width());
    Regroup(nodes, piece + code, rest);
    Regroup(nodes, piece, code);
  }

  function SplitCode(letters: Letters, p: Pattern, inner: Text -> seq<Node>, s: Text): seq<Node>
    requires p.Inline? || p.Fence?
  {
    MatchesChain(letters, p, s, 0);
    Assemble(p, inner, s, MatchAll(letters, p, s, 0), 0)
  }

  /** The parser of the text between inline code, as a function of that text. */
  function Formatter(letters: Letters): Text -> seq<Node> {
    t => ParseFormattedText(letters, t)
  }

  function ParseInline(letters: Letters, text: Text): seq<Node> {
    SplitCode(letters, Inline, Formatter(letters), text)
  }

  /** The parser of the text between code blocks. */
  function Inliner(letters: Letters): Text -> seq<Node> {
    t => ParseInline(letters, t)
  }

  function ParseMessage(letters: Letters, content: Text): seq<Node> {
    SplitCode(letters, Fence, Inliner(letters), content)
  }

  /** `inner` is the parser of the text between inline code, at `t`. */
  predicate Formats(letters: Letters, inner: Text -> seq<Node>, t: Text) {
    inner(t) == ParseFormattedText(letters, t)
  }

  method FormatPiece(letters: Letters, ghost inner: Text -> seq<Node>, text: Text) returns (nodes: seq<Node>)
    requires forall t :: Formats(letters, inner, t)
    ensures nodes == inner(text)
  {
    assert Formats(letters, inner, text);
    nodes := FormattedNodes(letters, text);
  }

  /** The loop of `parseInline` over its matches. */
  method InlineNodes(letters: Letters, ghost inner: Text -> seq<Node>, text: Text, matches: Matches)
    returns (nodes: seq<Node>)
    requires Chain(Inline, text, matches, 0)
    requires forall t :: Formats(letters, inner, t)
    ensures nodes == Assemble(Inline, inner, text, matches, 0)
  {
    nodes := [];
    ghost var goal := Assemble(Inline, inner, text, matches, 0);
    ghost var rest := goal;
    var last: nat, left := 0, matches;
    while left.Next?
      invariant Chain(Inline, text, left, last)
      invariant rest == Assemble(Inline, inner, text, left, last) && nodes + rest == goal
      decreases left
    {
      var piece := FormatPiece(letters, inner, text[last..left.m.open]);
      rest := AssembleTurn(Inline, inner, text, left, last, nodes, piece);
      nodes := nodes + piece;
      nodes := nodes + [CodeNode(Inline, text, left.m)];
      last, left := left.m.close + 1, left.rest;
    }
    var end := FormatPiece(letters, inner, text[last..]);
    nodes := nodes + end;
  }

  method ParseInlineText(letters: Letters, text: Text) returns (nodes: seq<Node>)
    ensures nodes == ParseInline(letters, text)
  {
    MatchesChain(letters, Inline, text, 0);
    nodes := InlineNodes(letters, Formatter(letters), text, MatchAll(letters, Inline, text, 0));
  }

  // ---------- Well-formed results ----------

  /**
    No empty text node, no two text nodes side by side, emphasis nested at most `depth` deep, and
    code only outside emphasis.
   */
  predicate WellFormed(nodes: seq<Node>, depth: nat, code: bool) {
    nodes == [] ||
    (&& WellFormedNode(nodes[0], depth, code)
     && (|nodes| > 1 && nodes[0].Plain? ==> !nodes[1].Plain?)
     && WellFormed(nodes[1..], depth, code))
  }

  predicate WellFormedNode(node: Node, depth: nat, code: bool) {
    match node
    case Plain(text) => text != []
    case Emphasis(_, children) => depth > 0 && WellFormed(children, depth - 1, false)
    case _ => code
  }

  lemma {:induction false} WellFormedAppend(a: seq<Node>, b: seq<Node>, depth: nat, code: bool)
    requires WellFormed(a, depth, code) && WellFormed(b, depth, code)
    requires a != [] && b != [] && a[|a| - 1].Plain? ==> !b[0].Plain?
    ensures WellFormed(a + b, depth, code)
  {
    if a == [] {
      assert a + b == b;
    } else {
      assert (a + b)[1..] == a[1..] + b;
      WellFormedAppend(a[1..], b, depth, code);
    }
  }

  lemma WellFormedAround(lead: seq<Node>, node: Node, tail: seq<Node>, depth: nat, code: bool)
    requires WellFormed(lead, depth, code) && WellFormed(tail, depth, code)
    requires WellFormedNode(node, depth, code) && !node.Plain?
    ensures WellFormed(lead + [node] + tail, depth, code)
  {
    assert [node][1..] == [];
    WellFormedAppend(lead, [node], depth, code);
    WellFormedAppend(lead + [node], tail, depth, code);
  }

  lemma TextWellFormed(text: Text, depth: nat, code: bool)
    ensures WellFormed(PushText([], text), depth, code)
  {
    if text != [] {
      assert WellFormed([Plain(text)][1..], depth, code);
      assert WellFormedNode([Plain(text)][0], depth, code);
    }
  }

  lemma {:induction false} EmphasisWellFormed(letters: Letters, s: Text, parts: seq<Text>, depth: nat, left: nat)
    requires depth + left == MAX_DEPTH
    ensures WellFormed(ParseEmphasis(letters, s, parts, depth), left, false)
    decreases |s|
  {
    if s == [] {
    } else if NextMatch(letters, s, depth).None? {
      TextWellFormed(Restore(s, parts), left, false);
    } else {
      var f := NextMatch(letters, s, depth).value;
      var children := ParseEmphasis(letters, Inside(s, f), parts, depth + 1);
      TextWellFormed(Restore(Before(s, f), parts), left, false);
      EmphasisWellFormed(letters, Inside(s, f), parts, depth + 1, left - 1);
      EmphasisWellFormed(letters, After(s, f), parts, depth, left);
      WellFormedAround(PushText([], Restore(Before(s, f), parts)), Emphasis(f.Pattern(), children),
                       ParseEmphasis(letters, After(s, f), parts, depth), left, false);
    }
  }

  lemma {:induction false} WellFormedWithCode(nodes: seq<Node>, depth: nat)
    requires WellFormed(nodes, depth, false)
    ensures WellFormed(nodes, depth, true)
  {
    if nodes != [] {
      WellFormedWithCode(nodes[1..], depth);
    }
  }

  lemma FormattedWellFormed(letters: Letters, text: Text)
    ensures WellFormed(ParseFormattedText(letters, text), MAX_DEPTH, true)
  {
    var (masked, parts) := Mask(text, 0);
    TextWellFormed(text, MAX_DEPTH, true);
    EmphasisWellFormed(letters, masked, parts, 0, MAX_DEPTH);
    WellFormedWithCode(ParseEmphasis(letters, masked, parts, 0), MAX_DEPTH);
  }

  lemma {:induction false} AssembleWellFormed(
      p: Pattern, inner: Text -> seq<Node>, s: Text, all: Matches, last: nat)
    requires p.Inline? || p.Fence?
    requires Chain(p, s, all, last)
    requires forall t :: WellFormed(inner(t), MAX_DEPTH, true)
    ensures WellFormed(Assemble(p, inner, s, all, last), MAX_DEPTH, true)
    decreases all
  {
    if all.Next? {
      var next := all.m.close + p.Width();
      AssembleWellFormed(p, inner, s, all.rest, next);
      WellFormedAround(inner(s[last..all.m.open]), CodeNode(p, s, all.m),
                       Assemble(p, inner, s, all.rest, next), MAX_DEPTH, true);
    }
  }

  lemma InlineWellFormed(letters: Letters, text: Text)
    ensures WellFormed(ParseInline(letters, text), MAX_DEPTH, true)
  {
    forall t
      ensures WellFormed(Formatter(letters)(t), MAX_DEPTH, true)
    {
      FormattedWellFormed(letters, t);
    }
    MatchesChain(letters, Inline, text, 0);
    AssembleWellFormed(Inline, Formatter(letters), text, MatchAll(letters, Inline, text, 0), 0);
  }

  /** The result never has empty or adjacent text nodes, and emphasis nests at most four deep. */
  lemma MessageWellFormed(letters: Letters, content: Text)
    ensures WellFormed(ParseMessage(letters, content), MAX_DEPTH, true)
  {
    forall t
      ensures WellFormed(Inliner(letters)(t), MAX_DEPTH, true)
    {
      InlineWellFormed(letters, t);
    }
    MatchesChain(letters, Fence, content, 0);
    AssembleWellFormed(Fence, Inliner(letters), content, MatchAll(letters, Fence, content, 0), 0);
  }

  /** Pushing one node: text joins text that is last, any other node follows. */
  function PushNode(nodes: seq<Node>, node: Node): seq<Node> {
    if node.Plain? then PushText(nodes, node.text) else nodes + [node]
  }

  function Pushed(nodes: seq<Node>, more: seq<Node>): seq<Node>
    decreases more
  {
    if more == [] then nodes else Pushed(PushNode(nodes, more[0]), more[1..])
  }

  /** Well-formed nodes pushed after a node that is not text stay as they are. */
  lemma {:induction false} PushedApart(nodes: seq<Node>, more: seq<Node>)
    requires WellFormed(more, MAX_DEPTH, true)
    requires nodes != [] && nodes[|nodes| - 1].Plain? ==> more == [] || !more[0].Plain?
    ensures Pushed(nodes, more) == nodes + more
    decreases more
  {
    if more == [] {
      assert nodes + more == nodes;
    } else {
      var next := nodes + [more[0]];
      assert PushNode(nodes, more[0]) == next;
      assert |more| > 1 ==> more[1..][0] == more[1];
      PushedApart(next, more[1..]);
      assert next + more[1..] == nodes + more;
    }
  }

  /** Joining keeps lists well formed, whatever they end and begin with. */
  lemma {:induction false} PushedWellFormed(nodes: seq<Node>, more: seq<Node>)
    requires WellFormed(nodes, MAX_DEPTH, true) && WellFormed(more, MAX_DEPTH, true)
    ensures WellFormed(Pushed(nodes, more), MAX_DEPTH, true)
    decreases more
  {
    if more != [] {
      PushNodeWellFormed(nodes, more[0]);
      PushedWellFormed(PushNode(nodes, more[0]), more[1..]);
    }
  }

  lemma PushNodeWellFormed(nodes: seq<Node>, node: Node)
    requires WellFormed(nodes, MAX_DEPTH, true) && WellFormedNode(node, MAX_DEPTH, true)
    ensures WellFormed(PushNode(nodes, node), MAX_DEPTH, true)
  {
    assert [node][1..] == [];
    if node.Plain? && nodes != [] && nodes[|nodes| - 1].Plain? {
      var lead, last := nodes[..|nodes| - 1], nodes[|nodes| - 1];
      assert nodes == lead + [last];
      WellFormedSplit(lead, last);
      var joined := Plain(last.text + node.text);
      assert joined.text != [] && WellFormedNode([joined][0], MAX_DEPTH, true) && [joined][1..] == [];
      WellFormedAppend(lead, [joined], MAX_DEPTH, true);
    } else {
      WellFormedAppend(nodes, [node], MAX_DEPTH, true);
    }
  }

  lemma {:induction false} WellFormedSplit(lead: seq<Node>, last: Node)
    requires WellFormed(lead + [last], MAX_DEPTH, true)
    ensures WellFormed(lead, MAX_DEPTH, true) && WellFormedNode(last, MAX_DEPTH, true)
    ensures lead != [] && lead[|lead| - 1].Plain? ==> !last.Plain?
  {
    var all := lead + [last];
    if lead == [] {
      assert all[0] == last;
    } else {
      assert all[1..] == lead[1..] + [last] && all[0] == lead[0];
      WellFormedSplit(lead[1..], last);
      assert |lead| > 1 ==> all[1] == lead[1];
      assert |lead| == 1 ==> all[1] == last;
    }
  }

  /** The loop that pushes parsed nodes one by one. */
  method PushNodes(nodes: seq<Node>, more: seq<Node>) returns (all: seq<Node>)
    ensures all == Pushed(nodes, more)
  {
    all := nodes;
    for k := 0 to |more|
      invariant Pushed(all, more[k..]) == Pushed(nodes, more)
    {
      assert more[k..][0] == more[k] && more[k..][1..] == more[k + 1..];
      if more[k].Plain? {
        all := PushText(all, more[k].text);
      } else {
        all := all + [more[k]];
      }
    }
  }

  /** `inline` is the parser of the text between code blocks, at `t`. */
  predicate Inlines(letters: Letters, inline: Text -> seq<Node>, t: Text) {
    inline(t) == ParseInline(letters, t)
  }

  /** Parses a piece between code blocks and pushes its nodes; after a code block, none is joined. */
  method PushInline(letters: Letters, ghost inline: Text -> seq<Node>, nodes: seq<Node>, text: Text)
    returns (all: seq<Node>)
    requires forall t :: Inlines(letters, inline, t)
    requires nodes != [] ==> !nodes[|nodes| - 1].Plain?
    ensures all == nodes + inline(text)
  {
    assert Inlines(letters, inline, text);
    var piece := ParseInlineText(letters, text);
    InlineWellFormed(letters, text);
    PushedApart(nodes, piece);
    all := PushNodes(nodes, piece);
  }

  /** The loop of `parseMessageMarkdown` over its matches. */
  method MessageNodes(letters: Letters, ghost inline: Text -> seq<Node>, content: Text, matches: Matches)
    returns (nodes: seq<Node>)
    requires Chain(Fence, content, matches, 0)
    requires forall t :: Inlines(letters, inline, t)
    ensures nodes == Assemble(Fence, inline, content, matches, 0)
  {
    nodes := [];
    ghost var goal := Assemble(Fence, inline, content, matches, 0);
    ghost var rest := goal;
    var last: nat, left := 0, matches;
    while left.Next?
      invariant Chain(Fence, content, left, last)
      invariant nodes != [] ==> !nodes[|nodes| - 1].Plain?
      invariant rest == Assemble(Fence, inline, content, left, last) && nodes + rest == goal
      decreases left
    {
      ghost var piece := inline(content[last..left.m.open]);
      rest := AssembleTurn(Fence, inline, content, left, last, nodes, piece);
      nodes := PushInline(letters, inline, nodes, content[last..left.m.open]);
      nodes := nodes + [CodeNode(Fence, content, left.m)];
      last, left := left.m.close + 3, left.rest;
    }
    nodes := PushInline(letters, inline, nodes, content[last..]);
  }

  method ParseMessageMarkdown(letters: Letters, content: Text) returns (nodes: seq<Node>)
    ensures nodes == ParseMessage(letters, content)
  {
    MatchesChain(letters, Fence, content, 0);
    nodes := MessageNodes(letters, Inliner(letters), content, MatchAll(letters, Fence, content, 0));
  }
}
