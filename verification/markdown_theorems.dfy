/** What the formatter promises: nothing is lost, nodes are tidy, links and mentions stay whole. */
module MarkdownTheorems {
  import opened Options
  import opened MarkdownPatterns
  import opened MarkdownParser

  // ---------- Lossless parsing ----------

  /** Writes a node list back as message text, from the nodes and what they record as stripped. */
  function Print(nodes: seq<Node>): Text {
    if nodes == [] then [] else PrintNode(nodes[0]) + Print(nodes[1..])
  }

  function PrintNode(node: Node): Text {
    match node
    case Plain(text) => text
    case Code(text) => Inline.Delimiter() + text + Inline.Delimiter()
    case CodeBlock(text, opener, newline) =>
      Fence.Delimiter() + opener + text + newline + Fence.Delimiter()
    case Emphasis(pattern, children) =>
      pattern.Delimiter() + Print(children) + pattern.Delimiter()
  }

  lemma {:induction false} PrintAppend(a: seq<Node>, b: seq<Node>)
    ensures Print(a + b) == Print(a) + Print(b)
  {
    if a == [] {
      assert a + b == b;
    } else {
      assert (a + b)[1..] == a[1..] + b;
      PrintAppend(a[1..], b);
    }
  }

  lemma PrintOne(node: Node)
    ensures Print([node]) == PrintNode(node)
  {
    assert Print([node]) == PrintNode(node) + Print([]);
  }

  lemma PrintText(text: Text)
    ensures Print(PushText([], text)) == text
  {
    if text != [] {
      PrintOne(Plain(text));
    }
  }

  lemma {:induction false} RestoreAppend(a: Text, b: Text, parts: seq<Text>)
    ensures Restore(a + b, parts) == Restore(a, parts) + Restore(b, parts)
  {
    if a == [] {
      assert a + b == b;
    } else {
      assert (a + b)[1..] == a[1..] + b;
      RestoreAppend(a[1..], b, parts);
    }
  }

  /** Text without placeholders is restored to itself. */
  lemma {:induction false} RestoreUnmasked(s: Text, parts: seq<Text>)
    requires !HasPlaceholder(s)
    ensures Restore(s, parts) == s
  {
    if s != [] {
      RestoreUnmasked(s[1..], parts);
    }
  }

  lemma SplitAround(s: Text, i: nat, j: nat, w: nat, d: Text)
    requires i + w <= j && j + w <= |s| && s[i..i + w] == d == s[j..j + w]
    ensures s == s[..i] + (d + s[i + w..j] + d) + s[j + w..]
    ensures s[i..j + w] == d + s[i + w..j] + d
  {
    var inner := s[i + w..j];
    assert s[i..j + w] == s[i..i + w] + inner + s[j..j + w];
    assert s == s[..i] + s[i..j + w] + s[j + w..];
  }

  lemma {:induction false} BestIsFound(letters: Letters, s: Text, n: nat)
    requires n <= |EMPHASIS| && BestMatch(letters, s, n).Some?
    ensures var best := BestMatch(letters, s, n).value;
            Find(letters, best.Pattern(), s, 0) == Some(best.span)
  {
    if BestMatch(letters, s, n) == BestMatch(letters, s, n - 1) {
      BestIsFound(letters, s, n - 1);
    }
  }

  /** The match taken opens no later than the match of any form, and before those of earlier forms. */
  lemma {:induction false} BestIsFirst(letters: Letters, s: Text, n: nat, k: nat, other: Span)
    requires k < n <= |EMPHASIS| && Find(letters, EMPHASIS[k], s, 0) == Some(other)
    ensures BestMatch(letters, s, n).Some?
    ensures var best := BestMatch(letters, s, n).value;
            best.span.open <= other.open && (k < best.rank ==> best.span.open < other.open)
  {
    var earlier, found := BestMatch(letters, s, n - 1), Find(letters, EMPHASIS[n - 1], s, 0);
    assert BestMatch(letters, s, n) ==
      if found.Some? && (earlier.None? || found.value.open < earlier.value.span.open) then
        Some(Found(n - 1, found.value))
      else earlier;
    if k < n - 1 {
      BestIsFirst(letters, s, n - 1, k, other);
    }
  }

  lemma NextMatchDelimits(letters: Letters, s: Text, depth: nat)
    requires NextMatch(letters, s, depth).Some?
    ensures var f := NextMatch(letters, s, depth).value;
            Usable(s, f) && s == Before(s, f)
                               + (f.Pattern().Delimiter() + Inside(s, f) + f.Pattern().Delimiter())
                               + After(s, f)
  {
    var f := NextMatch(letters, s, depth).value;
    BestIsFound(letters, s, |EMPHASIS|);
    FoundDelimiters(letters, f.Pattern(), s, 0);
    SplitAround(s, f.span.open, f.span.close, f.Pattern().Width(), f.Pattern().Delimiter());
  }

  lemma PrintAround(lead: seq<Node>, node: Node, tail: seq<Node>)
    ensures Print(lead + [node] + tail) == Print(lead) + PrintNode(node) + Print(tail)
  {
    PrintOne(node);
    PrintAppend(lead, [node]);
    PrintAppend(lead + [node], tail);
  }

  lemma DelimiterUnmasked(p: Pattern, parts: seq<Text>)
    requires p in EMPHASIS
    ensures Restore(p.Delimiter(), parts) == p.Delimiter()
  {
    var mark := p.Delimiter()[0];
    assert !HasPlaceholder([mark][1..]);
    assert [mark, mark][1..] == [mark];
    RestoreUnmasked(p.Delimiter(), parts);
  }

  lemma RestoreAround(a: Text, d: Text, b: Text, c: Text, parts: seq<Text>)
    requires Restore(d, parts) == d
    ensures Restore(a + (d + b + d) + c, parts)
            == Restore(a, parts) + (d + Restore(b, parts) + d) + Restore(c, parts)
  {
    RestoreAppend(d, b, parts);
    RestoreAppend(d + b, d, parts);
    RestoreAppend(a, d + b + d, parts);
    RestoreAppend(a + (d + b + d), c, parts);
  }

  /** Emphasis parsing prints back to the restored text, at every depth. */
  lemma {:induction false} EmphasisLossless(letters: Letters, s: Text, parts: seq<Text>, depth: nat)
    ensures Print(ParseEmphasis(letters, s, parts, depth)) == Restore(s, parts)
    decreases |s|
  {
    if s == [] {
    } else if NextMatch(letters, s, depth).None? {
      PrintText(Restore(s, parts));
    } else {
      var f := NextMatch(letters, s, depth).value;
      NextMatchDelimits(letters, s, depth);
      EmphasisLossless(letters, Inside(s, f), parts, depth + 1);
      EmphasisLossless(letters, After(s, f), parts, depth);
      PrintText(Restore(Before(s, f), parts));
      PrintAround(PushText([], Restore(Before(s, f), parts)),
                  Emphasis(f.Pattern(), ParseEmphasis(letters, Inside(s, f), parts, depth + 1)),
                  ParseEmphasis(letters, After(s, f), parts, depth));
      DelimiterUnmasked(f.Pattern(), parts);
      RestoreAround(Before(s, f), f.Pattern().Delimiter(), Inside(s, f), After(s, f), parts);
    }
  }

  lemma {:induction false} NoPlaceholderIn(s: Text, i: nat)
    requires !HasPlaceholder(s) && i <= |s|
    ensures !HasPlaceholder(s[i..])
  {
    if i > 0 {
      NoPlaceholderIn(s[1..], i - 1);
      assert s[1..][i - 1..] == s[i..];
    } else {
      assert s[0..] == s;
    }
  }

  lemma RestoreHead(c: Unit, s: Text, parts: seq<Text>)
    ensures Restore([c] + s, parts) == RestoreUnit(c, parts) + Restore(s, parts)
  {
    assert ([c] + s)[1..] == s;
  }

  /** Restoring around one unit. */
  lemma RestoreAt(s: Text, i: nat, parts: seq<Text>) returns (lead: Text, tail: Text)
    requires i < |s|
    ensures Restore(s, parts) == lead + (RestoreUnit(s[i], parts) + tail)
  {
    var before, after := s[..i], s[i + 1..];
    lead, tail := Restore(before, parts), Restore(after, parts);
    assert s == before + ([s[i]] + after);
    RestoreAppend(before, [s[i]] + after, parts);
    RestoreHead(s[i], after, parts);
  }

  predicate ListedAt(parts: seq<Text>, index: nat, all: seq<Text>) {
    index + |parts| <= |all| && forall k :: 0 <= k < |parts| ==> all[index + k] == parts[k]
  }

  lemma ListedNext(first: Text, rest: seq<Text>, index: nat, all: seq<Text>)
    requires ListedAt([first] + rest, index, all)
    ensures all[index] == first && ListedAt(rest, index + 1, all)
  {
    assert all[index + 0] == ([first] + rest)[0];
    forall k | 0 <= k < |rest|
      ensures all[index + 1 + k] == rest[k]
    {
      assert all[index + (k + 1)] == ([first] + rest)[k + 1];
    }
  }

  lemma PlaceholderRestored(index: nat, all: seq<Text>)
    requires index < |all| <= MAX_PROTECTED + 1
    ensures RestoreUnit(Placeholder(index), all) == all[index]
  {
  }

  /** Putting the protected parts back undoes the masking. */
  lemma {:induction false} RestoreMask(s: Text, taken: nat, all: seq<Text>)
    requires !HasPlaceholder(s)
    requires ListedAt(Mask(s, taken).1, taken, all) && |all| <= MAX_PROTECTED + 1
    ensures Restore(Mask(s, taken).0, all) == s
    decreases |s|
  {
    if s != [] {
      var n := ProtectedLength(s);
      if n > 0 {
        ListedNext(s[..n], Mask(s[n..], taken + 1).1, taken, all);
        NoPlaceholderIn(s, n);
        RestoreMask(s[n..], taken + 1, all);
        PlaceholderRestored(taken, all);
        RestoreHead(Placeholder(taken), Mask(s[n..], taken + 1).0, all);
      } else {
        NoPlaceholderIn(s, 1);
        RestoreMask(s[1..], taken, all);
        RestoreHead(s[0], Mask(s[1..], taken).0, all);
        assert !IsPlaceholder(s[0]);
      }
    }
  }

  lemma FormattedLossless(letters: Letters, text: Text)
    ensures Print(ParseFormattedText(letters, text)) == text
  {
    if text != [] {
      var parts := Mask(text, 0).1;
      if HasPlaceholder(text) || |parts| > MAX_PROTECTED {
        PrintOne(Plain(text));
      } else {
        RestoreMask(text, 0, parts);
        EmphasisLossless(letters, Mask(text, 0).0, parts, 0);
      }
    }
  }

  lemma Cut(s: Text, i: nat, j: nat, k: nat)
    requires i <= j <= k <= |s|
    ensures s[i..] == s[i..j] + s[j..k] + s[k..]
  {
  }

  lemma CodePrints(p: Pattern, s: Text, m: Span)
    requires p.Inline? || p.Fence?
    requires Fits(p, s, m) && (p.Inline? ==> m.body == m.open + 1)
    requires DelimiterAt(p, s, m.open) && DelimiterAt(p, s, m.close)
    ensures PrintNode(CodeNode(p, s, m)) == s[m.open..m.close + p.Width()]
  {
    SplitAround(s, m.open, m.close, p.Width(), p.Delimiter());
    if p.Fence? {
      BlockBody(s, m);
      Join4(Fence.Delimiter(), CodeNode(p, s, m).opener, CodeNode(p, s, m).text, CodeNode(p, s, m).newline);
    }
  }

  lemma BlockBody(s: Text, m: Span)
    requires Fits(Fence, s, m)
    ensures var node := CodeNode(Fence, s, m);
            s[m.open + 3..m.close] == node.opener + (node.text + node.newline)
  {
    var body := s[m.body..m.close];
    assert s[m.open + 3..m.close] == s[m.open + 3..m.body] + body;
    if body != [] && body[|body| - 1] == NEWLINE {
      assert body == body[..|body| - 1] + [NEWLINE];
    } else {
      assert body == body + [];
    }
  }

  lemma Join4(d: Text, a: Text, b: Text, c: Text)
    ensures d + (a + (b + c)) + d == d + a + b + c + d
  {
  }

  lemma PrintCut(lead: seq<Node>, node: Node, tail: seq<Node>, s: Text, i: nat, j: nat, k: nat)
    requires i <= j <= k <= |s|
    requires Print(lead) == s[i..j] && PrintNode(node) == s[j..k] && Print(tail) == s[k..]
    ensures Print(lead + [node] + tail) == s[i..]
  {
    PrintAround(lead, node, tail);
    Cut(s, i, j, k);
  }

  lemma CodeCut(p: Pattern, s: Text, m: Span, last: nat, lead: seq<Node>, tail: seq<Node>)
    requires p.Inline? || p.Fence?
    requires Fits(p, s, m) && (p.Inline? ==> m.body == m.open + 1) && last <= m.open
    requires DelimiterAt(p, s, m.open) && DelimiterAt(p, s, m.close)
    requires Print(lead) == s[last..m.open] && Print(tail) == s[m.close + p.Width()..]
    ensures Print(lead + [CodeNode(p, s, m)] + tail) == s[last..]
  {
    CodePrints(p, s, m);
    PrintCut(lead, CodeNode(p, s, m), tail, s, last, m.open, m.close + p.Width());
  }

  /** Splitting off code loses nothing if parsing the pieces between loses nothing. */
  lemma {:induction false} AssembleLossless(
      p: Pattern, inner: Text -> seq<Node>, s: Text, all: Matches, last: nat)
    requires p.Inline? || p.Fence?
    requires Chain(p, s, all, last)
    requires forall t :: Print(inner(t)) == t
    ensures Print(Assemble(p, inner, s, all, last)) == s[last..]
    decreases all
  {
    if all.Next? {
      var next := all.m.close + p.Width();
      AssembleLossless(p, inner, s, all.rest, next);
      CodeCut(p, s, all.m, last, inner(s[last..all.m.open]), Assemble(p, inner, s, all.rest, next));
    }
  }

  lemma InlineLossless(letters: Letters, text: Text)
    ensures Print(ParseInline(letters, text)) == text
  {
    forall t
      ensures Print(Formatter(letters)(t)) == t
    {
      FormattedLossless(letters, t);
    }
    MatchesChain(letters, Inline, text, 0);
    AssembleLossless(Inline, Formatter(letters), text, MatchAll(letters, Inline, text, 0), 0);
  }

  /** Parsing loses nothing: every message prints back to itself. */
  lemma Lossless(letters: Letters, content: Text)
    ensures Print(ParseMessage(letters, content)) == content
  {
    forall t
      ensures Print(Inliner(letters)(t)) == t
    {
      InlineLossless(letters, t);
    }
    MatchesChain(letters, Fence, content, 0);
    AssembleLossless(Fence, Inliner(letters), content, MatchAll(letters, Fence, content, 0), 0);
  }

  /** Pushing nodes after any others loses no text, joined or not. */
  lemma {:induction false} PushedLossless(nodes: seq<Node>, more: seq<Node>)
    ensures Print(Pushed(nodes, more)) == Print(nodes) + Print(more)
    decreases more
  {
    if more != [] {
      PushNodePrints(nodes, more[0]);
      PushedLossless(PushNode(nodes, more[0]), more[1..]);
      Regroup(Print(nodes), PrintNode(more[0]), Print(more[1..]));
    } else {
      assert Print(nodes) + [] == Print(nodes);
    }
  }

  lemma PushNodePrints(nodes: seq<Node>, node: Node)
    ensures Print(PushNode(nodes, node)) == Print(nodes) + PrintNode(node)
  {
    PrintOne(node);
    if node.Plain? && node.text != [] && nodes != [] && nodes[|nodes| - 1].Plain? {
      var lead, last := nodes[..|nodes| - 1], nodes[|nodes| - 1];
      assert nodes == lead + [last];
      PrintAppend(lead, [last]);
      PrintOne(last);
      PrintOne(Plain(last.text + node.text));
      PrintAppend(lead, [Plain(last.text + node.text)]);
    } else if !(node.Plain? && node.text == []) {
      PrintAppend(nodes, [node]);
    }
  }

  // ---------- Placeholders ----------

  /** Some text, code or recorded opener of the nodes holds a placeholder unit. */
  predicate ShowsPlaceholder(nodes: seq<Node>) {
    nodes != [] && (NodeShowsPlaceholder(nodes[0]) || ShowsPlaceholder(nodes[1..]))
  }

  predicate NodeShowsPlaceholder(node: Node) {
    match node
    case Plain(text) => HasPlaceholder(text)
    case Code(text) => HasPlaceholder(text)
    case CodeBlock(text, opener, newline) =>
      HasPlaceholder(text) || HasPlaceholder(opener) || HasPlaceholder(newline)
    case Emphasis(_, children) => ShowsPlaceholder(children)
  }

  lemma {:induction false} PlaceholderIn(a: Text, b: Text)
    ensures HasPlaceholder(a + b) <==> HasPlaceholder(a) || HasPlaceholder(b)
  {
    if a == [] {
      assert a + b == b;
    } else {
      assert (a + b)[1..] == a[1..] + b;
      PlaceholderIn(a[1..], b);
    }
  }

  lemma DelimiterShowsNone(p: Pattern)
    ensures !HasPlaceholder(p.Delimiter())
  {
    var d := p.Delimiter();
    NoneShown(d);
  }

  lemma NoneShown(d: Text)
    requires |d| <= 3 && forall i :: 0 <= i < |d| ==> !IsPlaceholder(d[i])
    ensures !HasPlaceholder(d)
  {
    if |d| > 0 {
      NoneShown(d[1..]);
    }
  }

  /** Between delimiters, a text shows what it shows. */
  lemma ShowsBetween(p: Pattern, inner: Text)
    ensures HasPlaceholder(p.Delimiter() + inner + p.Delimiter()) <==> HasPlaceholder(inner)
  {
    DelimiterShowsNone(p);
    PlaceholderIn(p.Delimiter() + inner, p.Delimiter());
    PlaceholderIn(p.Delimiter(), inner);
  }

  lemma {:induction false} PrintShows(nodes: seq<Node>)
    ensures ShowsPlaceholder(nodes) <==> HasPlaceholder(Print(nodes))
  {
    if nodes != [] {
      PrintNodeShows(nodes[0]);
      PrintShows(nodes[1..]);
      PlaceholderIn(PrintNode(nodes[0]), Print(nodes[1..]));
    }
  }

  lemma {:induction false} PrintNodeShows(node: Node)
    ensures NodeShowsPlaceholder(node) <==> HasPlaceholder(PrintNode(node))
  {
    match node
    case Plain(_) =>
    case Code(text) => ShowsBetween(Inline, text);
    case CodeBlock(text, opener, newline) =>
      ShowsBetween(Fence, opener + text + newline);
      assert PrintNode(node) == Fence.Delimiter() + (opener + text + newline) + Fence.Delimiter();
      PlaceholderIn(opener + text, newline);
      PlaceholderIn(opener, text);
    case Emphasis(pattern, children) =>
      PrintShows(children);
      ShowsBetween(pattern, Print(children));
  }

  /** No placeholder leaks: the result shows one exactly if the message has one of its own. */
  lemma NoPlaceholderLeaks(letters: Letters, content: Text)
    ensures ShowsPlaceholder(ParseMessage(letters, content)) <==> HasPlaceholder(content)
  {
    Lossless(letters, content);
    PrintShows(ParseMessage(letters, content));
  }

  // ---------- Links and mentions ----------

  predicate StartsAt(s: Text, part: Text, i: nat) {
    i + |part| <= |s| && s[i..i + |part|] == part
  }

  /** Some text leaf of `nodes` holds `part` unbroken. */
  ghost predicate HoldsWhole(nodes: seq<Node>, part: Text) {
    exists n :: 0 <= n < |nodes| && NodeHoldsWhole(nodes[n], part)
  }

  ghost predicate NodeHoldsWhole(node: Node, part: Text) {
    match node
    case Plain(text) => exists i :: StartsAt(text, part, i)
    case Emphasis(_, children) => HoldsWhole(children, part)
    case _ => false
  }

  lemma HoldsAround(lead: seq<Node>, node: Node, tail: seq<Node>, part: Text)
    requires HoldsWhole(lead, part) || NodeHoldsWhole(node, part) || HoldsWhole(tail, part)
    ensures HoldsWhole(lead + [node] + tail, part)
  {
    var all := lead + [node] + tail;
    if HoldsWhole(lead, part) {
      var n :| 0 <= n < |lead| && NodeHoldsWhole(lead[n], part);
      assert all[n] == lead[n];
    } else if NodeHoldsWhole(node, part) {
      assert all[|lead|] == node;
    } else {
      var n :| 0 <= n < |tail| && NodeHoldsWhole(tail[n], part);
      assert all[|lead| + 1 + n] == tail[n];
    }
  }

  lemma StartsBetween(lead: Text, part: Text, tail: Text)
    ensures StartsAt(lead + (part + tail), part, |lead|)
  {
    assert (lead + (part + tail))[|lead|..|lead| + |part|] == part;
  }

  lemma LeafHolds(text: Text, part: Text, i: nat)
    requires StartsAt(text, part, i) && part != []
    ensures HoldsWhole(PushText([], text), part)
  {
    var leaf := PushText([], text);
    assert leaf == [Plain(text)];
    assert NodeHoldsWhole(leaf[0], part);
  }

  /** A text node made of masked text holds the part behind each of its placeholders. */
  lemma TextHolds(s: Text, parts: seq<Text>, i: nat, k: nat)
    requires i < |s| && k < |parts| <= MAX_PROTECTED + 1 && s[i] == Placeholder(k) && parts[k] != []
    ensures HoldsWhole(PushText([], Restore(s, parts)), parts[k])
  {
    var lead, tail := RestoreAt(s, i, parts);
    PlaceholderRestored(k, parts);
    StartsBetween(lead, parts[k], tail);
    LeafHolds(Restore(s, parts), parts[k], |lead|);
  }

  lemma DelimiterUnits(letters: Letters, s: Text, depth: nat, i: nat)
    requires NextMatch(letters, s, depth).Some?
    requires var f := NextMatch(letters, s, depth).value;
             var w := f.Pattern().Width();
             f.span.open <= i < f.span.open + w || f.span.close <= i < f.span.close + w
    ensures s[i] in [STAR, TILDE, UNDERSCORE]
  {
    var f := NextMatch(letters, s, depth).value;
    var w, d := f.Pattern().Width(), f.Pattern().Delimiter();
    BestIsFound(letters, s, |EMPHASIS|);
    FoundDelimiters(letters, f.Pattern(), s, 0);
    if i < f.span.open + w {
      assert s[i] == s[f.span.open..f.span.open + w][i - f.span.open] == d[i - f.span.open];
    } else {
      assert s[i] == s[f.span.close..f.span.close + w][i - f.span.close] == d[i - f.span.close];
    }
  }

  /** A part held before, inside or after the first emphasis is held by the whole. */
  lemma SplitHolds(letters: Letters, s: Text, parts: seq<Text>, depth: nat, part: Text)
    requires NextMatch(letters, s, depth).Some?
    requires var f := NextMatch(letters, s, depth).value;
      || HoldsWhole(PushText([], Restore(Before(s, f), parts)), part)
      || HoldsWhole(ParseEmphasis(letters, Inside(s, f), parts, depth + 1), part)
      || HoldsWhole(ParseEmphasis(letters, After(s, f), parts, depth), part)
    ensures HoldsWhole(ParseEmphasis(letters, s, parts, depth), part)
  {
    var f := NextMatch(letters, s, depth).value;
    var children := ParseEmphasis(letters, Inside(s, f), parts, depth + 1);
    HoldsAround(PushText([], Restore(Before(s, f), parts)), Emphasis(f.Pattern(), children),
                ParseEmphasis(letters, After(s, f), parts, depth), part);
  }

  /** Wherever emphasis splits the masked text, a placeholder's part stays in one leaf. */
  lemma {:induction false} EmphasisHolds(
      letters: Letters, s: Text, parts: seq<Text>, depth: nat, i: nat, k: nat)
    requires i < |s| && k < |parts| <= MAX_PROTECTED + 1 && s[i] == Placeholder(k) && parts[k] != []
    ensures HoldsWhole(ParseEmphasis(letters, s, parts, depth), parts[k])
    decreases |s|
  {
    if NextMatch(letters, s, depth).None? {
      TextHolds(s, parts, i, k);
    } else {
      var f := NextMatch(letters, s, depth).value;
      var w := f.Pattern().Width();
      if i < f.span.open {
        TextHolds(Before(s, f), parts, i, k);
      } else if f.span.open + w <= i < f.span.close {
        EmphasisHolds(letters, Inside(s, f), parts, depth + 1, i - f.span.open - w, k);
      } else if f.span.close + w <= i {
        EmphasisHolds(letters, After(s, f), parts, depth, i - f.span.close - w, k);
      } else {
        DelimiterUnits(letters, s, depth, i);
        assert false;
      }
      SplitHolds(letters, s, parts, depth, parts[k]);
    }
  }

  /** The masked text `m` has the placeholder numbered `number` for its `k`-th part at `i`. */
  predicate NumbersAt(m: (Text, seq<Text>), k: nat, number: nat, i: nat) {
    k < |m.1| && m.1[k] != [] && i < |m.0| && m.0[i] == Placeholder(number)
  }

  lemma NumbersAfter(m: (Text, seq<Text>), k: nat, number: nat, i: nat, unit: Unit, parts: seq<Text>)
    requires NumbersAt(m, k, number, i)
    ensures NumbersAt(([unit] + m.0, parts + m.1), |parts| + k, number, i + 1)
  {
  }

  lemma MaskPlain(s: Text, taken: nat)
    requires s != [] && ProtectedLength(s) == 0
    ensures Mask(s, taken) == ([s[0]] + Mask(s[1..], taken).0, [] + Mask(s[1..], taken).1)
  {
    var parts := Mask(s[1..], taken).1;
    assert [] + parts == parts;
  }

  lemma MaskPart(s: Text, taken: nat)
    requires s != [] && ProtectedLength(s) > 0
    ensures var rest := Mask(s[ProtectedLength(s)..], taken + 1);
      Mask(s, taken) == ([Placeholder(taken)] + rest.0, [s[..ProtectedLength(s)]] + rest.1)
  {
  }

  /** The k-th protected part is masked by the placeholder numbered for it. */
  lemma {:induction false} MaskNumbers(s: Text, taken: nat, k: nat) returns (i: nat)
    requires k < |Mask(s, taken).1|
    ensures NumbersAt(Mask(s, taken), k, taken + k, i)
    decreases |s|
  {
    var n := ProtectedLength(s);
    if n == 0 {
      MaskPlain(s, taken);
      var j := MaskNumbers(s[1..], taken, k);
      NumbersAfter(Mask(s[1..], taken), k, taken + k, j, s[0], []);
      i := j + 1;
    } else {
      MaskPart(s, taken);
      i := 0;
      if k > 0 {
        var j := MaskNumbers(s[n..], taken + 1, k - 1);
        NumbersAfter(Mask(s[n..], taken + 1), k - 1, taken + k, j, Placeholder(taken), [s[..n]]);
        i := j + 1;
      }
    }
  }

  /** Each part stands in the text it was found in. */
  lemma {:induction false} PartStands(s: Text, taken: nat, k: nat) returns (i: nat)
    requires k < |Mask(s, taken).1|
    ensures StartsAt(s, Mask(s, taken).1[k], i)
    decreases |s|
  {
    var n := ProtectedLength(s);
    if n == 0 {
      MaskPlain(s, taken);
      var j := PartStands(s[1..], taken, k);
      i := j + 1;
      StartsLater(s, 1, Mask(s, taken).1[k], j);
    } else {
      MaskPart(s, taken);
      i := 0;
      if k > 0 {
        var j := PartStands(s[n..], taken + 1, k - 1);
        i := n + j;
        StartsLater(s, n, Mask(s, taken).1[k], j);
      }
    }
  }

  lemma StartsLater(s: Text, n: nat, part: Text, j: nat)
    requires n <= |s| && StartsAt(s[n..], part, j)
    ensures StartsAt(s, part, n + j)
  {
    assert s[n..][j..j + |part|] == s[n + j..n + j + |part|];
  }

  /** A piece that is not masked is one text leaf. */
  lemma PlainHolds(text: Text, part: Text, i: nat)
    requires StartsAt(text, part, i)
    ensures HoldsWhole([Plain(text)], part)
  {
    assert NodeHoldsWhole([Plain(text)][0], part);
  }

  /** Every link or mention of a piece between code ends up unbroken in one text leaf. */
  lemma ProtectedStayWhole(letters: Letters, text: Text, k: nat)
    requires k < |Mask(text, 0).1|
    ensures HoldsWhole(ParseFormattedText(letters, text), Mask(text, 0).1[k])
  {
    if HasPlaceholder(text) || |Mask(text, 0).1| > MAX_PROTECTED {
      var i := PartStands(text, 0, k);
      PlainHolds(text, Mask(text, 0).1[k], i);
    } else {
      var i := MaskNumbers(text, 0, k);
      EmphasisHolds(letters, Mask(text, 0).0, Mask(text, 0).1, 0, i, k);
    }
  }

  // ---------- Links and mentions of a whole message ----------

  /** `piece` is the text before, between or after the matches. */
  predicate PieceOf(p: Pattern, s: Text, all: Matches, last: nat, piece: Text)
    requires Chain(p, s, all, last)
    decreases all
  {
    match all
    case Done => piece == s[last..]
    case Next(m, rest) => piece == s[last..m.open] || PieceOf(p, s, rest, m.close + p.Width(), piece)
  }

  /** `piece` is one of the texts that the code of pattern `p` leaves of `s`. */
  predicate IsPiece(letters: Letters, p: Pattern, s: Text, piece: Text)
    requires p.Inline? || p.Fence?
  {
    MatchesChain(letters, p, s, 0);
    PieceOf(p, s, MatchAll(letters, p, s, 0), 0, piece)
  }

  lemma {:induction false} AssembleHolds(
      p: Pattern, inner: Text -> seq<Node>, s: Text, all: Matches, last: nat, piece: Text, part: Text)
    requires p.Inline? || p.Fence?
    requires Chain(p, s, all, last) && PieceOf(p, s, all, last, piece) && HoldsWhole(inner(piece), part)
    ensures HoldsWhole(Assemble(p, inner, s, all, last), part)
    decreases all
  {
    if all.Next? {
      var next := all.m.close + p.Width();
      if piece != s[last..all.m.open] {
        AssembleHolds(p, inner, s, all.rest, next, piece, part);
      }
      HoldsAround(inner(s[last..all.m.open]), CodeNode(p, s, all.m), Assemble(p, inner, s, all.rest, next), part);
    }
  }

  /**
    Every link or mention of a message, found in a piece between its code, ends up unbroken in one text
    leaf of the result, whatever emphasis, placeholders or other links stand around it.
   */
  lemma LinksStayWhole(letters: Letters, content: Text, between: Text, piece: Text, k: nat)
    requires IsPiece(letters, Fence, content, between) && IsPiece(letters, Inline, between, piece)
    requires k < |Mask(piece, 0).1|
    ensures HoldsWhole(ParseMessage(letters, content), Mask(piece, 0).1[k])
  {
    var part := Mask(piece, 0).1[k];
    ProtectedStayWhole(letters, piece, k);
    MatchesChain(letters, Inline, between, 0);
    AssembleHolds(Inline, Formatter(letters), between, MatchAll(letters, Inline, between, 0), 0, piece, part);
    MatchesChain(letters, Fence, content, 0);
    AssembleHolds(Fence, Inliner(letters), content, MatchAll(letters, Fence, content, 0), 0, between, part);
  }
}
