/**
  Searching for a term with ILIKE (`escape_ilike_pattern` and `search_dm_messages` in
  apps/server/src/routes/dm.rs), under the matching rules of section 9.7.1 of the PostgreSQL manual
  with `\` as the escape character.
 */
module LikeEscape {
  // ---------- Escaping ----------

  /** `str::replace` of one character. */
  function Replaced(s: string, c: char, with: string): string {
    if s == [] then [] else (if s[0] == c then with else [s[0]]) + Replaced(s[1..], c, with)
  }

  function EscapeIlikePattern(input: string): string {
    Replaced(Replaced(Replaced(input, '\\', "\\\\"), '%', "\\%"), '_', "\\_")
  }

  predicate Special(c: char) {
    c == '\\' || c == '%' || c == '_'
  }

  function EscapedChar(c: char): string {
    if Special(c) then ['\\', c] else [c]
  }

  function Escaped(s: string): string {
    if s == [] then [] else EscapedChar(s[0]) + Escaped(s[1..])
  }

  lemma {:induction false} ReplacedSum(s: string, t: string, c: char, with: string)
    ensures Replaced(s + t, c, with) == Replaced(s, c, with) + Replaced(t, c, with)
  {
    if s == [] {
      assert s + t == t;
    } else {
      assert (s + t)[1..] == s[1..] + t;
      ReplacedSum(s[1..], t, c, with);
    }
  }

  lemma ReplacedPair(a: char, b: char, c: char, with: string)
    ensures Replaced([a], c, with) == if a == c then with else [a]
    ensures Replaced([a, b], c, with) == (if a == c then with else [a]) + (if b == c then with else [b])
  {
    assert [a, b][1..] == [b] && [b][1..] == [] && [a][1..] == [];
  }

  lemma EscapedOne(c: char)
    ensures EscapeIlikePattern([c]) == EscapedChar(c)
  {
    ReplacedPair(c, c, '\\', "\\\\");
    ReplacedPair('\\', '\\', '%', "\\%");
    ReplacedPair('\\', '\\', '_', "\\_");
    ReplacedPair(c, c, '%', "\\%");
    ReplacedPair('\\', '%', '_', "\\_");
    ReplacedPair(c, c, '_', "\\_");
  }

  /** The three replacements in turn escape each special character once. */
  lemma {:induction false} EscapeIsOnePass(input: string)
    ensures EscapeIlikePattern(input) == Escaped(input)
  {
    if input != [] {
      var head, tail := [input[0]], input[1..];
      assert input == head + tail;
      EscapeIsOnePass(tail);
      EscapedOne(input[0]);
      ReplacedSum(head, tail, '\\', "\\\\");
      var a, b := Replaced(head, '\\', "\\\\"), Replaced(tail, '\\', "\\\\");
      ReplacedSum(a, b, '%', "\\%");
      ReplacedSum(Replaced(a, '%', "\\%"), Replaced(b, '%', "\\%"), '_', "\\_");
    }
  }

  // ---------- Matching ----------

  /** `%` stands for any characters, `_` for one, `\` makes the next one plain. */
  predicate Like(text: string, pattern: string)
    decreases |text| + |pattern|
  {
    if pattern == [] then text == []
    else if pattern[0] == '%' then Like(text, pattern[1..]) || (text != [] && Like(text[1..], pattern))
    else if pattern[0] == '_' then text != [] && Like(text[1..], pattern[1..])
    else if pattern[0] == '\\' then
      |pattern| > 1 && text != [] && text[0] == pattern[1] && Like(text[1..], pattern[2..])
    else text != [] && text[0] == pattern[0] && Like(text[1..], pattern[1..])
  }

  predicate Contains(text: string, term: string) {
    exists i :: 0 <= i <= |text| && term <= text[i..]
  }

  lemma {:induction false} AnythingMatches(text: string)
    ensures Like(text, "%")
  {
    if text == [] {
      assert "%"[1..] == [];
    } else {
      AnythingMatches(text[1..]);
    }
  }

  /** An escaped term, then anything: the texts that start with the term. */
  lemma {:induction false} StartsWithTerm(text: string, term: string)
    ensures Like(text, Escaped(term) + "%") <==> term <= text
  {
    var pattern := Escaped(term) + "%";
    if term == [] {
      assert pattern == "%";
      AnythingMatches(text);
    } else {
      var rest := Escaped(term[1..]) + "%";
      assert pattern == EscapedChar(term[0]) + rest;
      if Special(term[0]) {
        assert pattern[0] == '\\' && pattern[1] == term[0] && pattern[2..] == rest;
      } else {
        assert pattern[0] == term[0] && pattern[1..] == rest;
      }
      if text != [] {
        StartsWithTerm(text[1..], term[1..]);
        assert term <= text <==> term[0] == text[0] && term[1..] <= text[1..] by {
          assert term == [term[0]] + term[1..] && text == [text[0]] + text[1..];
        }
      }
    }
  }

  lemma {:induction false} SkipsAhead(text: string, term: string)
    ensures Like(text, "%" + (Escaped(term) + "%")) <==> Contains(text, term)
  {
    var rest := Escaped(term) + "%";
    var pattern := "%" + rest;
    assert pattern[1..] == rest;
    StartsWithTerm(text, term);
    assert text[0..] == text;
    if text != [] {
      SkipsAhead(text[1..], term);
      ContainsLater(text, term);
    }
  }

  lemma ContainsLater(text: string, term: string)
    requires text != []
    ensures Contains(text, term) <==> term <= text || Contains(text[1..], term)
  {
    assert text[0..] == text;
    if Contains(text[1..], term) {
      var i :| 0 <= i <= |text[1..]| && term <= text[1..][i..];
      assert text[1..][i..] == text[i + 1..];
    }
    if Contains(text, term) && !(term <= text) {
      var i :| 0 <= i <= |text| && term <= text[i..];
      assert text[i..] == text[1..][i - 1..];
    }
  }

  /** The pattern of a search matches exactly the texts that contain the term. */
  lemma SearchIsExact(text: string, term: string)
    ensures Like(text, "%" + EscapeIlikePattern(term) + "%") <==> Contains(text, term)
  {
    EscapeIsOnePass(term);
    SkipsAhead(text, term);
    assert "%" + Escaped(term) + "%" == "%" + (Escaped(term) + "%");
  }

  // ---------- Whatever the case ----------

  function Folded(s: string, fold: char -> char): string {
    if s == [] then [] else [fold(s[0])] + Folded(s[1..], fold)
  }

  /** Case folding makes no special character and keeps those there are. */
  ghost predicate KeepsSpecial(fold: char -> char) {
    forall c :: (Special(c) ==> fold(c) == c) && (Special(fold(c)) ==> fold(c) == c)
  }

  lemma {:induction false} FoldedSum(s: string, t: string, fold: char -> char)
    ensures Folded(s + t, fold) == Folded(s, fold) + Folded(t, fold)
  {
    if s == [] {
      assert s + t == t;
    } else {
      assert (s + t)[1..] == s[1..] + t;
      FoldedSum(s[1..], t, fold);
    }
  }

  lemma {:induction false} FoldedEscape(term: string, fold: char -> char)
    requires KeepsSpecial(fold)
    ensures Folded(Escaped(term), fold) == Escaped(Folded(term, fold))
  {
    if term != [] {
      FoldedEscape(term[1..], fold);
      FoldedSum(EscapedChar(term[0]), Escaped(term[1..]), fold);
      assert Folded(EscapedChar(term[0]), fold) == EscapedChar(fold(term[0])) by {
        assert ['\\', term[0]][1..] == [term[0]] && [term[0]][1..] == [];
      }
      assert Folded(term, fold)[1..] == Folded(term[1..], fold);
    }
  }

  /** ILIKE folds both sides: the search matches exactly the texts that contain the term in any case. */
  lemma SearchIgnoresCase(text: string, term: string, fold: char -> char)
    requires KeepsSpecial(fold)
    ensures Like(Folded(text, fold), Folded("%" + EscapeIlikePattern(term) + "%", fold)) <==>
      Contains(Folded(text, fold), Folded(term, fold))
  {
    EscapeIsOnePass(term);
    FoldedEscape(term, fold);
    FoldedSum("%" + Escaped(term), "%", fold);
    FoldedSum("%", Escaped(term), fold);
    assert Folded("%", fold) == "%" by {
      assert "%"[1..] == [];
    }
    EscapeIsOnePass(Folded(term, fold));
    SearchIsExact(Folded(text, fold), Folded(term, fold));
  }
}
