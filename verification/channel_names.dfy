/** Names of channels and categories (apps/server/src/routes/channels.rs). */
module ChannelNames {
  const MAX_NAME_CHARS := 32
  const MAX_DESCRIPTION_CHARS := 120

  /** What the program and its database take from outside: `char::is_alphanumeric` and SQL `LOWER`. */
  datatype Alphabet = Alphabet(alphanumeric: char -> bool, lower: char -> char)

  /** `char::is_whitespace`: the characters with the Unicode property White_Space. */
  predicate IsWhite(c: char) {
    var n := c as int;
    || 0x9 <= n <= 0xD || n == 0x20 || n == 0x85 || n == 0xA0 || n == 0x1680 || 0x2000 <= n <= 0x200A
    || n == 0x2028 || n == 0x2029 || n == 0x202F || n == 0x205F || n == 0x3000
  }

  function TrimStart(s: string): string {
    if s != [] && IsWhite(s[0]) then TrimStart(s[1..]) else s
  }

  function TrimEnd(s: string): string {
    if s != [] && IsWhite(s[|s| - 1]) then TrimEnd(s[..|s| - 1]) else s
  }

  function Trim(s: string): string {
    TrimEnd(TrimStart(s))
  }

  lemma {:induction false} TrimEndStart(s: string)
    requires s == [] || !IsWhite(s[0])
    ensures TrimEnd(s) == [] || !IsWhite(TrimEnd(s)[0])
    ensures TrimEnd(s) == [] || !IsWhite(TrimEnd(s)[|TrimEnd(s)| - 1])
  {
    if s != [] && IsWhite(s[|s| - 1]) {
      TrimEndStart(s[..|s| - 1]);
    }
  }

  lemma {:induction false} TrimStartStart(s: string)
    ensures TrimStart(s) == [] || !IsWhite(TrimStart(s)[0])
  {
    if s != [] && IsWhite(s[0]) {
      TrimStartStart(s[1..]);
    }
  }

  /** A trimmed name stays as it is. */
  lemma TrimTwice(s: string)
    ensures Trim(Trim(s)) == Trim(s)
  {
    TrimStartStart(s);
    TrimEndStart(TrimStart(s));
  }

  /** SQL `LOWER`, character by character. */
  function Lower(a: Alphabet, s: string): (lowered: string)
    ensures |lowered| == |s|
  {
    if s == [] then [] else [a.lower(s[0])] + Lower(a, s[1..])
  }

  function LowerAscii(c: char): char {
    if 'A' <= c <= 'Z' then ((c as int) + 32) as char else c
  }

  function FoldAscii(s: string): string {
    if s == [] then [] else [LowerAscii(s[0])] + FoldAscii(s[1..])
  }

  /** `eq_ignore_ascii_case`. */
  predicate SameAscii(s: string, t: string) {
    FoldAscii(s) == FoldAscii(t)
  }

  predicate AllowedChar(a: Alphabet, c: char) {
    a.alphanumeric(c) || c == ' ' || c == '#' || c == '-' || c == '_'
  }

  predicate AllAllowed(a: Alphabet, s: string) {
    s == [] || (AllowedChar(a, s[0]) && AllAllowed(a, s[1..]))
  }

  predicate NoDoubleSpace(s: string) {
    |s| < 2 || (!(s[0] == ' ' && s[1] == ' ') && NoDoubleSpace(s[1..]))
  }

  /** 1 to 32 allowed characters, no two spaces in a row. */
  predicate ValidName(a: Alphabet, name: string) {
    1 <= |name| <= MAX_NAME_CHARS && AllAllowed(a, name) && NoDoubleSpace(name)
  }

  lemma {:induction false} AllAllowedEach(a: Alphabet, s: string)
    ensures AllAllowed(a, s) <==> forall i :: 0 <= i < |s| ==> AllowedChar(a, s[i])
  {
    if s != [] {
      AllAllowedEach(a, s[1..]);
      assert forall i :: 0 <= i < |s[1..]| ==> s[1..][i] == s[i + 1];
      assert AllAllowed(a, s[1..]) ==> forall i :: 1 <= i < |s| ==> s[i] == s[1..][i - 1];
    }
  }

  lemma {:induction false} NoDoubleSpaceEach(s: string)
    ensures NoDoubleSpace(s) <==> forall i :: 0 < i < |s| && s[i] == ' ' ==> s[i - 1] != ' '
  {
    if |s| >= 2 {
      NoDoubleSpaceEach(s[1..]);
      assert forall i :: 0 < i < |s[1..]| ==> s[1..][i] == s[i + 1] && s[1..][i - 1] == s[i];
      if NoDoubleSpace(s[1..]) {
        forall i | 1 < i < |s| && s[i] == ' '
          ensures s[i - 1] != ' '
        {
          assert s[1..][i - 1] == s[i] && s[1..][i - 2] == s[i - 1];
        }
      }
    }
  }

  /** `validate_channel_name` and `validate_category_name`: one pass that remembers the last space. */
  method ValidateName(a: Alphabet, name: string) returns (ok: bool)
    ensures ok == ValidName(a, name)
  {
    if |name| == 0 || |name| > MAX_NAME_CHARS {
      return false;
    }
    AllAllowedEach(a, name);
    NoDoubleSpaceEach(name);
    var lastWasSpace := false;
    for k := 0 to |name|
      invariant forall i :: 0 <= i < k ==> AllowedChar(a, name[i])
      invariant forall i :: 0 < i < k && name[i] == ' ' ==> name[i - 1] != ' '
      invariant lastWasSpace <==> k > 0 && name[k - 1] == ' '
    {
      if !AllowedChar(a, name[k]) {
        return false;
      }
      if name[k] == ' ' {
        if lastWasSpace {
          return false;
        }
        lastWasSpace := true;
      } else {
        lastWasSpace := false;
      }
    }
    ok := true;
  }
}
