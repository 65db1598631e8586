/** Where regex patterns and string contents stop: at the first slash or terminator behind an even
    number of backslashes. */
module LexerStops {
  import opened Wrappers
  import opened Scanning

  /** How many backslashes stand right before `k`, counting from `i`. */
  function Backslashes(s: string, i: nat, k: nat): nat
    requires i <= k <= |s|
  {
    if k == i || s[k - 1] != '\\' then 0 else 1 + Backslashes(s, i, k - 1)
  }

  predicate Escaped(s: string, i: nat, k: nat)
    requires i <= k <= |s|
  {
    Backslashes(s, i, k) % 2 == 1
  }

  lemma {:induction false} RegexCloseFrom(s: string, i: nat, j: nat)
    requires i <= j <= |s|
    ensures var r := RegexClose(s, j, Escaped(s, i, j));
      && (r < |s| ==> s[r] == '/' && !Escaped(s, i, r))
      && (forall k | j <= k < r && s[k] == '/' :: Escaped(s, i, k))
    decreases |s| - j
  {
    if j < |s| && !(s[j] == '/' && !Escaped(s, i, j)) {
      assert Escaped(s, i, j + 1) == (s[j] == '\\' && !Escaped(s, i, j));
      RegexCloseFrom(s, i, j + 1);
    }
  }

  /** A regex pattern ends at its first unescaped slash, and is unclosed if it has none. */
  lemma RegexCloseIsFirst(s: string, i: nat)
    requires i <= |s|
    ensures var r := RegexClose(s, i, false);
      && (r < |s| ==> s[r] == '/' && !Escaped(s, i, r))
      && (forall k | i <= k < r && s[k] == '/' :: Escaped(s, i, k))
  {
    RegexCloseFrom(s, i, i);
  }

  /** No unescaped terminator lies strictly inside one element of string content. */
  lemma ContentNextSkips(s: string, i: nat, j: nat, triple: bool)
    requires i <= j < |s| && !Escaped(s, i, j) && !AtTerminator(s, j, triple)
    ensures var next := ContentNext(s, j);
      && (next < |s| ==> !Escaped(s, i, next))
      && (forall k | j <= k < next && AtTerminator(s, k, triple) :: Escaped(s, i, k))
  {
    var next := ContentNext(s, j);
    if s[j] == '\\' {
      assert Escaped(s, i, j + 1);
      if next < |s| && s[j + 1] == '\\' {
        assert Backslashes(s, i, j + 2) == Backslashes(s, i, j) + 2;
      }
    }
  }

  lemma {:induction false} ContentStopFrom(s: string, i: nat, j: nat, triple: bool)
    requires i <= j <= |s| && (j < |s| ==> !Escaped(s, i, j))
    ensures var r := ContentStop(s, j, triple);
      && (r < |s| ==> AtTerminator(s, r, triple) && !Escaped(s, i, r))
      && (forall k | j <= k < r && AtTerminator(s, k, triple) :: Escaped(s, i, k))
    decreases |s| - j
  {
    hide AtTerminator, Escaped, ContentNext;
    if j < |s| && !AtTerminator(s, j, triple) {
      ContentNextSkips(s, i, j, triple);
      ContentStopFrom(s, i, ContentNext(s, j), triple);
    }
  }

  /** String content stops at the first closing quote or interpolation that is not escaped, and at
      the end of the text if there is none. */
  lemma ContentStopIsFirst(s: string, i: nat, triple: bool)
    requires i <= |s|
    ensures var r := ContentStop(s, i, triple);
      && (r < |s| ==> AtTerminator(s, r, triple) && !Escaped(s, i, r))
      && (forall k | i <= k < r && AtTerminator(s, k, triple) :: Escaped(s, i, k))
  {
    ContentStopFrom(s, i, i, triple);
  }
}
