/** The depth counter of the block-comment scan against a recursive-descent recogniser of the
    nested language `Body ::= (Comment | other)* "=#"`, `Comment ::= "#=" Body`. */
module BlockComments {
  import opened Wrappers
  import opened Tokens
  import opened Scanning

  predicate At(s: string, i: nat, c: char, d: char) {
    i + 1 < |s| && s[i] == c && s[i + 1] == d
  }

  /** Where the comment body that starts at `i` ends, after its own `=#`; None when the text ends
      first. A nested comment is recognised by a call of its own. */
  function Body(s: string, i: nat): (end: Option<nat>)
    requires i <= |s|
    ensures end.Some? ==> i + 2 <= end.value <= |s| && At(s, end.value - 2, '=', '#')
    decreases |s| - i
  {
    if i == |s| then None
    else if At(s, i, '=', '#') then Some(i + 2)
    else if At(s, i, '#', '=') then
      var inner := Body(s, i + 2);
      if inner.None? then None else Body(s, inner.value)
    else Body(s, i + 1)
  }

  /** Closing `depth` bodies one after the other, from the inside out. */
  function Bodies(s: string, i: nat, depth: nat): (end: Option<nat>)
    requires i <= |s|
    ensures end.Some? ==> i <= end.value <= |s|
    decreases depth
  {
    if depth == 0 then Some(i)
    else
      var inner := Body(s, i);
      if inner.None? then None else Bodies(s, inner.value, depth - 1)
  }

  lemma {:induction false} CounterIsRecursion(s: string, i: nat, depth: nat)
    requires i <= |s| && depth > 0
    ensures ScanBlockComment(s, i, depth)
      == match Bodies(s, i, depth) case Some(end) => Scan(Comment, end) case None => Scan(Error, |s|)
    decreases |s| - i
  {
    if i == |s| {
    } else if At(s, i, '#', '=') {
      CounterIsRecursion(s, i + 2, depth + 1);
      var inner := Body(s, i + 2);
      if inner.Some? {
        assert Body(s, i) == Body(s, inner.value);
        assert Bodies(s, i, depth) == Bodies(s, inner.value, depth);
        assert Bodies(s, i + 2, depth + 1) == Bodies(s, inner.value, depth);
      }
    } else if At(s, i, '=', '#') {
      if depth > 1 {
        CounterIsRecursion(s, i + 2, depth - 1);
      }
    } else {
      CounterIsRecursion(s, i + 1, depth);
      assert Body(s, i) == Body(s, i + 1);
    }
  }

  /** The scan of a block comment stops exactly where the recogniser does, and fails exactly when
      the recogniser meets the end of the text inside an open comment. */
  lemma BlockCommentScan(s: string, i: nat)
    requires i + 1 < |s| && s[i] == '#' && s[i + 1] == '='
    ensures ScanComment(s, i)
      == match Body(s, i + 2) case Some(end) => Scan(Comment, end) case None => Scan(Error, |s|)
  {
    CounterIsRecursion(s, i + 2, 1);
  }
}
