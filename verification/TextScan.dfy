/** What the SQL splitter and the comment blanker both look for in a text. */
module TextScan {

  predicate IsQuote(c: char) {
    c == '\'' || c == '"' || c == '`'
  }

  /** The next newline, or the end. */
  function LineEnd(s: string, i: nat): (n: nat)
    requires i <= |s|
    ensures i <= n <= |s|
    decreases |s| - i
  {
    if i == |s| || s[i] == '\n' then i else LineEnd(s, i + 1)
  }

  /** The line end of a suffix, seen from the whole text. */
  lemma {:induction false} LineEndShift(s: string, k: nat, i: nat)
    requires k + i <= |s|
    ensures LineEnd(s, k + i) == k + LineEnd(s[k..], i)
    decreases |s| - i
  {
    if k + i < |s| && s[k + i] != '\n' {
      LineEndShift(s, k, i + 1);
    }
  }

  /** Nothing in it ends a block comment. */
  predicate NoBlockEnd(t: string) {
    forall k :: 0 <= k < |t| - 1 ==> !(t[k] == '*' && t[k + 1] == '/')
  }

  lemma {:induction false} LineEndIs(s: string, i: nat, n: nat)
    requires i <= n <= |s| && (forall k :: i <= k < n ==> s[k] != '\n') && (n < |s| ==> s[n] == '\n')
    ensures LineEnd(s, i) == n
    decreases n - i
  {
    if i < n {
      LineEndIs(s, i + 1, n);
    }
  }

  lemma {:induction false} LineEndMeans(s: string, i: nat)
    requires i <= |s|
    ensures '\n' !in s[i..LineEnd(s, i)] && (LineEnd(s, i) < |s| ==> s[LineEnd(s, i)] == '\n')
    decreases |s| - i
  {
    if i < |s| && s[i] != '\n' {
      LineEndMeans(s, i + 1);
      assert s[i..LineEnd(s, i)] == [s[i]] + s[i + 1..LineEnd(s, i)];
    }
  }
}
