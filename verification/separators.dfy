/** Strings joined with a separator character. */
module Separators {

  lemma SeparatorIsLast(a: string, sep: char, x: string)
    requires sep !in x
    ensures var s := a + [sep] + x; s[|a|] == sep && forall i | |a| < i < |s| :: s[i] != sep
  {
    var s := a + [sep] + x;
    forall i | |a| < i < |s| ensures s[i] != sep {
      assert s[i] == x[i - |a| - 1];
    }
  }

  /** Text after the last separator, and text before it, can be read back. */
  lemma SplitAtLast(a: string, b: string, sep: char, x: string, y: string)
    requires a + [sep] + x == b + [sep] + y
    requires sep !in x && sep !in y
    ensures a == b && x == y
  {
    var s := a + [sep] + x;
    SeparatorIsLast(a, sep, x);
    SeparatorIsLast(b, sep, y);
    assert a == s[..|a|] == b;
    assert x == s[|a| + 1..] == y;
  }
}
