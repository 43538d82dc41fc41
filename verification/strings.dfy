/** Facts about string prefixes shared by the configuration and patch-name modules. */
module Strings {

  /** True when `s` begins with `prefix`. */
  predicate StartsWith(s: string, prefix: string) {
    |prefix| <= |s| && s[..|prefix|] == prefix
  }

  /** Putting the same prefix in front of two strings keeps them apart exactly when they were apart. */
  lemma PrependInjective(prefix: string, a: string, b: string)
    ensures prefix + a == prefix + b <==> a == b
  {
    if prefix + a == prefix + b {
      assert a == (prefix + a)[|prefix|..];
      assert b == (prefix + b)[|prefix|..];
    }
  }

  /** A prefixed string starts with its prefix, and dropping the prefix gives the original back. */
  lemma PrependThenDrop(prefix: string, s: string)
    ensures StartsWith(prefix + s, prefix)
    ensures (prefix + s)[|prefix|..] == s
  {
    assert (prefix + s)[..|prefix|] == prefix;
  }
}
