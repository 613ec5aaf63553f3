/** The four fixed character groups a password can be drawn from, and the
    classification of a single character into at most one of them. */
module CharGroups {
  import opened Wrappers

  const Uppercase: string := "ABCDEFGHIJKLMNOPQRSTUVWXYZ"
  const Lowercase: string := "abcdefghijklmnopqrstuvwxyz"
  const Digits: string := "0123456789"
  /** The symbol group exactly as the page spells it: 26 characters. */
  const Symbols: string := "!@#$%^&*()_+-=[]{}|;:,.<>?"

  /** A character group, listed in the order the charset is assembled. */
  datatype CharClass = Upper | Lower | Digit | Symbol

  function Group(k: CharClass): string
  {
    match k
    case Upper => Uppercase
    case Lower => Lowercase
    case Digit => Digits
    case Symbol => Symbols
  }

  /** Position of a group in the assembly order. */
  function Rank(k: CharClass): nat
  {
    match k
    case Upper => 0
    case Lower => 1
    case Digit => 2
    case Symbol => 3
  }

  /** Independent classification of a character: by code-point range for the
      letters and digits, by membership for the symbols. */
  function ClassOf(c: char): Option<CharClass>
  {
    if 'A' <= c <= 'Z' then Some(Upper)
    else if 'a' <= c <= 'z' then Some(Lower)
    else if '0' <= c <= '9' then Some(Digit)
    else if c in Symbols then Some(Symbol)
    else None
  }

  /** Rank of the group a character belongs to; 4 for a character of no group. */
  function RankOf(c: char): nat
  {
    match ClassOf(c)
    case Some(k) => Rank(k)
    case None => 4
  }

  /** Each group has the size its literal has. */
  lemma GroupSizes()
    ensures |Group(Upper)| == 26 && |Group(Lower)| == 26
    ensures |Group(Digit)| == 10 && |Group(Symbol)| == 26
  {
  }

  /** g spells the code points lo, lo + 1, ... in order. */
  predicate Consecutive(g: string, lo: char)
  {
    forall i :: 0 <= i < |g| ==> g[i] as int == lo as int + i
  }

  lemma LiteralRanges()
    ensures Consecutive(Uppercase, 'A')
    ensures Consecutive(Lowercase, 'a')
    ensures Consecutive(Digits, '0')
  {
  }

  lemma SymbolsOutsideRanges()
    ensures forall i :: 0 <= i < |Symbols| ==>
      && !('A' <= Symbols[i] <= 'Z')
      && !('a' <= Symbols[i] <= 'z')
      && !('0' <= Symbols[i] <= '9')
  {
  }

  /** A run of consecutive code points contains exactly the characters in
      its range. */
  lemma ConsecutiveMembership(g: string, lo: char, c: char)
    requires Consecutive(g, lo)
    ensures c in g <==> lo as int <= c as int < lo as int + |g|
  {
    if lo as int <= c as int < lo as int + |g| {
      assert g[c as int - lo as int] == c;
    }
  }

  /** Every character of a group is classified into that group. */
  lemma GroupCharsClassified(k: CharClass)
    ensures forall i :: 0 <= i < |Group(k)| ==> ClassOf(Group(k)[i]) == Some(k)
  {
    LiteralRanges();
    SymbolsOutsideRanges();
  }

  /** A character is in a group exactly when it is classified into that group,
      so the four groups are pairwise disjoint. */
  lemma GroupMembership(k: CharClass, c: char)
    ensures c in Group(k) <==> ClassOf(c) == Some(k)
  {
    LiteralRanges();
    SymbolsOutsideRanges();
    GroupSizes();
    match k
    case Upper =>
      ConsecutiveMembership(Uppercase, 'A', c);
    case Lower =>
      ConsecutiveMembership(Lowercase, 'a', c);
    case Digit =>
      ConsecutiveMembership(Digits, '0', c);
    case Symbol =>
  }
}
