/** Charset assembly: the four inclusion flags select groups, which are
    concatenated in the fixed order upper, lower, digits, symbols. */
module Charset {
  import opened Wrappers
  import opened CharGroups

  /** The four checkboxes of the page. */
  datatype Flags = Flags(upper: bool, lower: bool, digits: bool, symbols: bool)

  const AllSelected: Flags := Flags(true, true, true, true)

  predicate Selected(f: Flags, k: CharClass)
  {
    match k
    case Upper => f.upper
    case Lower => f.lower
    case Digit => f.digits
    case Symbol => f.symbols
  }

  predicate AnySelected(f: Flags)
  {
    f.upper || f.lower || f.digits || f.symbols
  }

  /** The group's characters when the flag selects it, nothing otherwise. */
  function Part(f: Flags, k: CharClass): string
  {
    if Selected(f, k) then Group(k) else ""
  }

  function Count(b: bool, n: nat): nat
  {
    if b then n else 0
  }

  /** The charset built from the flags, groups appended in assembly order. */
  function Build(f: Flags): (cs: string)
    ensures |cs| == Count(f.upper, 26) + Count(f.lower, 26) + Count(f.digits, 10) + Count(f.symbols, 26)
    ensures cs == [] <==> !AnySelected(f)
  {
    GroupSizes();
    Part(f, Upper) + Part(f, Lower) + Part(f, Digit) + Part(f, Symbol)
  }

  /** Where the segment of group k starts: the total size of the selected
      groups that come before it. */
  function Offset(f: Flags, k: CharClass): nat
  {
    match k
    case Upper => 0
    case Lower => Count(f.upper, 26)
    case Digit => Count(f.upper, 26) + Count(f.lower, 26)
    case Symbol => Count(f.upper, 26) + Count(f.lower, 26) + Count(f.digits, 10)
  }

  /** Layout: every selected group occupies, verbatim, the slice that starts at
      its offset; together with the length this pins the charset down. */
  lemma BuildLayout(f: Flags, k: CharClass)
    requires Selected(f, k)
    ensures Offset(f, k) + |Group(k)| <= |Build(f)|
    ensures Build(f)[Offset(f, k)..Offset(f, k) + |Group(k)|] == Group(k)
  {
    GroupSizes();
    PartSize(f, Upper);
    PartSize(f, Lower);
    PartSize(f, Digit);
    PartSize(f, Symbol);
    ConcatLayout(Part(f, Upper), Part(f, Lower), Part(f, Digit), Part(f, Symbol));
  }

  /** Each of four concatenated strings sits at the sum of the lengths before it. */
  lemma ConcatLayout(u: string, l: string, d: string, s: string)
    ensures (u + l + d + s)[..|u|] == u
    ensures (u + l + d + s)[|u|..|u| + |l|] == l
    ensures (u + l + d + s)[|u| + |l|..|u| + |l| + |d|] == d
    ensures (u + l + d + s)[|u| + |l| + |d|..] == s
  {
  }

  lemma PartSize(f: Flags, k: CharClass)
    ensures |Part(f, k)| == Count(Selected(f, k), |Group(k)|)
  {
  }

  /** A character is in the charset exactly when it belongs to a selected
      group: nothing from an unselected group, nothing outside the groups. */
  lemma BuildMembership(f: Flags, c: char)
    ensures c in Build(f) <==> ClassOf(c).Some? && Selected(f, ClassOf(c).value)
  {
    GroupMembership(Upper, c);
    GroupMembership(Lower, c);
    GroupMembership(Digit, c);
    GroupMembership(Symbol, c);
    var u, l, d, s := Part(f, Upper), Part(f, Lower), Part(f, Digit), Part(f, Symbol);
    assert Build(f) == u + l + d + s;
    assert c in Build(f) <==> c in u || c in l || c in d || c in s;
  }

  /** Characters appear grouped by class, in assembly order. */
  predicate ClassOrdered(s: string)
  {
    forall i, j :: 0 <= i <= j < |s| ==> RankOf(s[i]) <= RankOf(s[j])
  }

  lemma PartRanks(f: Flags, k: CharClass)
    ensures forall i :: 0 <= i < |Part(f, k)| ==> RankOf(Part(f, k)[i]) == Rank(k)
  {
    GroupCharsClassified(k);
  }

  lemma OrderedAppend(a: string, b: string, r: nat)
    requires ClassOrdered(a)
    requires forall i :: 0 <= i < |a| ==> RankOf(a[i]) <= r
    requires forall i :: 0 <= i < |b| ==> RankOf(b[i]) == r
    ensures ClassOrdered(a + b)
    ensures forall i :: 0 <= i < |a + b| ==> RankOf((a + b)[i]) <= r
  {
  }

  /** The charset never interleaves groups: uppercase before lowercase before
      digits before symbols, whatever the flags. */
  lemma BuildOrdered(f: Flags)
    ensures ClassOrdered(Build(f))
  {
    PartRanks(f, Upper);
    PartRanks(f, Lower);
    PartRanks(f, Digit);
    PartRanks(f, Symbol);
    OrderedChain(Part(f, Upper), Part(f, Lower), Part(f, Digit), Part(f, Symbol));
  }

  lemma OrderedChain(u: string, l: string, d: string, s: string)
    requires forall i :: 0 <= i < |u| ==> RankOf(u[i]) == 0
    requires forall i :: 0 <= i < |l| ==> RankOf(l[i]) == 1
    requires forall i :: 0 <= i < |d| ==> RankOf(d[i]) == 2
    requires forall i :: 0 <= i < |s| ==> RankOf(s[i]) == 3
    ensures ClassOrdered(u + l + d + s)
  {
    OrderedAppend([], u, 0);
    assert [] + u == u;
    OrderedAppend(u, l, 1);
    OrderedAppend(u + l, d, 2);
    OrderedAppend(u + l + d, s, 3);
  }
}
