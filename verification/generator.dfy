/** The sampling half of the password generator: the empty-charset check and
    one character per draw. Randomness is abstracted as the sequence of indices
    the page's random source would produce, in the order it produces them. */
module Generator {
  import opened Wrappers
  import opened CharGroups
  import opened Charset

  /** The one way generation can fail. */
  datatype GenError = NoClassSelected

  /** What the page demands of its random source: when there is a charset to
      draw from, each of the first len draws is an index into it. With no
      group selected nothing is drawn, so nothing is demanded. */
  predicate DrawsFit(f: Flags, len: nat, draws: seq<nat>)
  {
    Build(f) != [] ==>
      && len <= |draws|
      && forall i :: 0 <= i < len ==> draws[i] < |Build(f)|
  }

  /** The characters the draws pick out of cs, one per draw, in draw order. */
  function Sample(cs: string, draws: seq<nat>): (p: string)
    requires forall i :: 0 <= i < |draws| ==> draws[i] < |cs|
    ensures |p| == |draws|
    ensures forall i :: 0 <= i < |p| ==> p[i] == cs[draws[i]]
  {
    if draws == [] then ""
    else Sample(cs, draws[..|draws| - 1]) + [cs[draws[|draws| - 1]]]
  }

  /** The generator as a pure function of the flags, the requested length and
      the draws. */
  function Generate(f: Flags, len: nat, draws: seq<nat>): (r: Result<string, GenError>)
    requires DrawsFit(f, len, draws)
    ensures r.Failure? <==> !AnySelected(f)
    ensures r.Success? ==> |r.value| == len
    ensures r.Success? ==> forall i :: 0 <= i < len ==> r.value[i] == Build(f)[draws[i]]
  {
    var charset := Build(f);
    if charset == [] then Failure(NoClassSelected)
    else Success(Sample(charset, draws[..len]))
  }

  /** The page's loop: start from the empty string and append one character
      per draw until the requested length is reached. */
  method GeneratePassword(f: Flags, len: nat, draws: seq<nat>) returns (r: Result<string, GenError>)
    requires DrawsFit(f, len, draws)
    ensures r.Failure? <==> !AnySelected(f)
    ensures r.Success? ==> |r.value| == len
    ensures r.Success? ==> forall i :: 0 <= i < len ==> r.value[i] == Build(f)[draws[i]]
    ensures r == Generate(f, len, draws)
  {
    var charset := Build(f);
    if charset == [] {
      return Failure(NoClassSelected);
    }
    var generated := "";
    var i := 0;
    while i < len
      invariant i <= len
      invariant |generated| == i
      invariant forall k :: 0 <= k < i ==> generated[k] == charset[draws[k]]
    {
      generated := generated + [charset[draws[i]]];
      i := i + 1;
    }
    r := Success(generated);
    assert generated == Generate(f, len, draws).value;
  }

  /** Every generated character belongs to a selected group, and so to none
      of the unselected ones. */
  lemma GenerateMembership(f: Flags, len: nat, draws: seq<nat>)
    requires DrawsFit(f, len, draws)
    ensures Generate(f, len, draws).Success? ==>
      forall i :: 0 <= i < len ==>
        var c := Generate(f, len, draws).value[i];
        ClassOf(c).Some? && Selected(f, ClassOf(c).value)
  {
    if AnySelected(f) {
      var p := Generate(f, len, draws).value;
      forall i | 0 <= i < len
        ensures ClassOf(p[i]).Some? && Selected(f, ClassOf(p[i]).value)
      {
        BuildMembership(f, p[i]);
      }
    }
  }

  /** With no group selected the outcome is the error, whatever the length and
      whatever the random source would have produced. */
  lemma NoSelectionIgnoresInputs(f: Flags, len1: nat, len2: nat, draws1: seq<nat>, draws2: seq<nat>)
    requires !AnySelected(f)
    ensures Generate(f, len1, draws1) == Generate(f, len2, draws2) == Failure(NoClassSelected)
  {
  }

  /** Growing the length by one appends exactly one character, picked by the
      next draw, and leaves the earlier ones in place: the result is the
      sampled characters with nothing added, removed or reordered. */
  lemma GenerateExtends(f: Flags, len: nat, draws: seq<nat>)
    requires AnySelected(f)
    requires DrawsFit(f, len + 1, draws)
    ensures DrawsFit(f, len, draws)
    ensures Generate(f, len + 1, draws).value
         == Generate(f, len, draws).value + [Build(f)[draws[len]]]
  {
    var a, b := Generate(f, len + 1, draws).value, Generate(f, len, draws).value + [Build(f)[draws[len]]];
    assert |a| == |b|;
    forall i | 0 <= i < |a| ensures a[i] == b[i] {
    }
  }

  /** Draws that all pick index 0 give a password of only 'A' even with every
      group selected: no class is guaranteed to appear. */
  lemma NoCompositionGuarantee(len: nat)
    ensures DrawsFit(AllSelected, len, seq(len, _ => 0))
    ensures var p := Generate(AllSelected, len, seq(len, _ => 0)).value;
      forall i :: 0 <= i < |p| ==> p[i] == 'A'
  {
  }
}
