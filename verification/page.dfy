/** The page state the generator writes, the update one click of "generate"
    performs, and the initial password built when the page mounts. */
module Page {
  import opened Wrappers
  import opened CharGroups
  import opened Charset
  import opened Generator

  /** Text shown in place of a password when no group is selected. */
  const Sentinel: string := "Please select at least one option"

  /** The full charset the mount effect spells out by hand. */
  const InitialCharset: string := "ABCDEFGHIJKLMNOPQRSTUVWXYZabcdefghijklmnopqrstuvwxyz0123456789!@#$%^&*()_+-=[]{}|;:,.<>?"

  /** Length of the password built on mount. */
  const InitialLength: nat := 16

  /** The part of the page's state the generator reads or writes. */
  datatype PageState = PageState(password: string, length: nat, flags: Flags, copied: bool)

  /** The state before the mount effect: empty password, length 16, every
      group selected, nothing copied. */
  const Initial: PageState := PageState("", InitialLength, AllSelected, false)

  /** One run of the generator against the page state. */
  function Regenerate(st: PageState, draws: seq<nat>): (st': PageState)
    requires DrawsFit(st.flags, st.length, draws)
    ensures st'.length == st.length && st'.flags == st.flags
    ensures AnySelected(st.flags) ==>
      && |st'.password| == st.length
      && (forall i :: 0 <= i < st.length ==> st'.password[i] == Build(st.flags)[draws[i]])
      && !st'.copied
    ensures !AnySelected(st.flags) ==> st'.password == Sentinel && st'.copied == st.copied
  {
    match Generate(st.flags, st.length, draws)
    case Failure(_) => st.(password := Sentinel)
    case Success(p) => st.(password := p, copied := false)
  }

  /** The hand-written mount charset is the assembled charset with every
      group selected: 26 + 26 + 10 + 26 = 88 characters. */
  lemma InitialCharsetIsFull()
    ensures InitialCharset == Build(AllSelected)
    ensures |InitialCharset| == 88
  {
    InitialCharsetSpelled();
  }

  /** The mount literal is the four group literals written out in a row. The
      proof peels the 88-character literal from its end, at most 13
      characters at a time, which keeps each step cheap for the solver. */
  lemma InitialCharsetSpelled()
    ensures InitialCharset == Uppercase + Lowercase + Digits + Symbols
  {
    PeelSymbols();
    PeelDigits();
    PeelLowercase();
    SplitGroups();
    Reassemble(InitialCharset,
      "ABCDEFGHIJKLMNOPQRSTUVWXYZabcdefghijklmnopqrstuvwxyz0123456789!@#$%^&*()_+-",
      "ABCDEFGHIJKLMNOPQRSTUVWXYZabcdefghijklmnopqrstuvwxyz0123456789",
      "ABCDEFGHIJKLMNOPQRSTUVWXYZabcdefghijklm",
      Uppercase, Lowercase, Digits, Symbols,
      "abcdefghijklm", "nopqrstuvwxyz", "!@#$%^&*()_+-", "=[]{}|;:,.<>?");
  }

  lemma Reassemble(whole: string, p75: string, p62: string, p39: string,
                   u: string, l: string, d: string, s: string,
                   l1: string, l2: string, s1: string, s2: string)
    requires whole == p75 + s2 && p75 == p62 + s1
    requires p62 == p39 + l2 + d && p39 == u + l1
    requires l == l1 + l2 && s == s1 + s2
    ensures whole == u + l + d + s
  {
  }

  lemma SplitGroups()
    ensures Lowercase == "abcdefghijklm" + "nopqrstuvwxyz"
    ensures Symbols == "!@#$%^&*()_+-" + "=[]{}|;:,.<>?"
  {
  }

  lemma PeelSymbols()
    ensures InitialCharset
         == "ABCDEFGHIJKLMNOPQRSTUVWXYZabcdefghijklmnopqrstuvwxyz0123456789!@#$%^&*()_+-" + "=[]{}|;:,.<>?"
    ensures "ABCDEFGHIJKLMNOPQRSTUVWXYZabcdefghijklmnopqrstuvwxyz0123456789!@#$%^&*()_+-"
         == "ABCDEFGHIJKLMNOPQRSTUVWXYZabcdefghijklmnopqrstuvwxyz0123456789" + "!@#$%^&*()_+-"
  {
  }

  lemma PeelDigits()
    ensures "ABCDEFGHIJKLMNOPQRSTUVWXYZabcdefghijklmnopqrstuvwxyz0123456789"
         == "ABCDEFGHIJKLMNOPQRSTUVWXYZabcdefghijklm" + "nopqrstuvwxyz" + Digits
  {
  }

  lemma PeelLowercase()
    ensures "ABCDEFGHIJKLMNOPQRSTUVWXYZabcdefghijklm" == Uppercase + "abcdefghijklm"
  {
  }

  /** The mount effect's password: 16 characters, one per draw, out of the
      hand-written charset. */
  function InitialPassword(draws: seq<nat>): (p: string)
    requires InitialLength <= |draws|
    requires forall i :: 0 <= i < InitialLength ==> draws[i] < |InitialCharset|
    ensures |p| == InitialLength
    ensures forall i :: 0 <= i < |p| ==> p[i] == InitialCharset[draws[i]]
  {
    Sample(InitialCharset, draws[..InitialLength])
  }

  /** Every character of the initial password comes from one of the groups. */
  lemma InitialPasswordMembership(draws: seq<nat>)
    requires InitialLength <= |draws|
    requires forall i :: 0 <= i < InitialLength ==> draws[i] < |InitialCharset|
    ensures forall i :: 0 <= i < InitialLength ==> ClassOf(InitialPassword(draws)[i]).Some?
  {
    InitialCharsetIsFull();
    var p := InitialPassword(draws);
    forall i | 0 <= i < InitialLength ensures ClassOf(p[i]).Some? {
      BuildMembership(AllSelected, p[i]);
    }
  }

  /** The state right after mounting: only the password is written. */
  function Mount(draws: seq<nat>): (st: PageState)
    requires InitialLength <= |draws|
    requires forall i :: 0 <= i < InitialLength ==> draws[i] < |InitialCharset|
    ensures st.length == Initial.length && st.flags == Initial.flags && st.copied == Initial.copied
    ensures |st.password| == InitialLength
    ensures forall i :: 0 <= i < InitialLength ==> st.password[i] == InitialCharset[draws[i]]
  {
    Initial.(password := InitialPassword(draws))
  }

  /** The mount block is generatePassword run on the default settings. */
  lemma MountIsRegenerate(draws: seq<nat>)
    requires InitialLength <= |draws|
    requires forall i :: 0 <= i < InitialLength ==> draws[i] < |InitialCharset|
    ensures DrawsFit(Initial.flags, Initial.length, draws)
    ensures Mount(draws) == Regenerate(Initial, draws)
  {
    InitialCharsetIsFull();
  }

  /** No generated password can be mistaken for the sentinel: the sentinel
      holds a space, which no group contains. */
  lemma SentinelNeverGenerated(f: Flags, len: nat, draws: seq<nat>)
    requires DrawsFit(f, len, draws)
    ensures Generate(f, len, draws).Success? ==> Generate(f, len, draws).value != Sentinel
  {
    GenerateMembership(f, len, draws);
    assert ClassOf(Sentinel[6]).None?;
  }
}
