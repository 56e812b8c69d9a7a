/** The external commands both merge scripts issue: their argument vectors, the
    directory each runs in, and how a revision identifier is turned into the
    text placed on the merge command line. */
module Commands {

  datatype Option<+T> = None | Some(value: T)

  /** One process invocation: the argument vector and the working directory it is
      started in (None: no directory is passed, so the process inherits the
      current directory of the Python process). */
  datatype Command = Command(argv: seq<string>, cwd: Option<string>)

  /** The five operations the scripts perform on a working copy. */
  datatype Op =
    | Switch(branch: string)
    | Update
    | Revert
    | Merge(revision: string, source: string)
    | Resolve

  /** The command issued for an operation on working copy `wd`. Every svn command
      runs with `wd` as its working directory; the conflict-resolution tool is
      given `wd` on its command line and, with no directory passed, inherits
      the current directory of the Python process. */
  function Render(op: Op, wd: string): (c: Command)
    ensures |c.argv| >= 3
    ensures op.Resolve? <==> c.cwd == None
    ensures !op.Resolve? ==> c.cwd == Some(wd) && c.argv[0] == "svn"
    ensures op.Resolve? ==>
      |c.argv| == 3 && |c.argv[2]| >= |PathFlag| && c.argv[2][..|PathFlag|] == PathFlag && c.argv[2][|PathFlag|..] == wd
  {
    match op
    case Switch(b) => Command(["svn", "switch", b], Some(wd))
    case Update => Command(["svn", "update", "--set-depth", "infinity"], Some(wd))
    case Revert => Command(["svn", "revert", "-R", "."], Some(wd))
    case Merge(r, s) => Command(["svn", "merge", "-c", r, s, "--accept", "theirs-full"], Some(wd))
    case Resolve => Command(["TortoiseProc.exe", "/command:resolve", "/path:" + wd], None)
  }

  /** An operation together with the working copy it was issued against. */
  datatype Issued = Issued(op: Op, wd: string)

  const PathFlag: string := "/path:"

  /** Reads an operation back from a command; None for a command no script issues. */
  function Decode(c: Command): Option<Issued>
  {
    var a := c.argv;
    match c.cwd
    case None =>
      if |a| == 3 && a[0] == "TortoiseProc.exe" && a[1] == "/command:resolve"
         && |a[2]| >= |PathFlag| && a[2][..|PathFlag|] == PathFlag
      then Some(Issued(Resolve, a[2][|PathFlag|..]))
      else None
    case Some(wd) =>
      if |a| == 3 && a[0] == "svn" && a[1] == "switch" then
        Some(Issued(Switch(a[2]), wd))
      else if a == ["svn", "update", "--set-depth", "infinity"] then
        Some(Issued(Update, wd))
      else if a == ["svn", "revert", "-R", "."] then
        Some(Issued(Revert, wd))
      else if |a| == 7 && a[0] == "svn" && a[1] == "merge" && a[2] == "-c"
              && a[5] == "--accept" && a[6] == "theirs-full" then
        Some(Issued(Merge(a[3], a[4]), wd))
      else None
  }

  /** Every command the scripts issue names its operation and working copy unambiguously. */
  lemma DecodeRender(op: Op, wd: string)
    ensures Decode(Render(op, wd)) == Some(Issued(op, wd))
  {
  }

  /** Conversely, every command that decodes is exactly the rendering of what it decodes to. */
  lemma RenderDecode(c: Command)
    requires Decode(c).Some?
    ensures Render(Decode(c).value.op, Decode(c).value.wd) == c
  {
    var a := c.argv;
    match c.cwd
    case None =>
      assert a[2] == a[2][..|PathFlag|] + a[2][|PathFlag|..];
      assert a == ["TortoiseProc.exe", "/command:resolve", a[2]];
    case Some(wd) =>
      if |a| == 3 && a[0] == "svn" && a[1] == "switch" {
        assert a == ["svn", "switch", a[2]];
      } else if |a| == 7 && a[0] == "svn" && a[1] == "merge" {
        assert a == ["svn", "merge", "-c", a[3], a[4], "--accept", "theirs-full"];
      }
  }

  /** Different operations or working copies never produce the same command. */
  lemma RenderInjective(op1: Op, wd1: string, op2: Op, wd2: string)
    requires Render(op1, wd1) == Render(op2, wd2)
    ensures op1 == op2 && wd1 == wd2
  {
    DecodeRender(op1, wd1);
    DecodeRender(op2, wd2);
  }

  // ---------------------------------------------------------------------------
  // Revision identifiers and Python's str()

  /** A revision identifier as the configuration file may give it: a JSON integer or a JSON string. */
  datatype Revision = Number(n: int) | Name(s: string)

  predicate IsDigit(c: char) { '0' <= c <= '9' }

  predicate AllDigits(s: string) { forall k :: 0 <= k < |s| ==> IsDigit(s[k]) }

  function DigitChar(d: nat): (c: char)
    requires d < 10
    ensures IsDigit(c) && c as int - '0' as int == d
  {
    ('0' as int + d) as char
  }

  /** Decimal digits of a natural number, most significant first, without leading zeros. */
  function NatText(n: nat): string
    decreases n
  {
    if n < 10 then [DigitChar(n)] else NatText(n / 10) + [DigitChar(n % 10)]
  }

  /** The number a string of decimal digits denotes. */
  function DigitsValue(s: string): nat
    requires AllDigits(s)
  {
    if s == [] then 0 else 10 * DigitsValue(s[..|s| - 1]) + (s[|s| - 1] as int - '0' as int)
  }

  /** Python's str() of an int: an optional minus sign, then the decimal digits. */
  function IntText(n: int): (s: string)
    ensures n >= 0 ==> s != [] && AllDigits(s) && DigitsValue(s) == n
    ensures n < 0 ==> |s| > 1 && s[0] == '-' && AllDigits(s[1..]) && DigitsValue(s[1..]) == -n
  {
    NatTextValue(if n < 0 then -n else n);
    if n < 0 then
      var s := "-" + NatText(-n);
      assert s[1..] == NatText(-n);
      s
    else NatText(n)
  }

  /** Python's str() of a revision: the decimal text of an integer, a string unchanged. */
  function RevisionText(r: Revision): (s: string)
    ensures r.Number? && r.n >= 0 ==> s != [] && AllDigits(s) && DigitsValue(s) == r.n
    ensures r.Number? && r.n < 0 ==> |s| > 1 && s[0] == '-' && AllDigits(s[1..]) && DigitsValue(s[1..]) == -r.n
    ensures r.Name? ==> s == r.s
  {
    match r
    case Number(n) => IntText(n)
    case Name(s) => s
  }

  /** NatText is read back by DigitsValue, and its first digit is never a padding zero. */
  lemma {:induction false} NatTextValue(n: nat)
    ensures NatText(n) != [] && AllDigits(NatText(n))
    ensures DigitsValue(NatText(n)) == n
    ensures NatText(n)[0] == '0' ==> n == 0
  {
    if n >= 10 {
      NatTextValue(n / 10);
      var s := NatText(n);
      assert s[..|s| - 1] == NatText(n / 10);
      assert s[|s| - 1] == DigitChar(n % 10);
    }
  }

  /** Two integers with the same str() are equal: the merge command names the revision exactly. */
  lemma IntTextInjective(a: int, b: int)
    requires IntText(a) == IntText(b)
    ensures a == b
  {
    NatTextValue(if a < 0 then -a else a);
    NatTextValue(if b < 0 then -b else b);
    if a < 0 && b < 0 {
      assert NatText(-a) == IntText(a)[1..] == IntText(b)[1..] == NatText(-b);
    }
  }
}
