/**
 * The command-line part of port_name.py's main: the options that getopt
 * returned for the option string "hk:o:f:" are folded into the three
 * required arguments, each of which starts out as the text "null".
 */
module ArgOptions {

  /** One (option, argument) pair as getopt returns it, e.g. ("-k", "secret"). */
  type OptPair = (string, string)

  /** The placeholder main gives every argument before the options are read. */
  const Null: string := "null"

  /** The flags of the option string "hk:o:f:"; getopt rejects every other one. */
  predicate Accepted(flag: string) {
    flag == "-h" || flag == "-k" || flag == "-o" || flag == "-f"
  }

  /** How the option handling ends: sys.exit(code), or on to the CSV with the three arguments. */
  datatype Setup =
    | Exit(code: nat)
    | Start(apiKey: string, orgId: string, argFile: string)

  /** The argument of the last pair whose option is flag, or "null" when there is none. */
  function LastArg(opts: seq<OptPair>, flag: string): string
  {
    if opts == [] then Null
    else if opts[|opts| - 1].0 == flag then opts[|opts| - 1].1
    else LastArg(opts[..|opts| - 1], flag)
  }

  /**
   * What the option handling of main decides, stated without its loop:
   * an unknown option exits 2 (getopt's error), any "-h" exits 0, and
   * otherwise each argument is the last one given, where a missing one
   * (or one given literally as "null") exits 2.
   */
  function Configure(opts: seq<OptPair>): Setup
  {
    if exists i | 0 <= i < |opts| :: !Accepted(opts[i].0) then Exit(2)
    else if exists i | 0 <= i < |opts| :: opts[i].0 == "-h" then Exit(0)
    else
      var apiKey, orgId, argFile := LastArg(opts, "-k"), LastArg(opts, "-o"), LastArg(opts, "-f");
      if apiKey == Null || orgId == Null || argFile == Null then Exit(2)
      else Start(apiKey, orgId, argFile)
  }

  /** The option loop of main and the required-argument check after it. */
  method ParseArgs(opts: seq<OptPair>) returns (setup: Setup)
    ensures setup == Configure(opts)
  {
    // getopt.GetoptError: printhelp(); sys.exit(2)
    if exists i | 0 <= i < |opts| :: !Accepted(opts[i].0) {
      return Exit(2);
    }
    var apiKey, orgId, argFile := Null, Null, Null;
    var i := 0;
    while i < |opts|
      invariant 0 <= i <= |opts|
      invariant forall m | 0 <= m < i :: opts[m].0 != "-h"
      invariant apiKey == LastArg(opts[..i], "-k")
      invariant orgId == LastArg(opts[..i], "-o")
      invariant argFile == LastArg(opts[..i], "-f")
    {
      var (opt, arg) := opts[i];
      assert opts[..i + 1][..i] == opts[..i];
      if opt == "-h" {
        return Exit(0);
      } else if opt == "-k" {
        apiKey := arg;
      } else if opt == "-o" {
        orgId := arg;
      } else if opt == "-f" {
        argFile := arg;
      }
      i := i + 1;
    }
    assert opts[..i] == opts;
    if apiKey == Null || orgId == Null || argFile == Null {
      return Exit(2);
    }
    return Start(apiKey, orgId, argFile);
  }

  /**
   * LastArg is the argument of the last occurrence of flag: either flag
   * never occurs and the result is "null", or i is its last occurrence.
   */
  lemma {:induction false} LastArgWitness(opts: seq<OptPair>, flag: string) returns (i: int)
    ensures i == -1 ==> LastArg(opts, flag) == Null && forall m | 0 <= m < |opts| :: opts[m].0 != flag
    ensures i != -1 ==> 0 <= i < |opts| && opts[i].0 == flag && LastArg(opts, flag) == opts[i].1
    ensures i != -1 ==> forall m | i < m < |opts| :: opts[m].0 != flag
  {
    if opts == [] {
      i := -1;
    } else if opts[|opts| - 1].0 == flag {
      i := |opts| - 1;
    } else {
      var init := opts[..|opts| - 1];
      i := LastArgWitness(init, flag);
      assert forall m | 0 <= m < |init| :: init[m] == opts[m];
    }
  }

  /** Whatever comes before the last occurrence of flag does not change LastArg. */
  lemma {:induction false} LastArgAt(opts: seq<OptPair>, flag: string, i: nat)
    requires i < |opts| && opts[i].0 == flag
    requires forall m | i < m < |opts| :: opts[m].0 != flag
    ensures LastArg(opts, flag) == opts[i].1
  {
    if i < |opts| - 1 {
      var init := opts[..|opts| - 1];
      assert forall m | 0 <= m < |init| :: init[m] == opts[m];
      LastArgAt(init, flag, i);
    }
  }

  /**
   * A run gets past the option handling exactly when every option is
   * accepted, none is "-h", and each of "-k", "-o", "-f" occurs with a
   * last argument other than "null"; the values kept are those last ones.
   */
  lemma StartTakesLastOccurrences(opts: seq<OptPair>)
    ensures Configure(opts).Start? <==>
      (forall m | 0 <= m < |opts| :: Accepted(opts[m].0) && opts[m].0 != "-h") &&
      LastArg(opts, "-k") != Null && LastArg(opts, "-o") != Null && LastArg(opts, "-f") != Null
    ensures Configure(opts).Start? ==>
      exists ik, io, jf ::
        0 <= ik < |opts| && opts[ik] == ("-k", Configure(opts).apiKey) &&
        0 <= io < |opts| && opts[io] == ("-o", Configure(opts).orgId) &&
        0 <= jf < |opts| && opts[jf] == ("-f", Configure(opts).argFile) &&
        (forall m | ik < m < |opts| :: opts[m].0 != "-k") &&
        (forall m | io < m < |opts| :: opts[m].0 != "-o") &&
        (forall m | jf < m < |opts| :: opts[m].0 != "-f")
  {
    if Configure(opts).Start? {
      var ik := LastArgWitness(opts, "-k");
      var io := LastArgWitness(opts, "-o");
      var jf := LastArgWitness(opts, "-f");
      assert opts[ik] == ("-k", Configure(opts).apiKey);
      assert opts[io] == ("-o", Configure(opts).orgId);
      assert opts[jf] == ("-f", Configure(opts).argFile);
    }
  }

  /**
   * Help wins over everything but an unknown option: once getopt accepts
   * the options, the run exits 0 exactly when "-h" is among them, whatever
   * the other options are and wherever "-h" stands.
   */
  lemma HelpExitsZero(opts: seq<OptPair>)
    requires forall m | 0 <= m < |opts| :: Accepted(opts[m].0)
    ensures Configure(opts) == Exit(0) <==> exists m | 0 <= m < |opts| :: opts[m].0 == "-h"
  {
  }

  /**
   * An option outside "hk:o:f:" (such as the "-s", "-t" or "-p" that the
   * usage text names) ends the run with status 2, even after "-h".
   */
  lemma UnknownOptionExitsTwo(opts: seq<OptPair>, m: nat)
    requires m < |opts| && !Accepted(opts[m].0)
    ensures Configure(opts) == Exit(2)
  {
  }

  /**
   * A required argument whose last occurrence is the literal "null" counts
   * as missing: the run never gets past the option handling.
   */
  lemma LiteralNullIsMissing(opts: seq<OptPair>, flag: string, i: nat)
    requires flag == "-k" || flag == "-o" || flag == "-f"
    requires i < |opts| && opts[i] == (flag, Null)
    requires forall m | i < m < |opts| :: opts[m].0 != flag
    ensures Configure(opts).Exit? && Configure(opts).code in {0, 2}
  {
    LastArgAt(opts, flag, i);
  }
}
