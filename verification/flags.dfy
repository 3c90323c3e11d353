/**
 * The command-line checks at the start of main: each of -test, -t1 and -t2
 * must be given a non-empty value, and the first one that is not stops the
 * program with a message on standard error and exit status 1.
 */
module Flags {
  import opened Wrappers

  /** Leaving the program early: the text written to standard error and the
      exit status. */
  datatype Exit = Exit(message: string, status: int)

  /** How the program stops when flag `name` has no value. */
  function Missing(name: string): Exit {
    Exit(name + " is not specified\n", 1)
  }

  /** checkArg: stops the program, naming `name`, exactly when `cond` fails. */
  function CheckArg(name: string, cond: bool): (r: Option<Exit>)
    ensures r.None? <==> cond
    ensures r.Some? ==> r.value == Missing(name)
  {
    if cond then None else Some(Missing(name))
  }

  /** The exit of the first flag in `flags` (name, value) whose value is
      empty, or None when every flag has a value. */
  function FirstMissing(flags: seq<(string, string)>): (r: Option<Exit>)
    ensures r.None? <==> forall k :: 0 <= k < |flags| ==> flags[k].1 != ""
  {
    if flags == [] then None
    else if flags[0].1 == "" then Some(Missing(flags[0].0))
    else FirstMissing(flags[1..])
  }

  /** `flags[k]` is the first flag whose value is empty. */
  predicate FirstEmptyAt(flags: seq<(string, string)>, k: int) {
    0 <= k < |flags| && flags[k].1 == "" && forall j :: 0 <= j < k ==> flags[j].1 != ""
  }

  /** An exit names the first flag whose value is empty. */
  lemma {:induction false} FirstMissingIsFirst(flags: seq<(string, string)>)
    requires FirstMissing(flags).Some?
    ensures exists k :: FirstEmptyAt(flags, k) && FirstMissing(flags).value == Missing(flags[k].0)
  {
    if flags[0].1 == "" {
      assert FirstEmptyAt(flags, 0);
    } else {
      var rest := flags[1..];
      assert FirstMissing(flags) == FirstMissing(rest);
      FirstMissingIsFirst(rest);
      var k :| FirstEmptyAt(rest, k) && FirstMissing(rest).value == Missing(rest[k].0);
      assert flags[k + 1] == rest[k];
      forall j | 0 <= j < k + 1
        ensures flags[j].1 != ""
      {
        if j > 0 {
          assert flags[j] == rest[j - 1];
        }
      }
      assert FirstEmptyAt(flags, k + 1);
    }
  }

  /** The three flags main checks, in the order it checks them. */
  function MainFlags(test: string, t1: string, t2: string): seq<(string, string)> {
    [("-test", test), ("-t1", t1), ("-t2", t2)]
  }

  /** The three checkArg calls at the start of main; a returned exit stops
      the program before any test is run. */
  method CheckArgs(test: string, t1: string, t2: string) returns (exit: Option<Exit>)
    ensures exit == FirstMissing(MainFlags(test, t1, t2))
  {
    MainFlagsMissing(test, t1, t2);
    exit := CheckArg("-test", test != "");
    if exit.Some? {
      return;
    }
    exit := CheckArg("-t1", t1 != "");
    if exit.Some? {
      return;
    }
    exit := CheckArg("-t2", t2 != "");
  }

  /** FirstMissing over the three flags of main, case by case. */
  lemma MainFlagsMissing(test: string, t1: string, t2: string)
    ensures FirstMissing(MainFlags(test, t1, t2))
         == if test == "" then Some(Missing("-test"))
            else if t1 == "" then Some(Missing("-t1"))
            else if t2 == "" then Some(Missing("-t2"))
            else None
  {
    var flags := MainFlags(test, t1, t2);
    assert flags[1..] == [("-t1", t1), ("-t2", t2)];
    assert flags[1..][1..] == [("-t2", t2)];
    assert flags[1..][1..][1..] == [];
    assert FirstMissing(flags[1..][1..]) == if t2 == "" then Some(Missing("-t2")) else None;
  }

  /** Which message main prints depends only on the first empty flag in the
      order -test, -t1, -t2; with all three given, it goes on to run. */
  lemma FlagOrder(test: string, t1: string, t2: string)
    ensures test == "" ==> FirstMissing(MainFlags(test, t1, t2)) == Some(Missing("-test"))
    ensures test != "" && t1 == "" ==> FirstMissing(MainFlags(test, t1, t2)) == Some(Missing("-t1"))
    ensures test != "" && t1 != "" && t2 == "" ==> FirstMissing(MainFlags(test, t1, t2)) == Some(Missing("-t2"))
    ensures test != "" && t1 != "" && t2 != "" <==> FirstMissing(MainFlags(test, t1, t2)).None?
  {
    MainFlagsMissing(test, t1, t2);
  }
}
