// The gate runner: gates in order, one adjacent cleanup after a failure, and a
// report of what ran and what was skipped.
module ReleaseGate {
  import opened Bytes

  datatype Gate = Gate(name: string, fullOnly: bool, cleanupAfter: Option<string>)

  datatype Result = Result(name: string, exitCode: Option<int>)

  predicate Passed(r: Result) {
    r.exitCode == Some(0)
  }

  /** gates.filter(...): quick runs leave out the full-only gates. */
  function Selected(gates: seq<Gate>, quick: bool): (selected: seq<Gate>)
    ensures forall g :: g in selected <==> g in gates && !(g.fullOnly && quick)
  {
    if gates == [] then []
    else if gates[0].fullOnly && quick then Selected(gates[1..], quick)
    else [gates[0]] + Selected(gates[1..], quick)
  }

  /** The gate right after a failed one, if it is that gate's cleanup. */
  function CleanupAfterFailure(gates: seq<Gate>, failed: nat): (cleanup: Option<Gate>)
    ensures cleanup.Some? <==>
            failed + 1 < |gates| && gates[failed + 1].cleanupAfter == Some(gates[failed].name)
  {
    if failed + 1 < |gates| && gates[failed + 1].cleanupAfter == Some(gates[failed].name)
    then Some(gates[failed + 1]) else None
  }

  function Names(gates: seq<Gate>): (names: seq<string>)
    ensures |names| == |gates| && forall k :: 0 <= k < |gates| ==> names[k] == gates[k].name
  {
    seq(|gates|, k requires 0 <= k < |gates| => gates[k].name)
  }

  function Failures(results: seq<Result>): nat {
    if results == [] then 0
    else Failures(results[..|results| - 1]) + if Passed(results[|results| - 1]) then 0 else 1
  }

  predicate OwnerOf(selected: seq<Gate>, i: nat) {
    i + 1 < |selected| && selected[i + 1].cleanupAfter == Some(selected[i].name)
  }

  lemma {:induction false} NoFailures(results: seq<Result>)
    ensures Failures(results) == 0 <==> forall k :: 0 <= k < |results| ==> Passed(results[k])
  {
    if results != [] {
      NoFailures(results[..|results| - 1]);
      assert forall k :: 0 <= k < |results| - 1 ==> results[..|results| - 1][k] == results[k];
    }
  }

  // --- what a report must say, told by the exit codes alone -------------------------------

  /** The first gate that does not exit with zero. */
  function FirstFailure(exits: nat -> Option<int>, n: nat): (f: nat)
    ensures f <= n && (forall k: nat :: k < f ==> exits(k) == Some(0)) && (f < n ==> exits(f) != Some(0))
  {
    if n == 0 then 0
    else
      var f := FirstFailure(exits, n - 1);
      if f < n - 1 || exits(n - 1) != Some(0) then f else n
  }

  /** Everything up to the first failure runs, then at most that gate's own cleanup. */
  function RanGates(selected: seq<Gate>, exits: nat -> Option<int>): (n: nat)
    ensures n <= |selected|
  {
    var f := FirstFailure(exits, |selected|);
    if f == |selected| then f else if OwnerOf(selected, f) then f + 2 else f + 1
  }

  /**
   * An adjacent cleanup has run exactly when the gate it belongs to has run; the
   * one exception is an owner that only ran as the cleanup of the gate before it.
   */
  lemma CleanupRunsWithOwnerIff(selected: seq<Gate>, exits: nat -> Option<int>, i: nat)
    requires OwnerOf(selected, i)
    ensures (i < RanGates(selected, exits) <==> i + 1 < RanGates(selected, exits)) <==>
            !(i > 0 && OwnerOf(selected, i - 1) && FirstFailure(exits, |selected|) == i - 1)
  {}

  /** How many gates run, by the exit codes: all of them, or up to the first that fails and its adjacent cleanup. */
  lemma RanExactly(selected: seq<Gate>, exits: nat -> Option<int>, f: nat)
    requires forall k: nat :: k < f ==> exits(k) == Some(0)
    requires f <= |selected| && (f < |selected| ==> exits(f) != Some(0))
    ensures RanGates(selected, exits) ==
            if f == |selected| then f
            else if f + 1 < |selected| && selected[f + 1].cleanupAfter == Some(selected[f].name) then f + 2 else f + 1
  {
    assert FirstFailure(exits, |selected|) == f;
  }

  /** Gates are selected one by one, in their order. */
  lemma {:induction false} SelectedConcat(first: seq<Gate>, last: seq<Gate>, quick: bool)
    ensures Selected(first + last, quick) == Selected(first, quick) + Selected(last, quick)
    decreases |first|
  {
    if first == [] {
      assert first + last == last;
    } else {
      assert (first + last)[1..] == first[1..] + last;
      SelectedConcat(first[1..], last, quick);
    }
  }

  /** A quick run leaves out a gate that is for full runs only; a full run leaves out none. */
  lemma {:induction false} FullSelectsAll(gates: seq<Gate>, g: Gate)
    ensures Selected([g], true) == if g.fullOnly then [] else [g]
    ensures Selected(gates, false) == gates
    decreases |gates|
  {
    if gates != [] {
      FullSelectsAll(gates[1..], g);
    }
  }

  /** The reported number of failures is the number of results that are not an exit with zero. */
  lemma {:induction false} FailuresAreCounted(results: seq<Result>)
    ensures Failures(results) == |set k | 0 <= k < |results| && results[k].exitCode != Some(0)|
    decreases |results|
  {
    if results != [] {
      var n := |results| - 1;
      FailuresAreCounted(results[..n]);
      var before := set k | 0 <= k < n && results[..n][k].exitCode != Some(0);
      assert (set k | 0 <= k < |results| && results[k].exitCode != Some(0)) ==
             before + if results[n].exitCode != Some(0) then {n} else {};
    }
  }

  /** Nothing but that cleanup runs after the first failure. */
  lemma NothingAfterFailure(selected: seq<Gate>, exits: nat -> Option<int>, f: nat, k: nat)
    requires f < k < RanGates(selected, exits) && exits(f) != Some(0)
    ensures k == f + 1 && OwnerOf(selected, f)
  {
    assert FirstFailure(exits, |selected|) <= f;
  }

  /** No failure is reported exactly when every selected gate ran and passed. */
  lemma GreenIff(selected: seq<Gate>, exits: nat -> Option<int>, results: seq<Result>)
    requires |results| == RanGates(selected, exits) && forall k :: 0 <= k < |results| ==> results[k].exitCode == exits(k)
    ensures Failures(results) == 0 <==> |results| == |selected| && forall k :: 0 <= k < |results| ==> Passed(results[k])
  {
    NoFailures(results);
    var f := FirstFailure(exits, |selected|);
    if f < |selected| {
      assert !Passed(results[f]);
    }
  }

  /**
   * Runs the selected gates. `exits(k)` is the exit code of the process that runs
   * gate k, None when it cannot be spawned.
   */
  method RunGates(selected: seq<Gate>, exits: nat -> Option<int>)
    returns (results: seq<Result>, skipped: seq<string>, failed: nat)
    ensures |results| == RanGates(selected, exits)
    ensures forall k :: 0 <= k < |results| ==> results[k] == Result(selected[k].name, exits(k))
    ensures seq(|results|, k requires 0 <= k < |results| => results[k].name) + skipped == Names(selected)
    ensures failed == |set k | 0 <= k < |results| && results[k].exitCode != Some(0)|
  {
    results := RunUntilFailure(selected, exits);
    skipped := Names(selected[|results|..]);
    failed := CountFailures(results);
    FailuresAreCounted(results);
  }

  method RunUntilFailure(selected: seq<Gate>, exits: nat -> Option<int>) returns (results: seq<Result>)
    ensures |results| == RanGates(selected, exits)
    ensures forall k :: 0 <= k < |results| ==> results[k] == Result(selected[k].name, exits(k))
  {
    results := [];
    var index := 0;
    while index < |selected|
      invariant index <= FirstFailure(exits, |selected|) && |results| == index
      invariant forall k :: 0 <= k < |results| ==> results[k] == Result(selected[k].name, exits(k))
    {
      results := results + [Result(selected[index].name, exits(index))];
      if exits(index) != Some(0) {
        var cleanup := CleanupAfterFailure(selected, index);
        if cleanup.Some? {
          results := results + [Result(cleanup.value.name, exits(index + 1))];
        }
        return;
      }
      index := index + 1;
    }
  }

  method CountFailures(results: seq<Result>) returns (failed: nat)
    ensures failed == Failures(results)
  {
    failed := 0;
    for k := 0 to |results|
      invariant failed == Failures(results[..k])
    {
      assert results[..k + 1][..k] == results[..k];
      if !Passed(results[k]) {
        failed := failed + 1;
      }
    }
    assert results[..|results|] == results;
  }
}
