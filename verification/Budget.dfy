// What one attempt may cost: the sizes of its context and its proposal, the time its checks may
// take together, and the time the sandbox took.
module Budget {
  import opened Sandbox

  datatype Limits = Limits(contextBytes: nat, proposalBytes: nat, timeout: nat, duration: nat)

  const DEFAULT_LIMITS := Limits(1_500_000, 2_500_000, 600_000, 600_000)

  function TotalTimeout(commands: seq<CheckRequest>): nat {
    if commands == [] then 0
    else TotalTimeout(commands[..|commands| - 1]) + commands[|commands| - 1].timeout
  }

  method SumTimeouts(commands: seq<CheckRequest>) returns (total: nat)
    ensures total == TotalTimeout(commands)
  {
    total := 0;
    for i := 0 to |commands|
      invariant total == TotalTimeout(commands[..i])
    {
      assert commands[..i + 1][..i] == commands[..i];
      total := total + commands[i].timeout;
    }
    assert commands[..|commands|] == commands;
  }

  predicate ProposalFits(limits: Limits, bytes: nat, commands: seq<CheckRequest>) {
    bytes <= limits.proposalBytes && TotalTimeout(commands) <= limits.timeout
  }

  // Checks that are all within the limit of a single one can be too much together: of the checks a
  // proposal may have, no more than five may take as long as they can.
  lemma {:induction false} LongChecksAddUp(commands: seq<CheckRequest>, each: nat)
    requires forall i | 0 <= i < |commands| :: commands[i].timeout == each
    ensures TotalTimeout(commands) == |commands| * each
  {
    if commands != [] { LongChecksAddUp(commands[..|commands| - 1], each); }
  }

  lemma SixLongChecksAreRefused(commands: seq<CheckRequest>, bytes: nat)
    requires |commands| >= 6 && forall i | 0 <= i < |commands| :: commands[i].timeout == 110_000
    ensures !ProposalFits(DEFAULT_LIMITS, bytes, commands)
  {
    LongChecksAddUp(commands, 110_000);
  }
}
