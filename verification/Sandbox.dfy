// The sandbox worker: runs the requested checks in order, stops at the first that does not
// pass, blocks the rest, and destroys the sandbox whatever happened.
module Sandbox {
  import opened Git
  import opened Options
  import opened Policy
  import opened Rows
  import opened Shell

  datatype CheckRequest = CheckRequest(id: string, kind: string, argv: seq<string>, timeout: nat)

  datatype ExecutionRequest = ExecutionRequest(
    attempt: Id, patch: PatchDigest, files: seq<FileEdit>, edits: seq<FileEdit>, checks: seq<CheckRequest>)

  datatype ReplyStatus = ReplyPassed | ReplyFailed | ReplyBlocked | ReplyInfrastructureError

  datatype CheckResult = CheckResult(
    id: string, kind: string, status: CheckStatus, exitCode: Option<int>, duration: nat)

  // `bytes` is the length of the reply's text.
  datatype ExecutionReply = ExecutionReply(
    attempt: Id, status: ReplyStatus, checks: seq<CheckResult>, executor: string, destroyed: bool,
    duration: nat, bytes: nat)

  const EXECUTOR := "cloudflare-sandbox"

  // How the sandbox may behave: whether the files could be written, what each command does if it
  // is run, whether the sandbox could be destroyed in time, how long it all took, and how long the
  // text of the reply gets with what the commands print.
  datatype Outcome = Exited(success: bool, code: int, duration: nat) | RanOutOfTime | Broke

  datatype Behaviour = Behaviour(
    prepares: bool, command: nat -> Outcome, destroys: bool, duration: nat, bytes: nat)

  function StatusOf(o: Outcome): CheckStatus {
    match o
    case Exited(success, _, _) => if success then Passed else CheckStatus.Failed
    case RanOutOfTime => TimedOut
    case Broke => InfrastructureError
  }

  // The checks before `i` all pass.
  predicate Reached(b: Behaviour, i: nat) {
    b.prepares && forall j: nat | j < i :: StatusOf(b.command(j)) == Passed
  }

  // What check `i` should be reported as: its own outcome if every earlier step passed.
  function ReportedStatus(b: Behaviour, i: nat): CheckStatus {
    if Reached(b, i) then StatusOf(b.command(i)) else BlockedCheck
  }

  function ReplyStatusFor(b: Behaviour, n: nat): ReplyStatus {
    if !b.destroys || !b.prepares then ReplyInfrastructureError
    else if Reached(b, n) then ReplyPassed
    else if exists i: nat :: i < n && Reached(b, i) && StatusOf(b.command(i)) == CheckStatus.Failed
    then ReplyFailed
    else ReplyInfrastructureError
  }

  function Ran(check: CheckRequest, o: Outcome): CheckResult {
    match o
    case Exited(success, code, duration) =>
      CheckResult(check.id, check.kind, StatusOf(o), Some(code), duration)
    case _ => CheckResult(check.id, check.kind, StatusOf(o), None, check.timeout)
  }

  function NotRun(check: CheckRequest): CheckResult {
    CheckResult(check.id, check.kind, BlockedCheck, None, 0)
  }

  // The reply the worker should send.
  function ReplyOf(request: ExecutionRequest, b: Behaviour): ExecutionReply {
    ExecutionReply(
      request.attempt, ReplyStatusFor(b, |request.checks|),
      seq(|request.checks|, i requires 0 <= i < |request.checks| =>
        if Reached(b, i) then Ran(request.checks[i], b.command(i)) else NotRun(request.checks[i])),
      EXECUTOR, b.destroys, b.duration, b.bytes)
  }

  lemma ReplyReports(request: ExecutionRequest, b: Behaviour)
    ensures var reply := ReplyOf(request, b);
      && |reply.checks| == |request.checks|
      && (forall i | 0 <= i < |request.checks| ::
            reply.checks[i].id == request.checks[i].id && reply.checks[i].kind == request.checks[i].kind &&
            reply.checks[i].status == ReportedStatus(b, i))
  {
    forall i | 0 <= i < |request.checks|
      ensures ReplyOf(request, b).checks[i] ==
        if Reached(b, i) then Ran(request.checks[i], b.command(i)) else NotRun(request.checks[i])
    {
    }
  }

  // ----- What a reply tells of the sandbox -----

  // The files are written, and the commands before the `i`th all end successfully.
  ghost predicate GetsTo(b: Behaviour, i: int) {
    b.prepares && forall j: nat | j < i :: b.command(j).Exited? && b.command(j).success
  }

  // The command is run and ends unsuccessfully.
  ghost predicate FailsAt(b: Behaviour, i: nat) {
    GetsTo(b, i) && b.command(i).Exited? && !b.command(i).success
  }

  // The status of a check tells how its command went: passed or failed as it ended, timed out, broken,
  // or blocked if it was not run.
  ghost predicate StatusTells(b: Behaviour, i: nat, status: CheckStatus) {
    && (status == Passed <==> GetsTo(b, i + 1))
    && (status == CheckStatus.Failed <==> FailsAt(b, i))
    && (status == TimedOut <==> GetsTo(b, i) && b.command(i).RanOutOfTime?)
    && (status == InfrastructureError <==> GetsTo(b, i) && b.command(i).Broke?)
    && (status == BlockedCheck <==> !GetsTo(b, i))
  }

  // So does its result, with the exit code if it ended, and how long it took, or could have.
  ghost predicate Tells(b: Behaviour, i: nat, check: CheckRequest, result: CheckResult) {
    && result.id == check.id && result.kind == check.kind && StatusTells(b, i, result.status)
    && result.exitCode == (if GetsTo(b, i) && b.command(i).Exited? then Some(b.command(i).code) else None)
    && result.duration == (if !GetsTo(b, i) then 0
                           else if b.command(i).Exited? then b.command(i).duration else check.timeout)
  }

  // A reply has one result for each check, in order. It is passed if every command ended successfully,
  // failed if one did not, and an infrastructure error if anything else happened or the sandbox is
  // still there.
  ghost predicate TellsAll(request: ExecutionRequest, b: Behaviour, reply: ExecutionReply) {
    && |reply.checks| == |request.checks|
    && (forall i: nat | i < |request.checks| :: Tells(b, i, request.checks[i], reply.checks[i]))
    && (reply.status == ReplyPassed <==> b.destroys && GetsTo(b, |request.checks|))
    && (reply.status == ReplyFailed <==> b.destroys && exists i: nat | i < |request.checks| :: FailsAt(b, i))
    && reply.status != ReplyBlocked
    && reply.destroyed == b.destroys && reply.attempt == request.attempt
    && reply.executor == "cloudflare-sandbox"
  }

  lemma ReachedExactly(b: Behaviour, i: nat)
    ensures Reached(b, i) <==> GetsTo(b, i)
  {
    assert forall o :: StatusOf(o) == Passed <==> o.Exited? && o.success;
  }

  lemma ResultTells(b: Behaviour, i: nat, check: CheckRequest)
    ensures Tells(b, i, check, if Reached(b, i) then Ran(check, b.command(i)) else NotRun(check))
    ensures ReportedStatus(b, i) == if Reached(b, i) then Ran(check, b.command(i)).status else NotRun(check).status
  {
    ReachedExactly(b, i);
    ReachedExactly(b, i + 1);
  }

  lemma FailureReached(b: Behaviour, i: nat)
    ensures FailsAt(b, i) <==> Reached(b, i) && StatusOf(b.command(i)) == CheckStatus.Failed
  {
    ReachedExactly(b, i);
  }

  lemma ReplyTells(request: ExecutionRequest, b: Behaviour)
    ensures TellsAll(request, b, ReplyOf(request, b))
  {
    var n := |request.checks|;
    forall i: nat | i < n ensures Tells(b, i, request.checks[i], ReplyOf(request, b).checks[i]) {
      ResultTells(b, i, request.checks[i]);
    }
    ReachedExactly(b, n);
    forall i: nat ensures FailsAt(b, i) <==> Reached(b, i) && StatusOf(b.command(i)) == CheckStatus.Failed {
      FailureReached(b, i);
    }
  }

  // Passed up to `n`, there at most one unsuccessful result, and nothing run after it.
  ghost predicate StopsAt(checks: seq<CheckResult>, n: nat) {
    && n <= |checks|
    && (forall i | 0 <= i < n :: checks[i].status == Passed)
    && (n < |checks| ==> checks[n].status != Passed)
    && (forall i | n < i < |checks| :: checks[i].status == BlockedCheck)
  }

  // The requested checks, in order.
  ghost predicate Aligned(request: ExecutionRequest, reply: ExecutionReply) {
    && |reply.checks| == |request.checks|
    && (forall i | 0 <= i < |reply.checks| ::
          reply.checks[i].id == request.checks[i].id && reply.checks[i].kind == request.checks[i].kind)
    && (exists n: nat :: StopsAt(reply.checks, n))
  }

  // Runs the checks until one does not pass; `executed` lists the command lines handed to the
  // sandbox.
  method RunChecks(request: ExecutionRequest, b: Behaviour)
    returns (checks: seq<CheckResult>, status: ReplyStatus, executed: seq<string>)
    requires b.prepares
    ensures RanOnly(b, |checks|, |request.checks|) && |executed| == |checks|
    ensures forall i | 0 <= i < |checks| :: checks[i] == Ran(request.checks[i], b.command(i))
    ensures forall i | 0 <= i < |executed| :: Tokenize(executed[i]) == Some(request.checks[i].argv)
    ensures status ==
      if Reached(b, |checks|) then ReplyPassed
      else if StatusOf(b.command(|checks| - 1)) == CheckStatus.Failed then ReplyFailed
      else ReplyInfrastructureError
    ensures !Reached(b, |checks|) ==> |checks| > 0
  {
    checks, status, executed := [], ReplyPassed, [];
    var index := 0;
    while index < |request.checks|
      invariant 0 <= index <= |request.checks| && |checks| == index == |executed|
      invariant status == ReplyPassed && Reached(b, index)
      invariant forall i | 0 <= i < index :: checks[i] == Ran(request.checks[i], b.command(i))
      invariant forall i | 0 <= i < index :: Tokenize(executed[i]) == Some(request.checks[i].argv)
    {
      var check := request.checks[index];
      ShellRoundTrip(check.argv);
      executed := executed + [Line(check.argv)];
      var outcome := b.command(index);
      checks := checks + [Ran(check, outcome)];
      index := index + 1;
      if outcome.Exited? {
        if !outcome.success {
          status := ReplyFailed;
          break;
        }
      } else {
        status := ReplyInfrastructureError;
        break;
      }
    }
  }

  // Reports the checks that were not run as blocked.
  method BlockRest(request: ExecutionRequest, ran: seq<CheckResult>) returns (checks: seq<CheckResult>)
    requires |ran| <= |request.checks|
    ensures |checks| == |request.checks| && ran <= checks
    ensures forall i | |ran| <= i < |checks| :: checks[i] == NotRun(request.checks[i])
  {
    checks := ran;
    var index := |ran|;
    while index < |request.checks|
      invariant |ran| <= index <= |request.checks| && |checks| == index && ran <= checks
      invariant forall i | |ran| <= i < index :: checks[i] == NotRun(request.checks[i])
    {
      checks := checks + [NotRun(request.checks[index])];
      index := index + 1;
    }
  }

  // A parsed request has at least one check.
  method Execute(request: ExecutionRequest, b: Behaviour)
    returns (reply: ExecutionReply, executed: seq<string>)
    requires |request.checks| >= 1
    ensures Aligned(request, reply)
    ensures forall i | 0 <= i < |reply.checks| ::
      reply.checks[i] ==
        if Reached(b, i) then Ran(request.checks[i], b.command(i)) else NotRun(request.checks[i])
    ensures forall i | 0 <= i < |reply.checks| :: reply.checks[i].status == ReportedStatus(b, i)
    ensures reply.status == ReplyStatusFor(b, |request.checks|)
    ensures reply.status == ReplyPassed <==>
              reply.destroyed && forall i | 0 <= i < |reply.checks| :: reply.checks[i].status == Passed
    ensures reply.attempt == request.attempt && reply.executor == EXECUTOR
    ensures reply.destroyed == b.destroys && reply.duration == b.duration && reply.bytes == b.bytes
    ensures reply == ReplyOf(request, b) && TellsAll(request, b, reply)
    // Each line handed to the shell reads back as the argument list of its check.
    ensures |executed| <= |request.checks|
    ensures forall i | 0 <= i < |executed| :: Tokenize(executed[i]) == Some(request.checks[i].argv)
    ensures forall i | 0 <= i < |request.checks| ::
              (reply.checks[i].status == BlockedCheck <==> i >= |executed|)
  {
    var checks: seq<CheckResult>, status := [], ReplyInfrastructureError;
    executed := [];
    if b.prepares {
      checks, status, executed := RunChecks(request, b);
    }
    var destroyed := b.destroys;
    if !destroyed { status := ReplyInfrastructureError; }
    ghost var ran := |checks|;
    checks := BlockRest(request, checks);
    reply := ExecutionReply(request.attempt, status, checks, EXECUTOR, destroyed, b.duration, b.bytes);
    StatusFacts(b, ran, |request.checks|);
    ReplyIs(request, b, ran, reply);
    ReplyMeans(request, b, ran);
    ReplyTells(request, b);
  }

  // The reply that lists what was run and then what was not is the one there should be.
  lemma ReplyIs(request: ExecutionRequest, b: Behaviour, ran: nat, reply: ExecutionReply)
    requires |reply.checks| == |request.checks| && RanOnly(b, ran, |request.checks|)
    requires forall i | 0 <= i < ran :: reply.checks[i] == Ran(request.checks[i], b.command(i))
    requires forall i | ran <= i < |request.checks| :: reply.checks[i] == NotRun(request.checks[i])
    requires reply.attempt == request.attempt && reply.executor == EXECUTOR && reply.destroyed == b.destroys
    requires reply.status == ReplyStatusFor(b, |request.checks|)
    requires reply.duration == b.duration && reply.bytes == b.bytes
    ensures reply == ReplyOf(request, b)
  {
    ReachedOnly(b, ran, |request.checks|);
    assert reply.checks == ReplyOf(request, b).checks;
  }

  lemma ReplyMeans(request: ExecutionRequest, b: Behaviour, ran: nat)
    requires |request.checks| >= 1 && RanOnly(b, ran, |request.checks|)
    ensures var reply := ReplyOf(request, b);
      && Aligned(request, reply)
      && (forall i | 0 <= i < |reply.checks| ::
            reply.checks[i] ==
              if Reached(b, i) then Ran(request.checks[i], b.command(i)) else NotRun(request.checks[i]))
      && (forall i | 0 <= i < |reply.checks| :: reply.checks[i].status == ReportedStatus(b, i))
      && (reply.status == ReplyPassed <==>
            reply.destroyed && forall i | 0 <= i < |reply.checks| :: reply.checks[i].status == Passed)
      && (forall i | 0 <= i < |request.checks| :: reply.checks[i].status == BlockedCheck <==> i >= ran)
  {
    var reply := ReplyOf(request, b);
    ReachedOnly(b, ran, |request.checks|);
    ReplyReports(request, b);
    ReplyFacts(request, b, ran, reply);
    PassedExactly(b, |request.checks|);
    assert forall i: nat | i < |request.checks| :: reply.checks[i].status == ReportedStatus(b, i);
  }

  // `ran` is how many checks were run: the first ones, all but the last of which passed.
  ghost predicate RanOnly(b: Behaviour, ran: nat, n: nat) {
    && ran <= n
    && (!b.prepares ==> ran == 0)
    && (ran > 0 ==> Reached(b, ran - 1))
    && (ran < n ==> !Reached(b, ran))
  }

  lemma ReachedOnly(b: Behaviour, ran: nat, n: nat)
    requires RanOnly(b, ran, n)
    ensures forall i: nat | i < n :: Reached(b, i) <==> i < ran
  {
    forall i: nat | i < n ensures Reached(b, i) <==> i < ran {
      if i < ran { ReachedEarlier(b, i, ran - 1); } else { ReachedEarlier(b, ran, i); }
    }
  }

  lemma ReachedEarlier(b: Behaviour, i: nat, j: nat)
    requires i <= j
    ensures Reached(b, j) ==> Reached(b, i)
  {
  }

  lemma StatusFacts(b: Behaviour, ran: nat, n: nat)
    requires RanOnly(b, ran, n)
    ensures ReplyStatusFor(b, n) ==
      if !b.destroys || !b.prepares then ReplyInfrastructureError
      else if Reached(b, ran) then ReplyPassed
      else if StatusOf(b.command(ran - 1)) == CheckStatus.Failed then ReplyFailed
      else ReplyInfrastructureError
  {
    ReachedOnly(b, ran, n);
    if b.prepares && !Reached(b, ran) {
      assert ran > 0;
      assert Reached(b, ran - 1);
      ReachedEarlier(b, ran, n);
      forall i: nat | i < n && Reached(b, i) && i != ran - 1 ensures StatusOf(b.command(i)) == Passed {
        assert i < ran - 1;
      }
    }
  }

  lemma PassedExactly(b: Behaviour, n: nat)
    requires n >= 1
    ensures ReplyStatusFor(b, n) == ReplyPassed <==>
              b.destroys && forall i: nat | i < n :: ReportedStatus(b, i) == Passed
  {
    if forall i: nat | i < n :: ReportedStatus(b, i) == Passed {
      forall i: nat | i < n ensures Reached(b, i) && StatusOf(b.command(i)) == Passed {
        assert ReportedStatus(b, i) == Passed;
      }
      assert Reached(b, 0);
    }
  }

  lemma ReplyFacts(request: ExecutionRequest, b: Behaviour, ran: nat, reply: ExecutionReply)
    requires |reply.checks| == |request.checks| && RanOnly(b, ran, |request.checks|)
    requires forall i | 0 <= i < ran :: reply.checks[i] == Ran(request.checks[i], b.command(i))
    requires forall i | ran <= i < |request.checks| :: reply.checks[i] == NotRun(request.checks[i])
    ensures Aligned(request, reply)
    ensures forall i | 0 <= i < |reply.checks| :: reply.checks[i].status == ReportedStatus(b, i)
  {
    ReachedOnly(b, ran, |request.checks|);
    var stop := if ran > 0 && StatusOf(b.command(ran - 1)) != Passed then ran - 1 else ran;
    assert StopsAt(reply.checks, stop);
  }
}
