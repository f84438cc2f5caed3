/** Builds on the characters of links.jsonl. */
module BuildFile {
  import opened Common
  import opened Records
  import opened Store
  import opened Build
  import opened Pipeline
  import opened DualStore

  /** A build that writes: the stale copies and then the new records are appended, or the file is
      replaced when it compacts. */
  function BuiltFile(n: Numbers, text: string, log: seq<Record>, s: Snapshot, mode: Mode, now: nat): string {
    var added := StampAll(NewRecords(log, s, mode), now);
    if mode.ReconcileCompacting? then Rewrite(n, added)
    else AppendFile(n, AppendFile(n, text, Staled(log, s, mode, now)), added)
  }

  /** One build, working from the records it reads in the file. */
  function StepBuildFile(n: Numbers, text: string, step: Step): string {
    var log := ReadLog(n, text);
    if Refuses(log, step) || step.dryRun then text else BuiltFile(n, text, log, step.s, step.mode, step.now)
  }

  function RunBuildFile(n: Numbers, steps: seq<Step>): string {
    if steps == [] then "" else StepBuildFile(n, RunBuildFile(n, steps[..|steps| - 1]), steps[|steps| - 1])
  }

  lemma NewIsProper(n: Numbers, log: seq<Record>, s: Snapshot, mode: Mode, now: nat)
    requires AllProper(n, FreshRecords(s))
    ensures AllProper(n, StampAll(NewRecords(log, s, mode), now))
  {
    ChangedFrom(Latest(log), FreshRecords(s));
    forall i | 0 <= i < |NewRecords(log, s, mode)|
      ensures Proper(n, NewRecords(log, s, mode)[i])
    {
      var j :| 0 <= j < |FreshRecords(s)| && FreshRecords(s)[j] == NewRecords(log, s, mode)[i];
    }
  }

  lemma BuildIsProper(n: Numbers, log: seq<Record>, s: Snapshot, mode: Mode, now: nat)
    requires AllProper(n, log) && AllProper(n, FreshRecords(s))
    ensures AllProper(n, BuildLog(log, s, mode, now)) && AllProper(n, Staled(log, s, mode, now))
  {
    NewIsProper(n, log, s, mode, now);
    StaledProper(n, log, DropRule(s, mode), now);
  }

  /** The file holds this log: its characters read back as it. */
  ghost predicate Holds(n: Numbers, text: string, log: seq<Record>) { AllProper(n, log) && ReadLog(n, text) == log }

  lemma CommittedIsRead(n: Numbers, text: string, log: seq<Record>, s: Snapshot, mode: Mode, now: nat)
    requires Holds(n, text, log) && AllProper(n, FreshRecords(s))
    ensures Holds(n, BuiltFile(n, text, log, s, mode, now), BuildLog(log, s, mode, now))
  {
    var staled, added := Staled(log, s, mode, now), StampAll(NewRecords(log, s, mode), now);
    BuildIsProper(n, log, s, mode, now);
    NewIsProper(n, log, s, mode, now);
    if mode.ReconcileCompacting? {
      RewrittenIsRead(n, added);
    } else {
      AppendedIsRead(n, text, staled);
      AppendedIsRead(n, AppendFile(n, text, staled), added);
    }
  }

  lemma StepBuildIsRead(n: Numbers, text: string, log: seq<Record>, step: Step)
    requires Holds(n, text, log) && AllProper(n, FreshRecords(step.s))
    ensures Holds(n, StepBuildFile(n, text, step), StepBuild(log, step))
  {
    if !Refuses(log, step) && !step.dryRun {
      CommittedIsRead(n, text, log, step.s, step.mode, step.now);
    }
  }

  ghost predicate ProperSteps(n: Numbers, steps: seq<Step>) {
    forall i :: 0 <= i < |steps| ==> AllProper(n, FreshRecords(steps[i].s))
  }

  lemma LastBuildIsRead(n: Numbers, steps: seq<Step>)
    requires steps != [] && ProperSteps(n, steps)
    requires Holds(n, RunBuildFile(n, steps[..|steps| - 1]), RunBuild(steps[..|steps| - 1]))
    ensures Holds(n, RunBuildFile(n, steps), RunBuild(steps))
  {
    var m := |steps| - 1;
    StepBuildIsRead(n, RunBuildFile(n, steps[..m]), RunBuild(steps[..m]), steps[m]);
  }

  /** After any sequence of builds, each working from what it reads in the file, the characters of the
      file read back as the log of those builds. */
  lemma {:induction false} FileHoldsBuilds(n: Numbers, steps: seq<Step>)
    requires ProperSteps(n, steps)
    ensures Holds(n, RunBuildFile(n, steps), RunBuild(steps))
  {
    if steps == [] {
      EmptyFile(n);
    } else {
      FileHoldsBuilds(n, steps[..|steps| - 1]);
      LastBuildIsRead(n, steps);
    }
  }
}
