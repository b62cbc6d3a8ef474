/** The mutation-probe runner against arbitrary commands: what each exit code guarantees. */
module ProbeRunner {
  import opened Text

  /** What reading each path gives, links followed, which paths are plain files, and which are taken. */
  datatype World = World(content: map<string, string>, plain: set<string>, taken: set<string>)

  /** The outside: the test command, the copies and removals, which may fail, and the digest. Nothing is
      assumed of any of them but what a lemma says. */
  datatype Env = Env(
    run: World -> (World, int),
    copy: (World, string, string) -> Option<World>,
    restore: (World, string, string) -> Option<World>,
    remove: (World, string) -> Option<World>,
    digest: string -> string)

  datatype Paths = Paths(target: string, mutated: string, backup: string)

  datatype Event =
    | BackedUp
    | Ran(seen: World, exit: int)
    | Removed
    | Restored
    | Mutated

  /** The exit code, or an exception that left the runner. */
  datatype Code = Return(n: int) | Raised

  datatype Result = Result(code: Code, world: World, log: seq<Event>)

  /** The target is still the plain file with the bytes it had. */
  predicate Intact(env: Env, w: World, target: string, original: string) {
    target in w.content && target in w.plain && env.digest(w.content[target]) == original
  }

  /** Clearing a disturbed target and copying the backup back; none when that fails or reads differently. */
  function Recover(env: Env, p: Paths, w: World, original: string): (World, Option<seq<Event>>) {
    var cleared := if p.target in w.taken then env.remove(w, p.target) else Some(w);
    if cleared == None then (w, None)
    else
      var back := env.restore(cleared.value, p.backup, p.target);
      var events := (if p.target in w.taken then [Removed] else []) + [Restored];
      if back == None then (cleared.value, None)
      else if p.target in back.value.content && env.digest(back.value.content[p.target]) == original
      then (back.value, Some(events))
      else (back.value, None)
  }

  /** From the mutation on. */
  function Mutation(env: Env, p: Paths, w: World, original: string, log: seq<Event>): Result {
    match env.copy(w, p.mutated, p.target)
    case None => Result(Raised, w, log)
    case Some(m) =>
      var (after, exit) := env.run(m);
      var log1 := log + [Mutated, Ran(m, exit)];
      match env.restore(after, p.backup, p.target)
      case None => Result(Raised, after, log1)
      case Some(end) =>
        var log2 := log1 + [Restored];
        if p.target !in end.content || p.backup !in end.content || p.mutated !in end.content then Result(Raised, end, log2)
        else if end.content[p.target] != end.content[p.backup] || env.digest(end.content[p.target]) != original
        then Result(Return(4), end, log2)
        else Result(Return(if exit == 0 then 3 else 0), end, log2)
  }

  /** `run_probe`. */
  function Probe(env: Env, p: Paths, w: World): Result {
    if p.target !in w.content || p.mutated !in w.content then Result(Return(2), w, [])
    else if w.content[p.target] == w.content[p.mutated] then Result(Return(2), w, [])
    else
      var original := env.digest(w.content[p.target]);
      match env.copy(w, p.target, p.backup)
      case None => Result(Raised, w, [])
      case Some(saved) =>
        var (after, exit) := env.run(saved);
        var log := [BackedUp, Ran(saved, exit)];
        var (ready, recovery) := if Intact(env, after, p.target, original) then (after, Some([])) else Recover(env, p, after, original);
        if recovery == None then Result(Return(4), ready, log)
        else if exit != 0 then Result(Return(5), ready, log + recovery.value)
        else Mutation(env, p, ready, original, log + recovery.value)
  }

  /** The runner step by step. */
  method RunProbe(env: Env, p: Paths, start: World) returns (code: Code, w: World, ghost log: seq<Event>)
    ensures Result(code, w, log) == Probe(env, p, start)
  {
    w, log := start, [];
    if p.target !in w.content || p.mutated !in w.content {
      return Return(2), w, log;
    }
    if w.content[p.target] == w.content[p.mutated] {
      return Return(2), w, log;
    }
    var original := env.digest(w.content[p.target]);
    var saved := env.copy(w, p.target, p.backup);
    if saved == None {
      return Raised, w, log;
    }
    var base := env.run(saved.value);
    log := [BackedUp, Ran(saved.value, base.1)];
    w := base.0;
    if !Intact(env, w, p.target, original) {
      ghost var disturbed := w;
      var restored := false;
      var cleared := if p.target in w.taken then env.remove(w, p.target) else Some(w);
      if cleared.Some? {
        ghost var events := (if p.target in w.taken then [Removed] else []) + [Restored];
        w := cleared.value;
        var back := env.restore(w, p.backup, p.target);
        if back.Some? {
          w := back.value;
          restored := p.target in w.content && env.digest(w.content[p.target]) == original;
          log := if restored then log + events else log;
        }
      }
      assert (w, if restored then Some(log[2..]) else None) == Recover(env, p, disturbed, original);
      if !restored {
        return Return(4), w, log;
      }
    } else {
      assert log + [] == log;
    }
    if base.1 != 0 {
      return Return(5), w, log;
    }
    var mutant := env.copy(w, p.mutated, p.target);
    if mutant == None {
      return Raised, w, log;
    }
    var second := env.run(mutant.value);
    log := log + [Mutated, Ran(mutant.value, second.1)];
    w := second.0;
    var back := env.restore(w, p.backup, p.target);
    if back == None {
      return Raised, w, log;
    }
    log := log + [Restored];
    w := back.value;
    if p.target !in w.content || p.backup !in w.content || p.mutated !in w.content {
      return Raised, w, log;
    }
    var verified := w.content[p.target] == w.content[p.backup] && env.digest(w.content[p.target]) == original;
    if !verified {
      return Return(4), w, log;
    }
    if second.1 == 0 {
      return Return(3), w, log;
    }
    return Return(0), w, log;
  }

  // ---- What the exit codes mean

  ghost predicate Injective(f: string -> string) { forall a, b :: f(a) == f(b) ==> a == b }

  /** A copy that succeeds makes the destination read what the source reads, and every other path what it
      read before. */
  ghost predicate Copies(copy: (World, string, string) -> Option<World>) {
    forall w, a, b :: copy(w, a, b).Some? ==>
      var after := copy(w, a, b).value;
      a in w.content && after.content == w.content[b := w.content[a]]
  }

  /** Codes 0, 3 and 5: the target reads its starting bytes. Code 2: nothing was touched or run. Nothing
      is assumed of the commands, the copies or the removals. */
  lemma TargetIsRestored(env: Env, p: Paths, w: World)
    requires Injective(env.digest)
    ensures var r := Probe(env, p, w);
            && (r.code in {Return(0), Return(3), Return(5)} ==>
                  p.target in w.content && p.target in r.world.content && r.world.content[p.target] == w.content[p.target])
            && (r.code == Return(2) ==> r.world == w && r.log == [])
            && (r.code.Return? ==> r.code.n in {0, 2, 3, 4, 5})
  {
  }

  /** Code 5: the command failed, the runner never wrote the mutant, and the target the command met had
      its starting bytes when the backup is made beside it. */
  lemma RedBaselineWritesNoMutant(env: Env, p: Paths, w: World)
    ensures var r := Probe(env, p, w);
            r.code == Return(5) ==>
              && Mutated !in r.log && |r.log| >= 2 && r.log[1].Ran? && r.log[1].exit != 0
              && (Copies(env.copy) && p.backup != p.target ==>
                    p.target in w.content && p.target in r.log[1].seen.content
                    && r.log[1].seen.content[p.target] == w.content[p.target])
  {
    if p.target in w.content {
      hide Recover;
      RecoveryFacts(env, p, env.run(Saved(env, p, w)).0, env.digest(w.content[p.target]));
    }
  }

  // ---- What the probe ran on

  /** The files once the backup is made. */
  function Saved(env: Env, p: Paths, w: World): World {
    match env.copy(w, p.target, p.backup) case None => w case Some(saved) => saved
  }

  /** The files when the mutation begins: after the baseline run, and the recovery if the run disturbed
      the target. */
  function Ready(env: Env, p: Paths, w: World): World {
    if p.target !in w.content then w
    else
      var original := env.digest(w.content[p.target]);
      var after := env.run(Saved(env, p, w)).0;
      if Intact(env, after, p.target, original) then after else Recover(env, p, after, original).0
  }

  /** The shape of a log with a mutation: baseline run, perhaps a recovery, the mutant, its run. */
  ghost predicate Probed(log: seq<Event>, base: Event, second: Event) {
    exists recovery: seq<Event> :: Mutated !in recovery
      && log == [BackedUp, base] + recovery + [Mutated, second, Restored]
  }

  /** Codes 0 and 3: the command passed on the target's starting bytes; then it ran on whatever the mutant
      file held after that run, and failed (0) or passed (3). */
  lemma ProbeSawBoth(env: Env, p: Paths, w: World)
    requires Injective(env.digest) && Copies(env.copy)
    requires Probe(env, p, w).code in {Return(0), Return(3)} && p.backup != p.target
    ensures var r, saved, ready := Probe(env, p, w), Saved(env, p, w), Ready(env, p, w);
            && p.target in w.content && p.target in saved.content && saved.content[p.target] == w.content[p.target]
            && p.mutated in ready.content && p.target in ready.content && ready.content[p.target] == w.content[p.target]
            && env.copy(ready, p.mutated, p.target).Some?
            && var mutant := env.copy(ready, p.mutated, p.target).value;
               && p.target in mutant.content && mutant.content[p.target] == ready.content[p.mutated]
               && Probed(r.log, Ran(saved, 0), Ran(mutant, env.run(mutant).1))
               && (r.code == Return(0) <==> env.run(mutant).1 != 0)
  {
    hide Recover;
    var original := env.digest(w.content[p.target]);
    var saved, ready := Saved(env, p, w), Ready(env, p, w);
    var after := env.run(saved).0;
    RecoveryFacts(env, p, after, original);
    var recovery := if Intact(env, after, p.target, original) then [] else Recover(env, p, after, original).1.value;
    assert env.digest(ready.content[p.target]) == original;
    var mutant := env.copy(ready, p.mutated, p.target).value;
    var exit := env.run(mutant).1;
    assert Probe(env, p, w).log == [BackedUp, Ran(saved, 0)] + recovery + [Mutated, Ran(mutant, exit)] + [Restored];
    assert [BackedUp, Ran(saved, 0)] + recovery + [Mutated, Ran(mutant, exit)] + [Restored]
        == [BackedUp, Ran(saved, 0)] + recovery + [Mutated, Ran(mutant, exit), Restored];
    assert Probed(Probe(env, p, w).log, Ran(saved, 0), Ran(mutant, exit));
  }

  /** The last run of a probe. */
  function LastRun(log: seq<Event>): Option<World> {
    if log == [] then None
    else
      match log[|log| - 1]
      case Ran(seen, _) => Some(seen)
      case _ => LastRun(log[..|log| - 1])
  }

  /** The last run met mutated bytes. */
  predicate RanMutated(r: Result, target: string, original: string) {
    var seen := LastRun(r.log);
    seen.Some? && target in seen.value.content && seen.value.content[target] != original
  }

  /** Codes 0 and 3 are about a mutated target exactly when the mutant file differs from the target's
      starting bytes once the baseline run is over. */
  lemma RanMutatedExactly(env: Env, p: Paths, w: World)
    requires Injective(env.digest) && Copies(env.copy)
    requires Probe(env, p, w).code in {Return(0), Return(3)} && p.backup != p.target
    ensures p.target in w.content && p.mutated in Ready(env, p, w).content
    ensures RanMutated(Probe(env, p, w), p.target, w.content[p.target]) <==>
            Ready(env, p, w).content[p.mutated] != w.content[p.target]
  {
    ProbeSawBoth(env, p, w);
    var log := Probe(env, p, w).log;
    var base, second := Ran(Saved(env, p, w), 0), env.copy(Ready(env, p, w), p.mutated, p.target).value;
    hide Probe, Ready, Copies, Injective;
    LastOfProbed(log, base, Ran(second, env.run(second).1));
  }

  lemma LastOfProbed(log: seq<Event>, base: Event, second: Event)
    requires Probed(log, base, second) && second.Ran?
    ensures LastRun(log) == Some(second.seen)
  {
    var recovery: seq<Event> :| Mutated !in recovery && log == [BackedUp, base] + recovery + [Mutated, second, Restored];
    var n := |log|;
    assert log[n - 1] == Restored && log[..n - 1][n - 2] == second;
    assert LastRun(log) == LastRun(log[..n - 1]);
  }

  /** The command, the restores and the removals leave the mutant file as it is. */
  ghost predicate LeavesMutant(env: Env, p: Paths) {
    && (forall x :: SameAt(x, env.run(x).0, p.mutated))
    && (forall x :: env.restore(x, p.backup, p.target).Some? ==> SameAt(x, env.restore(x, p.backup, p.target).value, p.mutated))
    && (forall x :: env.remove(x, p.target).Some? ==> SameAt(x, env.remove(x, p.target).value, p.mutated))
  }

  predicate SameAt(x: World, y: World, path: string) {
    (path in x.content <==> path in y.content) && (path in x.content ==> y.content[path] == x.content[path])
  }

  /** Then the comparison made at the start is enough: the last run met the mutant's bytes, which are not
      the target's. */
  lemma GuardedProbeRunsMutated(env: Env, p: Paths, w: World)
    requires Injective(env.digest) && Copies(env.copy) && LeavesMutant(env, p)
    requires Probe(env, p, w).code in {Return(0), Return(3)} && p.backup != p.target && p.backup != p.mutated
    ensures p.target in w.content && p.mutated in w.content && p.mutated in Ready(env, p, w).content
    ensures Ready(env, p, w).content[p.mutated] == w.content[p.mutated]
    ensures RanMutated(Probe(env, p, w), p.target, w.content[p.target])
  {
    MutantIsLeft(env, p, w);
    assert w.content[p.target] != w.content[p.mutated];
    hide Probe, Ready, Copies, Injective, LeavesMutant;
    RanMutatedExactly(env, p, w);
  }

  lemma MutantIsLeft(env: Env, p: Paths, w: World)
    requires Copies(env.copy) && LeavesMutant(env, p) && p.target in w.content && p.backup != p.mutated
    ensures SameAt(w, Ready(env, p, w), p.mutated)
  {
    var saved := Saved(env, p, w);
    assert SameAt(w, saved, p.mutated);
    var after := env.run(saved).0;
    assert SameAt(saved, after, p.mutated);
    RecoverLeaves(env, p, after, env.digest(w.content[p.target]));
  }

  lemma RecoverLeaves(env: Env, p: Paths, w: World, original: string)
    requires LeavesMutant(env, p)
    ensures SameAt(w, Recover(env, p, w, original).0, p.mutated)
  {
    var cleared := if p.target in w.taken then env.remove(w, p.target) else Some(w);
    if cleared.Some? {
      assert SameAt(w, cleared.value, p.mutated);
    }
  }

  lemma RecoveryFacts(env: Env, p: Paths, w: World, original: string)
    ensures var (ready, events) := Recover(env, p, w, original);
            events.Some? ==>
              Mutated !in events.value && p.target in ready.content && env.digest(ready.content[p.target]) == original
  {
  }

  // ---- A mutant that is replaced under the runner

  function CopyFile(w: World, a: string, b: string): Option<World> {
    if a in w.content then Some(w.(content := w.content[b := w.content[a]])) else None
  }

  /** A passing command that writes the target's bytes over the mutant file `m`. */
  function Overwrite(w: World): (World, int) { (w.(content := w.content["m" := "a"]), 0) }

  function Keep(w: World, a: string): Option<World> { Some(w) }

  function Bytes(s: string): string { s }

  /** The no-op check is made before the baseline run only: a command that overwrites the mutant file with
      the target's own bytes makes the probe run unmutated, and it still reports a blind probe. */
  lemma MutantCanBeReplaced()
    ensures var w := World(map["t" := "a", "m" := "b"], {"t", "m"}, {"t", "m"});
            var r := Probe(Env(Overwrite, CopyFile, CopyFile, Keep, Bytes), Paths("t", "m", "k"), w);
            && r.code == Return(3) && |r.log| == 5 && r.log[2] == Mutated
            && r.log[3].Ran? && "t" in r.log[3].seen.content && r.log[3].seen.content["t"] == w.content["t"]
  {
  }
}
