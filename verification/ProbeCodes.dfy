/** The exit code of a probe whose surroundings behave: decided by the two runs alone. */
module ProbeCodes {
  import opened Text
  import opened ProbeRunner

  /** Copies succeed from any file there is. */
  ghost predicate Succeeds(copy: (World, string, string) -> Option<World>) {
    forall w: World, a, b :: a in w.content ==> copy(w, a, b).Some?
  }

  /** The command and the removals leave a file as it is, and removing succeeds. */
  ghost predicate Leaves(env: Env, target: string, path: string) {
    && (forall x :: SameAt(x, env.run(x).0, path))
    && forall x :: env.remove(x, target).Some? && SameAt(x, env.remove(x, target).value, path)
  }

  /** Digests tell texts apart, copies copy, and nobody touches the backup or the mutant file. The command may
      do anything to the target. */
  ghost predicate Behaves(env: Env, p: Paths) {
    && Injective(env.digest) && Copies(env.copy) && Succeeds(env.copy) && Copies(env.restore) && Succeeds(env.restore)
    && Leaves(env, p.target, p.backup) && Leaves(env, p.target, p.mutated)
    && p.target != p.mutated && p.target != p.backup && p.backup != p.mutated
  }

  /** There is something to probe. */
  predicate Probes(p: Paths, w: World) {
    p.target in w.content && p.mutated in w.content && w.content[p.target] != w.content[p.mutated]
  }

  /** The world reads these bytes at the path. */
  predicate Reads(w: World, path: string, bytes: string) { path in w.content && w.content[path] == bytes }

  lemma CopyReads(copy: (World, string, string) -> Option<World>, w: World, a: string, b: string)
    requires Copies(copy) && Succeeds(copy) && a in w.content
    ensures copy(w, a, b).Some? && Reads(copy(w, a, b).value, b, w.content[a])
    ensures forall path :: path != b ==> SameAt(w, copy(w, a, b).value, path)
  {
    assert copy(w, a, b).Some?;
  }

  lemma Recovered(env: Env, p: Paths, w: World, bytes: string)
    requires Behaves(env, p) && Reads(w, p.backup, bytes)
    ensures var (ready, events) := Recover(env, p, w, env.digest(bytes));
            events.Some? && Reads(ready, p.target, bytes) && SameAt(w, ready, p.backup) && SameAt(w, ready, p.mutated)
  {
    hide Copies, Succeeds, Injective;
    var cleared := if p.target in w.taken then env.remove(w, p.target).value else w;
    assert SameAt(w, cleared, p.backup) && SameAt(w, cleared, p.mutated);
    CopyReads(env.restore, cleared, p.backup, p.target);
    var back := env.restore(cleared, p.backup, p.target).value;
    assert SameAt(cleared, back, p.backup) && SameAt(cleared, back, p.mutated);
  }

  /** When the mutation begins the target reads its starting bytes, and so does the backup. */
  lemma ReadyReads(env: Env, p: Paths, w: World)
    requires Behaves(env, p) && Probes(p, w)
    ensures var ready := Ready(env, p, w);
            && Reads(ready, p.target, w.content[p.target]) && Reads(ready, p.backup, w.content[p.target])
            && Reads(ready, p.mutated, w.content[p.mutated])
            && env.copy(w, p.target, p.backup) == Some(Saved(env, p, w))
            && var after := env.run(Saved(env, p, w)).0;
               Intact(env, after, p.target, env.digest(w.content[p.target])) ||
               Recover(env, p, after, env.digest(w.content[p.target])).1.Some?
  {
    hide Copies, Succeeds, Recover;
    CopyReads(env.copy, w, p.target, p.backup);
    var saved := Saved(env, p, w);
    var after := env.run(saved).0;
    assert SameAt(saved, after, p.backup) && SameAt(saved, after, p.mutated) && SameAt(w, saved, p.mutated);
    Recovered(env, p, after, w.content[p.target]);
  }

  lemma MutationCode(env: Env, p: Paths, ready: World, bytes: string, log: seq<Event>)
    requires Behaves(env, p) && Reads(ready, p.target, bytes) && Reads(ready, p.backup, bytes) && p.mutated in ready.content
    ensures env.copy(ready, p.mutated, p.target).Some?
    ensures var mutant := env.copy(ready, p.mutated, p.target).value;
            && Reads(mutant, p.target, ready.content[p.mutated])
            && Mutation(env, p, ready, env.digest(bytes), log).code == Return(if env.run(mutant).1 == 0 then 3 else 0)
  {
    hide Copies, Succeeds, Injective;
    CopyReads(env.copy, ready, p.mutated, p.target);
    var mutant := env.copy(ready, p.mutated, p.target).value;
    var after := env.run(mutant).0;
    assert SameAt(ready, mutant, p.backup) && SameAt(ready, mutant, p.mutated);
    assert SameAt(mutant, after, p.backup) && SameAt(mutant, after, p.mutated);
    CopyReads(env.restore, after, p.backup, p.target);
    var end := env.restore(after, p.backup, p.target).value;
    assert SameAt(after, end, p.backup) && SameAt(after, end, p.mutated);
  }

  /** 2 exactly when there is nothing to probe; otherwise 5 exactly when the command fails on the starting
      bytes, and else 0 or 3 as it fails or passes on the mutant's. The runner never gives up. */
  lemma ExitCodeIs(env: Env, p: Paths, w: World)
    requires Behaves(env, p)
    ensures Probe(env, p, w).code == Return(2) <==> !Probes(p, w)
    ensures Probes(p, w) ==>
              var saved, ready, code := Saved(env, p, w), Ready(env, p, w), Probe(env, p, w).code;
              && Reads(saved, p.target, w.content[p.target])
              && env.copy(ready, p.mutated, p.target).Some?
              && var mutant := env.copy(ready, p.mutated, p.target).value;
                 && Reads(mutant, p.target, w.content[p.mutated])
                 && code == Return(if env.run(saved).1 != 0 then 5 else if env.run(mutant).1 == 0 then 3 else 0)
  {
    if Probes(p, w) {
      ReadyReads(env, p, w);
      SavedReads(env, p, w);
      var original := env.digest(w.content[p.target]);
      var after := env.run(Saved(env, p, w)).0;
      var recovery := if Intact(env, after, p.target, original) then [] else Recover(env, p, after, original).1.value;
      var log := [BackedUp, Ran(Saved(env, p, w), env.run(Saved(env, p, w)).1)] + recovery;
      MutationCode(env, p, Ready(env, p, w), w.content[p.target], log);
      hide Mutation, Recover, Behaves, Intact;
    }
  }

  lemma SavedReads(env: Env, p: Paths, w: World)
    requires Behaves(env, p) && Probes(p, w)
    ensures Reads(Saved(env, p, w), p.target, w.content[p.target])
  {
    hide Copies, Succeeds;
    CopyReads(env.copy, w, p.target, p.backup);
    assert SameAt(w, Saved(env, p, w), p.target);
  }

  function Idle(w: World): (World, int) { (w, 0) }

  /** Such surroundings exist. */
  lemma SomeBehave()
    ensures Behaves(Env(Idle, CopyFile, CopyFile, Keep, Bytes), Paths("t", "m", "k"))
  {
  }
}
