/**
 Supersession of assemblies: a build cancels the running builds of the same project and version whose
 configurations it covers. It scans for them before it cancels them and puts the new assembly, so two
 builds between scan and put do not see each other.
 */
module BuildSupersession {
  import opened Wrappers
  import opened AgentTasks

  predicate SameTarget(a: Scope, b: Scope) {
    a.projectId == b.projectId && a.version == b.version
  }

  /** One of the two builds covers the configurations of the other. */
  predicate Clash(a: Scope, b: Scope) {
    SameTarget(a, b) && (a.configurations <= b.configurations || b.configurations <= a.configurations)
  }

  /** Both run for one project and version, and the newer covers the configurations of the older. */
  predicate IsSupersededPair(older: Task, newer: Task) {
    older.key.id < newer.key.id && newer.key.kind.Build? && IsRunning(newer) && Supersedes(newer.scope, older)
  }

  ghost predicate NoneSuperseded(tasks: Tasks) {
    forall a, b :: a in tasks && b in tasks ==> !IsSupersededPair(tasks[a], tasks[b])
  }

  /** A build with a victim that is not stored any more throws before its put. */
  predicate CanFinish(s: System, b: nat) {
    b in s.builds && s.builds[b].victims <= s.tasks.Keys
  }

  /** Pending builds still know everything they have to cancel. */
  ghost predicate VictimsKnown(s: System) {
    forall b, key :: CanFinish(s, b) && key in s.tasks && Supersedes(s.builds[b].scope, s.tasks[key]) ==>
      key in s.builds[b].victims
  }

  ghost predicate NoClash(s: System) {
    forall a, b :: CanFinish(s, a) && CanFinish(s, b) && a != b ==> !Clash(s.builds[a].scope, s.builds[b].scope)
  }

  /** A scan does not clash with a build that is already between scan and put. */
  ghost predicate ScanIsClear(s: System, scope: Scope) {
    forall b :: CanFinish(s, b) ==> !Clash(s.builds[b].scope, scope)
  }

  ghost predicate ScansAreClear(s: System, steps: seq<Step>)
    requires Runs(s, steps)
    decreases |steps|
  {
    |steps| == 0
    || ((steps[0].ScanBuild? ==> ScanIsClear(s, steps[0].scope)) && ScansAreClear(Next(s, steps[0]), steps[1..]))
  }

  // ----- one step

  /** Unless a rebuild is put, no step makes a task run that did not, except that it creates one. */
  lemma RunningComesFromRunning(s: System, step: Step, key: Key)
    requires Sound(s) && Enabled(s, step) && !step.PutRebuilt?
    requires Running(Next(s, step).tasks, key)
    ensures key in s.tasks ==> Running(s.tasks, key) && Next(s, step).tasks[key].scope == s.tasks[key].scope
    ensures key !in s.tasks ==> key.id == s.nextId && CreatedScope(s, step) == Some(Next(s, step).tasks[key].scope)
  {
    var scope := Next(s, step).tasks[key].scope;
    NextMentions(s, step, key, scope);
    if key in s.tasks {
      if !IsRunning(s.tasks[key]) {
        NextKeepsEnded(s, step, key);
      }
      assert Mentions(s, key, s.tasks[key].scope);
    } else {
      if key.id < s.nextId {
        NextKeepsMissing(s, step, key);
      }
      if Mentions(s, key, scope) {
        MentionedIsOld(s, key, scope);
      }
    }
  }

  lemma FinishingBuild(s: System, step: Step, b: nat)
    requires KeysSound(s) && Enabled(s, step) && !step.PutRebuilt? && CanFinish(Next(s, step), b)
    ensures !CanFinish(s, b) ==> step.ScanBuild? && step.build == b
    ensures b in s.builds && !(step.ScanBuild? && step.build == b) ==> Next(s, step).builds[b].scope == s.builds[b].scope
  {
    var t := Next(s, step);
    if b in s.builds {
      forall key | key in s.builds[b].victims ensures key in s.tasks {
        assert key.id < s.nextId;
        if key in t.tasks && key !in s.tasks {
          NextKeepsMissing(s, step, key);
        }
      }
    }
  }

  lemma NextKeepsSupersession(s: System, step: Step)
    requires Sound(s) && Enabled(s, step) && !step.PutRebuilt?
    requires NoneSuperseded(s.tasks) && VictimsKnown(s)
    ensures NoneSuperseded(Next(s, step).tasks)
  {
    var t := Next(s, step);
    NextKeepsSound(s, step);
    forall a, b | a in t.tasks && b in t.tasks ensures !IsSupersededPair(t.tasks[a], t.tasks[b]) {
      if a.id < b.id && IsRunning(t.tasks[a]) && IsRunning(t.tasks[b]) {
        RunningComesFromRunning(s, step, a);
        RunningComesFromRunning(s, step, b);
        if b in s.tasks {
          assert !IsSupersededPair(s.tasks[a], s.tasks[b]);
        } else if step.PutBuild? {
          assert CanFinish(s, step.build) && !Supersedes(s.builds[step.build].scope, s.tasks[a]);
        }
      }
    }
  }

  /** A pending build does not supersede the task that a step creates. */
  lemma CreatedIsNotSuperseded(s: System, step: Step, b: nat)
    requires KeysSound(s) && Enabled(s, step) && NoClash(s) && CanFinish(s, b) && !(step.PutBuild? && step.build == b)
    requires step.PutBuild? && s.builds[step.build].victims == {}
    ensures !Supersedes(s.builds[b].scope, Next(s, step).tasks[Key(Build, s.nextId)])
  {
    assert CanFinish(s, step.build) && !Clash(s.builds[step.build].scope, s.builds[b].scope);
    assert Next(s, step).tasks[Key(Build, s.nextId)].scope == s.builds[step.build].scope;
  }

  /** A victim that still runs has not been canceled. */
  lemma RunningVictimStays(s: System, step: Step, b: nat, key: Key)
    requires Enabled(s, step) && b in s.builds && key in s.builds[b].victims && b in Next(s, step).builds
    requires Running(Next(s, step).tasks, key)
    requires key in s.tasks ==> s.tasks[key].key == key
    ensures key in Next(s, step).builds[b].victims
  {
  }

  lemma NextKeepsVictim(s: System, step: Step, b: nat, key: Key)
    requires Sound(s) && Enabled(s, step) && !step.PutRebuilt? && VictimsKnown(s) && NoClash(s)
    requires CanFinish(Next(s, step), b) && key in Next(s, step).tasks
    requires Supersedes(Next(s, step).builds[b].scope, Next(s, step).tasks[key])
    ensures key in Next(s, step).builds[b].victims
  {
    NextKeepsKeys(s, step);
    RunningComesFromRunning(s, step, key);
    FinishingBuild(s, step, b);
    if step.ScanBuild? && step.build == b {
    } else if key in s.tasks {
      assert Supersedes(s.builds[b].scope, s.tasks[key]);
      RunningVictimStays(s, step, b, key);
    } else if step.PutBuild? {
      CreatedIsNotSuperseded(s, step, b);
    }
  }

  lemma NextKeepsVictims(s: System, step: Step)
    requires Sound(s) && Enabled(s, step) && !step.PutRebuilt? && VictimsKnown(s) && NoClash(s)
    requires step.ScanBuild? ==> ScanIsClear(s, step.scope)
    ensures VictimsKnown(Next(s, step)) && NoClash(Next(s, step))
  {
    var t := Next(s, step);
    forall b, key | CanFinish(t, b) && key in t.tasks && Supersedes(t.builds[b].scope, t.tasks[key])
      ensures key in t.builds[b].victims
    {
      NextKeepsVictim(s, step, b, key);
    }
    forall a, b | CanFinish(t, a) && CanFinish(t, b) && a != b ensures !Clash(t.builds[a].scope, t.builds[b].scope) {
      FinishingBuild(s, step, a);
      FinishingBuild(s, step, b);
    }
  }

  // ----- only what a build supersedes is a victim

  /** The build and the task are for one project and version, and the build covers the task's configurations. */
  predicate Covers(scope: Scope, covered: Scope) {
    && covered.projectId == scope.projectId && covered.version == scope.version
    && forall c | c in covered.configurations :: c in scope.configurations
  }

  /** Whatever a pending build is going to cancel is an assembly that it covers, however long it waits. */
  ghost predicate VictimsCovered(s: System) {
    forall b, key, scope :: b in s.builds && key in s.builds[b].victims && Mentions(s, key, scope) ==>
      key.kind.Build? && Covers(s.builds[b].scope, scope)
  }

  lemma ScanFindsCovered(s: System, step: Step, key: Key, scope: Scope)
    requires Sound(s) && Enabled(s, step) && step.ScanBuild?
    requires key in Next(s, step).builds[step.build].victims && Mentions(s, key, scope)
    ensures key.kind.Build? && Covers(step.scope, scope)
  {
    assert Mentions(s, key, s.tasks[key].scope);
  }

  lemma NextKeepsCovered(s: System, step: Step)
    requires Sound(s) && Enabled(s, step) && VictimsCovered(s)
    ensures VictimsCovered(Next(s, step))
  {
    var t := Next(s, step);
    forall b, key, scope | b in t.builds && key in t.builds[b].victims && Mentions(t, key, scope)
      ensures key.kind.Build? && Covers(t.builds[b].scope, scope)
    {
      VictimStaysCovered(s, step, b, key, scope);
    }
  }

  lemma VictimWasThere(s: System, step: Step, b: nat, key: Key)
    requires TasksSound(s) && VictimsSound(s) && Enabled(s, step)
    requires b in Next(s, step).builds && key in Next(s, step).builds[b].victims
    ensures key.id < s.nextId
    ensures !(step.ScanBuild? && step.build == b) ==>
              b in s.builds && key in s.builds[b].victims && Next(s, step).builds[b].scope == s.builds[b].scope
  {
  }

  lemma VictimStaysCovered(s: System, step: Step, b: nat, key: Key, scope: Scope)
    requires Sound(s) && Enabled(s, step) && VictimsCovered(s)
    requires b in Next(s, step).builds && key in Next(s, step).builds[b].victims && Mentions(Next(s, step), key, scope)
    ensures key.kind.Build? && Covers(Next(s, step).builds[b].scope, scope)
  {
    NextMentions(s, step, key, scope);
    VictimWasThere(s, step, b, key);
    if step.ScanBuild? && step.build == b {
      ScanFindsCovered(s, step, key, scope);
    }
  }

  lemma {:induction false} RunsKeepCovered(s: System, steps: seq<Step>)
    requires Sound(s) && Runs(s, steps) && VictimsCovered(s)
    ensures VictimsCovered(After(s, steps))
    decreases |steps|
  {
    if |steps| != 0 {
      NextKeepsSound(s, steps[0]);
      NextKeepsCovered(s, steps[0]);
      RunsKeepCovered(Next(s, steps[0]), steps[1..]);
    }
  }

  // ----- runs

  /**
   As long as no scan clashes with a build between scan and put, no run without the put of a rebuild
   leaves a running build whose configurations a newer running build covers, whatever callbacks and
   commands arrive in between. Builds with incomparable configurations may overlap.
   */
  lemma {:induction false} SupersededBuildsDoNotRun(s: System, steps: seq<Step>)
    requires Sound(s) && Runs(s, steps)
    requires NoneSuperseded(s.tasks) && VictimsKnown(s) && NoClash(s)
    requires ScansAreClear(s, steps)
    requires forall step | step in steps :: !step.PutRebuilt?
    ensures NoneSuperseded(After(s, steps).tasks) && VictimsKnown(After(s, steps)) && NoClash(After(s, steps))
    decreases |steps|
  {
    if |steps| != 0 {
      assert steps[0] in steps;
      NextKeepsSound(s, steps[0]);
      NextKeepsSupersession(s, steps[0]);
      NextKeepsVictims(s, steps[0]);
      SupersededBuildsDoNotRun(Next(s, steps[0]), steps[1..]);
    }
  }

  predicate IsQuiet(steps: seq<Step>) {
    forall step | step in steps :: !step.ScanBuild? && !step.PutRebuilt?
  }

  lemma {:induction false} QuietIsClear(s: System, steps: seq<Step>)
    requires Runs(s, steps) && IsQuiet(steps)
    ensures ScansAreClear(s, steps)
    decreases |steps|
  {
    if |steps| != 0 {
      assert steps[0] in steps;
      QuietIsClear(Next(s, steps[0]), steps[1..]);
    }
  }

  lemma EndAllFirst(tasks: Tasks, keys: set<Key>, key: Key, now: int)
    requires key in tasks && key in keys
    ensures EndAll(EndIfRunning(tasks, key, Canceled, now), keys - {key}, Canceled, now) == EndAll(tasks, keys, Canceled, now)
  {
    var a := EndAll(EndIfRunning(tasks, key, Canceled, now), keys - {key}, Canceled, now);
    var b := EndAll(tasks, keys, Canceled, now);
    assert a.Keys == b.Keys;
    forall k | k in a ensures a[k] == b[k] {
    }
  }

  /** A pending build all of whose victims are stored can cancel them one by one. */
  lemma {:induction false} CancelVictims(s: System, b: nat, now: int) returns (steps: seq<Step>)
    requires CanFinish(s, b)
    ensures Runs(s, steps) && IsQuiet(steps)
    ensures After(s, steps) == s.(tasks := EndAll(s.tasks, s.builds[b].victims, Canceled, now),
                                  builds := s.builds[b := s.builds[b].(victims := {})])
    decreases |s.builds[b].victims|
  {
    var victims := s.builds[b].victims;
    steps := [];
    if exists key :: key in victims {
      var key :| key in victims;
      var step := CancelVictim(b, key, now);
      var t := Next(s, step);
      assert t.tasks.Keys == s.tasks.Keys && t.builds[b].victims == victims - {key};
      var rest := CancelVictims(t, b, now);
      EndAllFirst(s.tasks, victims, key, now);
      steps := [step] + rest;
      assert steps[1..] == rest;
    } else {
      assert victims == {} && s.builds[b := s.builds[b].(victims := {})] == s.builds;
      assert EndAll(s.tasks, {}, Canceled, now) == s.tasks;
    }
  }

  /** The build that is covered puts its assembly, then the one that covers it. */
  lemma PutClashing(s: System, a: nat, b: nat, now: int, logId: int)
    requires Sound(s) && a in s.builds && b in s.builds && a != b
    requires s.builds[a].victims == {} && s.builds[b].victims == {}
    requires SameTarget(s.builds[a].scope, s.builds[b].scope)
    requires s.builds[a].scope.configurations <= s.builds[b].scope.configurations
    ensures var steps := [PutBuild(a, now, logId), PutBuild(b, now, logId)];
            Runs(s, steps) && IsQuiet(steps) && !NoneSuperseded(After(s, steps).tasks)
  {
    var first, second := PutBuild(a, now, logId), PutBuild(b, now, logId);
    var t := Next(s, first);
    var older, newer := Key(Build, s.nextId), Key(Build, s.nextId + 1);
    assert t.tasks[older] == Task(older, s.builds[a].scope, Started, now, None, logId, {});
    assert t.builds[b] == s.builds[b] && t.nextId == s.nextId + 1;
    RunsSnoc(s, [], first);
    assert [] + [first] == [first];
    RunsSnoc(s, [first], second);
    assert [first] + [second] == [first, second];
    var u := Next(t, second);
    assert u.tasks[older] == t.tasks[older];
    assert u.tasks[newer] == Task(newer, s.builds[b].scope, Started, now, None, logId, {});
    assert IsSupersededPair(u.tasks[older], u.tasks[newer]);
  }

  /** Two clashing builds between scan and put end up running both. */
  lemma ClashingBuildsBothRun(s: System, a: nat, b: nat, now: int, logId: int) returns (steps: seq<Step>)
    requires Sound(s) && CanFinish(s, a) && CanFinish(s, b) && a != b
    requires SameTarget(s.builds[a].scope, s.builds[b].scope)
    requires s.builds[a].scope.configurations <= s.builds[b].scope.configurations
    ensures Runs(s, steps) && IsQuiet(steps) && !NoneSuperseded(After(s, steps).tasks)
  {
    var first := CancelVictims(s, a, now);
    var t := After(s, first);
    var second := CancelVictims(t, b, now);
    var u := After(t, second);
    RunsConcat(s, first, second);
    RunsKeepSound(s, first + second);
    PutClashing(u, a, b, now, logId);
    var third := [PutBuild(a, now, logId), PutBuild(b, now, logId)];
    RunsConcat(s, first + second, third);
    steps := first + second + third;
  }

  ghost predicate IsBreach(s: System, steps: seq<Step>) {
    Runs(s, steps) && IsQuiet(steps) && !NoneSuperseded(After(s, steps).tasks)
  }

  /**
   The exact condition. From a state that meets supersession, some continuation without new scans and
   rebuild puts breaks it exactly if two pending builds clash that can both finish.
   */
  lemma SupersessionFailsByClash(s: System)
    requires Sound(s) && NoneSuperseded(s.tasks) && VictimsKnown(s)
    ensures (exists steps :: IsBreach(s, steps)) <==> !NoClash(s)
  {
    if NoClash(s) {
      forall steps ensures !IsBreach(s, steps) {
        if Runs(s, steps) && IsQuiet(steps) {
          QuietIsClear(s, steps);
          SupersededBuildsDoNotRun(s, steps);
        }
      }
    } else {
      var a, b :| CanFinish(s, a) && CanFinish(s, b) && a != b && Clash(s.builds[a].scope, s.builds[b].scope);
      var steps: seq<Step>;
      if s.builds[a].scope.configurations <= s.builds[b].scope.configurations {
        steps := ClashingBuildsBothRun(s, a, b, 0, 0);
      } else {
        steps := ClashingBuildsBothRun(s, b, a, 0, 0);
      }
      assert IsBreach(s, steps);
    }
  }

  /** So a scan that meets a clashing build is exactly what opens the way to a breach. */
  lemma ScanOpensBreach(s: System, b: nat, scope: Scope)
    requires Sound(s) && NoneSuperseded(s.tasks) && VictimsKnown(s) && NoClash(s) && b !in s.builds
    ensures (exists steps :: IsBreach(Next(s, ScanBuild(b, scope)), steps)) <==> !ScanIsClear(s, scope)
  {
    var t := Next(s, ScanBuild(b, scope));
    NextKeepsSound(s, ScanBuild(b, scope));
    assert forall a :: a != b ==> (CanFinish(t, a) <==> CanFinish(s, a));
    assert CanFinish(t, b);
    assert VictimsKnown(t);
    if !ScanIsClear(s, scope) {
      var a :| CanFinish(s, a) && Clash(s.builds[a].scope, scope);
      assert a != b && Clash(t.builds[a].scope, t.builds[b].scope);
    }
    SupersessionFailsByClash(t);
  }

  /** Any two clashing scopes reach such a state from an empty store. */
  lemma ClashIsReached(a: Scope, b: Scope)
    requires Clash(a, b)
    ensures var steps := [ScanBuild(0, a), ScanBuild(1, b)];
            && Runs(EMPTY, steps)
            && (var s := After(EMPTY, steps); Sound(s) && NoneSuperseded(s.tasks) && VictimsKnown(s) && !NoClash(s))
  {
    var first, second := ScanBuild(0, a), ScanBuild(1, b);
    RunsSnoc(EMPTY, [], first);
    assert [] + [first] == [first];
    RunsSnoc(EMPTY, [first], second);
    assert [first] + [second] == [first, second];
    var s := After(EMPTY, [first, second]);
    RunsKeepSound(EMPTY, [first, second]);
    assert CanFinish(s, 0) && CanFinish(s, 1) && Clash(s.builds[0].scope, s.builds[1].scope);
  }

  // ----- a build that nothing interleaves with

  function AtomicBuild(s: System, scope: Scope, now: int, logId: int): System {
    Create(s.(tasks := EndAll(s.tasks, Superseded(s.tasks, scope), Canceled, now)), Build, scope, now, logId)
  }

  /** Scan, cancellations and put one after the other. */
  lemma AtomicBuildIsRun(s: System, b: nat, scope: Scope, now: int, logId: int) returns (steps: seq<Step>)
    requires b !in s.builds
    ensures Runs(s, steps) && After(s, steps) == AtomicBuild(s, scope, now, logId)
    ensures forall step | step in steps :: !step.PutRebuilt?
  {
    var scan, put := ScanBuild(b, scope), PutBuild(b, now, logId);
    var t := Next(s, scan);
    RunsSnoc(s, [], scan);
    assert [] + [scan] == [scan];
    var cancels := CancelVictims(t, b, now);
    RunsConcat(s, [scan], cancels);
    var u := After(t, cancels);
    assert u.builds - {b} == s.builds;
    RunsSnoc(s, [scan] + cancels, put);
    steps := [scan] + cancels + [put];
  }

  /**
   What a build does to the store: an old task is changed exactly if it is a running assembly of the same
   project and version whose configurations are all among the new ones, and then becomes CANCELED now;
   and one assembly is new.
   */
  lemma BuildWrites(s: System, scope: Scope, now: int, logId: int, key: Key)
    requires TasksSound(s)
    ensures var t := AtomicBuild(s, scope, now, logId);
            && (key in t.tasks <==> key in s.tasks || key == Key(Build, s.nextId))
            && (key in s.tasks ==>
                  var task := s.tasks[key];
                  t.tasks[key] ==
                    if && key.kind == Build
                       && task.state in {Started, Restarted, StartedOnResource, Working}
                       && task.scope.projectId == scope.projectId && task.scope.version == scope.version
                       && task.scope.configurations <= scope.configurations
                    then task.(state := Canceled, endTimeStamp := Some(now))
                    else task)
            && (key == Key(Build, s.nextId) ==> t.tasks[key] == Task(key, scope, Started, now, None, logId, {}))
  {
    if key in s.tasks {
      assert s.tasks[key].key == key && key.id < s.nextId;
    }
  }

  lemma AtomicBuildKeeps(s: System, b: nat, scope: Scope, now: int, logId: int)
    requires Sound(s) && b !in s.builds
    ensures Sound(AtomicBuild(s, scope, now, logId))
    ensures NoneSuperseded(s.tasks) ==> NoneSuperseded(AtomicBuild(s, scope, now, logId).tasks)
  {
    var t := AtomicBuild(s, scope, now, logId);
    var steps := AtomicBuildIsRun(s, b, scope, now, logId);
    RunsKeepSound(s, steps);
    if NoneSuperseded(s.tasks) {
      forall a, b | a in t.tasks && b in t.tasks ensures !IsSupersededPair(t.tasks[a], t.tasks[b]) {
        if a in s.tasks && b in s.tasks {
          assert !IsSupersededPair(s.tasks[a], s.tasks[b]);
        }
      }
    }
  }
}
