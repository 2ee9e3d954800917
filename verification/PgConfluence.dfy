/** Convergence may stop anywhere and start again: whole-run theorems about the plan of a config. */
module PgConfluence {
  import opened Strings
  import opened PgConfig
  import opened PgCluster
  import opened PgPlan
  import opened PgInForce
  import opened PgPlanFacts

  // ----- States along a run

  /** The state a run from st has reached after its first k acts, or where it stopped before. */
  function StateAt(env: Env, acts: seq<Act>, st: Cluster, k: nat): Cluster
    requires k <= |acts|
  {
    Run(env, acts[..k], st).0
  }

  /** The first k acts all passed. */
  predicate Passed(env: Env, acts: seq<Act>, st: Cluster, k: nat)
    requires k <= |acts|
  {
    Run(env, acts[..k], st).1
  }

  lemma StateStep(env: Env, acts: seq<Act>, st: Cluster, k: nat)
    requires k < |acts|
    ensures Passed(env, acts, st, k) ==>
      (StateAt(env, acts, st, k + 1), Passed(env, acts, st, k + 1)) == Step(env, StateAt(env, acts, st, k), acts[k])
    ensures !Passed(env, acts, st, k) ==>
      !Passed(env, acts, st, k + 1) && StateAt(env, acts, st, k + 1) == StateAt(env, acts, st, k)
  {
    assert acts[..k + 1] == acts[..k] + [acts[k]];
    RunSnoc(env, acts[..k], acts[k], st);
  }

  // ----- Extensions that were passed over

  /** CREATE EXTENSION would now succeed and do something. */
  predicate Wanted(env: Env, st: Cluster, act: Act) {
    && act.MakeExtension? && act.ext.optional
    && RealName(act.ext.name) in st.files
    && Exec(env, st, act.db, MakeStmt(act.ext)).Success?
    && RealName(act.ext.name) !in st.dbs[act.db].exts
  }

  /** An optional extension is always either dealt with or wanted. */
  lemma OptionalDealtWith(env: Env, st: Cluster, act: Act)
    requires act.MakeExtension? && act.ext.optional
    ensures InForce(env, act, st) || Wanted(env, st, act)
  {
  }

  /** Whatever passed is in force from then on, except optional extensions that became creatable too late. */
  lemma {:induction false} PassedStaysInForce(env: Env, acts: seq<Act>, st: Cluster, i: nat, k: nat)
    requires Fair(env) && Coherent(acts) && i < k <= |acts| && Passed(env, acts, st, i + 1)
    ensures InForce(env, acts[i], StateAt(env, acts, st, k)) || Wanted(env, StateAt(env, acts, st, k), acts[i])
  {
    var a := acts[i];
    StateStep(env, acts, st, k - 1);
    var here := StateAt(env, acts, st, k - 1);
    if a.MakeExtension? && a.ext.optional {
      OptionalDealtWith(env, StateAt(env, acts, st, k), a);
    } else if k == i + 1 {
      PassedPrefix(env, acts, st, i, k);
      StepEstablishes(env, here, a);
    } else {
      PassedStaysInForce(env, acts, st, i, k - 1);
      if Passed(env, acts, st, k - 1) {
        StepKeeps(env, here, a, acts[k - 1]);
      }
    }
  }

  lemma {:induction false} PassedPrefix(env: Env, acts: seq<Act>, st: Cluster, i: nat, k: nat)
    requires i <= k <= |acts| && Passed(env, acts, st, k)
    ensures Passed(env, acts, st, i)
    decreases k - i
  {
    if i < k {
      StateStep(env, acts, st, k - 1);
      PassedPrefix(env, acts, st, i, k - 1);
    }
  }

  /** No optional extension that was passed over becomes creatable later in the run. */
  ghost predicate Settled(env: Env, acts: seq<Act>, st: Cluster) {
    forall i, k :: 0 <= i < k <= |acts| && Passed(env, acts, st, i + 1) ==>
      !Wanted(env, StateAt(env, acts, st, k), acts[i])
  }

  // ----- Crash and resume

  /** Acts in force are walked through without a trace. */
  lemma {:induction false} WalkThrough(env: Env, acts: seq<Act>, st: Cluster)
    requires forall i :: 0 <= i < |acts| ==> InForce(env, acts[i], st)
    ensures Run(env, acts, st) == (st, true)
  {
    if acts != [] {
      InForceAbsorbs(env, st, acts[0]);
      WalkThrough(env, acts[1..], st);
    }
  }

  lemma {:induction false} StopsAt(env: Env, acts: seq<Act>, st: Cluster, k: nat) returns (j: nat)
    requires k <= |acts| && !Passed(env, acts, st, k)
    ensures j < k && Passed(env, acts, st, j) && !Passed(env, acts, st, j + 1)
    ensures StateAt(env, acts, st, k) == StateAt(env, acts, st, j + 1)
    ensures Run(env, acts, st) == (StateAt(env, acts, st, j + 1), false)
  {
    StateStep(env, acts, st, k - 1);
    if Passed(env, acts, st, k - 1) {
      j := k - 1;
    } else {
      j := StopsAt(env, acts, st, k - 1);
    }
    assert acts == acts[..k] + acts[k..];
    RunAppend(env, acts[..k], acts[k..], st);
  }

  /** An act that stops a run stops it again in the state it left. */
  lemma StopsAgain(env: Env, st: Cluster, act: Act)
    requires !Step(env, st, act).1
    ensures Step(env, Step(env, st, act).0, act) == (Step(env, st, act).0, false)
  {
    if act.FetchBundle? && env.bundles(act.ext.source).Some? {
      var files := st.files + env.bundles(act.ext.source).value;
      assert files + env.bundles(act.ext.source).value == files;
    }
  }

  /**
   * However far a run got, running the acts again from there ends in the same state, with the same outcome, as the
   * uninterrupted run.
   */
  lemma ResumeIsUninterrupted(env: Env, acts: seq<Act>, st: Cluster, k: nat)
    requires Fair(env) && Coherent(acts) && Settled(env, acts, st) && k <= |acts|
    ensures Run(env, acts, StateAt(env, acts, st, k)) == Run(env, acts, st)
  {
    var here := StateAt(env, acts, st, k);
    var n := k;
    if !Passed(env, acts, st, k) {
      n := StopsAt(env, acts, st, k);
    }
    WalksBack(env, acts, st, n, k);
    assert acts == acts[..n] + acts[n..];
    RunAppend(env, acts[..n], acts[n..], here);
    RunAppend(env, acts[..n], acts[n..], st);
    if n < k {
      StateStep(env, acts, st, n);
      StopsAgain(env, StateAt(env, acts, st, n), acts[n]);
    }
  }

  /** What passed is walked through again. */
  lemma WalksBack(env: Env, acts: seq<Act>, st: Cluster, n: nat, k: nat)
    requires Fair(env) && Coherent(acts) && Settled(env, acts, st) && n <= k <= |acts| && Passed(env, acts, st, n)
    ensures Run(env, acts[..n], StateAt(env, acts, st, k)) == (StateAt(env, acts, st, k), true)
  {
    forall i | 0 <= i < n
      ensures InForce(env, acts[..n][i], StateAt(env, acts, st, k))
    {
      PassedPrefix(env, acts, st, i + 1, n);
      PassedStaysInForce(env, acts, st, i, k);
    }
    WalkThrough(env, acts[..n], StateAt(env, acts, st, k));
  }

  /** Crash-resume confluence of Converge; k == |Plan| is idempotence. */
  lemma ConvergeResumes(env: Env, name: string, cfg: Config, st: Cluster, k: nat)
    requires Fair(env) && WellFormed(cfg)
    requires Settled(env, Plan(name, cfg), st) && k <= |Plan(name, cfg)|
    ensures Run(env, Plan(name, cfg), StateAt(env, Plan(name, cfg), st, k)) == Run(env, Plan(name, cfg), st)
  {
    PlanCoherent(name, cfg);
    ResumeIsUninterrupted(env, Plan(name, cfg), st, k);
  }

  lemma PassedIsInForce(env: Env, acts: seq<Act>, st: Cluster, act: Act)
    requires Fair(env) && Coherent(acts) && Run(env, acts, st).1 && act in acts
    ensures InForce(env, act, Run(env, acts, st).0) || Wanted(env, Run(env, acts, st).0, act)
  {
    var i :| 0 <= i < |acts| && acts[i] == act;
    assert acts[..|acts|] == acts;
    PassedPrefix(env, acts, st, i + 1, |acts|);
    PassedStaysInForce(env, acts, st, i, |acts|);
  }

  /** A successful convergence leaves every declared act in force, save optional extensions that came too late. */
  lemma ConvergeReachesTarget(env: Env, name: string, cfg: Config, st: Cluster, act: Act)
    requires Fair(env) && WellFormed(cfg)
    requires Run(env, Plan(name, cfg), st).1 && act in Plan(name, cfg)
    ensures var final := Run(env, Plan(name, cfg), st).0;
      InForce(env, act, final) || Wanted(env, final, act)
  {
    PlanCoherent(name, cfg);
    PassedIsInForce(env, Plan(name, cfg), st, act);
  }

  /** Every act but that of an optional extension is in force after a successful convergence. */
  lemma ActEnforced(env: Env, name: string, cfg: Config, st: Cluster, final: Cluster, act: Act)
    requires Fair(env) && WellFormed(cfg)
    requires Run(env, Plan(name, cfg), st) == (final, true)
    requires act in Plan(name, cfg) && (act.MakeExtension? ==> !act.ext.optional)
    ensures InForce(env, act, final)
  {
    ConvergeReachesTarget(env, name, cfg, st, act);
  }

  // ----- When repeating changes nothing

  lemma InstalledStays(env: Env, st: Cluster, a: Act, b: Act)
    requires a.MakeExtension? && Installed(st, a.db, a.ext) && env.refuses(a.db, MakeStmt(a.ext)).None?
    requires Plannable(b) && Compatible(a, b)
    ensures Installed(Step(env, st, b).0, a.db, a.ext)
  {
    var must := a.(ext := a.ext.(optional := false));
    assert InForce(env, must, st);
    assert Compatible(must, b);
    StepKeeps(env, st, must, b);
  }

  lemma {:induction false} InstalledStaysRun(env: Env, st: Cluster, a: Act, later: seq<Act>)
    requires a.MakeExtension? && Installed(st, a.db, a.ext) && env.refuses(a.db, MakeStmt(a.ext)).None?
    requires forall b :: b in later ==> Plannable(b) && Compatible(a, b)
    decreases |later|
    ensures Installed(Run(env, later, st).0, a.db, a.ext)
  {
    if later != [] {
      InstalledStays(env, st, a, later[0]);
      if Step(env, st, later[0]).1 {
        InstalledStaysRun(env, Step(env, st, later[0]).0, a, later[1..]);
      }
    }
  }

  lemma RunFrom(env: Env, acts: seq<Act>, st: Cluster, i: nat)
    requires i <= |acts| && forall j :: 0 <= j < i ==> InForce(env, acts[j], st)
    ensures Run(env, acts, st) == Run(env, acts[i..], st)
  {
    WalkThrough(env, acts[..i], st);
    assert acts == acts[..i] + acts[i..];
    RunAppend(env, acts[..i], acts[i..], st);
  }

  lemma WantedIsMade(env: Env, st: Cluster, a: Act)
    requires Wanted(env, st, a)
    ensures Step(env, st, a).1 && Installed(Step(env, st, a).0, a.db, a.ext) && !Installed(st, a.db, a.ext)
    ensures env.refuses(a.db, MakeStmt(a.ext)).None?
  {
  }

  /** The first act that still wants something makes a repeated run differ. */
  lemma WantedChanges(env: Env, acts: seq<Act>, st: Cluster, i: nat)
    requires Coherent(acts) && i < |acts| && Wanted(env, st, acts[i])
    requires forall j :: 0 <= j < i ==> InForce(env, acts[j], st)
    ensures Run(env, acts, st).0 != st
  {
    var a := acts[i];
    RunFrom(env, acts, st, i);
    assert acts[i..][1..] == acts[i + 1..];
    LaterAgree(acts, i);
    WantedIsMade(env, st, a);
    InstalledStaysRun(env, Step(env, st, a).0, a, acts[i + 1..]);
  }

  lemma LaterAgree(acts: seq<Act>, i: nat)
    requires Coherent(acts) && i < |acts|
    ensures forall b :: b in acts[i + 1..] ==> Plannable(b) && Compatible(acts[i], b)
  {
  }

  /**
   * Repeating a successful convergence changes nothing exactly when no optional extension it passed over could be
   * created in the state it reached.
   */
  lemma IdempotentExactly(env: Env, name: string, cfg: Config, st: Cluster)
    requires Fair(env) && WellFormed(cfg) && Run(env, Plan(name, cfg), st).1
    ensures var final := Run(env, Plan(name, cfg), st).0;
      Run(env, Plan(name, cfg), final) == (final, true) <==>
      forall act :: act in Plan(name, cfg) ==> !Wanted(env, final, act)
  {
    var acts := Plan(name, cfg);
    var final := Run(env, acts, st).0;
    PlanCoherent(name, cfg);
    if forall act :: act in acts ==> !Wanted(env, final, act) {
      forall i | 0 <= i < |acts|
        ensures InForce(env, acts[i], final)
      {
        ConvergeReachesTarget(env, name, cfg, st, acts[i]);
      }
      WalkThrough(env, acts, final);
    } else {
      var i := FirstWanted(env, acts, final);
      forall j | 0 <= j < i
        ensures InForce(env, acts[j], final)
      {
        ConvergeReachesTarget(env, name, cfg, st, acts[j]);
      }
      WantedChanges(env, acts, final, i);
    }
  }

  lemma {:induction false} FirstWanted(env: Env, acts: seq<Act>, st: Cluster) returns (i: nat)
    requires exists act :: act in acts && Wanted(env, st, act)
    ensures i < |acts| && Wanted(env, st, acts[i]) && forall j :: 0 <= j < i ==> !Wanted(env, st, acts[j])
  {
    if Wanted(env, st, acts[0]) {
      i := 0;
    } else {
      i := FirstWanted(env, acts[1..], st);
      i := i + 1;
      assert forall j :: 1 <= j < |acts| ==> acts[j] == acts[1..][j - 1];
    }
  }
}
