/** psqlRunner: statements sent one at a time to a cluster, through weather. */
module PgRunner {
  import opened Strings
  import opened PgConfig
  import opened PgCluster
  import opened PgPlan

  /** transientConvergeErr */
  predicate Transient(msg: string) {
    || Contains(msg, "tuple concurrently updated")
    || Contains(msg, "tuple concurrently deleted")
    || Contains(msg, "deadlock detected")
  }

  /** roleExistsErr */
  predicate RoleExists(msg: string) {
    Contains(msg, "already exists")
  }

  lemma ExistsRecognised(kind: string, name: string)
    ensures RoleExists(AlreadyExists(kind, name))
  {
    var front := "ERROR:  " + kind + " \"" + name + "\" ";
    assert AlreadyExists(kind, name) == front + "already exists" + "";
    ContainsMiddle(front, "already exists", "");
  }

  /** The server's own complaint about a second CREATE ROLE is recognised, whatever the role is called. */
  lemma RoleExistsRecognised(name: string)
    ensures RoleExists(AlreadyExists("role", name))
  {
    ExistsRecognised("role", name);
  }

  const ATTEMPTS := 6
  const CANCELED := "context canceled"

  /** The pause after attempt i, in milliseconds. */
  function Delay(i: nat): (ms: nat)
    ensures ms <= 800
  {
    if 50 * Power2(i) > 800 then 800 else 50 * Power2(i)
  }

  function Power2(i: nat): nat {
    if i == 0 then 1 else 2 * Power2(i - 1)
  }

  function TotalDelay(n: nat): nat {
    if n == 0 then 0 else TotalDelay(n - 1) + Delay(n - 1)
  }

  lemma AllDelays()
    ensures TotalDelay(ATTEMPTS) == 2350
  {
    assert Power2(1) == 2 && Power2(2) == 4 && Power2(3) == 8 && Power2(4) == 16 && Power2(5) == 32;
    assert TotalDelay(3) == 350;
    assert TotalDelay(5) == 1550;
  }

  lemma {:induction false} DelaysGrow(m: nat, n: nat)
    requires m <= n
    ensures TotalDelay(m) <= TotalDelay(n)
  {
    if m < n {
      DelaysGrow(m, n - 1);
    }
  }

  /** What the n-th interaction yields: the weather's fault, or the reply the server would give. */
  function Attempt(weather: nat -> Option<string>, reply: Reply, n: nat): Reply {
    if weather(n).Some? then Failure(weather(n).value) else reply
  }

  /** What execRetry returns and leaves after `attempts`, the last of which got `last`. */
  predicate Verdict(last: Reply, gone: bool, attempts: nat, before: Cluster, after: Cluster, err: Option<string>) {
    match last
    case Success(next) => err == None && after == next
    case Failure(msg) =>
      && after == before
      && if !Transient(msg) then err == Some(msg)
         else if gone then err == Some(CANCELED)
         else attempts == ATTEMPTS && err == Some(msg)
  }

  /** Only an attempt that failed transiently is followed by a whole wait. */
  function Waits(last: Reply, gone: bool, attempts: nat): nat
    requires attempts >= 1
  {
    if IsTransient(last) && !gone then attempts else attempts - 1
  }

  /** SELECT EXISTS on pg_roles or pg_database. */
  datatype Query = RoleThere(name: string) | DatabaseThere(name: string)

  predicate Holds(query: Query, st: Cluster) {
    match query
    case RoleThere(name) => exists r :: r in st.roles && r == name
    case DatabaseThere(name) => exists d :: d in st.dbs && d == name
  }

  predicate IsTransient(reply: Reply) {
    reply.Failure? && Transient(reply.error)
  }

  /**
   * The connection to one cluster. `weather` says which interactions fail on their way, `cancelled` at which waits
   * the context is done. `passedOver` notes that the weather made an optional extension be passed over (first at
   * `faultAt`), `diverged` that the cluster was changed after that (first at `changedAt`).
   */
  class Psql {
    const env: Env
    const server: (Cluster, string, Stmt) -> Reply
    const weather: nat -> Option<string>
    const cancelled: nat -> bool
    var st: Cluster
    var tick: nat
    var slept: nat
    ghost var passedOver: bool
    ghost var diverged: bool
    ghost var faultAt: nat
    ghost var changedAt: nat

    ghost predicate Valid()
      reads this
    {
      && (passedOver ==> faultAt < tick && weather(faultAt).Some?)
      && (diverged ==> passedOver && faultAt < changedAt < tick && weather(changedAt).None?)
    }

    /** The server behind the socket is the cluster of the model. */
    ghost predicate Serves() {
      forall st, at, stmt :: server(st, at, stmt) == Exec(env, st, at, stmt)
    }

    ghost predicate Calm() {
      forall n :: weather(n).None? && !cancelled(n)
    }

    constructor (env: Env, weather: nat -> Option<string>, cancelled: nat -> bool, st: Cluster)
      ensures Valid() && Serves() && this.env == env && this.weather == weather && this.cancelled == cancelled && this.st == st
      ensures !passedOver && !diverged
    {
      this.env, this.weather, this.cancelled, this.st := env, weather, cancelled, st;
      this.server := (st, at, stmt) => Exec(env, st, at, stmt);
      tick, slept, passedOver, diverged, faultAt, changedAt := 0, 0, false, false, 0, 0;
    }

    /** psqlRunner.exec */
    method Exec1(at: string, stmt: Stmt) returns (err: Option<string>)
      requires Valid()
      modifies this`st, this`tick, this`diverged, this`changedAt
      ensures Valid() && tick == old(tick) + 1
      ensures var reply := Attempt(weather, server(old(st), at, stmt), old(tick));
        && err == (if reply.Success? then None else Some(reply.error))
        && st == (if reply.Success? then reply.value else old(st))
      ensures diverged == (old(diverged) || (passedOver && st != old(st)))
    {
      var fault := weather(tick);
      tick := tick + 1;
      if fault.Some? {
        return fault;
      }
      var reply := server(st, at, stmt);
      match reply
      case Failure(msg) => err := Some(msg);
      case Success(next) =>
        if !diverged && passedOver && next != st {
          diverged, changedAt := true, tick - 1;
        }
        st := next;
        err := None;
    }

    /** psqlRunner.scalarBool: the answer to an EXISTS query, or the error that kept it from being asked. */
    method Ask(query: Query) returns (result: Result<bool, string>)
      requires Valid()
      modifies this`tick
      ensures Valid() && tick == old(tick) + 1
      ensures result == if weather(old(tick)).Some? then Failure(weather(old(tick)).value)
                        else if Connectable(st, MAINTENANCE_DB) then Success(Holds(query, st))
                        else Failure("FATAL:  cannot connect")
    {
      var fault := weather(tick);
      tick := tick + 1;
      if fault.Some? {
        return Failure(fault.value);
      }
      if !Connectable(st, MAINTENANCE_DB) {
        return Failure("FATAL:  cannot connect");
      }
      match query
      case RoleThere(name) => result := Success(name in st.roles);
      case DatabaseThere(name) => result := Success(name in st.dbs);
    }

    /** Every attempt of the interval failed transiently and the wait after it ran out. */
    ghost predicate Retried(reply: Reply, from: nat, to: int) {
      forall t :: from <= t < to ==> Retries(reply, t)
    }

    predicate Retries(reply: Reply, t: nat) {
      IsTransient(Attempt(weather, reply, t)) && !cancelled(t)
    }

    /**
     * A whole execRetry over the interactions from `from` up to `to`: at most six attempts, all but the last failed
     * transiently with their waits run out, and the last decides, unless the context was done in the wait after it.
     */
    ghost predicate Retrial(reply: Reply, from: nat, to: nat, before: Cluster, after: Cluster, err: Option<string>,
                            slept: int) {
      && from < to <= from + ATTEMPTS
      && Retried(reply, from, to - 1)
      && Verdict(Attempt(weather, reply, to - 1), cancelled(to - 1), to - from, before, after, err)
      && slept == TotalDelay(Waits(Attempt(weather, reply, to - 1), cancelled(to - 1), to - from))
    }

    /** Every attempt so far failed transiently, with this error the last time. */
    ghost predicate Failing(reply: Reply, from: nat, to: nat, err: Option<string>) {
      && Retried(reply, from, to)
      && (from < to ==> Retries(reply, to - 1) && err == Some(Attempt(weather, reply, to - 1).error))
    }

    lemma StillFailing(reply: Reply, from: nat, t: nat, err: Option<string>)
      requires Retried(reply, from, t)
      ensures Retries(reply, t) && err == Some(Attempt(weather, reply, t).error) ==> Failing(reply, from, t + 1, err)
    {
    }

    lemma Exhausted(reply: Reply, from: nat, before: Cluster, err: Option<string>)
      requires Failing(reply, from, from + ATTEMPTS, err)
      ensures Retrial(reply, from, from + ATTEMPTS, before, before, err, TotalDelay(ATTEMPTS))
    {
    }

    lemma Decided(reply: Reply, from: nat, t: nat, before: Cluster, after: Cluster, err: Option<string>)
      requires from <= t < from + ATTEMPTS && Retried(reply, from, t) && !Retries(reply, t)
      requires Verdict(Attempt(weather, reply, t), cancelled(t), t + 1 - from, before, after, err)
      ensures Retrial(reply, from, t + 1, before, after, err, TotalDelay(t - from))
    {
    }

    /** Never more than 2350 ms of waiting. */
    lemma RetrialIsShort(reply: Reply, from: nat, to: nat, before: Cluster, after: Cluster, err: Option<string>, slept: int)
      requires Retrial(reply, from, to, before, after, err, slept)
      ensures 0 <= slept <= 2350
    {
      AllDelays();
      DelaysGrow(Waits(Attempt(weather, reply, to - 1), cancelled(to - 1), to - from), ATTEMPTS);
    }

    /** One turn of execRetry's loop: the outcome of the whole, or one more transient failure and its wait. */
    method RetryTurn(at: string, stmt: Stmt, i: nat, ghost from: nat, ghost last: Option<string>)
      returns (done: bool, err: Option<string>)
      requires Valid() && i < ATTEMPTS && tick == from + i
      requires Failing(server(st, at, stmt), from, tick, last)
      modifies this`st, this`tick, this`slept, this`diverged, this`changedAt
      ensures Valid() && tick == old(tick) + 1
      ensures diverged == (old(diverged) || (passedOver && st != old(st)))
      ensures var reply := server(old(st), at, stmt);
        if done then Retrial(reply, from, tick, old(st), st, err, slept - old(slept) + TotalDelay(i))
        else Failing(reply, from, tick, err) && slept == old(slept) + Delay(i) && st == old(st)
    {
      ghost var reply, here := server(st, at, stmt), st;
      err := Exec1(at, stmt);
      if err.None? || !Transient(err.value) {
        Decided(reply, from, tick - 1, here, st, err);
        return true, err;
      }
      if cancelled(tick - 1) {
        Decided(reply, from, tick - 1, here, st, Some(CANCELED));
        return true, Some(CANCELED);
      }
      StillFailing(reply, from, tick - 1, err);
      slept := slept + Delay(i);
      done := false;
    }

    /** execRetry */
    method ExecRetry(at: string, stmt: Stmt) returns (err: Option<string>)
      requires Valid()
      modifies this`st, this`tick, this`slept, this`diverged, this`changedAt
      ensures Valid()
      ensures old(tick) < tick
      ensures Retrial(server(old(st), at, stmt), old(tick), tick, old(st), st, err, slept - old(slept))
      ensures diverged == (old(diverged) || (passedOver && st != old(st)))
    {
      err := None;
      ghost var reply, from := server(st, at, stmt), tick;
      for i := 0 to ATTEMPTS
        invariant Valid() && tick == from + i
        invariant st == old(st) && diverged == old(diverged)
        invariant slept == old(slept) + TotalDelay(i)
        invariant Failing(reply, from, tick, err)
      {
        var done;
        done, err := RetryTurn(at, stmt, i, from, err);
        if done {
          return;
        }
      }
      Exhausted(reply, from, st, err);
    }

    /** An optional extension is passed over because the last interaction failed on its way. */
    ghost method NotePassedOver()
      requires Valid() && tick > 0 && weather(tick - 1).Some?
      modifies this`passedOver, this`faultAt
      ensures Valid() && passedOver
    {
      if !passedOver {
        passedOver, faultAt := true, tick - 1;
      }
    }

    /** installer.install: fetch the bundle and lay its files out. */
    method Install(name: string, source: string) returns (ok: bool)
      requires Valid()
      modifies this`st, this`tick, this`diverged, this`changedAt
      ensures Valid() && tick == old(tick) + 1
      ensures weather(old(tick)).Some? || env.bundles(source).None? ==> !ok && st == old(st)
      ensures weather(old(tick)).None? && env.bundles(source).Some? ==>
        && st == old(st).(files := old(st).files + env.bundles(source).value)
        && ok == (name in st.files)
      ensures diverged == (old(diverged) || (passedOver && st != old(st)))
    {
      var fault := weather(tick);
      tick := tick + 1;
      if fault.Some? || env.bundles(source).None? {
        return false;
      }
      var next := st.(files := st.files + env.bundles(source).value);
      if !diverged && passedOver && next != st {
        diverged, changedAt := true, tick - 1;
      }
      st := next;
      ok := name in st.files;
    }
  }
}
