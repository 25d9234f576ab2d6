/**
 The playground's simulation harness: it picks the process functions out of the
 compiled module, gives every role a Tracer over the run's queue, all Tracers
 appending to one shared `sends` list, runs every role's process function on a
 root Env around its Tracer, and returns that list.
 */
module Simulation {
  import opened Transports
  import opened Runtime

  /** Compiled process functions are exported as `main_<Role>`. */
  const MainPrefix: string := "main_"

  /** `keys.filter(f => f.startsWith("main_"))`. */
  function MainExports(keys: seq<string>): (funcs: seq<string>)
    ensures forall f :: f in funcs <==> f in keys && MainPrefix <= f
  {
    if keys == [] then []
    else (if MainPrefix <= keys[0] then [keys[0]] else []) + MainExports(keys[1..])
  }

  /**
   The process table built from the compiled module `code`, whose export names are
   `keys`: role `r` is present exactly when `main_r` is exported, and then maps to
   that export; every other export is ignored.
   */
  method ExtractProcesses<P>(keys: seq<string>, code: map<string, P>) returns (processes: map<Role, P>)
    requires forall f :: f in keys ==> f in code
    ensures forall r :: r in processes <==> MainPrefix + r in keys
    ensures forall r :: r in processes ==> processes[r] == code[MainPrefix + r]
  {
    var funcs := MainExports(keys);
    processes := map[];
    var i := 0;
    while i < |funcs|
      invariant 0 <= i <= |funcs|
      invariant forall r :: r in processes <==> MainPrefix + r in funcs[..i]
      invariant forall r :: r in processes ==> MainPrefix + r in code && processes[r] == code[MainPrefix + r]
    {
      var f := funcs[i];
      assert f in funcs;
      var role := f[|MainPrefix|..];
      assert MainPrefix + role == f;
      processes := processes[role := code[f]];
      assert funcs[..i + 1] == funcs[..i] + [f];
      i := i + 1;
    }
    assert funcs[..i] == funcs;
  }

  /**
   One operation a process function performs on its Env: a send, a receive, or a call
   into a role-parameterised function, which continues on `env.subst(pairs)`.
   */
  datatype Step<V> = SendStep(value: V, roles: seq<Role>) | RecvStep(from: Role) | SubstStep(pairs: seq<Role>)

  /** Every call in the script passes old and new names in pairs. */
  ghost predicate WellFormed<V>(steps: seq<Step<V>>) {
    forall i :: 0 <= i < |steps| ==> steps[i].SubstStep? ==> |steps[i].pairs| % 2 == 0
  }

  /** What one role contributes to the trace, and whether its process function returns. */
  datatype Outcome<V> = Outcome(records: seq<TraceMessage<V>>, finished: bool)

  /**
   The outcome of running `steps` from index `i` for `role` on an Env with substitution
   table `table`, when the queue will deliver `pending` to it: every send is recorded
   with the role as sender and the resolved receivers; a receive with nothing left to
   deliver suspends the process for good.
   */
  ghost function Run<V>(role: Role, table: map<Role, Role>, steps: seq<Step<V>>, i: nat, pending: seq<V>): (outcome: Outcome<V>)
    requires WellFormed(steps) && i <= |steps|
    decreases |steps| - i
  {
    if i == |steps| then Outcome([], true)
    else
      match steps[i]
      case SendStep(v, rs) =>
        var rest := Run(role, table, steps, i + 1, pending);
        Outcome([TraceMessage(v, role, MapRoles(table, rs))] + rest.records, rest.finished)
      case RecvStep(_) =>
        if pending == [] then Outcome([], false) else Run(role, table, steps, i + 1, pending[1..])
      case SubstStep(pairs) =>
        Run(role, SubstTable(table, pairs), steps, i + 1, pending)
  }

  /** Every record a role contributes names that role as its sender. */
  lemma {:induction false} RunSender<V>(role: Role, table: map<Role, Role>, steps: seq<Step<V>>, i: nat, pending: seq<V>)
    requires WellFormed(steps) && i <= |steps|
    ensures forall m :: m in Run(role, table, steps, i, pending).records ==> m.sender == role
    decreases |steps| - i
  {
    if i < |steps| {
      match steps[i]
      case SendStep(v, rs) => RunSender(role, table, steps, i + 1, pending);
      case RecvStep(_) => if pending != [] { RunSender(role, table, steps, i + 1, pending[1..]); }
      case SubstStep(pairs) => RunSender(role, SubstTable(table, pairs), steps, i + 1, pending);
    }
  }

  /** The records of `log` whose sender is `role`, in log order. */
  function Project<V>(log: seq<TraceMessage<V>>, role: Role): (r: seq<TraceMessage<V>>)
    ensures forall m :: m in r ==> m in log && m.sender == role
  {
    if log == [] then []
    else (if log[0].sender == role then [log[0]] else []) + Project(log[1..], role)
  }

  lemma {:induction false} ProjectAppend<V>(a: seq<TraceMessage<V>>, b: seq<TraceMessage<V>>, role: Role)
    ensures Project(a + b, role) == Project(a, role) + Project(b, role)
    decreases |a|
  {
    if a != [] {
      assert (a + b)[0] == a[0];
      assert (a + b)[1..] == a[1..] + b;
      ProjectAppend(a[1..], b, role);
    } else {
      assert a + b == b;
    }
  }

  /** A log whose records all come from `role` projects onto `role` unchanged, and onto any other role as empty. */
  lemma {:induction false} ProjectSingleSender<V>(log: seq<TraceMessage<V>>, role: Role, other: Role)
    requires forall m :: m in log ==> m.sender == role
    ensures Project(log, role) == log
    ensures other != role ==> Project(log, other) == []
    decreases |log|
  {
    if log != [] {
      assert log[0] in log;
      ProjectSingleSender(log[1..], role, other);
    }
  }

  /** Records from senders other than `role` do not show in its projection. */
  lemma {:induction false} ProjectAbsent<V>(log: seq<TraceMessage<V>>, role: Role)
    requires forall m :: m in log ==> m.sender != role
    ensures Project(log, role) == []
    decreases |log|
  {
    if log != [] {
      assert log[0] in log;
      ProjectAbsent(log[1..], role);
    }
  }

  /** Appending one role's records changes that role's projection to them, and no other role's. */
  lemma ProjectExtend<V>(before: seq<TraceMessage<V>>, added: seq<TraceMessage<V>>, role: Role, r: Role)
    requires forall m :: m in before ==> m.sender != role
    requires forall m :: m in added ==> m.sender == role
    ensures Project(before + added, r) == if r == role then added else Project(before, r)
  {
    ProjectAppend(before, added, r);
    ProjectSingleSender(added, role, r);
    if r == role {
      ProjectAbsent(before, role);
    }
  }

  /**
   `await processes[role](new Env(trans))`: runs the role's script on a root Env around
   `tracer`; `finished` is false when it suspends for good on a receive.
   */
  method RunRole<V>(tracer: Tracer<V>, steps: seq<Step<V>>) returns (finished: bool)
    requires WellFormed(steps)
    modifies tracer, tracer.inner, tracer.sends
    ensures tracer.sends.records ==
      old(tracer.sends.records) + Run(tracer.role, map[], steps, 0, old(tracer.inner.pending)).records
    ensures finished == Run(tracer.role, map[], steps, 0, old(tracer.inner.pending)).finished
  {
    var env := new Env(Traced(tracer));
    var i := 0;
    ghost var done: seq<TraceMessage<V>> := [];
    ghost var whole := Run(tracer.role, map[], steps, 0, tracer.inner.pending);
    while i < |steps|
      invariant 0 <= i <= |steps|
      invariant env.trans == Traced(tracer)
      invariant tracer.sends.records == old(tracer.sends.records) + done
      invariant whole.records == done + Run(tracer.role, env.roleSubst, steps, i, tracer.inner.pending).records
      invariant whole.finished == Run(tracer.role, env.roleSubst, steps, i, tracer.inner.pending).finished
    {
      match steps[i] {
        case SendStep(v, rs) =>
          env.Send(v, rs);
          done := done + [TraceMessage(v, tracer.role, MapRoles(env.roleSubst, rs))];
        case RecvStep(from) =>
          var got := env.Recv(from);
          if got.None? {
            return false;
          }
        case SubstStep(pairs) =>
          env := env.Subst(pairs);
      }
      i := i + 1;
    }
    finished := true;
  }

  /** The values the queue will deliver to `role`. */
  function DeliveriesFor<V>(deliveries: map<Role, seq<V>>, role: Role): (values: seq<V>) {
    if role in deliveries then deliveries[role] else []
  }

  /**
   `runSimulation(processes)`, one role after another. `None` stands for a run that
   never returns because some role stays suspended on a receive. Otherwise the
   result is the shared `sends` list: every record is sent by a role of the run,
   and the records of each role are exactly what that role's process produced, in
   its own order; nothing is claimed about how the roles' records interleave.
   */
  method RunSimulation<V>(processes: map<Role, seq<Step<V>>>, deliveries: map<Role, seq<V>>)
    returns (result: Option<seq<TraceMessage<V>>>)
    requires forall r :: r in processes ==> WellFormed(processes[r])
    ensures processes == map[] ==> result == Some([])
    ensures result.None? <==>
      exists r :: r in processes && !Run(r, map[], processes[r], 0, DeliveriesFor(deliveries, r)).finished
    ensures result.Some? ==> forall m :: m in result.value ==> m.sender in processes
    ensures result.Some? ==> forall r :: r in processes ==>
      Project(result.value, r) == Run(r, map[], processes[r], 0, DeliveriesFor(deliveries, r)).records
  {
    var sends := new SendLog<V>();
    var todo := processes.Keys;
    var blocked := false;
    while todo != {}
      invariant todo <= processes.Keys
      invariant todo == processes.Keys ==> sends.records == []
      invariant forall m :: m in sends.records ==> m.sender in processes && m.sender !in todo
      invariant forall r :: r in processes && r !in todo ==>
        Project(sends.records, r) == Run(r, map[], processes[r], 0, DeliveriesFor(deliveries, r)).records
      invariant blocked <==>
        exists r :: r in processes && r !in todo && !Run(r, map[], processes[r], 0, DeliveriesFor(deliveries, r)).finished
      decreases |todo|
    {
      var role :| role in todo;
      var queueRole := new QueueEndpoint(DeliveriesFor(deliveries, role));
      var trans := new Tracer(queueRole, role, sends);
      ghost var before := sends.records;
      var finished := RunRole(trans, processes[role]);
      ghost var outcome := Run(role, map[], processes[role], 0, DeliveriesFor(deliveries, role));
      assert sends.records == before + outcome.records;
      RunSender(role, map[], processes[role], 0, DeliveriesFor(deliveries, role));
      forall r | r in processes && r !in todo - {role}
        ensures Project(sends.records, r) == Run(r, map[], processes[r], 0, DeliveriesFor(deliveries, r)).records
      {
        ProjectExtend(before, outcome.records, role, r);
      }
      if !finished {
        blocked := true;
      }
      todo := todo - {role};
    }
    if blocked {
      result := None;
    } else {
      result := Some(sends.records);
    }
  }
}
