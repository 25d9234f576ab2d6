# Tempo playground runtime: role resolution and traced simulation

This project models the runtime that Tempo-compiled choreography code runs
against, and the harness the playground uses to simulate a run.

- **Env** (`public/runtime.js`) is the environment a process function runs in. It
  keeps a substitution table from the static role names of the current function
  to concrete role names. `role` looks a name up and falls back to the name
  itself. `subst` builds a new Env on the same transport whose table maps each
  new name to the caller's resolution of the old one, so substitutions compose
  through nested calls. `send` and `recv` resolve names and delegate to the
  transport.
- **Tracer** (`src/Simulate.tsx`) is a transport decorator bound to one role. It
  appends a `{value, sender, receivers}` record to a list shared by all Tracers
  of the run, then forwards the send. It forwards receives unchanged.
- **The harness** (`src/Simulate.tsx`) picks the `main_<Role>` exports of the
  compiled module as the process table. `runSimulation` runs every process on a
  root Env around its own Tracer, all of them over one `sends` list, and returns
  that list.

Files:

- `transports.dfy` (module `Transports`) holds the transport capability.
  - The datatype `Transport` is the interface. Its two cases are the queue's
    role endpoint and a `Tracer`, and calls are dispatched to whichever it holds.
  - `QueueEndpoint` stands for `queue.role(role)` of the external queue. It records
    the calls it receives. The values it will deliver to `recv` are given to it
    in delivery order.
  - `SendLog` is the shared `sends` list, and `Tracer` is the decorator.
- `runtime.dfy` (module `Runtime`) holds the table functions `Lookup`,
  `SubstTable` and `MapRoles`, the class `Env`, and the lemmas about substitution.
  Those lemmas include the role-rotating recursion of the ping-pong and
  shift-roles examples in `src/examples.ts`.
- `simulation.dfy` (module `Simulation`) holds process extraction, the per-role
  run and `RunSimulation`.
  - Compiled process functions are foreign code. Each one is a script of the Env
    operations it performs (`Step`): send, receive, or a call that continues on
    `env.subst(...)`.
  - The ghost function `Run` says what one role's script contributes to the trace.

What the code does, and the model with it:

- The code records send events only. It has no `Return` records.
- An empty process table is not an error: `runSimulation` returns the empty list.
- Neither Env, Tracer nor `runSimulation` checks that a role named in a send or
  receive takes part in the run; what `LocalQueue` then does is not modelled.
- A run in which some role waits forever on a receive never returns. The model
  represents that outcome as `None`.

## Model

| member | source | states |
|---|---|---|
| `Runtime.Lookup` | public/runtime.js:44-50 | `role(name)` is the table's entry for `name` when it is present and non-empty. Otherwise it is `name` itself: an empty (falsy) entry is ignored, and an empty result arises only from an empty name. |
| `Runtime.Env.Resolve` | public/runtime.js:44-50 | An Env's `role(name)` is its table's non-empty entry for `name`, and `name` itself when there is no entry or the entry is empty. |
| `Runtime.MapRoles` | public/runtime.js:27 | `roles.map(r => this.role(r))` keeps the length and order of the list and resolves every element. |
| `Runtime.Env.constructor` | public/runtime.js:17-20 | A new Env holds the given transport and an empty table, so every name resolves to itself. |
| `Runtime.Env.Send` | public/runtime.js:26-29 | Makes exactly one transport send call, with the same value and the resolved role list. On a Tracer this appends exactly that record to the shared log and forwards exactly that call to the queue endpoint. What the queue will deliver is unchanged. |
| `Runtime.Env.Recv` | public/runtime.js:35-38 | Makes exactly one transport receive call, with the resolved role, and returns that call's result. On a Tracer that receive call reaches the queue endpoint. The trace is unchanged. |
| `Runtime.Env.Subst` | public/runtime.js:56-66 | Returns a fresh Env on the same transport. Its table is `SubstTable(roleSubst, pairs)`, built pair by pair in the loop. The receiver is unchanged. |
| `Runtime.SubstKeys` | public/runtime.js:57-62 | The table `subst` builds has exactly the new names of the pairs as keys, both directions. |
| `Runtime.SubstLastWins` | public/runtime.js:58-62 | When a new name appears in several pairs, its entry is the caller's resolution of the old name of the last such pair. |
| `Runtime.SubstResolves` | public/runtime.js:58-61 | After `subst`, the new name of a pair resolves exactly as the caller resolved its old name (`e.subst(o, x).role(x) == e.role(o)`), provided that resolution is non-empty. |
| `Runtime.SubstUnmentioned` | public/runtime.js:57-62 | A name that is the new name of no pair is not a key of the new table and resolves to itself in the copy. |
| `Runtime.SubstComposes` | public/runtime.js:56-62 | `e.subst(a, x).subst(x, y).role(y) == e.role(a)`. |
| `Runtime.ChainResolves` | public/runtime.js:56-62 | For any depth of nested single renamings `n0 -> n1 -> ... -> nk`, the last name resolves as the outermost Env resolved `n0`. |
| `Runtime.RotatePairs` | src/examples.ts:20 | The pairs of a call that passes each static role the caller's next role, cyclically (`shiftRoles@(B,C,D,A)`, `pingPong@(B,A)`): pair `i` maps `rs[i]` from the next role. |
| `Runtime.RotateStep` | src/examples.ts:17-22 | One more rotating call makes static role `rs[i]` resolve as the enclosing call resolved the next role. |
| `Runtime.RotateResolves` | src/examples.ts:17-22 | After `n` nested rotating calls, static role `rs[i]` resolves to the outermost caller's resolution of the role `n` steps further on. Names therefore never resolve to an internal placeholder. |
| `Runtime.RotateFullCircle` | src/examples.ts:17-26 | After as many rotating calls as there are roles, every static role resolves as it did at the outermost call. |
| `Runtime.PingPongResolves` | src/examples.ts:6-15 | After `n` recursive `pingPong@(B,A)` calls, `A` and `B` have swapped `n` times: each resolves to itself for even `n` and to the other role for odd `n`. |
| `Transports.SendLog.constructor` | src/Simulate.tsx:86 | A simulation run starts with an empty `sends` list. |
| `Transports.SendLog.Push` | src/Simulate.tsx:74 | `sends.push(record)` appends exactly one record and leaves earlier entries unchanged. |
| `Transports.Tracer.constructor` | src/Simulate.tsx:67-71 | A Tracer keeps the inner transport, the role it is bound to and the shared list it was given. |
| `Transports.Tracer.Send` | src/Simulate.tsx:73-76 | Appends exactly `{value, sender: bound role, receivers: roles}` to the shared log. Forwards the same value and the same role list to the inner transport with exactly one call. |
| `Transports.Tracer.Recv` | src/Simulate.tsx:78-80 | Leaves the log unchanged. Forwards the role to the inner transport with exactly one call and returns that call's result. |
| `Transports.Transport.Send` | public/runtime.js:28 | Whichever transport the Env holds receives exactly one send call with the given arguments. A Tracer also records it, and its queue endpoint receives the same call. |
| `Transports.Transport.Recv` | public/runtime.js:37 | Whichever transport the Env holds receives exactly one receive call and its result is returned. A Tracer records nothing, and its queue endpoint receives the same call. |
| `Simulation.MainExports` | src/Simulate.tsx:40 | The filter keeps exactly the export names that start with `main_`. |
| `Simulation.ExtractProcesses` | src/Simulate.tsx:40-45 | Role `r` is in the process table iff `main_r` is exported, and then maps to that export. Other names contribute nothing. |
| `Simulation.RunSender` | src/Simulate.tsx:73-74 | Every record a role's process contributes has that role, the Tracer's bound role, as sender. |
| `Simulation.RunRole` | src/Simulate.tsx:90-93 | A role's process runs on a root Env around its Tracer. The shared log grows by exactly what `Run` says that role sends, and the process returns iff `Run` finishes. |
| `Simulation.RunSimulation` | src/Simulate.tsx:61-100 | All Tracers share one list, and it is what is returned. An empty process table gives the empty list. The run returns iff every role's script finds a delivery for each receive it reaches. Every record's sender is a role of the run, and each role's records, in order, are exactly its own process's sends. |

## Left out

- Concurrency in `runSimulation` is left out: the async tasks per role and `Promise.all`. Roles run one after another, in an arbitrary order. Nothing is claimed about how different roles' records interleave in the list, only about each role's own records.
- The `async`/`await` in `Env.send` and `Env.recv` is left out. They are modelled as synchronous delegation.
- The queue (`LocalQueue`) is an external library whose source is not part of this model. Its role endpoint records calls and is handed the values it will deliver. Which values the real queue would deliver, and its FIFO guarantee, are not modelled.
- Process functions are opaque compiled code, loaded by dynamic import. Each is modelled as a fixed script of Env operations, so values a process computes from what it received are not modelled. The harness ignores what a process returns, and so does the model.
- A process that throws makes `runSimulation` reject. Scripts cannot throw, so that path is not modelled.
- Simulation.RunSimulation: whether the run returns is judged against the given `deliveries`, not against what the other roles send. A receive succeeds iff the value is in those deliveries, and nothing ties them to the other roles' sends.
- Simulation.Step: a `SubstStep` never returns to the caller's Env. A process that calls a role-parameterised function and then carries on in its own Env, such as the composition example in `src/examples.ts`, can be written only with the callee's resolved names flattened into the script.
- Transports.Tracer.Send: the order "append, then forward" is not stated. With the inner transport unable to observe the log, that order is not observable in the sequential model.
- Transports.Tracer: its inner transport is typed as the queue's endpoint, the only transport the harness wraps, rather than any transport.
- JavaScript object quirks are left out. Prototype keys such as `constructor` resolve to non-strings, and an odd-length `subst` argument list produces the key `"undefined"`. `subst` requires an even number of names.
- The React UI, trace rendering, compilation through WebAssembly and the Go bridge, and `console.log` calls are presentation and foreign code.
