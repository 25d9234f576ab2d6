/**
 The transport capability that every Env sends and receives through, and its two
 implementations: the role-scoped endpoint of the in-memory queue (whose internals
 are external and only observed through the calls it receives) and the Tracer
 decorator the playground wraps around it to record every send.
 */
module Transports {

  /** A role name, static (as written in a choreography) or concrete. */
  type Role = string

  datatype Option<T> = None | Some(value: T)

  /** One call a transport receives: `send(value, ...roles)` or `recv(role)`. */
  datatype Call<V> = SendCall(value: V, roles: seq<Role>) | RecvCall(from: Role)

  /** One record of the shared trace: who sent which value to which roles. */
  datatype TraceMessage<V> = TraceMessage(value: V, sender: Role, receivers: seq<Role>)

  /**
   The endpoint `queue.role(role)` of the run's queue. What the queue does with a send
   is outside this model: the endpoint keeps the calls it received, in order, and the
   values it is going to hand to `recv`, in delivery order.
   */
  class QueueEndpoint<V> {
    ghost var calls: seq<Call<V>>
    var pending: seq<V>

    constructor (deliveries: seq<V>)
      ensures calls == [] && pending == deliveries
    {
      calls := [];
      pending := deliveries;
    }

    method Send(value: V, roles: seq<Role>)
      modifies this
      ensures calls == old(calls) + [SendCall(value, roles)]
      ensures pending == old(pending)
    {
      calls := calls + [SendCall(value, roles)];
    }

    /** `None` when nothing will ever be delivered: the caller stays suspended. */
    method Recv(from: Role) returns (v: Option<V>)
      modifies this
      ensures calls == old(calls) + [RecvCall(from)]
      ensures old(pending) == [] ==> v == None && pending == []
      ensures old(pending) != [] ==> v == Some(old(pending)[0]) && pending == old(pending)[1..]
    {
      calls := calls + [RecvCall(from)];
      if pending == [] {
        v := None;
      } else {
        v := Some(pending[0]);
        pending := pending[1..];
      }
    }
  }

  /** The `sends` list that every Tracer of one simulation run appends to. */
  class SendLog<V> {
    var records: seq<TraceMessage<V>>

    constructor ()
      ensures records == []
    {
      records := [];
    }

    method Push(m: TraceMessage<V>)
      modifies this
      ensures records == old(records) + [m]
    {
      records := records + [m];
    }
  }

  /** A transport decorator bound to one role: it records each send, then forwards it. */
  class Tracer<V> {
    const inner: QueueEndpoint<V>
    const role: Role
    const sends: SendLog<V>
    /** The calls this transport received (observation only). */
    ghost var calls: seq<Call<V>>

    constructor (inner: QueueEndpoint<V>, role: Role, sends: SendLog<V>)
      ensures this.inner == inner && this.role == role && this.sends == sends
      ensures calls == []
    {
      this.inner := inner;
      this.role := role;
      this.sends := sends;
      calls := [];
    }

    method Send(value: V, roles: seq<Role>)
      modifies this, sends, inner
      ensures calls == old(calls) + [SendCall(value, roles)]
      ensures sends.records == old(sends.records) + [TraceMessage(value, role, roles)]
      ensures inner.calls == old(inner.calls) + [SendCall(value, roles)]
      ensures inner.pending == old(inner.pending)
    {
      calls := calls + [SendCall(value, roles)];
      sends.Push(TraceMessage(value, role, roles));
      inner.Send(value, roles);
    }

    method Recv(from: Role) returns (v: Option<V>)
      modifies this, inner
      ensures calls == old(calls) + [RecvCall(from)]
      ensures sends.records == old(sends.records)
      ensures inner.calls == old(inner.calls) + [RecvCall(from)]
      ensures old(inner.pending) == [] ==> v == None && inner.pending == []
      ensures old(inner.pending) != [] ==> v == Some(old(inner.pending)[0]) && inner.pending == old(inner.pending)[1..]
    {
      calls := calls + [RecvCall(from)];
      v := inner.Recv(from);
    }
  }

  /**
   The transport an Env holds: the queue's endpoint itself, or a Tracer around one.
   Calls are dispatched to whichever it is.
   */
  datatype Transport<V> = Queue(endpoint: QueueEndpoint<V>) | Traced(tracer: Tracer<V>)
  {
    /** The objects a call on this transport may change. */
    function Repr(): set<object> {
      match this
      case Queue(q) => {q}
      case Traced(t) => {t, t.inner, t.sends}
    }

    /** The calls this transport received so far. */
    ghost function Calls(): seq<Call<V>>
      reads Repr()
    {
      match this
      case Queue(q) => q.calls
      case Traced(t) => t.calls
    }

    /** The values the queue behind this transport will still deliver. */
    ghost function Pending(): seq<V>
      reads Repr()
    {
      match this
      case Queue(q) => q.pending
      case Traced(t) => t.inner.pending
    }

    method Send(value: V, roles: seq<Role>)
      modifies Repr()
      ensures Calls() == old(Calls()) + [SendCall(value, roles)]
      ensures Pending() == old(Pending())
      ensures Traced? ==> tracer.sends.records == old(tracer.sends.records) + [TraceMessage(value, tracer.role, roles)]
      ensures Traced? ==> tracer.inner.calls == old(tracer.inner.calls) + [SendCall(value, roles)]
    {
      match this
      case Queue(q) => q.Send(value, roles);
      case Traced(t) => t.Send(value, roles);
    }

    method Recv(from: Role) returns (v: Option<V>)
      modifies Repr()
      ensures Calls() == old(Calls()) + [RecvCall(from)]
      ensures old(Pending()) == [] ==> v == None && Pending() == []
      ensures old(Pending()) != [] ==> v == Some(old(Pending())[0]) && Pending() == old(Pending())[1..]
      ensures Traced? ==> tracer.sends.records == old(tracer.sends.records)
      ensures Traced? ==> tracer.inner.calls == old(tracer.inner.calls) + [RecvCall(from)]
    {
      match this
      case Queue(q) => v := q.Recv(from);
      case Traced(t) => v := t.Recv(from);
    }
  }
}
