// The round-robin transport: a set of inner transports and a `quantum`
// option. Every store operation refuses, whatever the inner transports are.

module RoundRobin {
  import opened Wrappers
  import opened Tasks
  import Php

  /** The store operations of the transport interface. */
  datatype StoreOp =
    | Get(name: string)
    | List
    | Create(task: Task)
    | Update(name: string, task: Task)
    | Delete(name: string)
    | Pause(name: string)
    | Resume(name: string)
    | Clear

  /** What a store operation hands back when it succeeds. */
  datatype Answer = OneTask(task: Task) | Tasks(tasks: seq<Task>) | Nothing

  /**
   * The transport; `transports` identifies the inner transports it was given,
   * which it never calls.
   */
  datatype RoundRobinTransport = RoundRobinTransport(transports: seq<nat>, options: map<string, Php.Value>)

  const DefaultOptions: map<string, Php.Value> := map["quantum" := Php.Int(2)]

  const NoTransportMessage: string := "No transport found"
  const AllFailedMessage: string := "All the transports failed to execute the requested action"

  /** The constructor: the defaults, overridden key by key by the given options. */
  function New(transports: seq<nat>, options: map<string, Php.Value>): (r: RoundRobinTransport)
    ensures r.transports == transports
    ensures r.options.Keys == options.Keys + {"quantum"}
    ensures "quantum" !in options ==> r.options["quantum"] == Php.Int(2)
    ensures forall k :: k in options ==> r.options[k] == options[k]
  {
    RoundRobinTransport(transports, DefaultOptions + options)
  }

  function GetOptions(t: RoundRobinTransport): map<string, Php.Value>
  {
    t.options
  }

  /** `execute(func)`: it never calls `func`; it throws, with a message saying whether there was any transport. */
  function Execute(t: RoundRobinTransport, op: StoreOp): (r: Result<Answer>)
    ensures r.Err? && r.error.TransportFailure?
    ensures r.error.message == NoTransportMessage <==> t.transports == []
    ensures r.error.message == AllFailedMessage <==> t.transports != []
  {
    if |t.transports| == 0 then Err(TransportFailure(NoTransportMessage))
    else Err(TransportFailure(AllFailedMessage))
  }

  /** Which operation is asked for makes no difference: the inner transports are never reached. */
  lemma ExecuteIgnoresOperation(t: RoundRobinTransport, a: StoreOp, b: StoreOp)
    ensures Execute(t, a) == Execute(t, b)
  {
  }

  /** A transport built without options has a quantum of 2, and an explicit quantum is kept. */
  lemma QuantumDefault(transports: seq<nat>, q: Php.Value)
    ensures GetOptions(New(transports, map[])) == map["quantum" := Php.Int(2)]
    ensures GetOptions(New(transports, map["quantum" := q]))["quantum"] == q
  {
  }
}
