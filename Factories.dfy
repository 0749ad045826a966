// The transport factories: which DSNs each one accepts, how the composite
// factories split their DSN and hand each part to the factories they were
// given, and the options the filesystem factory assembles.

module TransportFactories {
  import opened Wrappers
  import Php
  import Tasks
  import RoundRobin
  import Filesystem
  import ExecutionMode

  /** The parts of a parsed DSN the factories read: its host, its positional options and its named ones. */
  datatype Dsn = Dsn(host: string, positional: seq<string>, named: map<string, string>)

  /**
   * A factory handed to a composite factory: its `support` test, and what its
   * `createTransport` does with the DSN string (parsing it and building a
   * transport, or throwing).
   */
  datatype Factory = Factory(support: string -> bool, create: string -> Outcome)

  /** One `createTransport` call made on the factory at index `factory`. */
  datatype Call = Call(dsn: string, factory: nat)

  /** The calls made while walking the DSN parts, and whether one of them threw. */
  datatype Walked = Walked(calls: seq<Call>, outcome: Outcome)

  /** The failover transport is identified by the transports it is built with. */
  datatype FailoverTransport = FailoverTransport(transports: seq<nat>)

  predicate FailoverSupport(dsn: string)
  {
    Php.StartsWith(dsn, "failover://") || Php.StartsWith(dsn, "fo://")
  }

  predicate RoundRobinSupport(dsn: string)
  {
    Php.StartsWith(dsn, "roundrobin://") || Php.StartsWith(dsn, "rr://")
  }

  predicate FilesystemSupport(dsn: string)
  {
    Php.StartsWith(dsn, "fs://") || Php.StartsWith(dsn, "filesystem://") || Php.StartsWith(dsn, "file://")
  }

  const FailoverSeparator: string := " || "
  const RoundRobinSeparator: string := " && "
  const RoundRobinMissingMessage: string := "The round robin transport cannot be created"

  // ---- the walk over DSN parts and factories ----

  /** The calls one DSN part causes, asking the factories from index `from` on. */
  function PartSpec(part: string, factories: seq<Factory>, from: nat): Walked
    decreases |factories| - from
  {
    if from >= |factories| then Walked([], Outcome.Done)
    else if !factories[from].support(part) then PartSpec(part, factories, from + 1)
    else match factories[from].create(part)
      case Fail(e) => Walked([Call(part, from)], Fail(e))
      case Done => Then([Call(part, from)], PartSpec(part, factories, from + 1))
  }

  /** `array_walk` over the parts: each part asks every factory in turn; the first exception ends the walk. */
  function WalkSpec(parts: seq<string>, factories: seq<Factory>): Walked
    decreases |parts|
  {
    if parts == [] then Walked([], Outcome.Done)
    else
      var first := PartSpec(parts[0], factories, 0);
      if first.outcome.Fail? then first
      else Then(first.calls, WalkSpec(parts[1..], factories))
  }

  /** Calls already made, followed by what comes next. */
  function Then(calls: seq<Call>, next: Walked): Walked
  {
    Walked(calls + next.calls, next.outcome)
  }

  method WalkPart(part: string, factories: seq<Factory>) returns (calls: seq<Call>, outcome: Outcome)
    ensures Walked(calls, outcome) == PartSpec(part, factories, 0)
  {
    calls := [];
    var j := 0;
    while j < |factories|
      invariant 0 <= j <= |factories|
      invariant PartSpec(part, factories, 0) == Then(calls, PartSpec(part, factories, j))
    {
      if factories[j].support(part) {
        var created := factories[j].create(part);
        if created.Fail? {
          return calls + [Call(part, j)], created;
        }
        assert calls + [Call(part, j)] + PartSpec(part, factories, j + 1).calls
          == calls + ([Call(part, j)] + PartSpec(part, factories, j + 1).calls);
        calls := calls + [Call(part, j)];
      }
      j := j + 1;
    }
    outcome := Outcome.Done;
    assert calls + [] == calls;
  }

  method Walk(parts: seq<string>, factories: seq<Factory>) returns (calls: seq<Call>, outcome: Outcome)
    ensures Walked(calls, outcome) == WalkSpec(parts, factories)
  {
    calls := [];
    var i := 0;
    while i < |parts|
      invariant 0 <= i <= |parts|
      invariant WalkSpec(parts, factories) == Then(calls, WalkSpec(parts[i..], factories))
    {
      assert parts[i..][1..] == parts[i + 1..];
      var partCalls, partOutcome := WalkPart(parts[i], factories);
      if partOutcome.Fail? {
        return calls + partCalls, partOutcome;
      }
      assert calls + partCalls + WalkSpec(parts[i + 1..], factories).calls
        == calls + (partCalls + WalkSpec(parts[i + 1..], factories).calls);
      calls := calls + partCalls;
      i := i + 1;
    }
    outcome := Outcome.Done;
    assert calls + [] == calls;
  }

  // ---- the three factories ----

  /** The DSN's first positional option; a missing one reads as null, which `explode` takes as "". */
  function FirstOption(dsn: Dsn): string
  {
    if |dsn.positional| == 0 then "" else dsn.positional[0]
  }

  function FailoverParts(dsn: Dsn): seq<string>
  {
    Php.Explode(FailoverSeparator, FirstOption(dsn))
  }

  function RoundRobinParts(dsn: Dsn): seq<string>
  {
    Php.Explode(RoundRobinSeparator, FirstOption(dsn))
  }

  /**
   * `FailoverTransportFactory::createTransport`: the parts are walked, and the
   * transport is built with the outer array the closure captured by value,
   * which stays empty.
   */
  method CreateFailover(dsn: Dsn, factories: seq<Factory>) returns (r: Result<FailoverTransport>, calls: seq<Call>)
    ensures calls == WalkSpec(FailoverParts(dsn), factories).calls
    ensures r.Err? <==> WalkSpec(FailoverParts(dsn), factories).outcome.Fail?
    ensures r.Err? ==> r.error == WalkSpec(FailoverParts(dsn), factories).outcome.error
    ensures r.Ok? ==> r.value.transports == []
  {
    var parts := Php.Explode(FailoverSeparator, FirstOption(dsn));
    var transports: seq<nat> := [];
    var outcome;
    calls, outcome := Walk(parts, factories);
    if outcome.Fail? {
      return Err(outcome.error), calls;
    }
    r := Ok(FailoverTransport(transports));
  }

  /**
   * `RoundRobinTransportFactory::createTransport`: an empty first option is
   * refused before any factory is asked; otherwise as for failover, and the
   * transport gets an empty array and default options.
   */
  method CreateRoundRobin(dsn: Dsn, factories: seq<Factory>) returns (r: Result<RoundRobin.RoundRobinTransport>, calls: seq<Call>)
    ensures Php.EmptyString(FirstOption(dsn)) ==> r == Err(Logic(RoundRobinMissingMessage)) && calls == []
    ensures !Php.EmptyString(FirstOption(dsn)) ==>
              && calls == WalkSpec(RoundRobinParts(dsn), factories).calls
              && (r.Err? <==> WalkSpec(RoundRobinParts(dsn), factories).outcome.Fail?)
              && (r.Err? ==> r.error == WalkSpec(RoundRobinParts(dsn), factories).outcome.error)
    ensures r.Ok? ==> r.value.transports == [] && RoundRobin.GetOptions(r.value) == RoundRobin.DefaultOptions
  {
    var list := FirstOption(dsn);
    if list == "" || list == "0" {
      return Err(Logic(RoundRobinMissingMessage)), [];
    }
    var parts := Php.Explode(RoundRobinSeparator, list);
    var transports: seq<nat> := [];
    var outcome;
    calls, outcome := Walk(parts, factories);
    if outcome.Fail? {
      return Err(outcome.error), calls;
    }
    r := Ok(RoundRobin.New(transports, map[]));
  }

  /** The options the filesystem factory passes on: `execution_mode` from the host, `path` from the DSN, then the caller's. */
  function FinalOptions(dsn: Dsn, options: map<string, Php.Value>): map<string, Php.Value>
  {
    map["execution_mode" := Php.Str(dsn.host), "path" := DsnPath(dsn)] + options
  }

  /** `$dsn->getOption('path')`, null when absent. */
  function DsnPath(dsn: Dsn): Php.Value
  {
    if "path" in dsn.named then Php.Str(dsn.named["path"]) else Php.Null
  }

  /**
   * `FilesystemTransportFactory::createTransport`: the transport's directory is
   * the DSN's `path` (the temporary directory when absent) and its options
   * are `FinalOptions`.
   */
  method CreateFilesystem(dsn: Dsn, options: map<string, Php.Value>, tempDir: string, existing: map<string, Tasks.Task>)
    returns (r: Result<Filesystem.FilesystemTransport>)
    requires Filesystem.NamedFiles(existing)
    ensures r.Err? <==> ExecutionMode.NewOrchestrator(ExecutionMode.ModeOption(FinalOptions(dsn, options))).Err?
    ensures r.Ok? ==>
              && fresh(r.value) && r.value.files == existing
              && r.value.path == (if "path" in dsn.named then dsn.named["path"] else tempDir)
              && r.value.GetOptions() == FinalOptions(dsn, options)
  {
    var path := if "path" in dsn.named then Some(dsn.named["path"]) else None;
    r := Filesystem.New(path, tempDir, FinalOptions(dsn, options), existing);
  }

  // ---- what the factories promise ----

  /** Each factory accepts its own schemes and not the `test://` scheme. */
  lemma SupportExamples()
    ensures FailoverSupport("failover://") && FailoverSupport("fo://") && !FailoverSupport("test://")
    ensures RoundRobinSupport("roundrobin://") && RoundRobinSupport("rr://") && !RoundRobinSupport("test://")
    ensures FilesystemSupport("fs://") && FilesystemSupport("file://") && FilesystemSupport("filesystem://")
    ensures !FilesystemSupport("test://")
  {
    var t := "test://";
    assert t[..5][0] == 't';
    assert t[..5] != "fo://" && t[..5] != "rr://" && t[..5] != "fs://";
  }

  /** Only a factory that supports the part is ever asked to create from it. */
  lemma {:induction false} PartCallsSupported(part: string, factories: seq<Factory>, from: nat)
    ensures forall c :: c in PartSpec(part, factories, from).calls ==>
      c.dsn == part && from <= c.factory < |factories| && factories[c.factory].support(part)
    decreases |factories| - from
  {
    if from < |factories| {
      PartCallsSupported(part, factories, from + 1);
    }
  }

  /** When no factory throws, every supporting factory is asked once for the part. */
  lemma {:induction false} PartCallsComplete(part: string, factories: seq<Factory>, from: nat, k: nat)
    requires PartSpec(part, factories, from).outcome == Outcome.Done
    requires from <= k < |factories| && factories[k].support(part)
    ensures Call(part, k) in PartSpec(part, factories, from).calls
    decreases |factories| - from
  {
    if from < k {
      PartCallsComplete(part, factories, from + 1, k);
    }
  }

  /** Every call is for one of the parts, to a factory that supports it. */
  lemma {:induction false} WalkCallsSupported(parts: seq<string>, factories: seq<Factory>)
    ensures forall c :: c in WalkSpec(parts, factories).calls ==>
      c.dsn in parts && c.factory < |factories| && factories[c.factory].support(c.dsn)
    decreases |parts|
  {
    if parts != [] {
      PartCallsSupported(parts[0], factories, 0);
      WalkCallsSupported(parts[1..], factories);
      forall c | c in WalkSpec(parts[1..], factories).calls ensures c.dsn in parts {
        assert c.dsn in parts[1..];
      }
    }
  }

  /** A walk that completes asks every factory that supports a part for that part. */
  lemma {:induction false} WalkCallsComplete(parts: seq<string>, factories: seq<Factory>, p: string, k: nat)
    requires WalkSpec(parts, factories).outcome == Outcome.Done
    requires p in parts && k < |factories| && factories[k].support(p)
    ensures Call(p, k) in WalkSpec(parts, factories).calls
    decreases |parts|
  {
    var first := PartSpec(parts[0], factories, 0);
    if parts[0] == p {
      PartCallsComplete(p, factories, 0, k);
    } else {
      assert p in parts[1..];
      WalkCallsComplete(parts[1..], factories, p, k);
    }
  }

  // ---- the transports the walk creates: the by-reference capture the code evidently intends ----

  /** One transport per `createTransport` call, identified by the index of the factory that built it. */
  function Created(calls: seq<Call>): (ts: seq<nat>)
    ensures |ts| == |calls|
    ensures forall i :: 0 <= i < |calls| ==> ts[i] == calls[i].factory
  {
    if calls == [] then [] else Created(calls[..|calls| - 1]) + [calls[|calls| - 1].factory]
  }

  /** Failover creation with `use (&$transports)`: the transport is built with every transport the walk created. */
  function IntendedFailover(dsn: Dsn, factories: seq<Factory>): Result<FailoverTransport>
  {
    var w := WalkSpec(FailoverParts(dsn), factories);
    if w.outcome.Fail? then Err(w.outcome.error) else Ok(FailoverTransport(Created(w.calls)))
  }

  /** Round-robin creation with `use (&$transports)`: the empty-option check, then the walk's transports and default options. */
  function IntendedRoundRobin(dsn: Dsn, factories: seq<Factory>): Result<RoundRobin.RoundRobinTransport>
  {
    if Php.EmptyString(FirstOption(dsn)) then Err(Logic(RoundRobinMissingMessage))
    else
      var w := WalkSpec(RoundRobinParts(dsn), factories);
      if w.outcome.Fail? then Err(w.outcome.error) else Ok(RoundRobin.New(Created(w.calls), map[]))
  }

  /** The walk's transports come from factories supporting one of the parts, and a completed walk has one from each such factory. */
  lemma {:induction false} CreatedByTheWalk(parts: seq<string>, factories: seq<Factory>, p: string, k: nat)
    ensures forall t :: t in Created(WalkSpec(parts, factories).calls) ==>
      t < |factories| && exists q :: q in parts && factories[t].support(q)
    ensures WalkSpec(parts, factories).outcome == Outcome.Done && p in parts && k < |factories| && factories[k].support(p)
      ==> k in Created(WalkSpec(parts, factories).calls)
  {
    var calls := WalkSpec(parts, factories).calls;
    WalkCallsSupported(parts, factories);
    forall t | t in Created(calls) ensures t < |factories| && exists q :: q in parts && factories[t].support(q) {
      var i :| 0 <= i < |calls| && Created(calls)[i] == t;
      assert calls[i] in calls;
    }
    if WalkSpec(parts, factories).outcome == Outcome.Done && p in parts && k < |factories| && factories[k].support(p) {
      WalkCallsComplete(parts, factories, p, k);
      var i :| 0 <= i < |calls| && calls[i] == Call(p, k);
      assert Created(calls)[i] == k;
    }
  }

  /**
   * With the intended capture, a completed failover walk hands the transport
   * every transport it created: exactly one per call, each from a supporting factory.
   */
  lemma {:induction false} IntendedFailoverKeepsCreated(dsn: Dsn, factories: seq<Factory>, p: string, k: nat)
    requires WalkSpec(FailoverParts(dsn), factories).outcome == Outcome.Done
    requires p in FailoverParts(dsn) && k < |factories| && factories[k].support(p)
    ensures IntendedFailover(dsn, factories).Ok?
    ensures |IntendedFailover(dsn, factories).value.transports| == |WalkSpec(FailoverParts(dsn), factories).calls|
    ensures k in IntendedFailover(dsn, factories).value.transports
  {
    CreatedByTheWalk(FailoverParts(dsn), factories, p, k);
  }

  /**
   * With the intended capture, a completed round-robin walk that created a
   * transport gives a round-robin transport holding it, so its operations fail
   * with the all-failed message rather than `No transport found`, the answer
   * of the empty array the by-value capture leaves.
   */
  lemma {:induction false} IntendedRoundRobinKeepsCreated(dsn: Dsn, factories: seq<Factory>, p: string, k: nat, op: RoundRobin.StoreOp)
    requires !Php.EmptyString(FirstOption(dsn))
    requires WalkSpec(RoundRobinParts(dsn), factories).outcome == Outcome.Done
    requires p in RoundRobinParts(dsn) && k < |factories| && factories[k].support(p)
    ensures IntendedRoundRobin(dsn, factories).Ok?
    ensures k in IntendedRoundRobin(dsn, factories).value.transports
    ensures RoundRobin.Execute(IntendedRoundRobin(dsn, factories).value, op).error.message == RoundRobin.AllFailedMessage
    ensures RoundRobin.Execute(RoundRobin.New([], map[]), op).error.message == RoundRobin.NoTransportMessage
  {
    CreatedByTheWalk(RoundRobinParts(dsn), factories, p, k);
  }

  /** A DSN without separator is a single part. */
  lemma SinglePart(dsn: Dsn)
    requires !Php.Contains(FirstOption(dsn), FailoverSeparator)
    ensures FailoverParts(dsn) == [FirstOption(dsn)]
  {
    Php.ExplodeWithoutSeparator(FailoverSeparator, FirstOption(dsn));
  }

  /** The caller's options win over the two the DSN supplies; the DSN fills in what the caller left out. */
  lemma FinalOptionsPrecedence(dsn: Dsn, options: map<string, Php.Value>)
    ensures forall k :: k in options ==> FinalOptions(dsn, options)[k] == options[k]
    ensures "execution_mode" !in options ==> FinalOptions(dsn, options)["execution_mode"] == Php.Str(dsn.host)
    ensures "path" !in options ==> FinalOptions(dsn, options)["path"] == DsnPath(dsn)
    ensures FinalOptions(dsn, options).Keys == options.Keys + {"execution_mode", "path"}
  {
  }

  /** Without a caller mode, the transport is created exactly when the DSN's host names a mode. */
  lemma FilesystemModeFromHost(dsn: Dsn, options: map<string, Php.Value>)
    requires "execution_mode" !in options
    ensures ExecutionMode.NewOrchestrator(ExecutionMode.ModeOption(FinalOptions(dsn, options)))
      == ExecutionMode.NewOrchestrator(dsn.host)
  {
  }
}
