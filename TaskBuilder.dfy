// The task builder: a task is built by the first registered builder that
// supports the requested type. The builders' own construction work (done
// through a property accessor) is a parameter; their `support` tests are
// modelled for the shell, command and http builders.

module TaskBuilder {
  import opened Wrappers
  import opened Tasks
  import Php
  import FirstMatch

  /** A registered builder: one of the three bundled ones, or another one known by its position. */
  datatype Builder = ShellBuilder | CommandBuilder | HttpBuilder | OtherBuilder(id: nat)

  /**
   * What the builders do that is not modelled: other builders' `support`, and
   * every builder's `build`, which may throw (for example when the options
   * hold a nice value outside -20..19).
   */
  datatype Oracles = Oracles(support: (nat, string) -> bool, build: (Builder, map<string, Php.Value>) -> Result<Task>)

  /** `support(type)` of each builder: the bundled ones answer to one type name each. */
  predicate Supports(oracles: Oracles, b: Builder, kind: string)
  {
    match b
    case ShellBuilder => "shell" == kind
    case CommandBuilder => "command" == kind
    case HttpBuilder => "http" == kind
    case OtherBuilder(id) => oracles.support(id, kind)
  }

  function Supporting(oracles: Oracles, kind: string): Builder -> bool
  {
    (b: Builder) => Supports(oracles, b, kind)
  }

  function NoBuilderMessage(kind: string): string
  {
    "The task cannot be created as no builder has been defined for \"" + kind + "\""
  }

  /**
   * `create(options)` for `options['type'] == kind`: the first builder, in
   * order, that supports the type builds the task from the options, and what
   * that `build` throws propagates; when none supports it (in particular when
   * there are no builders) the type is rejected.
   */
  function Create(oracles: Oracles, builders: seq<Builder>, options: map<string, Php.Value>, kind: string): (r: Result<Task>)
    ensures (exists i :: 0 <= i < |builders| && Supports(oracles, builders[i], kind)) ==>
      exists i :: 0 <= i < |builders| && Supports(oracles, builders[i], kind)
        && (forall j :: 0 <= j < i ==> !Supports(oracles, builders[j], kind))
        && r == oracles.build(builders[i], options)
    ensures (forall i :: 0 <= i < |builders| ==> !Supports(oracles, builders[i], kind)) ==>
      r == Err(InvalidArgument(NoBuilderMessage(kind)))
    ensures builders == [] ==> r == Err(InvalidArgument(NoBuilderMessage(kind)))
  {
    match FirstMatch.First(builders, Supporting(oracles, kind))
    case Some(i) => oracles.build(builders[i], options)
    case None => Err(InvalidArgument(NoBuilderMessage(kind)))
  }

  /** Builders registered after the first supporting one are never consulted: adding more changes nothing. */
  lemma LaterBuildersIgnored(oracles: Oracles, builders: seq<Builder>, more: seq<Builder>, options: map<string, Php.Value>, kind: string)
    requires exists i :: 0 <= i < |builders| && Supports(oracles, builders[i], kind)
    ensures Create(oracles, builders + more, options, kind) == Create(oracles, builders, options, kind)
  {
    FirstMatch.FirstIgnoresLater(builders, more, Supporting(oracles, kind));
  }

  /** With the three bundled builders, each of their types is built by its own builder and any other type is rejected. */
  lemma BundledBuilders(oracles: Oracles, options: map<string, Php.Value>, kind: string)
    ensures var builders := [ShellBuilder, CommandBuilder, HttpBuilder];
      && (kind == "shell" ==> Create(oracles, builders, options, kind) == oracles.build(ShellBuilder, options))
      && (kind == "command" ==> Create(oracles, builders, options, kind) == oracles.build(CommandBuilder, options))
      && (kind == "http" ==> Create(oracles, builders, options, kind) == oracles.build(HttpBuilder, options))
      && (kind !in {"shell", "command", "http"} ==>
            Create(oracles, builders, options, kind) == Err(InvalidArgument(NoBuilderMessage(kind))))
  {
    var builders := [ShellBuilder, CommandBuilder, HttpBuilder];
    var supporting := Supporting(oracles, kind);
    assert "shell" != "command" && "shell" != "http" && "command" != "http";
    if kind == "shell" {
      assert supporting(builders[0]);
    } else if kind == "command" {
      assert !supporting(builders[0]) && supporting(builders[1]);
    } else if kind == "http" {
      assert !supporting(builders[0]) && !supporting(builders[1]) && supporting(builders[2]);
    } else {
      assert forall i :: 0 <= i < |builders| ==> !supporting(builders[i]);
    }
  }
}
