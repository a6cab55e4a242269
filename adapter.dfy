/** `Knowledge::Adapters::Ssm`: built from its options, it fetches its
    snapshot once, and `run` hands every declared variable's resolved value
    to the setter. */
module Adapter {
  import opened Wrappers
  import opened Values
  import opened Matching
  import opened Fetching

  /** One `setter.set(name:, value:)` call. */
  datatype Assignment = Assignment(name: string, value: Value)

  /** The project's setter, as the calls it has received, oldest first. */
  class Setter {
    var log: seq<Assignment>

    constructor ()
      ensures log == []
    {
      log := [];
    }

    method Set(name: string, value: Value)
      modifies this
      ensures log == old(log) + [Assignment(name, value)]
    {
      log := log + [Assignment(name, value)];
    }
  }

  /** The options the adapter reads: `client`, `raise_on_parameter_not_found`
      and `root_path`, each possibly absent. */
  datatype Params = Params(client: Option<Client>, raiseOnParameterNotFound: Option<bool>, rootPath: Option<string>)

  /** The body of `run`'s block for one variable. */
  function Resolution(rootPath: Option<string>, snapshot: seq<Parameter>, variable: (string, Declared)): (a: Assignment)
    ensures a.name == variable.0
    // the value set is the one found under the qualified path, or the declared default
    ensures a.value == LookupValue(snapshot, QualifiedPath(rootPath, variable.1.path)) || a.value == variable.1.DefaultOf()
    ensures variable.1.Bare? ==> a.value == LookupValue(snapshot, QualifiedPath(rootPath, variable.1.path))
  {
    var (name, declared) := variable;
    Assignment(name, ExtractValue(LookupValue(snapshot, QualifiedPath(rootPath, declared.path)), declared.DefaultOf()))
  }

  /** The calls `run` makes on the setter, in declaration order. */
  function Assignments(rootPath: Option<string>, snapshot: seq<Parameter>, variables: seq<(string, Declared)>)
    : (r: seq<Assignment>)
    // one call per variable, carrying the variables' names in declaration order
    ensures |r| == |variables|
    ensures forall i :: 0 <= i < |variables| ==> r[i].name == variables[i].0
  {
    if |variables| == 0 then []
    else
      assert forall i :: 1 <= i < |variables| ==> variables[i] == variables[1..][i - 1];
      [Resolution(rootPath, snapshot, variables[0])] + Assignments(rootPath, snapshot, variables[1..])
  }

  lemma {:induction false} AssignmentsSnoc(rootPath: Option<string>, snapshot: seq<Parameter>,
                                           variables: seq<(string, Declared)>, variable: (string, Declared))
    ensures Assignments(rootPath, snapshot, variables + [variable])
            == Assignments(rootPath, snapshot, variables) + [Resolution(rootPath, snapshot, variable)]
  {
    if |variables| > 0 {
      assert (variables + [variable])[1..] == variables[1..] + [variable];
      AssignmentsSnoc(rootPath, snapshot, variables[1..], variable);
    } else {
      assert variables + [variable] == [variable];
    }
  }

  /** `run` sets every declared variable exactly once, in declaration order,
      to the default-fallback of the value of the first snapshot entry named
      by its qualified path (nil when none is). */
  lemma {:induction false} AssignmentsAt(rootPath: Option<string>, snapshot: seq<Parameter>,
                                         variables: seq<(string, Declared)>, k: nat)
    requires k < |variables|
    ensures |Assignments(rootPath, snapshot, variables)| == |variables|
    ensures Assignments(rootPath, snapshot, variables)[k]
            == Assignment(variables[k].0,
                          ExtractValue(LookupValue(snapshot, QualifiedPath(rootPath, variables[k].1.path)),
                                       variables[k].1.DefaultOf()))
  {
    var all := Assignments(rootPath, snapshot, variables);
    assert all == [Resolution(rootPath, snapshot, variables[0])] + Assignments(rootPath, snapshot, variables[1..]);
    if k > 0 {
      AssignmentsAt(rootPath, snapshot, variables[1..], k - 1);
      assert variables[1..][k - 1] == variables[k];
      assert all[k] == Assignments(rootPath, snapshot, variables[1..])[k - 1];
    } else {
      assert all[0] == Resolution(rootPath, snapshot, variables[0]);
    }
  }

  /** A bare declared path found in the snapshot is set to the value found,
      under a root path without a trailing `/` and under none: with `/root`
      or no root, `/path/to/variable` holding `foo` sets `foo`. */
  lemma RunSetsFoundValue(rootPath: Option<string>, name: string, rest: string, value: Value)
    requires rootPath.Some? ==> |rootPath.value| == 0 || rootPath.value[|rootPath.value| - 1] != '/'
    ensures Assignments(rootPath, [Parameter("/" + rest, value)], [(name, Bare("/" + rest))])
            == [Assignment(name, value)]
  {
    QualifiedPathStripsOneSeparator(rootPath, rest);
    assert BasePath(rootPath) == "";
  }

  /** With a declared default, an empty value is replaced by the default and
      a `false` value is kept. */
  lemma RunAppliesDefaults(name: string, rest: string, default: Value)
    requires default != Nil
    ensures Assignments(None, [Parameter("/" + rest, Str(""))], [(name, WithDefault("/" + rest, default))])
            == [Assignment(name, default)]
    ensures Assignments(None, [Parameter("/" + rest, Bool(false))], [(name, WithDefault("/" + rest, default))])
            == [Assignment(name, Bool(false))]
  {
    QualifiedPathStripsOneSeparator(None, rest);
  }

  class Ssm {
    const client: Client
    const raiseNotFound: bool
    const rootPath: Option<string>
    const ssmParameters: seq<Parameter>
    const variables: seq<(string, Declared)>
    const setter: Setter

    constructor (client: Client, raiseNotFound: bool, rootPath: Option<string>,
                 ssmParameters: seq<Parameter>, variables: seq<(string, Declared)>, setter: Setter)
      ensures this.client == client
      ensures this.raiseNotFound == raiseNotFound && this.rootPath == rootPath
      ensures this.ssmParameters == ssmParameters && this.variables == variables && this.setter == setter
    {
      this.client := client;
      this.raiseNotFound := raiseNotFound;
      this.rootPath := rootPath;
      this.ssmParameters := ssmParameters;
      this.variables := variables;
      this.setter := setter;
    }

    /** `initialize`: reads the options (the client falls back to
        `defaultClient`, `raise_not_found` to false), then fetches the
        snapshot once, in tree mode iff a root path is given. A failed fetch
        means no adapter. `bound` is any number of requests within which
        the store ends a tree listing. */
    static method Create(params: Params, setter: Setter, variables: seq<(string, Declared)>,
                         defaultClient: Client, ghost bound: nat)
      returns (r: Result<Ssm, Failure>)
      requires params.rootPath.Some? ==>
                 Walk(params.client.GetOr(defaultClient).getParametersByPath, params.rootPath.value, None, bound).Some?
      ensures var client := params.client.GetOr(defaultClient);
              var raiseNotFound := params.raiseOnParameterNotFound.GetOr(false);
              var snapshot := if params.rootPath.Some?
                              then Walk(client.getParametersByPath, params.rootPath.value, None, bound).value.outcome
                              else FetchParameters(client, raiseNotFound, variables);
              match r
              case Success(adapter) =>
                fresh(adapter) && snapshot == Success(adapter.ssmParameters) && adapter.client == client &&
                adapter.raiseNotFound == raiseNotFound && adapter.rootPath == params.rootPath &&
                adapter.variables == variables && adapter.setter == setter
              case Failure(e) =>
                snapshot == Failure(e)
    {
      var client := params.client.GetOr(defaultClient);
      var raiseNotFound := params.raiseOnParameterNotFound.GetOr(false);
      var snapshot := FetchSnapshot(client, raiseNotFound, params.rootPath, variables, bound);
      match snapshot
      case Failure(e) =>
        r := Failure(e);
      case Success(parameters) =>
        var adapter := new Ssm(client, raiseNotFound, params.rootPath, parameters, variables, setter);
        r := Success(adapter);
    }

    /** `run`: one `setter.set` per declared variable, in order. */
    method Run()
      modifies setter
      ensures setter.log == old(setter.log) + Assignments(rootPath, ssmParameters, variables)
    {
      var i := 0;
      while i < |variables|
        invariant 0 <= i <= |variables|
        invariant setter.log == old(setter.log) + Assignments(rootPath, ssmParameters, variables[..i])
      {
        var (name, declared) := variables[i];
        var path := QualifiedPath(rootPath, declared.path);
        var value := LookupValue(ssmParameters, path);
        setter.Set(name, ExtractValue(value, declared.DefaultOf()));
        assert Assignment(name, ExtractValue(value, declared.DefaultOf())) == Resolution(rootPath, ssmParameters, variables[i]);
        AssignmentsSnoc(rootPath, ssmParameters, variables[..i], variables[i]);
        assert variables[..i + 1] == variables[..i] + [variables[i]];
        i := i + 1;
      }
      assert variables[..i] == variables;
    }
  }
}
