/** The linear solver process node: it keeps the variables the caller pins
    to a value, tracks which of its inputs changed, and hands the program
    to a solver backend only where something changed. The backend is
    represented by what it has been told: its number of variables, its
    variable types, its objective, its constraints and its pinned
    variables. */
module Inference {

  datatype Option<T> = None | Some(value: T)

  datatype VariableType = Continuous | Integer | Binary

  datatype Relation = LessEqual | Equal | GreaterEqual

  /** A linear constraint: coefficients by variable, a relation and a
      value. */
  datatype LinearConstraint = LinearConstraint(coefficients: map<nat, real>, relation: Relation, value: real)

  /** A linear objective: one coefficient per variable, from variable 0
      on. */
  datatype LinearObjective = LinearObjective(coefficients: seq<real>, minimize: bool)

  /** The solver parameters: the type of every variable not listed among
      the special ones. */
  datatype SolverParameters = SolverParameters(defaultType: VariableType, specialTypes: map<nat, VariableType>)

  /** Every variable a constraint mentions is below n. */
  ghost predicate Covers(constraints: seq<LinearConstraint>, n: nat) {
    forall i, v | 0 <= i < |constraints| && v in constraints[i].coefficients :: v < n
  }

  /** n is one past a variable some constraint mentions. */
  ghost predicate Reached(constraints: seq<LinearConstraint>, n: nat) {
    exists i, v | 0 <= i < |constraints| && v in constraints[i].coefficients :: n == v + 1
  }

  /** getNumVariables: the larger of the objective's size and one past the
      largest variable of any constraint. */
  method GetNumVariables(objective: LinearObjective, constraints: seq<LinearConstraint>) returns (numVars: nat)
    ensures numVars >= |objective.coefficients| && Covers(constraints, numVars)
    ensures numVars == |objective.coefficients| || Reached(constraints, numVars)
  {
    numVars := |objective.coefficients|;
    for i := 0 to |constraints|
      invariant numVars >= |objective.coefficients| && Covers(constraints[..i], numVars)
      invariant numVars == |objective.coefficients| || Reached(constraints[..i], numVars)
    {
      var rest := constraints[i].coefficients.Keys;
      ghost var seen: set<nat> := {};
      while rest != {}
        invariant rest + seen == constraints[i].coefficients.Keys && rest !! seen
        invariant numVars >= |objective.coefficients| && Covers(constraints[..i], numVars)
        invariant forall v | v in seen :: v < numVars
        invariant numVars == |objective.coefficients| || Reached(constraints[..i], numVars) ||
                  exists v | v in seen :: numVars == v + 1
        decreases rest
      {
        var v :| v in rest;
        if v + 1 > numVars {
          numVars := v + 1;
        }
        rest, seen := rest - {v}, seen + {v};
      }
      assert constraints[..i + 1] == constraints[..i] + [constraints[i]];
      if numVars != |objective.coefficients| && !Reached(constraints[..i], numVars) {
        var v :| v in seen && numVars == v + 1;
        assert constraints[..i + 1][i] == constraints[i];
      }
    }
    assert constraints[..|constraints|] == constraints;
  }

  /** The backend's pins after pinning every pinned variable and then
      unpinning every unpinned one, as updateLinearProgram does. */
  function PinsAsWritten(backend: map<nat, real>, pinned: map<nat, real>, unpinned: set<nat>): map<nat, real> {
    (backend + pinned) - unpinned
  }

  /** The backend's pins after unpinning first and pinning then. */
  function PinsUnpinsFirst(backend: map<nat, real>, pinned: map<nat, real>, unpinned: set<nat>): map<nat, real> {
    (backend - unpinned) + pinned
  }

  /** A variable pinned again after an unpin, before the program was
      updated, is in both sets: the order of updateLinearProgram leaves it
      unpinned in the backend though the solver holds it pinned. */
  lemma RepinnedIsLost(backend: map<nat, real>, pinned: map<nat, real>, unpinned: set<nat>, v: nat)
    requires v in pinned && v in unpinned
    ensures v !in PinsAsWritten(backend, pinned, unpinned)
  {
  }

  /** Unpinning first and pinning then leaves the backend with exactly the
      solver's pins, provided each backend pin the solver no longer holds
      is scheduled for unpinning. */
  lemma UnpinsFirstSyncs(backend: map<nat, real>, pinned: map<nat, real>, unpinned: set<nat>)
    requires backend.Keys - pinned.Keys <= unpinned
    ensures PinsUnpinsFirst(backend, pinned, unpinned) == pinned
  {
    var r := PinsUnpinsFirst(backend, pinned, unpinned);
    assert r.Keys == pinned.Keys by {
      forall v | v in r ensures v in pinned {
        if v !in pinned {
          assert false;
        }
      }
    }
  }

  /** The two orders agree when no variable is in both sets. */
  lemma OrdersAgreeWhenDisjoint(backend: map<nat, real>, pinned: map<nat, real>, unpinned: set<nat>)
    requires pinned.Keys !! unpinned
    ensures PinsAsWritten(backend, pinned, unpinned) == PinsUnpinsFirst(backend, pinned, unpinned)
  {
    var a, b := PinsAsWritten(backend, pinned, unpinned), PinsUnpinsFirst(backend, pinned, unpinned);
    assert a.Keys == b.Keys;
    forall v | v in a ensures a[v] == b[v] {
    }
  }

  /** The backend pins after the loop that pins each pinned variable. */
  method PinAll(backend: map<nat, real>, pinned: map<nat, real>) returns (pins: map<nat, real>)
    ensures pins == backend + pinned
  {
    pins := backend;
    var rest := pinned.Keys;
    while rest != {}
      invariant rest <= pinned.Keys
      invariant pins.Keys == backend.Keys + (pinned.Keys - rest)
      invariant forall v | v in pins :: pins[v] == if v in pinned && v !in rest then pinned[v] else backend[v]
      decreases rest
    {
      var v :| v in rest;
      pins := pins[v := pinned[v]];
      rest := rest - {v};
    }
  }

  /** The backend pins after the loop that unpins each unpinned variable. */
  method UnpinAll(backend: map<nat, real>, unpinned: set<nat>) returns (pins: map<nat, real>)
    ensures pins == backend - unpinned
  {
    pins := backend;
    var rest := unpinned;
    while rest != {}
      invariant rest <= unpinned
      invariant pins == backend - (unpinned - rest)
      decreases rest
    {
      var v :| v in rest;
      pins := pins - {v};
      rest := rest - {v};
    }
  }

  class LinearSolver {
    /** The inputs. */
    var objective: LinearObjective
    var constraints: seq<LinearConstraint>
    var parameters: Option<SolverParameters>

    /** Which inputs changed since the backend last got them. */
    var objectiveDirty: bool
    var linearConstraintsDirty: bool
    var parametersDirty: bool
    var pinnedChanged: bool
    /** The solution output is out of date. */
    var solutionDirty: bool

    /** The pinned variables with their values, and the variables unpinned
        since the last update. */
    var pinned: map<nat, real>
    var unpinned: set<nat>

    /** What the backend has been told. */
    var backendNumVariables: nat
    var backendTypes: SolverParameters
    var backendObjective: Option<LinearObjective>
    var backendConstraints: seq<LinearConstraint>
    var backendPins: map<nat, real>

    /** The backend holds the solver's pins, or the pins changed since; and
        every backend pin the solver no longer holds is scheduled for
        unpinning. */
    ghost predicate Valid()
      reads this
    {
      backendPins.Keys - pinned.Keys <= unpinned &&
      (!pinnedChanged ==> backendPins == pinned && unpinned == {})
    }

    /** A new solver: every input counts as changed, nothing is pinned. */
    constructor (objective: LinearObjective, constraints: seq<LinearConstraint>, parameters: Option<SolverParameters>)
      ensures Valid()
      ensures this.objective == objective && this.constraints == constraints && this.parameters == parameters
      ensures objectiveDirty && linearConstraintsDirty && parametersDirty && !pinnedChanged
      ensures pinned == map[] && unpinned == {} && backendPins == map[]
      ensures backendObjective == None && backendConstraints == []
    {
      this.objective, this.constraints, this.parameters := objective, constraints, parameters;
      objectiveDirty, linearConstraintsDirty, parametersDirty, pinnedChanged := true, true, true, false;
      solutionDirty := false;
      pinned, unpinned := map[], {};
      backendNumVariables, backendTypes := 0, SolverParameters(Continuous, map[]);
      backendObjective, backendConstraints, backendPins := None, [], map[];
    }

    /** pinVariable: nothing happens when the variable is pinned to that
        value already; otherwise it is pinned to it and the pins count as
        changed. */
    method PinVariable(v: nat, value: real)
      requires Valid()
      modifies this`pinned, this`pinnedChanged, this`solutionDirty
      ensures Valid()
      ensures old(v in pinned && pinned[v] == value) ==> unchanged(this)
      ensures !old(v in pinned && pinned[v] == value) ==>
        pinned == old(pinned)[v := value] && pinnedChanged && solutionDirty
    {
      if v in pinned && pinned[v] == value {
        return;
      }
      pinned := pinned[v := value];
      pinnedChanged := true;
      solutionDirty := true;
    }

    /** unpinVariable: true exactly when the variable was pinned, in which
        case it moves from the pinned to the unpinned variables; otherwise
        nothing changes. */
    method UnpinVariable(v: nat) returns (wasPinned: bool)
      requires Valid()
      modifies this`pinned, this`unpinned, this`pinnedChanged, this`solutionDirty
      ensures Valid()
      ensures wasPinned <==> v in old(pinned)
      ensures wasPinned ==>
        pinned == old(pinned) - {v} && unpinned == old(unpinned) + {v} && pinnedChanged && solutionDirty
      ensures !wasPinned ==> unchanged(this)
    {
      if v in pinned {
        pinned := pinned - {v};
        unpinned := unpinned + {v};
        pinnedChanged := true;
        solutionDirty := true;
        return true;
      }
      return false;
    }

    /** The callbacks of the three inputs: each marks its own input as
        changed and nothing else. */
    method OnObjectiveModified()
      modifies this`objectiveDirty
      ensures objectiveDirty
    {
      objectiveDirty := true;
    }

    method OnLinearConstraintsModified()
      modifies this`linearConstraintsDirty
      ensures linearConstraintsDirty
    {
      linearConstraintsDirty := true;
    }

    method OnParametersModified()
      modifies this`parametersDirty
      ensures parametersDirty
    {
      parametersDirty := true;
    }

    /** The steps of updateLinearProgram up to the pins: the backend is
        initialised, given the objective and given the constraints when
        they changed, and those flags are cleared. */
    method UpdateInputs()
      modifies this`parametersDirty, this`objectiveDirty, this`linearConstraintsDirty,
               this`backendNumVariables, this`backendTypes, this`backendObjective, this`backendConstraints
      ensures !parametersDirty && !objectiveDirty && !linearConstraintsDirty
      ensures old(parametersDirty) ==>
        backendNumVariables >= |objective.coefficients| && Covers(constraints, backendNumVariables) &&
        (backendNumVariables == |objective.coefficients| || Reached(constraints, backendNumVariables)) &&
        backendTypes == if parameters.Some? then parameters.value else SolverParameters(Continuous, map[])
      ensures !old(parametersDirty) ==>
        backendNumVariables == old(backendNumVariables) && backendTypes == old(backendTypes)
      ensures backendObjective == if old(objectiveDirty) then Some(objective) else old(backendObjective)
      ensures backendConstraints == if old(linearConstraintsDirty) then constraints else old(backendConstraints)
    {
      if parametersDirty {
        var n := GetNumVariables(objective, constraints);
        backendNumVariables := n;
        backendTypes := if parameters.Some? then parameters.value else SolverParameters(Continuous, map[]);
        parametersDirty := false;
      }
      if objectiveDirty {
        backendObjective := Some(objective);
        objectiveDirty := false;
      }
      if linearConstraintsDirty {
        backendConstraints := constraints;
        linearConstraintsDirty := false;
      }
    }

    /** The last step of updateLinearProgram as written: when the pins
        changed, every pinned variable is pinned in the backend and then
        every unpinned one unpinned, and the unpinned set and the flag are
        cleared. */
    method UpdatePins()
      modifies this`backendPins, this`unpinned, this`pinnedChanged
      ensures !pinnedChanged
      ensures backendPins ==
        if old(pinnedChanged) then PinsAsWritten(old(backendPins), pinned, old(unpinned)) else old(backendPins)
      ensures unpinned == if old(pinnedChanged) then {} else old(unpinned)
    {
      if pinnedChanged {
        var pins := PinAll(backendPins, pinned);
        pins := UnpinAll(pins, unpinned);
        backendPins := pins;
        unpinned := {};
        pinnedChanged := false;
      }
    }

    /** The same step with the unpins applied before the pins: the backend
        ends with exactly the solver's pins. */
    method UpdatePinsUnpinsFirst()
      requires Valid()
      modifies this`backendPins, this`unpinned, this`pinnedChanged
      ensures Valid() && backendPins == pinned && unpinned == {} && !pinnedChanged
    {
      if pinnedChanged {
        var pins := UnpinAll(backendPins, unpinned);
        pins := PinAll(pins, pinned);
        UnpinsFirstSyncs(backendPins, pinned, unpinned);
        backendPins := pins;
        unpinned := {};
        pinnedChanged := false;
      }
    }

    /** updateLinearProgram as written: the inputs that changed are handed
        to the backend, then the pins; the solver's pins stay as they
        are. */
    method UpdateLinearProgram()
      modifies this`parametersDirty, this`objectiveDirty, this`linearConstraintsDirty,
               this`backendNumVariables, this`backendTypes, this`backendObjective, this`backendConstraints,
               this`backendPins, this`unpinned, this`pinnedChanged
      ensures !parametersDirty && !objectiveDirty && !linearConstraintsDirty && !pinnedChanged
      ensures old(parametersDirty) ==>
        Covers(constraints, backendNumVariables) && backendNumVariables >= |objective.coefficients| &&
        (backendNumVariables == |objective.coefficients| || Reached(constraints, backendNumVariables)) &&
        backendTypes == if parameters.Some? then parameters.value else SolverParameters(Continuous, map[])
      ensures !old(parametersDirty) ==>
        backendNumVariables == old(backendNumVariables) && backendTypes == old(backendTypes)
      ensures backendObjective == if old(objectiveDirty) then Some(objective) else old(backendObjective)
      ensures backendConstraints == if old(linearConstraintsDirty) then constraints else old(backendConstraints)
      ensures backendPins ==
        if old(pinnedChanged) then PinsAsWritten(old(backendPins), pinned, old(unpinned)) else old(backendPins)
      ensures unpinned == if old(pinnedChanged) then {} else old(unpinned)
    {
      UpdateInputs();
      UpdatePins();
    }

    /** updateLinearProgram with the unpins applied first: as above, and the
        backend then holds exactly the solver's pins. */
    method UpdateLinearProgramUnpinsFirst()
      requires Valid()
      modifies this`parametersDirty, this`objectiveDirty, this`linearConstraintsDirty,
               this`backendNumVariables, this`backendTypes, this`backendObjective, this`backendConstraints,
               this`backendPins, this`unpinned, this`pinnedChanged
      ensures Valid() && backendPins == pinned && unpinned == {}
      ensures !parametersDirty && !objectiveDirty && !linearConstraintsDirty && !pinnedChanged
      ensures old(parametersDirty) ==>
        Covers(constraints, backendNumVariables) && backendNumVariables >= |objective.coefficients| &&
        (backendNumVariables == |objective.coefficients| || Reached(constraints, backendNumVariables)) &&
        backendTypes == if parameters.Some? then parameters.value else SolverParameters(Continuous, map[])
      ensures !old(parametersDirty) ==>
        backendNumVariables == old(backendNumVariables) && backendTypes == old(backendTypes)
      ensures backendObjective == if old(objectiveDirty) then Some(objective) else old(backendObjective)
      ensures backendConstraints == if old(linearConstraintsDirty) then constraints else old(backendConstraints)
    {
      UpdateInputs();
      UpdatePinsUnpinsFirst();
    }
  }

  /** Pinning variable 0, handing the pins to the backend, unpinning it
      and pinning it again ends, after the pin step of updateLinearProgram
      as written, with variable 0 pinned in the solver but not in the
      backend; with the unpins applied first it is pinned in both. */
  method RepinScenario() returns (pinnedInSolver: bool, pinnedInBackend: bool, pinnedInBackendUnpinsFirst: bool)
    ensures pinnedInSolver && !pinnedInBackend && pinnedInBackendUnpinsFirst
  {
    var objective := LinearObjective([1.0], true);
    var s := new LinearSolver(objective, [], None);
    s.PinVariable(0, 1.0);
    s.UpdatePinsUnpinsFirst();
    var wasPinned := s.UnpinVariable(0);
    s.PinVariable(0, 1.0);
    assert 0 in s.pinned && 0 in s.unpinned && s.pinnedChanged;
    var t := new LinearSolver(objective, [], None);
    t.pinned, t.unpinned, t.pinnedChanged, t.backendPins := s.pinned, s.unpinned, s.pinnedChanged, s.backendPins;
    s.UpdatePins();
    t.UpdatePinsUnpinsFirst();
    pinnedInSolver := 0 in s.pinned;
    pinnedInBackend := 0 in s.backendPins;
    pinnedInBackendUnpinsFirst := 0 in t.backendPins;
  }
}
