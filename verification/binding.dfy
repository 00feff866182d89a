/** Binding a transform's shape parameter from the user's `decay_params`, after
    `GravityModel._bind_decay_function_parameters`: missing parameters are an error, supplied
    parameters the transform does not accept are reported as warnings and not bound. */
module Binding {
  import opened Numeric
  import opened Outcome
  import opened Decay

  /** The leading positional argument every transform takes; the engine supplies it. */
  const DistanceArg: string := "distance_array"

  /** The one shape parameter each transform declares after the distance argument. */
  function ParamName(k: Kernel): string
  {
    if k == Gaussian then "sigma" else "scale"
  }

  /** The transform's parameter names in declaration order. */
  function Signature(k: Kernel): seq<string>
  {
    [DistanceArg, ParamName(k)]
  }

  /** `decay_params`: name-value pairs in insertion order. */
  type Params = seq<(string, real)>

  function Names(ps: Params): (r: seq<string>)
    ensures |r| == |ps|
    ensures forall i | 0 <= i < |ps| :: r[i] == ps[i].0
  {
    seq(|ps|, i requires 0 <= i < |ps| => ps[i].0)
  }

  predicate DistinctStrings(s: seq<string>)
  {
    forall i, j | 0 <= i < j < |s| :: s[i] != s[j]
  }

  /** A dict has no repeated keys. */
  predicate DistinctNames(ps: Params)
  {
    DistinctStrings(Names(ps))
  }

  /** The result of a successful binding: the keyword arguments fixed on the transform and the
      names reported by a warning, in the order they were supplied. */
  datatype Bound = Bound(kernel: Kernel, args: map<string, real>, warnings: seq<string>)

  datatype BindError = MissingParameters(names: set<string>)

  /** The declared parameters after the distance argument that `decay_params` lacks. */
  function Missing(k: Kernel, ps: Params): (r: set<string>)
    ensures forall n :: n in r <==> n in Signature(k)[1..] && n !in Names(ps)
  {
    set n | n in Signature(k)[1..] && n !in Names(ps)
  }

  /** The supplied pairs whose name is accepted, as a keyword-argument map. */
  function Retained(ps: Params, accepted: set<string>): (r: map<string, real>)
    ensures forall n :: n in r <==> n in accepted && n in Names(ps)
    ensures DistinctNames(ps) ==>
      forall i | 0 <= i < |ps| && ps[i].0 in accepted :: ps[i].0 in r && r[ps[i].0] == ps[i].1
  {
    if |ps| == 0 then map[]
    else
      var init := ps[..|ps| - 1];
      var last := ps[|ps| - 1];
      assert Names(ps) == Names(init) + [last.0];
      var r := Retained(init, accepted);
      if last.0 in accepted then r[last.0 := last.1] else r
  }

  /** The supplied names that are not accepted, in the order they were supplied. */
  function Rejected(ps: Params, accepted: set<string>): (r: seq<string>)
    ensures forall n :: n in r <==> n !in accepted && n in Names(ps)
    ensures DistinctNames(ps) ==> DistinctStrings(r)
    ensures |r| <= |ps|
  {
    if |ps| == 0 then []
    else
      var init := ps[..|ps| - 1];
      var last := ps[|ps| - 1];
      assert Names(ps) == Names(init) + [last.0];
      var r := Rejected(init, accepted);
      if last.0 in accepted then r else r + [last.0]
  }

  /** The binding procedure with the set of names it is willing to bind as a parameter. */
  function BindWith(k: Kernel, ps: Params, accepted: set<string>): Result<Bound, BindError>
  {
    var missing := Missing(k, ps);
    if missing != {} then Err(MissingParameters(missing))
    else Ok(Bound(k, Retained(ps, accepted), Rejected(ps, accepted)))
  }

  /** The binding as the source performs it: every name in the full signature counts as valid,
      the leading distance argument included. */
  function BindAsWritten(k: Kernel, ps: Params): (r: Result<Bound, BindError>)
    requires DistinctNames(ps)
    ensures r.Err? <==> ParamName(k) !in Names(ps)
    ensures r.Err? ==> r.error.names == {ParamName(k)}
    ensures r.Ok? ==> forall n :: n in r.value.args <==> n in Names(ps) && n in Signature(k)
    ensures r.Ok? ==> forall n :: n in r.value.warnings <==> n in Names(ps) && n !in Signature(k)
    ensures r.Ok? ==> r.value.kernel == k && DistinctStrings(r.value.warnings)
    ensures r.Ok? ==> forall i | 0 <= i < |ps| && ps[i].0 in Signature(k) ::
      ps[i].0 in r.value.args && r.value.args[ps[i].0] == ps[i].1
  {
    BindWith(k, ps, set n | n in Signature(k))
  }

  /** The binding with only the declared shape parameter accepted: a `distance_array` entry is
      warned about and dropped like any other unknown name. */
  function Bind(k: Kernel, ps: Params): (r: Result<Bound, BindError>)
    requires DistinctNames(ps)
    ensures r.Err? <==> ParamName(k) !in Names(ps)
    ensures r.Err? ==> r.error.names == {ParamName(k)}
    ensures r.Ok? ==> r.value.kernel == k && r.value.args.Keys == {ParamName(k)}
    ensures r.Ok? ==> exists i | 0 <= i < |ps| :: ps[i] == (ParamName(k), r.value.args[ParamName(k)])
    ensures r.Ok? ==> forall n :: n in r.value.warnings <==> n in Names(ps) && n != ParamName(k)
    ensures r.Ok? ==> DistinctStrings(r.value.warnings) && |r.value.warnings| == |ps| - 1
  {
    BoundValueSupplied(k, ps);
    BindWith(k, ps, {ParamName(k)})
  }

  lemma BoundValueSupplied(k: Kernel, ps: Params)
    requires DistinctNames(ps)
    ensures var r := BindWith(k, ps, {ParamName(k)});
      r.Ok? ==> ((exists i | 0 <= i < |ps| :: ps[i] == (ParamName(k), r.value.args[ParamName(k)]))
                 && |r.value.warnings| == |ps| - 1)
  {
    var r := BindWith(k, ps, {ParamName(k)});
    if r.Ok? {
      var i :| 0 <= i < |ps| && ps[i].0 == ParamName(k);
      assert r.value.args[ParamName(k)] == ps[i].1;
      WarningsCount(ps, ParamName(k), r.value.warnings);
    }
  }

  /** When exactly one supplied name is accepted, every other supplied name gets its own warning. */
  lemma WarningsCount(ps: Params, name: string, w: seq<string>)
    requires DistinctNames(ps) && name in Names(ps)
    requires DistinctStrings(w)
    requires forall n :: n in w <==> n in Names(ps) && n != name
    ensures |w| == |ps| - 1
  {
    var rest := set n | n in Names(ps) && n != name;
    DistinctCard(w);
    assert (set n | n in w) == rest;
    DistinctCard(Names(ps));
    assert (set n | n in Names(ps)) == rest + {name};
  }

  lemma {:induction false} DistinctCard(s: seq<string>)
    requires DistinctStrings(s)
    ensures |set n | n in s| == |s|
  {
    if |s| > 0 {
      var init := s[..|s| - 1];
      DistinctCard(init);
      assert (set n | n in s) == (set n | n in init) + {s[|s| - 1]};
    }
  }

  /** `functools.partial(f, **args)` called with the distance matrix as its positional argument:
      Python rejects the call when `distance_array` is also bound by keyword. */
  function CallBound(b: Bound, m: Elementary, d: Num): (r: Result<Num, string>)
    requires ParamName(b.kernel) in b.args
    ensures r.Ok? <==> DistanceArg !in b.args
    ensures r.Ok? ==> r.value == Weigh(Transform(b.kernel, b.args[ParamName(b.kernel)]), m, d)
  {
    if DistanceArg in b.args then Err("got multiple values for argument " + DistanceArg)
    else Ok(Weigh(Transform(b.kernel, b.args[ParamName(b.kernel)]), m, d))
  }

  /** Every binding the corrected procedure produces can be called. */
  lemma BoundTransformCallable(k: Kernel, ps: Params, m: Elementary, d: Num)
    requires DistinctNames(ps) && Bind(k, ps).Ok?
    ensures CallBound(Bind(k, ps).value, m, d).Ok?
  {
  }

  lemma {:induction false} RetainedIgnoresAbsent(ps: Params, a: set<string>, extra: string)
    requires extra !in Names(ps)
    ensures Retained(ps, a + {extra}) == Retained(ps, a)
    ensures Rejected(ps, a + {extra}) == Rejected(ps, a)
  {
    if |ps| > 0 {
      var init := ps[..|ps| - 1];
      assert Names(ps) == Names(init) + [ps[|ps| - 1].0];
      RetainedIgnoresAbsent(init, a, extra);
    }
  }

  /** The two procedures differ only when `decay_params` names the distance argument itself. */
  lemma BindersAgreeWithoutDistance(k: Kernel, ps: Params)
    requires DistinctNames(ps) && DistanceArg !in Names(ps)
    ensures Bind(k, ps) == BindAsWritten(k, ps)
  {
    assert (set n | n in Signature(k)) == {ParamName(k)} + {DistanceArg};
    RetainedIgnoresAbsent(ps, {ParamName(k)}, DistanceArg);
  }

  /** A `distance_array` entry in `decay_params` is bound as a keyword argument with no warning,
      so every later call of the bound transform fails; the corrected binding warns instead. */
  lemma LeadingArgumentBoundAsWritten(m: Elementary)
    ensures BindAsWritten(Uniform, [(DistanceArg, 1.0), ("scale", 2.0)])
         == Ok(Bound(Uniform, map[DistanceArg := 1.0, "scale" := 2.0], []))
    ensures CallBound(Bound(Uniform, map[DistanceArg := 1.0, "scale" := 2.0], []), m, Fin(0.0)).Err?
    ensures Bind(Uniform, [(DistanceArg, 1.0), ("scale", 2.0)])
         == Ok(Bound(Uniform, map["scale" := 2.0], [DistanceArg]))
  {
    var ps: Params := [(DistanceArg, 1.0), ("scale", 2.0)];
    assert ps[..1] == [(DistanceArg, 1.0)];
    assert |ps[..1][..0]| == 0;
    assert Names(ps) == [DistanceArg, "scale"];
    assert Names(ps[..1]) == [DistanceArg];
    var sig := set n | n in Signature(Uniform);
    assert DistanceArg in sig && "scale" in sig;
    assert Rejected(ps[..1], sig) == [];
    var b := BindAsWritten(Uniform, ps);
    assert b.value.args == map[DistanceArg := 1.0, "scale" := 2.0];
    assert b.value.warnings == [];
    var c := Bind(Uniform, ps);
    assert c.value.args == map["scale" := 2.0];
    assert c.value.warnings == [DistanceArg];
  }

  /** A Gaussian given `sigma` and an unknown `extra_param` binds sigma and warns about the
      extra name; without sigma it fails naming sigma. */
  lemma ExtraAndMissingParameters()
    ensures Bind(Gaussian, [("sigma", 1.0), ("extra_param", 1.0)])
         == Ok(Bound(Gaussian, map["sigma" := 1.0], ["extra_param"]))
    ensures Bind(Gaussian, []) == Err(MissingParameters({"sigma"}))
  {
    var ps: Params := [("sigma", 1.0), ("extra_param", 1.0)];
    assert ps[..1] == [("sigma", 1.0)];
    assert |ps[..1][..0]| == 0;
    assert Names(ps) == ["sigma", "extra_param"];
    assert Names(ps[..1]) == ["sigma"];
    var c := Bind(Gaussian, ps);
    assert c.value.args == map["sigma" := 1.0];
    assert c.value.warnings == ["extra_param"];
  }
}
