/**
 * What the finalize operator (`OBJECT_OT_ApplyBSphereModifiers.execute`) does to
 * the stack, the geometry and the reports, as functions: `BakeAll` follows the
 * bake loop name by name; `Without`, `AppliedStages` and `FailWarnings` say the
 * same outcome directly, and the
 * lemmas `BakeAllStack`, `BakeAllGeometry` and `BakeAllReports` prove the two agree.
 */
module Finalizer {
  import opened Wrappers
  import opened Modifiers
  import opened Scene

  /** `modifiers_to_apply`: the stages baked, by name and in this order. */
  const Targets: seq<string> := [MirrorName, SkinName, SubdivisionName]

  /** The operator's `voxel_size` property: bounded to [0.001, 1.0], default 0.05. */
  type VoxelSize = v: real | 0.001 <= v <= 1.0 witness 0.05

  /** The value `voxel_size` has when the artist does not change it before finalizing. */
  const DefaultVoxelSize: VoxelSize := 0.05

  const CouldNotApplyPrefix: string := "Could not apply modifier: "

  /** The warning reported when baking the stage `name` raises. */
  function CouldNotApply(name: string): Report {
    Report(Warning, CouldNotApplyPrefix + name)
  }

  /** The report that ends the operator: success of the remesh, or its error text. */
  function RemeshReport(failure: Option<string>): (r: Report)
    ensures r.level == (if failure.None? then Info else Error)
  {
    match failure
    case None => Report(Info, "bSphere mesh applied and remeshed.")
    case Some(e) => Report(Error, "Remesh failed: " + e)
  }

  /** The state the bake loop threads: stack, mesh geometry, reports so far. */
  datatype BakeState = BakeState(stack: seq<Stage>, geometry: Geometry, reports: seq<Report>)

  /** One turn of the bake loop for `name`; `failures` names the stages whose bake raises. */
  function BakeStep(st: BakeState, name: string, failures: set<string>): BakeState {
    match Get(st.stack, name)
    case None => st
    case Some(m) =>
      if m.name in failures then st.(reports := st.reports + [CouldNotApply(m.name)])
      else BakeState(Remove(st.stack, m.name), Baked(st.geometry, m), st.reports)
  }

  /** The bake loop run over `names`, in order. */
  function BakeAll(st: BakeState, names: seq<string>, failures: set<string>): BakeState
    decreases |names|
  {
    if names == [] then st
    else BakeStep(BakeAll(st, names[..|names| - 1], failures), names[|names| - 1], failures)
  }

  ghost predicate Distinct(names: seq<string>) {
    forall i, j :: 0 <= i < j < |names| ==> names[i] != names[j]
  }

  /** The names whose bake is attempted and does not raise (present or not). */
  function BakedNames(names: seq<string>, failures: set<string>): set<string> {
    set n | n in names && n !in failures
  }

  /** One warning per name, in order, whose stage is present and whose bake raises. */
  function FailWarnings(s: seq<Stage>, names: seq<string>, failures: set<string>): (w: seq<Report>)
    ensures |w| <= |names|
    ensures forall r :: r in w ==> r.level == Warning
    decreases |names|
  {
    if names == [] then []
    else
      var last := names[|names| - 1];
      FailWarnings(s, names[..|names| - 1], failures)
      + (if Has(s, last) && last in failures then [CouldNotApply(last)] else [])
  }

  /** The stages, in the order of `names`, that are present and baked without raising. */
  function AppliedStages(s: seq<Stage>, names: seq<string>, failures: set<string>): (a: seq<Stage>)
    ensures |a| <= |names|
    ensures forall m :: m in a ==> m in s && m.name in names && m.name !in failures
    decreases |names|
  {
    if names == [] then []
    else
      var last := names[|names| - 1];
      AppliedStages(s, names[..|names| - 1], failures)
      + (match Get(s, last)
         case Some(m) => if last in failures then [] else [m]
         case None => [])
  }

  /** The geometry after baking the stages `ss` into `g` one after another. */
  function ApplyStages(g: Geometry, ss: seq<Stage>): Geometry
    decreases |ss|
  {
    if ss == [] then g else Baked(ApplyStages(g, ss[..|ss| - 1]), ss[|ss| - 1])
  }

  /** Facts about the prefix and last name of a non-empty name list. */
  lemma SplitLast(names: seq<string>, failures: set<string>)
    requires names != [] && Distinct(names)
    ensures var p, l := names[..|names| - 1], names[|names| - 1];
      Distinct(p) && l !in BakedNames(p, failures) &&
      BakedNames(names, failures) == if l in failures then BakedNames(p, failures) else BakedNames(p, failures) + {l}
  {
    var p, l := names[..|names| - 1], names[|names| - 1];
    assert names == p + [l];
  }

  /**
   * The bake loop over distinct names leaves the stack with exactly the stages
   * whose name was attempted and did not fail filtered out; all the others,
   * failed ones included, stay, in their order.
   */
  lemma {:induction false} BakeAllStack(st: BakeState, names: seq<string>, failures: set<string>)
    requires UniqueNames(st.stack) && Distinct(names)
    ensures BakeAll(st, names, failures).stack == Without(st.stack, BakedNames(names, failures))
  {
    if names != [] {
      var p, l := names[..|names| - 1], names[|names| - 1];
      SplitLast(names, failures);
      BakeAllStack(st, p, failures);
      var mid := BakeAll(st, p, failures);
      var bp := BakedNames(p, failures);
      assert BakeAll(st, names, failures) == BakeStep(mid, l, failures);
      GetWithout(st.stack, bp, l);
      assert Get(mid.stack, l) == Get(st.stack, l);
      WithoutKeepsUnique(st.stack, bp);
      WithoutTwice(st.stack, bp, {l});
      var after := BakeStep(mid, l, failures).stack;
      if l !in failures {
        if Get(mid.stack, l).None? {
          WithoutAbsent(mid.stack, {l});
          assert after == mid.stack;
        } else {
          RemoveIsWithout(mid.stack, l);
          assert after == Remove(mid.stack, l);
        }
        assert after == Without(mid.stack, {l});
      }
    } else {
      assert BakedNames(names, failures) == {};
      WithoutAbsent(st.stack, {});
    }
  }

  /** The bake loop bakes the applied stages into the geometry, in the order of `names`. */
  lemma {:induction false} BakeAllGeometry(st: BakeState, names: seq<string>, failures: set<string>)
    requires UniqueNames(st.stack) && Distinct(names)
    ensures BakeAll(st, names, failures).geometry == ApplyStages(st.geometry, AppliedStages(st.stack, names, failures))
  {
    if names != [] {
      var p, l := names[..|names| - 1], names[|names| - 1];
      SplitLast(names, failures);
      BakeAllGeometry(st, p, failures);
      BakeAllStack(st, p, failures);
      var mid := BakeAll(st, p, failures);
      assert BakeAll(st, names, failures) == BakeStep(mid, l, failures);
      GetWithout(st.stack, BakedNames(p, failures), l);
      assert Get(mid.stack, l) == Get(st.stack, l);
      var ap := AppliedStages(st.stack, p, failures);
      if Get(st.stack, l).Some? && l !in failures {
        var m := Get(st.stack, l).value;
        assert AppliedStages(st.stack, names, failures) == ap + [m];
        assert (ap + [m])[..|ap|] == ap;
      } else {
        assert AppliedStages(st.stack, names, failures) == ap;
      }
    }
  }

  /** The bake loop appends one warning per attempted name that is present and fails. */
  lemma {:induction false} BakeAllReports(st: BakeState, names: seq<string>, failures: set<string>)
    requires UniqueNames(st.stack) && Distinct(names)
    ensures BakeAll(st, names, failures).reports == st.reports + FailWarnings(st.stack, names, failures)
  {
    if names != [] {
      var p, l := names[..|names| - 1], names[|names| - 1];
      SplitLast(names, failures);
      BakeAllReports(st, p, failures);
      BakeAllStack(st, p, failures);
      var mid := BakeAll(st, p, failures);
      assert BakeAll(st, names, failures) == BakeStep(mid, l, failures);
      GetWithout(st.stack, BakedNames(p, failures), l);
      assert Get(mid.stack, l) == Get(st.stack, l);
    }
  }

  /** No failure among `names`, no warning. */
  lemma {:induction false} NoFailureNoWarning(s: seq<Stage>, names: seq<string>, failures: set<string>)
    requires forall n :: n in names ==> n !in failures
    ensures FailWarnings(s, names, failures) == []
  {
    if names != [] {
      var p := names[..|names| - 1];
      assert forall n :: n in p ==> n in names;
      NoFailureNoWarning(s, p, failures);
    }
  }

  lemma MessageInjective(a: string, b: string)
    requires CouldNotApply(a) == CouldNotApply(b)
    ensures a == b
  {
    assert a == (CouldNotApplyPrefix + a)[|CouldNotApplyPrefix|..];
    assert b == (CouldNotApplyPrefix + b)[|CouldNotApplyPrefix|..];
  }

  /**
   * Over distinct names, the warning naming `n` is reported exactly once when
   * `n` is attempted, present and fails, and never otherwise.
   */
  lemma {:induction false} WarningOncePerFailure(s: seq<Stage>, names: seq<string>, failures: set<string>, n: string)
    requires Distinct(names)
    ensures multiset(FailWarnings(s, names, failures))[CouldNotApply(n)] ==
            if n in names && Has(s, n) && n in failures then 1 else 0
  {
    if names != [] {
      var k := |names| - 1;
      var p, l := names[..k], names[k];
      assert Distinct(p);
      WarningOncePerFailure(s, p, failures, n);
      assert names == p + [l];
      if l == n {
        assert n !in p;
      } else if Has(s, l) && l in failures {
        if CouldNotApply(l) == CouldNotApply(n) {
          MessageInjective(l, n);
        }
      }
    }
  }

  /** The bake loop over the three target names, stated by the reference functions. */
  lemma TargetsOutcome(st: BakeState, failures: set<string>)
    requires UniqueNames(st.stack)
    ensures BakeAll(st, Targets, failures) ==
      BakeState(Without(st.stack, BakedNames(Targets, failures)),
                ApplyStages(st.geometry, AppliedStages(st.stack, Targets, failures)),
                st.reports + FailWarnings(st.stack, Targets, failures))
  {
    assert Distinct(Targets);
    BakeAllStack(st, Targets, failures);
    BakeAllGeometry(st, Targets, failures);
    BakeAllReports(st, Targets, failures);
  }

  /**
   * After the bake loop over the three target names: a target stage is left
   * exactly when it was there and its bake failed; every stage not named by a
   * target is left exactly as it was.
   */
  lemma FinalStackByName(s: seq<Stage>, failures: set<string>, n: string)
    ensures var after := Without(s, BakedNames(Targets, failures));
      (n in Targets ==> (Has(after, n) <==> Has(s, n) && n in failures)) &&
      (n !in Targets ==> Get(after, n) == Get(s, n))
  {
    var d := BakedNames(Targets, failures);
    HasWithout(s, d, n);
    if n !in Targets {
      GetWithout(s, d, n);
    }
  }

  /**
   * When no bake fails, no Mirror, Skin or Subdivision stage is left and no
   * warning is reported.
   */
  lemma AllBakesSucceed(s: seq<Stage>, failures: set<string>)
    requires forall n :: n in Targets ==> n !in failures
    ensures forall n :: n in Targets ==> !Has(Without(s, BakedNames(Targets, failures)), n)
    ensures FailWarnings(s, Targets, failures) == []
  {
    forall n | n in Targets ensures !Has(Without(s, BakedNames(Targets, failures)), n) {
      FinalStackByName(s, failures, n);
    }
    NoFailureNoWarning(s, Targets, failures);
  }
}
