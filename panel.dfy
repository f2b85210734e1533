/**
 * The bSpheres side panel (`VIEW3D_PT_BSpheresPanel.draw`) as a pure function
 * from a snapshot of the active object to the list of controls it renders.
 * Labels, icons, separators and the shortcut hints are presentation only and
 * have no control of their own.
 */
module Panel {
  import opened Wrappers
  import opened Modifiers
  import opened Scene

  /** What the panel reads of the active object (`context.object`). */
  datatype ObjectView = ObjectView(kind: ObjectType, stack: seq<Stage>)

  /** A modifier property a control can be bound to. */
  datatype Prop = UseAxis(index: nat) | Levels | RenderLevels

  /** The `action` of `object.skin_loose_mark_clear`. */
  datatype LooseAction = Mark | Clear

  /** One rendered control. */
  datatype Control =
    | AddBSphere                           // operator mesh.primitive_bsphere_add
    | StageProp(stage: string, prop: Prop) // row.prop(obj.modifiers[stage], prop)
    | SkinLooseMarkClear(action: LooseAction)
    | SkinRootMark
    | ApplyBSphere                         // operator tcg.apply_bsphere_modifiers

  /** `has_bsphere_setup`: a mesh object with a stage named Skin or one named Mirror. */
  predicate HasSetup(obj: Option<ObjectView>) {
    obj.Some? && obj.value.kind == MeshObject
    && (Has(obj.value.stack, SkinName) || Has(obj.value.stack, MirrorName))
  }

  /** Reference rule, control by control: when the panel should show `c`. */
  ghost predicate Shown(obj: Option<ObjectView>, c: Control) {
    match c
    case AddBSphere => true
    case StageProp(stage, prop) =>
      HasSetup(obj) &&
      ((stage == MirrorName && prop.UseAxis? && prop.index < 3 && Has(obj.value.stack, MirrorName)) ||
       (stage == SubdivisionName && prop == Levels && Has(obj.value.stack, SubdivisionName)))
    case SkinLooseMarkClear(action) => HasSetup(obj) && Has(obj.value.stack, SkinName)
    case SkinRootMark => HasSetup(obj) && Has(obj.value.stack, SkinName)
    case ApplyBSphere => HasSetup(obj)
  }

  function MirrorControls(s: seq<Stage>): (r: seq<Control>)
    ensures forall c :: c in r <==>
      Has(s, MirrorName) && c.StageProp? && c.stage == MirrorName && c.prop.UseAxis? && c.prop.index < 3
  {
    if Has(s, MirrorName)
    then [StageProp(MirrorName, UseAxis(0)), StageProp(MirrorName, UseAxis(1)), StageProp(MirrorName, UseAxis(2))]
    else []
  }

  function SubdivisionControls(s: seq<Stage>): (r: seq<Control>)
    ensures forall c :: c in r <==> Has(s, SubdivisionName) && c == StageProp(SubdivisionName, Levels)
  {
    if Has(s, SubdivisionName) then [StageProp(SubdivisionName, Levels)] else []
  }

  function SkinControls(s: seq<Stage>): (r: seq<Control>)
    ensures forall c :: c in r <==> Has(s, SkinName) && (c.SkinLooseMarkClear? || c == SkinRootMark)
  {
    var r := if Has(s, SkinName) then [SkinLooseMarkClear(Mark), SkinLooseMarkClear(Clear), SkinRootMark] else [];
    BothLooseActions(r, Has(s, SkinName));
    r
  }

  lemma BothLooseActions(r: seq<Control>, on: bool)
    requires r == if on then [SkinLooseMarkClear(Mark), SkinLooseMarkClear(Clear), SkinRootMark] else []
    ensures forall c :: c in r <==> on && (c.SkinLooseMarkClear? || c == SkinRootMark)
  {
    forall c: Control | c.SkinLooseMarkClear? ensures c in r <==> on {
      match c.action
      case Mark =>
      case Clear =>
    }
  }

  /**
   * The controls `draw` renders. The create action always comes first;
   * without the setup nothing follows it; with it the Finalize action comes
   * last, and a control appears exactly when the reference rule says so, so in
   * particular the render level of the subdivision stage is never shown.
   * `DrawOrder` states the order of the controls in between.
   */
  function Draw(obj: Option<ObjectView>): (r: seq<Control>)
    ensures forall c :: c in r <==> Shown(obj, c)
    ensures |r| > 0 && r[0] == AddBSphere
    ensures !HasSetup(obj) ==> r == [AddBSphere]
    ensures HasSetup(obj) ==> r[|r| - 1] == ApplyBSphere
    ensures forall c :: c in r && c.StageProp? ==> c.prop != RenderLevels
  {
    if !HasSetup(obj) then [AddBSphere]
    else
      var s := obj.value.stack;
      [AddBSphere] + MirrorControls(s) + SubdivisionControls(s) + SkinControls(s) + [ApplyBSphere]
  }

  /**
   * The position of a control in the panel's layout, top to bottom: create,
   * the Mirror X, Y and Z toggles, the subdivision level, Mark Loose, Clear
   * Loose, Mark Root, Finalize. Controls the panel never renders come after.
   * Which stage a property control is bound to is the business of `Shown`.
   */
  function Rank(c: Control): nat {
    match c
    case AddBSphere => 0
    case StageProp(_, prop) =>
      (match prop
       case UseAxis(k) => if k < 3 then 1 + k else 9
       case Levels => 4
       case RenderLevels => 9)
    case SkinLooseMarkClear(action) => if action == Mark then 5 else 6
    case SkinRootMark => 7
    case ApplyBSphere => 8
  }

  /** Ranks strictly increase along `r`, and all lie in [lo, hi). */
  ghost predicate Ascending(r: seq<Control>, lo: nat, hi: nat) {
    (forall i, j :: 0 <= i < j < |r| ==> Rank(r[i]) < Rank(r[j])) &&
    (forall i :: 0 <= i < |r| ==> lo <= Rank(r[i]) < hi)
  }

  lemma AscendingConcat(a: seq<Control>, b: seq<Control>, lo: nat, mid: nat, hi: nat)
    requires lo <= mid <= hi
    requires Ascending(a, lo, mid) && Ascending(b, mid, hi)
    ensures Ascending(a + b, lo, hi)
  {
    var r := a + b;
    forall i, j | 0 <= i < j < |r| ensures Rank(r[i]) < Rank(r[j]) {
      if j < |a| {
        assert r[i] == a[i] && r[j] == a[j];
      } else if i >= |a| {
        assert r[i] == b[i - |a|] && r[j] == b[j - |a|];
      } else {
        assert r[i] == a[i] && r[j] == b[j - |a|];
      }
    }
    forall i | 0 <= i < |r| ensures lo <= Rank(r[i]) < hi {
      if i >= |a| { assert r[i] == b[i - |a|]; } else { assert r[i] == a[i]; }
    }
  }

  lemma PartsAscending(s: seq<Stage>)
    ensures Ascending([AddBSphere], 0, 1)
    ensures Ascending(MirrorControls(s), 1, 4)
    ensures Ascending(SubdivisionControls(s), 4, 5)
    ensures Ascending(SkinControls(s), 5, 8)
    ensures Ascending([ApplyBSphere], 8, 9)
  {
    LiteralAscending([StageProp(MirrorName, UseAxis(0)), StageProp(MirrorName, UseAxis(1)), StageProp(MirrorName, UseAxis(2))], 1, 4);
    LiteralAscending([SkinLooseMarkClear(Mark), SkinLooseMarkClear(Clear), SkinRootMark], 5, 8);
    if !Has(s, MirrorName) { assert MirrorControls(s) == []; }
    if !Has(s, SkinName) { assert SkinControls(s) == []; }
  }

  /** A three-control list whose ranks are lo, lo + 1, lo + 2 is ascending in [lo, hi). */
  lemma LiteralAscending(r: seq<Control>, lo: nat, hi: nat)
    requires |r| == 3 && hi == lo + 3
    requires Rank(r[0]) == lo && Rank(r[1]) == lo + 1 && Rank(r[2]) == lo + 2
    ensures Ascending(r, lo, hi)
  {
  }

  /**
   * The panel renders its controls in the layout's order, each at most once:
   * create, then the Mirror toggles, the subdivision level, the skin buttons
   * and Finalize.
   */
  lemma {:induction false} DrawOrder(obj: Option<ObjectView>)
    ensures var r := Draw(obj); forall i, j :: 0 <= i < j < |r| ==> Rank(r[i]) < Rank(r[j])
  {
    if HasSetup(obj) {
      var s := obj.value.stack;
      var a, m, d, k, f := [AddBSphere], MirrorControls(s), SubdivisionControls(s), SkinControls(s), [ApplyBSphere];
      PartsAscending(s);
      AscendingConcat(a, m, 0, 1, 4);
      AscendingConcat(a + m, d, 0, 4, 5);
      AscendingConcat(a + m + d, k, 0, 5, 8);
      AscendingConcat(a + m + d + k, f, 0, 8, 9);
      assert Draw(obj) == a + m + d + k + f;
    } else {
      assert Draw(obj) == [AddBSphere];
    }
  }
}
