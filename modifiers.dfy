/**
 * The modifier stack of a Blender object: an ordered sequence of named stages.
 * The add-on finds stages by name (`obj.modifiers.get(name)`), never by position,
 * and Blender keeps the names of one object's modifiers distinct.
 */
module Modifiers {
  import opened Wrappers

  /** Three per-axis flags, in the order X, Y, Z. */
  datatype Axes = Axes(x: bool, y: bool, z: bool)

  /** The type of a stage together with the parameters the add-on sets on it. */
  datatype Settings =
    | MirrorSettings(useAxis: Axes)                  // type 'MIRROR', `use_axis`
    | SkinSettings(symmetry: Axes)                   // type 'SKIN', `use_{x,y,z}_symmetry`
    | SubsurfSettings(levels: int, renderLevels: int) // type 'SUBSURF'
    | OtherSettings(typeName: string)                // any type the add-on does not configure

  /** One modifier: its name in the stack and its settings. */
  datatype Stage = Stage(name: string, settings: Settings)

  const MirrorName: string := "Mirror"
  const SkinName: string := "Skin"
  const SubdivisionName: string := "Subdivision"

  /** No two stages of the stack share a name. */
  ghost predicate UniqueNames(s: seq<Stage>) {
    forall i, j :: 0 <= i < j < |s| ==> s[i].name != s[j].name
  }

  /** `modifiers.get(name)`: the first stage with that name, if any. */
  function Get(s: seq<Stage>, name: string): (r: Option<Stage>)
    ensures r.Some? ==> r.value in s && r.value.name == name
    ensures r.None? <==> forall x :: x in s ==> x.name != name
  {
    if s == [] then None
    else if s[0].name == name then Some(s[0])
    else Get(s[1..], name)
  }

  /** A stage with that name is in the stack (`if obj.modifiers.get(name):`). */
  predicate Has(s: seq<Stage>, name: string) {
    Get(s, name).Some?
  }

  /** The stack once the stage that `Get` finds is taken out of it. */
  function Remove(s: seq<Stage>, name: string): (r: seq<Stage>)
    ensures !Has(s, name) ==> r == s
    ensures Has(s, name) ==> |r| == |s| - 1
    ensures forall x :: x in r ==> x in s
  {
    if s == [] then []
    else if s[0].name == name then s[1..]
    else [s[0]] + Remove(s[1..], name)
  }

  /** The stack with every stage whose name is in `drop` filtered out, order kept. */
  function Without(s: seq<Stage>, drop: set<string>): (r: seq<Stage>)
    ensures forall x :: x in r <==> x in s && x.name !in drop
    ensures |r| <= |s|
  {
    if s == [] then []
    else if s[0].name in drop then Without(s[1..], drop)
    else [s[0]] + Without(s[1..], drop)
  }

  /** The position of the first stage with that name. */
  function IndexOf(s: seq<Stage>, name: string): (k: nat)
    requires Has(s, name)
    ensures k < |s| && s[k].name == name
    ensures forall j :: 0 <= j < k ==> s[j].name != name
  {
    if s[0].name == name then 0 else 1 + IndexOf(s[1..], name)
  }

  /**
   * The stage taken out is the first one with that name; the stages before
   * and after it stay, in their order.
   */
  lemma {:induction false} RemoveFirstMatch(s: seq<Stage>, name: string)
    requires Has(s, name)
    ensures Remove(s, name) == s[..IndexOf(s, name)] + s[IndexOf(s, name) + 1..]
  {
    if s[0].name == name {
      assert s[..0] + s[1..] == s[1..];
    } else {
      RemoveFirstMatch(s[1..], name);
      var k := IndexOf(s[1..], name);
      assert IndexOf(s, name) == k + 1;
      ConsSplit(s, k);
    }
  }

  lemma ConsSplit<T>(s: seq<T>, k: nat)
    requires k + 1 < |s|
    ensures [s[0]] + (s[1..][..k] + s[1..][k + 1..]) == s[..k + 1] + s[k + 2..]
  {
    assert s[..k + 1] == [s[0]] + s[1..][..k];
    assert s[k + 2..] == s[1..][k + 1..];
  }

  /**
   * Filtering distributes over concatenation: together with the single-stage
   * case it says the filtered stack keeps its stages in their original order.
   */
  lemma {:induction false} WithoutConcat(a: seq<Stage>, b: seq<Stage>, drop: set<string>)
    ensures Without(a + b, drop) == Without(a, drop) + Without(b, drop)
    ensures Without([], drop) == []
    ensures forall x :: Without([x], drop) == if x.name in drop then [] else [x]
  {
    if a != [] {
      assert (a + b)[1..] == a[1..] + b;
      WithoutConcat(a[1..], b, drop);
    } else {
      assert a + b == b;
    }
    forall x ensures Without([x], drop) == if x.name in drop then [] else [x] {
      assert [x][1..] == [];
    }
  }

  lemma {:induction false} UniqueTail(s: seq<Stage>)
    requires UniqueNames(s) && s != []
    ensures UniqueNames(s[1..])
    ensures forall x :: x in s[1..] ==> x.name != s[0].name
  {
    forall x | x in s[1..] ensures x.name != s[0].name {
      var k :| 0 <= k < |s[1..]| && s[1..][k] == x;
      assert s[k + 1] == x;
    }
  }

  /** Filtering keeps names distinct. */
  lemma {:induction false} WithoutKeepsUnique(s: seq<Stage>, drop: set<string>)
    requires UniqueNames(s)
    ensures UniqueNames(Without(s, drop))
  {
    if s != [] {
      UniqueTail(s);
      WithoutKeepsUnique(s[1..], drop);
      if s[0].name !in drop {
        var r := Without(s[1..], drop);
        var t := [s[0]] + r;
        assert Without(s, drop) == t;
        forall i, j | 0 <= i < j < |t| ensures t[i].name != t[j].name {
          assert t[j] == r[j - 1] && t[j] in r;
          if i > 0 {
            assert t[i] == r[i - 1];
          }
        }
      }
    }
  }

  /** Filtering out names the stack does not use changes nothing. */
  lemma {:induction false} WithoutAbsent(s: seq<Stage>, drop: set<string>)
    requires forall x :: x in s ==> x.name !in drop
    ensures Without(s, drop) == s
  {
    if s != [] {
      assert forall x :: x in s[1..] ==> x in s;
      WithoutAbsent(s[1..], drop);
    }
  }

  /** With distinct names, removing the stage `Get` finds removes every stage of that name. */
  lemma {:induction false} RemoveIsWithout(s: seq<Stage>, name: string)
    requires UniqueNames(s)
    ensures Remove(s, name) == Without(s, {name})
  {
    if s != [] {
      UniqueTail(s);
      if s[0].name == name {
        WithoutAbsent(s[1..], {name});
      } else {
        RemoveIsWithout(s[1..], name);
      }
    }
  }

  /** Two filters in a row filter by the union. */
  lemma {:induction false} WithoutTwice(s: seq<Stage>, a: set<string>, b: set<string>)
    ensures Without(Without(s, a), b) == Without(s, a + b)
  {
    if s != [] {
      WithoutTwice(s[1..], a, b);
      if s[0].name !in a {
        assert ([s[0]] + Without(s[1..], a))[1..] == Without(s[1..], a);
      }
    }
  }

  /** Looking up a name that is not filtered out finds the same stage as before. */
  lemma {:induction false} GetWithout(s: seq<Stage>, drop: set<string>, name: string)
    requires name !in drop
    ensures Get(Without(s, drop), name) == Get(s, name)
  {
    if s != [] {
      GetWithout(s[1..], drop, name);
      if s[0].name !in drop {
        assert ([s[0]] + Without(s[1..], drop))[1..] == Without(s[1..], drop);
      }
    }
  }

  /** A filtered name is gone; every other name is present exactly when it was before. */
  lemma HasWithout(s: seq<Stage>, drop: set<string>, name: string)
    ensures Has(Without(s, drop), name) <==> Has(s, name) && name !in drop
  {
    if name !in drop {
      GetWithout(s, drop, name);
    }
  }
}
